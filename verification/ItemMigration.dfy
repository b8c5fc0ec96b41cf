/** Migrating items and rechecking only what they affect gives the same table as compiling it anew. */
module ItemMigration {
  import opened Universes
  import opened Transactions
  import opened Changes
  import opened Affected
  import opened Migration
  import opened Nuninsts

  // ---------------------------------------------------------------------------------------------
  // A batch of items
  // ---------------------------------------------------------------------------------------------

  const SOURCE := "source"

  /** An item of one architecture leaves the others alone. */
  predicate Local(c: Change) {
    c.architecture != SOURCE ==> forall p :: p in c.updates + c.rms ==> p.architecture == c.architecture
  }

  /** `states` are those the suite goes through when the items are applied one after the other. */
  ghost predicate Plan(u: Universe, data: Packages, states: seq<SuiteState>, items: seq<Change>) {
    && |states| == |items| + 1
    && (forall i {:trigger PlanAt(u, data, states, items, i)} :: 0 <= i < |items| ==> PlanAt(u, data, states, items, i))
  }

  ghost predicate PlanAt(u: Universe, data: Packages, states: seq<SuiteState>, items: seq<Change>, i: nat)
    requires i < |items| && i + 1 < |states|
  {
    && Applicable(states[i], items[i]) && Local(items[i])
    && (forall p :: p in items[i].updates ==> u.Knows(p))
    && states[i + 1] == After(data, states[i], items[i])
  }

  /** Exactly the packages that the items of a batch affect, each in the state it was applied to. */
  ghost predicate AffectedBy(u: Universe, enclosing: seq<LogEntry>, states: seq<SuiteState>, items: seq<Change>, a: set<PackageId>)
    requires |states| == |items| + 1
  {
    forall x :: x in a <==>
      exists i :: 0 <= i < |items| && InTree(u, DirectlyAffected(u, states[i].binaries, enclosing, items[i]), x)
  }

  lemma AffectedMore(u: Universe, enclosing: seq<LogEntry>, states: seq<SuiteState>, items: seq<Change>, a: set<PackageId>,
                     s: SuiteState, c: Change, more: set<PackageId>)
    requires |states| == |items| + 1 && AffectedBy(u, enclosing, states, items, a)
    requires IsReverseTree(u, DirectlyAffected(u, states[|items|].binaries, enclosing, c), more)
    ensures AffectedBy(u, enclosing, states + [s], items + [c], a + more)
  {
    var n := |items|;
    var states', items' := states + [s], items + [c];
    TreeMembers(u, DirectlyAffected(u, states[n].binaries, enclosing, c), more);
    forall x | x in a
      ensures exists i :: 0 <= i <= n && InTree(u, DirectlyAffected(u, states'[i].binaries, enclosing, items'[i]), x)
    {
      var i :| 0 <= i < n && InTree(u, DirectlyAffected(u, states[i].binaries, enclosing, items[i]), x);
      assert states'[i] == states[i] && items'[i] == items[i];
    }
    forall x | x in more
      ensures exists i :: 0 <= i <= n && InTree(u, DirectlyAffected(u, states'[i].binaries, enclosing, items'[i]), x)
    {
      assert states'[n] == states[n] && items'[n] == c;
    }
    forall x, i | 0 <= i <= n && InTree(u, DirectlyAffected(u, states'[i].binaries, enclosing, items'[i]), x)
      ensures x in a + more
    {
      if i < n {
        assert states'[i] == states[i] && items'[i] == items[i];
      }
    }
  }

  lemma {:induction false} SoundAt(u: Universe, data: Packages, states: seq<SuiteState>, items: seq<Change>, i: nat)
    requires Plan(u, data, states, items) && Sound(u, data, states[0]) && i <= |items|
    ensures Sound(u, data, states[i])
  {
    if i > 0 {
      SoundAt(u, data, states, items, i - 1);
      assert PlanAt(u, data, states, items, i - 1);
      StaysSound(u, data, states[i - 1], items[i - 1]);
    }
  }

  /** Where an item adds a binary that replaces no equivalent and a later item of the batch replaces it
      by one. */
  ghost function ReplacedKeys(u: Universe, items: seq<Change>): set<BinaryKey> {
    set i, p | 0 <= i < |items| && p in Fresh(u, items[i]) && LaterReplaced(u, items, i + 1, p) :: KeyOf(p)
  }

  ghost predicate LaterReplaced(u: Universe, items: seq<Change>, i: nat, p: PackageId) {
    exists j :: i <= j < |items| && p in items[j].rms && KeyOf(p) in EqvKeys(u, items[j].updates, items[j].rms)
  }

  /** `a` covers what each of the items affects. */
  ghost predicate AffectingAll(u: Universe, states: seq<SuiteState>, items: seq<Change>, a: set<PackageId>)
    requires |states| == |items| + 1
  {
    forall i {:trigger AffectingAt(u, states, items, a, i)} :: 0 <= i < |items| ==> AffectingAt(u, states, items, a, i)
  }

  ghost predicate AffectingAt(u: Universe, states: seq<SuiteState>, items: seq<Change>, a: set<PackageId>, i: nat)
    requires i < |items| && i < |states|
  {
    Affecting(u, states[i].binaries, items[i], a)
  }

  /** An unaffected binary of the final suite goes back, through equal or equivalent binaries of the
      same key and the same installability, to the initial suite. */
  lemma {:induction false} KeptBack(u: Universe, data: Packages, states: seq<SuiteState>, items: seq<Change>,
                                    a: set<PackageId>, k: BinaryKey, i: nat)
    requires Plan(u, data, states, items) && Sound(u, data, states[0]) && AffectingAll(u, states, items, a)
    requires i <= |items| && WellFormed(u) && u.essential == {} && k !in ReplacedKeys(u, items)
    requires k in states[|items|].binaries && states[|items|].binaries[k] !in a
    ensures k in states[i].binaries
    ensures u.AreEquivalent(states[i].binaries[k], states[|items|].binaries[k])
    ensures Bad(u, states[i].binaries, k) <==> Bad(u, states[|items|].binaries, k)
    ensures states[i].binaries[k] != states[|items|].binaries[k] ==> LaterReplaced(u, items, i, states[i].binaries[k])
    decreases |items| - i
  {
    var q := states[|items|].binaries[k];
    if i == |items| {
      SoundAt(u, data, states, items, i);
      assert q in states[i].contents && u.AreEquivalent(q, q);
    } else {
      KeptBack(u, data, states, items, a, k, i + 1);
      assert PlanAt(u, data, states, items, i) && AffectingAt(u, states, items, a, i);
      OneBack(u, states[i].binaries, items, i, a, k, q);
    }
  }

  lemma OneBack(u: Universe, binaries: Binaries, items: seq<Change>, i: nat, a: set<PackageId>, k: BinaryKey, q: PackageId)
    requires i < |items| && Affecting(u, binaries, items[i], a) && k !in ReplacedKeys(u, items) && q !in a
    requires u.essential == {}
    requires var after := BinariesAfter(binaries, items[i]);
      && k in after && u.AreEquivalent(after[k], q)
      && (after[k] != q ==> LaterReplaced(u, items, i + 1, after[k]))
    ensures k in binaries && u.AreEquivalent(binaries[k], q)
    ensures Bad(u, binaries, k) <==> Bad(u, BinariesAfter(binaries, items[i]), k)
    ensures binaries[k] != q ==> LaterReplaced(u, items, i, binaries[k])
  {
    var after := BinariesAfter(binaries, items[i]);
    assert Spared(u, a, after[k]);
    UnaffectedAgree(u, binaries, items[i], a, k);
    EquivalentTransitive(u, binaries[k], after[k], q);
    if binaries[k] != after[k] {
      Predecessor(u, binaries, items[i], a, k);
      BinariesRecorded(binaries, items[i]);
      var p :| p in items[i].updates && KeyOf(p) == k;
      EqvPartner(u, binaries, items[i], p);
    }
  }

  // ---------------------------------------------------------------------------------------------
  // The tables
  // ---------------------------------------------------------------------------------------------

  /** No uninstallable binary that escaped the recheck stands for one of another arch:all status, where
      that status matters. */
  ghost predicate StatusKept(u: Universe, data: Packages, nobreakall: set<string>, before: Binaries, binaries: Binaries,
                             a: set<PackageId>, arch: string) {
    arch !in nobreakall ==> forall k: BinaryKey ::
      k.architecture == arch && Bad(u, binaries, k) && binaries[k] !in a && k in before ==>
        (IsArchAll(data, before[k]) <==> IsArchAll(data, binaries[k]))
  }

  /** The status of a binary that escaped the recheck is that of the name in the suite before. */
  ghost predicate BadKeptAt(u: Universe, before: Binaries, binaries: Binaries, a: set<PackageId>, k: BinaryKey) {
    k in binaries && binaries[k] !in a ==> (Bad(u, before, k) <==> Bad(u, binaries, k))
  }

  /** Where an addition of the batch was replaced by an equivalent, the last equivalent is as installable
      as the first binary under that key. */
  ghost predicate ReplacedKept(u: Universe, items: seq<Change>, before: Binaries, binaries: Binaries, a: set<PackageId>,
                               arch: string) {
    forall k :: k in ReplacedKeys(u, items) && k.architecture == arch ==> BadKeptAt(u, before, binaries, a, k)
  }

  ghost predicate BadKept(u: Universe, before: Binaries, binaries: Binaries, a: set<PackageId>, arch: string) {
    forall name :: BadKeptAt(u, before, binaries, a, BinaryKey(name, arch))
  }

  /** The names of `n` after those gone were dropped and the affected ones tested again. */
  ghost predicate Updated(test: PackageId -> bool, data: Packages, nobreakall: set<string>, binaries: Binaries,
                    a: set<PackageId>, n0: Nuninst, n: Nuninst, arch: string)
    requires Nuninsts.Covers(n0, {arch}) && Nuninsts.Covers(n, {arch})
  {
    && (forall name :: name in n.withAll[arch] <==>
         BrokenAfter(test, binaries, a, Present(binaries, n0.withAll[arch], arch), BinaryKey(name, arch)))
    && (forall name :: name in n.archs[arch] <==>
         CountedAfter(test, data, arch in nobreakall, binaries, a, Present(binaries, n0.archs[arch], arch), BinaryKey(name, arch)))
  }

  function Present(binaries: Binaries, names: set<string>, arch: string): set<string> {
    set name | name in names && BinaryKey(name, arch) in binaries
  }

  /** The table of a rechecked architecture is right exactly when no unchecked binary differs in status
      from its predecessor. */
  lemma UpdatedAllAgrees(u: Universe, data: Packages, test: PackageId -> bool, nobreakall: set<string>,
                         before: Binaries, binaries: Binaries, a: set<PackageId>, n0: Nuninst, n: Nuninst, arch: string)
    requires Right(u, binaries.Values, test) && Nuninsts.Covers(n0, {arch}) && Nuninsts.Covers(n, {arch})
    requires Updated(test, data, nobreakall, binaries, a, n0, n, arch)
    requires AllAgreeOn(u, before, n0, arch)
    ensures AllAgreeOn(u, binaries, n, arch) <==> BadKept(u, before, binaries, a, arch)
  {
    forall name
      ensures BadKeptAt(u, before, binaries, a, BinaryKey(name, arch)) <==>
              (name in n.withAll[arch] <==> Bad(u, binaries, BinaryKey(name, arch)))
    {
      UpdatedAt(u, data, test, nobreakall, before, binaries, a, n0, n, arch, name);
    }
  }

  lemma UpdatedAgrees(u: Universe, data: Packages, test: PackageId -> bool, nobreakall: set<string>,
                      before: Binaries, binaries: Binaries, a: set<PackageId>, n0: Nuninst, n: Nuninst, arch: string)
    requires Right(u, binaries.Values, test) && Nuninsts.Covers(n0, {arch}) && Nuninsts.Covers(n, {arch})
    requires Updated(test, data, nobreakall, binaries, a, n0, n, arch)
    requires AllAgreeOn(u, before, n0, arch) && CountAgreesOn(u, data, nobreakall, before, n0, arch)
    requires BadKept(u, before, binaries, a, arch)
    ensures CountAgreesOn(u, data, nobreakall, binaries, n, arch) <==> StatusKept(u, data, nobreakall, before, binaries, a, arch)
  {
    forall name
      ensures CountRight(u, data, nobreakall, binaries, n, arch, name) <==>
        StatusKeptAt(u, data, nobreakall, before, binaries, a, BinaryKey(name, arch))
    {
      UpdatedAt(u, data, test, nobreakall, before, binaries, a, n0, n, arch, name);
    }
    StatusKeptEverywhere(u, data, nobreakall, before, binaries, a, arch);
  }

  ghost predicate CountRight(u: Universe, data: Packages, nobreakall: set<string>, binaries: Binaries, n: Nuninst,
                             arch: string, name: string)
    requires arch in n.archs
  {
    name in n.archs[arch] <==>
      Bad(u, binaries, BinaryKey(name, arch)) && Counted(data, nobreakall, binaries, BinaryKey(name, arch))
  }

  ghost predicate StatusKeptAt(u: Universe, data: Packages, nobreakall: set<string>, before: Binaries, binaries: Binaries,
                               a: set<PackageId>, k: BinaryKey) {
    k.architecture !in nobreakall && Bad(u, binaries, k) && binaries[k] !in a && k in before ==>
      (IsArchAll(data, before[k]) <==> IsArchAll(data, binaries[k]))
  }

  lemma StatusKeptEverywhere(u: Universe, data: Packages, nobreakall: set<string>, before: Binaries, binaries: Binaries,
                             a: set<PackageId>, arch: string)
    ensures StatusKept(u, data, nobreakall, before, binaries, a, arch) <==>
      forall name :: StatusKeptAt(u, data, nobreakall, before, binaries, a, BinaryKey(name, arch))
  {
    if forall name :: StatusKeptAt(u, data, nobreakall, before, binaries, a, BinaryKey(name, arch)) {
      forall k: BinaryKey | k.architecture == arch
        ensures StatusKeptAt(u, data, nobreakall, before, binaries, a, k)
      {
        assert k == BinaryKey(k.name, arch);
      }
    }
  }

  lemma UpdatedAt(u: Universe, data: Packages, test: PackageId -> bool, nobreakall: set<string>,
                  before: Binaries, binaries: Binaries, a: set<PackageId>, n0: Nuninst, n: Nuninst, arch: string, name: string)
    requires Right(u, binaries.Values, test) && Nuninsts.Covers(n0, {arch}) && Nuninsts.Covers(n, {arch})
    requires Updated(test, data, nobreakall, binaries, a, n0, n, arch)
    requires AllAgreeOn(u, before, n0, arch)
    ensures (name in n.withAll[arch] <==> Bad(u, binaries, BinaryKey(name, arch))) <==>
            BadKeptAt(u, before, binaries, a, BinaryKey(name, arch))
    ensures var k := BinaryKey(name, arch);
      && CountAgreesOn(u, data, nobreakall, before, n0, arch)
      && BadKeptAt(u, before, binaries, a, k) ==>
      (CountRight(u, data, nobreakall, binaries, n, arch, name) <==>
       StatusKeptAt(u, data, nobreakall, before, binaries, a, BinaryKey(name, arch)))
  {
    var k := BinaryKey(name, arch);
    if k in binaries {
      assert binaries[k] in binaries.Values;
      assert test(binaries[k]) <==> Installable(u, binaries.Values, binaries[k]);
    }
  }

  // ---------------------------------------------------------------------------------------------
  // Architectures that no item touches
  // ---------------------------------------------------------------------------------------------

  /** All that the item adds or removes is on `archs`. */
  predicate Within(c: Change, archs: set<string>) {
    forall p :: p in c.updates + c.rms ==> p.architecture in archs
  }

  /** Relations do not cross architectures, so neither does installability. */
  lemma SameArchitecture(u: Universe, s1: set<PackageId>, s2: set<PackageId>, p: PackageId)
    requires ClausesLocal(u) && u.essential == {} && Installable(u, s1, p)
    requires forall q: PackageId :: q.architecture == p.architecture && q in s1 ==> q in s2
    ensures Installable(u, s2, p)
  {
    var m :| Witness(u, s1, p, m);
    var m' := set q: PackageId | q in m && q.architecture == p.architecture;
    forall q, clause | q in m' && clause in u.DependenciesOf(q)
      ensures Hits(clause, m')
    {
      assert Satisfied(u, q, m) && Hits(clause, m);
      var d :| d in clause && d in m;
      assert d in m';
    }
    assert Witness(u, s2, p, m');
  }

  lemma UntouchedKey(binaries: Binaries, c: Change, archs: set<string>, k: BinaryKey)
    requires DistinctKeys(c.updates) && Within(c, archs) && k.architecture !in archs
    requires forall j :: j in binaries ==> KeyOf(binaries[j]) == j
    ensures OptionAt(BinariesAfter(binaries, c), k) == OptionAt(binaries, k)
  {
    BinariesRecorded(binaries, c);
    assert k !in KeysOf(c.updates);
  }

  lemma {:induction false} UntouchedKeys(u: Universe, data: Packages, states: seq<SuiteState>, items: seq<Change>,
                                         archs: set<string>, k: BinaryKey, i: nat)
    requires Plan(u, data, states, items) && Sound(u, data, states[0]) && i <= |items| && k.architecture !in archs
    requires forall j :: 0 <= j < |items| ==> Within(items[j], archs)
    ensures OptionAt(states[i].binaries, k) == OptionAt(states[0].binaries, k)
  {
    if i > 0 {
      UntouchedKeys(u, data, states, items, archs, k, i - 1);
      assert PlanAt(u, data, states, items, i - 1);
      SoundAt(u, data, states, items, i - 1);
      UntouchedKey(states[i - 1].binaries, items[i - 1], archs, k);
    }
  }

  lemma UntouchedValues(s: SuiteState, s': SuiteState, arch: string, q: PackageId)
    requires Coherent(s) && q in s.binaries.Values && q.architecture == arch
    requires forall k: BinaryKey :: k.architecture == arch ==> OptionAt(s'.binaries, k) == OptionAt(s.binaries, k)
    ensures q in s'.binaries.Values
  {
    var k :| k in s.binaries && s.binaries[k] == q;
    assert k == KeyOf(q) && OptionAt(s'.binaries, k) == OptionAt(s.binaries, k);
    assert k in s'.binaries && s'.binaries[k] == q;
  }

  lemma UntouchedBad(u: Universe, s: SuiteState, s': SuiteState, k: BinaryKey)
    requires ClausesLocal(u) && u.essential == {} && Coherent(s) && Coherent(s')
    requires forall j: BinaryKey :: j.architecture == k.architecture ==> OptionAt(s'.binaries, j) == OptionAt(s.binaries, j)
    ensures Bad(u, s.binaries, k) <==> Bad(u, s'.binaries, k)
  {
    assert OptionAt(s'.binaries, k) == OptionAt(s.binaries, k);
    if k in s.binaries {
      var p := s.binaries[k];
      assert KeyOf(p) == k && k in s'.binaries && s'.binaries[k] == p;
      forall q: PackageId | q.architecture == k.architecture
        ensures q in s.binaries.Values <==> q in s'.binaries.Values
      {
        if q in s.binaries.Values {
          UntouchedValues(s, s', k.architecture, q);
        }
        if q in s'.binaries.Values {
          UntouchedValues(s', s, k.architecture, q);
        }
      }
      if Installable(u, s.binaries.Values, p) {
        SameArchitecture(u, s.binaries.Values, s'.binaries.Values, p);
      }
      if Installable(u, s'.binaries.Values, p) {
        SameArchitecture(u, s'.binaries.Values, s.binaries.Values, p);
      }
    }
  }

  /** On an untouched architecture the table is as right after the batch as before it. */
  lemma UntouchedAgrees(u: Universe, data: Packages, nobreakall: set<string>, states: seq<SuiteState>, items: seq<Change>,
                        a: set<PackageId>, archs: set<string>, n: Nuninst, arch: string)
    requires Plan(u, data, states, items) && Sound(u, data, states[0]) && ClausesLocal(u) && u.essential == {}
    requires arch !in archs && Nuninsts.Covers(n, {arch})
    requires forall j :: 0 <= j < |items| ==> Within(items[j], archs)
    requires AllAgreeOn(u, states[0].binaries, n, arch)
    ensures AllAgreeOn(u, states[|items|].binaries, n, arch)
    ensures BadKept(u, states[0].binaries, states[|items|].binaries, a, arch)
    ensures CountAgreesOn(u, data, nobreakall, states[0].binaries, n, arch) ==>
            CountAgreesOn(u, data, nobreakall, states[|items|].binaries, n, arch)
    ensures StatusKept(u, data, nobreakall, states[0].binaries, states[|items|].binaries, a, arch)
  {
    var before, after := states[0].binaries, states[|items|].binaries;
    SoundAt(u, data, states, items, |items|);
    forall k: BinaryKey | k.architecture == arch
      ensures OptionAt(after, k) == OptionAt(before, k)
    {
      UntouchedKeys(u, data, states, items, archs, k, |items|);
    }
    forall name
      ensures var k := BinaryKey(name, arch);
        OptionAt(after, k) == OptionAt(before, k) && (Bad(u, after, k) <==> Bad(u, before, k))
    {
      UntouchedBad(u, states[0], states[|items|], BinaryKey(name, arch));
    }
  }

  // ---------------------------------------------------------------------------------------------
  // Migrating a batch
  // ---------------------------------------------------------------------------------------------

  datatype Options = Options(
    architectures: set<string>,
    nobreakall: set<string>,
    newArches: set<string>,
    breakArches: set<string>,
    keepInstallable: set<string>,
    allowUninst: map<string, set<string>>)

  ghost function EntriesOf(data: Packages, states: seq<SuiteState>, items: seq<Change>): seq<LogEntry>
    requires |states| == |items| + 1
  {
    seq(|items|, i requires 0 <= i < |items| => EntryOf(data, states[i], items[i]))
  }

  /** A migration item; `name` identifies it. */
  datatype Item = Item(name: string, architecture: string, isCruft: bool)

  /** The groups of an item: the change it makes and the binaries it keeps as smooth updates. */
  datatype Group = Group(change: Change, smooth: set<PackageId>)

  /** Computes the groups of item `i` of a batch in a state of the suite, or fails. */
  type Groups = (SuiteState, seq<Item>, nat) -> Option<Group>

  /** What the engine may rely on: a group fits its item and the suite, and the removal of a cruft
      binary keeps nothing back. */
  ghost predicate GroupsPromise(u: Universe, groups: Groups) {
    forall s: SuiteState, batch, i: nat {:trigger groups(s, batch, i)} ::
      Keyed(s.binaries) && i < |batch| && groups(s, batch, i).Some? ==> GroupFits(u, s, batch[i], groups(s, batch, i).value)
  }

  predicate GroupFits(u: Universe, s: SuiteState, item: Item, g: Group) {
    && Applicable(s, g.change) && Local(g.change)
    && g.change.architecture == item.architecture
    && (forall p :: p in g.change.updates ==> u.Knows(p))
    && (item.isCruft ==> g.smooth == {})
  }

  /** Apply the items one after the other, until the groups of one cannot be computed. */
  method ApplyItems(m: MigrationManager, groups: Groups, batch: seq<Item>)
    returns (raised: bool, affected: set<PackageId>, smooth: set<PackageId>, ghost states: seq<SuiteState>, ghost items: seq<Change>)
    requires m.Valid() && GroupsPromise(m.universe, groups)
    requires WellFormed(m.universe)
    modifies m.suite, m.transactions, m`records
    ensures m.Valid() && Plan(m.universe, m.data, states, items)
    ensures old(m.suite.State()) == states[0] && m.suite.State() == states[|items|]
    ensures raised <==> |items| != |batch|
    ensures raised ==> groups(m.suite.State(), batch, |items|).None?
    ensures old(m.Intact()) ==> m.Intact()
    ensures !raised ==> smooth == SmoothOf(groups, batch, states)
    ensures Follows(groups, batch, states, items)
    ensures (forall item :: item in batch ==> item.isCruft) ==> smooth == {}
    ensures AffectedBy(m.universe, old(m.Enclosing()), states, items, affected)
    ensures old(m.Intact()) ==> AffectingAll(m.universe, states, items, affected)
    ensures m.Logs() == ExtendLast(old(m.Logs()), EntriesOf(m.data, states, items))
  {
    affected, smooth := {}, {};
    states, items := [m.suite.State()], [];
    ghost var logs := m.Logs();
    ExtendTwice(logs, [], []);
    assert EntriesOf(m.data, states, items) == [];
    for i := 0 to |batch|
      invariant m.Valid() && Plan(m.universe, m.data, states, items) && |items| == i
      invariant states[0] == old(m.suite.State()) && m.suite.State() == states[i]
      invariant Follows(groups, batch, states, items)
      invariant (forall item :: item in batch ==> item.isCruft) ==> smooth == {}
      invariant smooth == SmoothBefore(groups, batch, states, i)
      invariant m.Enclosing() == old(m.Enclosing())
      invariant AffectedBy(m.universe, old(m.Enclosing()), states, items, affected)
      invariant old(m.Intact()) ==>
        m.Intact() && DependentsClosed(m.universe, affected) && AffectingAll(m.universe, states, items, affected)
      invariant m.Logs() == ExtendLast(logs, EntriesOf(m.data, states, items))
    {
      var group := groups(m.suite.State(), batch, i);
      if group.None? {
        return true, affected, smooth, states, items;
      }
      assert batch[i] in batch;
      ghost var states0, items0, affected0 := states, items, affected;
      var more := ApplyOne(m, group.value.change, batch[i], group.value.smooth);
      affected, smooth := affected + more, smooth + group.value.smooth;
      states, items := states + [m.suite.State()], items + [group.value.change];
      PlanMore(m.universe, m.data, groups, batch, states0, items0, group.value.change);
      SmoothMore(groups, batch, states0, m.suite.State(), i);
      AffectedMore(m.universe, old(m.Enclosing()), states0, items0, affected0, m.suite.State(), group.value.change, more);
      if old(m.Intact()) {
        AffectingMore(m.universe, m.data, states0, items0, group.value.change, affected0, more);
      }
      ExtendTwice(logs, EntriesOf(m.data, states0, items0), [EntryOf(m.data, states0[i], group.value.change)]);
    }
    raised := false;
  }

  /** The smooth updates of the first `n` items. */
  ghost function SmoothBefore(groups: Groups, batch: seq<Item>, states: seq<SuiteState>, n: nat): set<PackageId>
    requires n <= |batch| && n <= |states|
  {
    set i, p | 0 <= i < n && groups(states[i], batch, i).Some? && p in groups(states[i], batch, i).value.smooth :: p
  }

  ghost function SmoothOf(groups: Groups, batch: seq<Item>, states: seq<SuiteState>): set<PackageId>
    requires |batch| < |states|
  {
    SmoothBefore(groups, batch, states, |batch|)
  }

  lemma SmoothMore(groups: Groups, batch: seq<Item>, states: seq<SuiteState>, s: SuiteState, n: nat)
    requires n < |batch| && n + 1 == |states| && groups(states[n], batch, n).Some?
    ensures SmoothBefore(groups, batch, states + [s], n + 1) ==
            SmoothBefore(groups, batch, states, n) + groups(states[n], batch, n).value.smooth
  {
    var states' := states + [s];
    assert forall i :: 0 <= i <= n ==> states'[i] == states[i];
  }

  /** The changes are those that the groups of the items prescribe. */
  ghost predicate Follows(groups: Groups, batch: seq<Item>, states: seq<SuiteState>, items: seq<Change>) {
    && |items| <= |batch| && |states| == |items| + 1
    && (forall i {:trigger items[i]} :: 0 <= i < |items| ==>
         items[i].architecture == batch[i].architecture
         && groups(states[i], batch, i).Some? && groups(states[i], batch, i).value.change == items[i])
  }

  lemma PlanMore(u: Universe, data: Packages, groups: Groups, batch: seq<Item>, states: seq<SuiteState>, items: seq<Change>,
                 c: Change)
    requires Plan(u, data, states, items) && Follows(groups, batch, states, items) && |items| < |batch|
    requires groups(states[|items|], batch, |items|).Some? && groups(states[|items|], batch, |items|).value.change == c
    requires GroupFits(u, states[|items|], batch[|items|], groups(states[|items|], batch, |items|).value)
    ensures var states', items' := states + [After(data, states[|items|], c)], items + [c];
      && Plan(u, data, states', items') && Follows(groups, batch, states', items')
      && EntriesOf(data, states', items') == EntriesOf(data, states, items) + [EntryOf(data, states[|items|], c)]
  {
    var states', items' := states + [After(data, states[|items|], c)], items + [c];
    forall i | 0 <= i < |items'|
      ensures PlanAt(u, data, states', items', i)
    {
      if i < |items| {
        assert PlanAt(u, data, states, items, i);
      }
    }
  }

  method ApplyOne(m: MigrationManager, c: Change, ghost item: Item, ghost smooth: set<PackageId>)
    returns (affected: set<PackageId>)
    requires m.Valid() && GroupFits(m.universe, m.suite.State(), item, Group(c, smooth))
    requires WellFormed(m.universe)
    modifies m.suite, m.transactions, m`records
    ensures m.Valid() && m.suite.State() == After(m.data, old(m.suite.State()), c)
    ensures old(m.Intact()) ==> m.Intact() && Affecting(m.universe, old(m.suite.binaries), c, affected)
    ensures IsReverseTree(m.universe, old(DirectlyAffected(m.universe, m.suite.binaries, m.Enclosing(), c)), affected)
    ensures m.Logs() == ExtendLast(old(m.Logs()), [EntryOf(m.data, old(m.suite.State()), c)])
    ensures m.Enclosing() == old(m.Enclosing())
  {
    ghost var enclosing, binaries := m.Enclosing(), m.suite.binaries;
    m.EnclosingLog();
    affected := m.ApplyItem(c);
    m.EnclosingLog();
    if old(m.Intact()) {
      ReverseTreeAffects(m.universe, binaries, enclosing, c, affected);
    }
  }

  lemma AffectingMore(u: Universe, data: Packages, states: seq<SuiteState>, items: seq<Change>, c: Change,
                      a: set<PackageId>, more: set<PackageId>)
    requires |states| == |items| + 1 && DistinctKeys(c.updates)
    requires DependentsClosed(u, a) && Affecting(u, states[|items|].binaries, c, more)
    requires AffectingAll(u, states, items, a)
    ensures DependentsClosed(u, a + more)
    ensures AffectingAll(u, states + [After(data, states[|items|], c)], items + [c], a + more)
  {
    var states', items' := states + [After(data, states[|items|], c)], items + [c];
    forall i | 0 <= i < |items'|
      ensures AffectingAt(u, states', items', a + more, i)
    {
      if i < |items| {
        assert AffectingAt(u, states, items, a, i);
        AffectingUnion(u, states[i].binaries, items[i], a, more);
      } else {
        AffectingUnion(u, states[i].binaries, c, more, a);
        assert more + a == a + more;
      }
    }
  }

  lemma AffectingUnion(u: Universe, binaries: Binaries, c: Change, a: set<PackageId>, more: set<PackageId>)
    requires Affecting(u, binaries, c, a) && DependentsClosed(u, more)
    ensures Affecting(u, binaries, c, a + more)
  {
  }

  /** The architectures to recheck: all of them as soon as a whole source migrates. */
  function AffectedArchitectures(touched: set<string>, architectures: set<string>): set<string> {
    if SOURCE in touched then architectures else touched
  }

  function ArchsOf(changes: seq<Change>): set<string> {
    set i | 0 <= i < |changes| :: changes[i].architecture
  }

  function ItemArchs(batch: seq<Item>): set<string> {
    set i | 0 <= i < |batch| :: batch[i].architecture
  }

  /** The architectures on which a batch may make things worse. */
  function Tolerated(options: Options, isSource: bool): set<string> {
    if isSource then options.breakArches else options.breakArches * options.newArches
  }

  /** No architecture gets worse, save the exempt ones. */
  ghost predicate NeverWorse(options: Options, exempt: set<string>, now: Nuninst, after: Nuninst)
    requires Nuninsts.Covers(now, options.architectures) && Nuninsts.Covers(after, options.architectures)
    requires options.architectures <= options.allowUninst.Keys
  {
    forall a :: a in options.architectures && a !in exempt ==>
      !IsNuninstWorse(options.keepInstallable, now.archs[a], after.archs[a], options.allowUninst[a])
  }

  /** The architectures that a batch with items of the architectures `touched` may worsen. */
  predicate MayWorsen(options: Options, touched: set<string>, a: string) {
    a in options.breakArches && (a in options.newArches || SOURCE in touched)
  }

  /** There are no more uninstallable packages than before, apart from the allowed ones, and no package
      that must stay installable has become uninstallable. */
  ghost predicate NoRegression(options: Options, now: Nuninst, n: Nuninst, a: string) {
    && a in now.archs && a in n.archs && a in options.allowUninst
    && |n.archs[a] - options.allowUninst[a]| <= |now.archs[a] - options.allowUninst[a]|
    && forall name :: name in options.keepInstallable && name in n.archs[a] ==> name in now.archs[a]
  }

  lemma WorseExactly(options: Options, now: Nuninst, n: Nuninst, a: string)
    requires a in now.archs && a in n.archs && a in options.allowUninst
    ensures IsNuninstWorse(options.keepInstallable, now.archs[a], n.archs[a], options.allowUninst[a]) <==>
            !NoRegression(options, now, n, a)
  {
    var added := n.archs[a] - now.archs[a];
    forall name
      ensures name in added <==> name in n.archs[a] && name !in now.archs[a]
    {
    }
  }

  /** A batch is accepted exactly if no architecture regresses in the rechecked table, save those that may. */
  ghost predicate AcceptedExactly(options: Options, touched: set<string>, test: PackageId -> bool, data: Packages,
                                  binaries: Binaries, affected: set<PackageId>, archs: set<string>, now: Nuninst, accepted: bool) {
    forall n {:trigger UpdatedTable(options, test, data, binaries, affected, archs, now, n)} ::
      UpdatedTable(options, test, data, binaries, affected, archs, now, n) ==>
        (accepted <==> forall a :: a in archs && !MayWorsen(options, touched, a) ==> NoRegression(options, now, n, a))
  }

  lemma AcceptanceExact(options: Options, touched: set<string>, test: PackageId -> bool, data: Packages, binaries: Binaries,
                        affected: set<PackageId>, archs: set<string>, now: Nuninst, accepted: bool, after: Nuninst)
    requires archs <= options.architectures <= options.allowUninst.Keys
    requires Nuninsts.Covers(now, options.architectures) && Nuninsts.Covers(after, options.architectures)
    requires accepted ==>
      && UpdatedTable(options, test, data, binaries, affected, archs, now, after)
      && NeverWorse(options, Tolerated(options, SOURCE in touched), now, after)
    requires !accepted ==>
      SomeWorse(options, archs, Tolerated(options, SOURCE in touched), test, data, binaries, affected, now, after)
    ensures AcceptedExactly(options, touched, test, data, binaries, affected, archs, now, accepted)
  {
    forall n | UpdatedTable(options, test, data, binaries, affected, archs, now, n)
      ensures accepted <==> forall a :: a in archs && !MayWorsen(options, touched, a) ==> NoRegression(options, now, n, a)
    {
      if accepted {
        forall a | a in archs && !MayWorsen(options, touched, a)
          ensures NoRegression(options, now, n, a)
        {
          SameOn(test, data, options.nobreakall, binaries, affected, now, n, after, a);
          WorseExactly(options, now, n, a);
        }
      } else {
        var a :| a in archs && a in options.architectures && a !in Tolerated(options, SOURCE in touched)
          && Worse(options, test, data, binaries, affected, now, after, a);
        SameOn(test, data, options.nobreakall, binaries, affected, now, n, after, a);
        WorseExactly(options, now, n, a);
      }
    }
  }

  lemma SameOn(test: PackageId -> bool, data: Packages, nobreakall: set<string>, binaries: Binaries, a: set<PackageId>,
               now: Nuninst, n: Nuninst, n': Nuninst, arch: string)
    requires Nuninsts.Covers(now, {arch}) && Nuninsts.Covers(n, {arch}) && Nuninsts.Covers(n', {arch})
    requires Updated(test, data, nobreakall, binaries, a, now, n, arch) && Updated(test, data, nobreakall, binaries, a, now, n', arch)
    ensures n.archs[arch] == n'.archs[arch] && n.withAll[arch] == n'.withAll[arch]
  {
  }

  /** There is a rechecked table. */
  lemma RecheckedTable(options: Options, test: PackageId -> bool, data: Packages, binaries: Binaries, affected: set<PackageId>,
                       archs: set<string>, now: Nuninst)
    returns (n: Nuninst)
    requires Nuninsts.Covers(now, archs)
    ensures UpdatedTable(options, test, data, binaries, affected, archs, now, n)
  {
    n := Nuninst(
      map a | a in now.archs :: if a in archs then CountedNames(options, test, data, binaries, affected, now, a) else now.archs[a],
      map a | a in now.withAll :: if a in archs then BrokenNames(test, binaries, affected, now, a) else now.withAll[a]);
  }

  ghost function BrokenNames(test: PackageId -> bool, binaries: Binaries, affected: set<PackageId>, now: Nuninst, arch: string)
    : (names: set<string>)
    requires arch in now.withAll
    ensures forall name :: name in names <==>
      BrokenAfter(test, binaries, affected, Present(binaries, now.withAll[arch], arch), BinaryKey(name, arch))
  {
    set k | k in binaries && k == BinaryKey(k.name, arch)
      && BrokenAfter(test, binaries, affected, Present(binaries, now.withAll[arch], arch), k) :: k.name
  }

  ghost function CountedNames(options: Options, test: PackageId -> bool, data: Packages, binaries: Binaries,
                              affected: set<PackageId>, now: Nuninst, arch: string)
    : (names: set<string>)
    requires arch in now.archs
    ensures forall name :: name in names <==>
      CountedAfter(test, data, arch in options.nobreakall, binaries, affected, Present(binaries, now.archs[arch], arch),
                   BinaryKey(name, arch))
  {
    set k | k in binaries && k == BinaryKey(k.name, arch)
      && CountedAfter(test, data, arch in options.nobreakall, binaries, affected, Present(binaries, now.archs[arch], arch), k) :: k.name
  }

  predicate CanMigrate(options: Options, touched: set<string>, now: Nuninst) {
    && options.architectures <= options.allowUninst.Keys
    && Nuninsts.Covers(now, options.architectures)
    && touched <= options.architectures + {SOURCE}
  }

  /** The outcome of a batch: no groups for some item, or the verdict of the recheck. */
  datatype Outcome = Raised | Checked(accepted: bool, after: Nuninst, smooth: set<PackageId>)

  /** Apply a batch and recheck what it affects.  A batch is rejected exactly when some architecture
      has got worse than is tolerated, whatever the test of installability answers.  If the test is
      reliable and the engine was intact, an accepted batch leaves the table as right as it was. */
  method MigrateItems(m: MigrationManager, groups: Groups, batch: seq<Item>, now: Nuninst, options: Options,
                      inst: (set<PackageId>, PackageId) -> bool, stopOnFirstRegression: bool)
    returns (outcome: Outcome, ghost affected: set<PackageId>, ghost states: seq<SuiteState>, ghost items: seq<Change>)
    requires m.Valid() && GroupsPromise(m.universe, groups)
    requires WellFormed(m.universe)
    requires CanMigrate(options, ItemArchs(batch), now)
    modifies m.suite, m.transactions, m`records
    ensures m.Valid() && Plan(m.universe, m.data, states, items) && Follows(groups, batch, states, items)
    ensures old(m.suite.State()) == states[0] && m.suite.State() == states[|items|]
    ensures m.Logs() == ExtendLast(old(m.Logs()), EntriesOf(m.data, states, items))
    ensures AffectedBy(m.universe, old(m.Enclosing()), states, items, affected)
    ensures old(m.Intact()) ==> m.Intact() && AffectingAll(m.universe, states, items, affected)
    ensures outcome.Raised? <==> |items| != |batch|
    ensures outcome.Raised? ==> groups(m.suite.State(), batch, |items|).None?
    ensures outcome.Checked? ==> outcome.smooth == SmoothOf(groups, batch, states)
    ensures outcome.Checked? ==>
      outcome.after.archs.Keys == now.archs.Keys && outcome.after.withAll.Keys == now.withAll.Keys
    ensures outcome.Checked? && !stopOnFirstRegression ==> outcome.accepted
    ensures outcome.Checked? && outcome.accepted && stopOnFirstRegression ==>
      NeverWorse(options, Tolerated(options, SOURCE in ItemArchs(batch)), now, outcome.after)
    ensures outcome.Checked? && !outcome.accepted ==>
      SomeWorse(options, AffectedArchitectures(ItemArchs(batch), options.architectures),
                Tolerated(options, SOURCE in ItemArchs(batch)), TestsOf(inst, m.suite.contents), m.data,
                m.suite.binaries, affected, now, outcome.after)
    ensures outcome.Checked? && stopOnFirstRegression ==>
      AcceptedExactly(options, ItemArchs(batch), TestsOf(inst, m.suite.contents), m.data, m.suite.binaries, affected,
                      AffectedArchitectures(ItemArchs(batch), options.architectures), now, outcome.accepted)
    ensures outcome.Checked? && outcome.accepted ==>
      UpdatedTable(options, TestsOf(inst, m.suite.contents), m.data, m.suite.binaries, affected,
            AffectedArchitectures(ItemArchs(batch), options.architectures), now, outcome.after)
    ensures outcome.Checked? && outcome.accepted && old(m.Intact()) && Reliable(m.universe, inst) ==>
      IncrementalEqualsFull(m.universe, m.data, options, states, items, affected, now, outcome.after)
    ensures outcome.Checked? && (forall item :: item in batch ==> item.isCruft) ==> outcome.smooth == {}
  {
    var raised, affectedAll, smooth;
    raised, affectedAll, smooth, states, items := ApplyItems(m, groups, batch);
    affected := affectedAll;
    if raised {
      return Raised, affected, states, items;
    }
    var touched := ItemArchs(batch);
    var archs := AffectedArchitectures(touched, options.architectures);
    var test := TestsOf(inst, m.suite.contents);
    var accepted, after := Recheck(m.suite.binaries, m.data, touched, affectedAll, archs, now, options, test, stopOnFirstRegression);
    outcome := Checked(accepted, after, smooth);
    if accepted && old(m.Intact()) && Reliable(m.universe, inst) {
      FollowsArchs(groups, batch, states, items);
      TestsRight(m.universe, inst, m.suite.State());
      TableAgrees(m.universe, m.data, test, options, states, items, affectedAll, archs, now, after);
    }
  }

  /** The answers of the test for one suite. */
  function TestsOf(inst: (set<PackageId>, PackageId) -> bool, suite: set<PackageId>): PackageId -> bool {
    p => inst(suite, p)
  }

  lemma TestsRight(u: Universe, inst: (set<PackageId>, PackageId) -> bool, s: SuiteState)
    requires Exact(u, inst) && Coherent(s)
    ensures Right(u, s.binaries.Values, TestsOf(inst, s.contents))
  {
    forall p | p in s.contents
      ensures TestsOf(inst, s.contents)(p) <==> Installable(u, s.contents, p)
    {
      assert inst(s.contents, p) <==> Installable(u, s.contents, p);
    }
  }

  /** The recheck has found an architecture that is worse than is tolerated. */
  ghost predicate SomeWorse(options: Options, archs: set<string>, exempt: set<string>, test: PackageId -> bool, data: Packages,
                            binaries: Binaries, affected: set<PackageId>, now: Nuninst, n: Nuninst) {
    exists a :: a in archs && a in options.architectures && a !in exempt && Worse(options, test, data, binaries, affected, now, n, a)
  }

  ghost predicate Worse(options: Options, test: PackageId -> bool, data: Packages, binaries: Binaries,
                        affected: set<PackageId>, now: Nuninst, n: Nuninst, a: string) {
    && Nuninsts.Covers(now, {a}) && Nuninsts.Covers(n, {a}) && a in options.allowUninst
    && Updated(test, data, options.nobreakall, binaries, affected, now, n, a)
    && IsNuninstWorse(options.keepInstallable, now.archs[a], n.archs[a], options.allowUninst[a])
  }

  /** The table that the recheck of `archs` leaves. */
  ghost predicate UpdatedTable(options: Options, test: PackageId -> bool, data: Packages, binaries: Binaries,
                        affected: set<PackageId>, archs: set<string>, now: Nuninst, n: Nuninst) {
    && Nuninsts.Covers(now, archs) && Nuninsts.Covers(n, archs)
    && KeptOff(now, n, archs)
    && UpdatedOn(test, data, options.nobreakall, binaries, affected, now, n, archs)
  }

  lemma FollowsArchs(groups: Groups, batch: seq<Item>, states: seq<SuiteState>, items: seq<Change>)
    requires Follows(groups, batch, states, items) && |items| == |batch|
    ensures ArchsOf(items) == ItemArchs(batch)
  {
    forall a
      ensures a in ArchsOf(items) <==> a in ItemArchs(batch)
    {
      if a in ArchsOf(items) {
        var i :| 0 <= i < |items| && items[i].architecture == a;
        assert batch[i].architecture == a;
      }
      if a in ItemArchs(batch) {
        var i :| 0 <= i < |batch| && batch[i].architecture == a;
        assert items[i].architecture == a;
      }
    }
  }

  /** When the table was right before, the recheck leaves the table that a compilation from scratch
      would: about installability exactly when the names whose addition was replaced by an equivalent
      have kept their status, and in its counts exactly when besides no uninstallable binary was
      swapped for one of another arch:all status without being looked at. */
  ghost predicate IncrementalEqualsFull(u: Universe, data: Packages, options: Options, states: seq<SuiteState>,
                                        items: seq<Change>, affected: set<PackageId>, now: Nuninst, after: Nuninst)
    requires |states| == |items| + 1
  {
    var before, binaries := states[0].binaries, states[|items|].binaries;
    && (AllAgree(u, before, now, options.architectures) ==>
         (AllAgree(u, binaries, after, options.architectures) <==>
          forall a :: a in options.architectures ==> ReplacedKept(u, items, before, binaries, affected, a)))
    && (Agrees(u, data, options.nobreakall, before, now, options.architectures) ==>
         (Agrees(u, data, options.nobreakall, binaries, after, options.architectures) <==>
          forall a :: a in options.architectures ==>
            && ReplacedKept(u, items, before, binaries, affected, a)
            && StatusKept(u, data, options.nobreakall, before, binaries, affected, a)))
  }

  lemma TableAgrees(u: Universe, data: Packages, test: PackageId -> bool, options: Options,
                    states: seq<SuiteState>, items: seq<Change>, affected: set<PackageId>, archs: set<string>,
                    now: Nuninst, after: Nuninst)
    requires Plan(u, data, states, items) && Sound(u, data, states[0]) && AffectingAll(u, states, items, affected)
    requires WellFormed(u) && u.essential == {} && Right(u, states[|items|].binaries.Values, test)
    requires CanMigrate(options, ArchsOf(items), now)
    requires archs == AffectedArchitectures(ArchsOf(items), options.architectures)
    requires UpdatedTable(options, test, data, states[|items|].binaries, affected, archs, now, after)
    ensures IncrementalEqualsFull(u, data, options, states, items, affected, now, after)
  {
    var before, binaries := states[0].binaries, states[|items|].binaries;
    if AllAgree(u, before, now, options.architectures) {
      forall a | a in options.architectures
        ensures AllAgreeOn(u, binaries, after, a) <==> ReplacedKept(u, items, before, binaries, affected, a)
        ensures AllAgreeOn(u, binaries, after, a) && CountAgreesOn(u, data, options.nobreakall, before, now, a) ==>
          (CountAgreesOn(u, data, options.nobreakall, binaries, after, a) <==>
           StatusKept(u, data, options.nobreakall, before, binaries, affected, a))
      {
        ArchAgrees(u, data, test, options, states, items, affected, archs, now, after, a);
      }
    }
  }

  lemma ArchAgrees(u: Universe, data: Packages, test: PackageId -> bool, options: Options,
                   states: seq<SuiteState>, items: seq<Change>, affected: set<PackageId>, archs: set<string>,
                   now: Nuninst, after: Nuninst, arch: string)
    requires Plan(u, data, states, items) && Sound(u, data, states[0]) && AffectingAll(u, states, items, affected)
    requires WellFormed(u) && u.essential == {} && Right(u, states[|items|].binaries.Values, test)
    requires CanMigrate(options, ArchsOf(items), now) && arch in options.architectures
    requires archs == AffectedArchitectures(ArchsOf(items), options.architectures)
    requires UpdatedTable(options, test, data, states[|items|].binaries, affected, archs, now, after)
    requires AllAgreeOn(u, states[0].binaries, now, arch)
    ensures AllAgreeOn(u, states[|items|].binaries, after, arch) <==>
            ReplacedKept(u, items, states[0].binaries, states[|items|].binaries, affected, arch)
    ensures AllAgreeOn(u, states[|items|].binaries, after, arch) ==>
      CountAgreesOn(u, data, options.nobreakall, states[0].binaries, now, arch) ==>
      (CountAgreesOn(u, data, options.nobreakall, states[|items|].binaries, after, arch) <==>
       StatusKept(u, data, options.nobreakall, states[0].binaries, states[|items|].binaries, affected, arch))
  {
    var before, binaries := states[0].binaries, states[|items|].binaries;
    OthersKept(u, data, states, items, affected, arch);
    if arch in archs {
      UpdatedAllAgrees(u, data, test, options.nobreakall, before, binaries, affected, now, after, arch);
      if BadKept(u, before, binaries, affected, arch) && CountAgreesOn(u, data, options.nobreakall, before, now, arch) {
        UpdatedAgrees(u, data, test, options.nobreakall, before, binaries, affected, now, after, arch);
      }
    } else {
      ItemsWithin(u, data, states, items, archs, options.architectures);
      UntouchedAgrees(u, data, options.nobreakall, states, items, affected, archs, now, arch);
    }
  }

  /** Only names whose addition was replaced by an equivalent can change their status unnoticed. */
  lemma OthersKept(u: Universe, data: Packages, states: seq<SuiteState>, items: seq<Change>, affected: set<PackageId>,
                   arch: string)
    requires Plan(u, data, states, items) && Sound(u, data, states[0]) && AffectingAll(u, states, items, affected)
    requires WellFormed(u) && u.essential == {}
    ensures var before, binaries := states[0].binaries, states[|items|].binaries;
      BadKept(u, before, binaries, affected, arch) <==> ReplacedKept(u, items, before, binaries, affected, arch)
  {
    var before, binaries := states[0].binaries, states[|items|].binaries;
    forall k: BinaryKey | k !in ReplacedKeys(u, items)
      ensures BadKeptAt(u, before, binaries, affected, k)
    {
      if k in binaries && binaries[k] !in affected {
        KeptBack(u, data, states, items, affected, k, 0);
      }
    }
    forall k: BinaryKey | k.architecture == arch
      ensures k == BinaryKey(k.name, arch)
    {
    }
  }

  lemma ItemsWithin(u: Universe, data: Packages, states: seq<SuiteState>, items: seq<Change>, archs: set<string>,
                    architectures: set<string>)
    requires Plan(u, data, states, items) && archs == AffectedArchitectures(ArchsOf(items), architectures) && archs != architectures
    ensures forall i :: 0 <= i < |items| ==> Within(items[i], archs)
  {
    forall i | 0 <= i < |items|
      ensures Within(items[i], archs)
    {
      assert PlanAt(u, data, states, items, i);
      assert items[i].architecture in archs;
    }
  }

  /** The tables of the rechecked architectures are updated, the others kept. */
  ghost predicate UpdatedOn(test: PackageId -> bool, data: Packages, nobreakall: set<string>,
                            binaries: Binaries, a: set<PackageId>, n0: Nuninst, n: Nuninst, archs: set<string>)
    requires Nuninsts.Covers(n0, archs) && Nuninsts.Covers(n, archs)
  {
    && (forall arch :: arch in archs ==> Updated(test, data, nobreakall, binaries, a, n0, n, arch))
  }

  ghost predicate KeptOff(n0: Nuninst, n: Nuninst, archs: set<string>) {
    && n.archs.Keys == n0.archs.Keys && n.withAll.Keys == n0.withAll.Keys
    && (forall arch :: arch in n.archs && arch !in archs ==> n.archs[arch] == n0.archs[arch])
    && (forall arch :: arch in n.withAll && arch !in archs ==> n.withAll[arch] == n0.withAll[arch])
  }

  /** Recheck one architecture after the other until one is worse than allowed. */
  method Recheck(binaries: Binaries, data: Packages, touched: set<string>, affected: set<PackageId>, archs: set<string>,
                 now: Nuninst, options: Options, test: PackageId -> bool, stopOnFirstRegression: bool)
    returns (accepted: bool, after: Nuninst)
    requires CanMigrate(options, touched, now) && archs <= options.architectures
    requires forall k :: k in binaries ==> KeyOf(binaries[k]) == k
    ensures KeptOff(now, after, archs)
    ensures !stopOnFirstRegression ==> accepted
    ensures !accepted ==> SomeWorse(options, archs, Tolerated(options, SOURCE in touched), test, data, binaries, affected, now, after)
    ensures accepted ==> UpdatedOn(test, data, options.nobreakall, binaries, affected, now, after, archs)
    ensures stopOnFirstRegression && accepted ==> NeverWorse(options, Tolerated(options, SOURCE in touched), now, after)
    ensures stopOnFirstRegression ==>
      AcceptedExactly(options, touched, test, data, binaries, affected, archs, now, accepted)
  {
    var isSource := SOURCE in touched;
    ghost var exempt := if stopOnFirstRegression then Tolerated(options, isSource) else options.architectures;
    after := CloneNuninst(now, binaries, archs);
    accepted := true;
    var rest := archs;
    forall a | a in archs
      ensures IsClone(binaries, now, after, a)
    {
    }
    while rest != {} && accepted
      invariant Rechecking(test, data, options, binaries, affected, exempt, now, after, archs, rest, accepted)
      invariant !stopOnFirstRegression ==> accepted
      invariant !accepted ==> SomeWorse(options, archs, Tolerated(options, isSource), test, data, binaries, affected, now, after)
    {
      var arch :| arch in rest;
      assert IsClone(binaries, now, after, arch);
      ghost var after0, rest0 := after, rest;
      rest := rest - {arch};
      accepted, after := RecheckOne(binaries, data, affected, arch, now, after, options, test, stopOnFirstRegression, isSource);
      RecheckStep(test, data, options, binaries, affected, exempt, now, after0, after, archs, rest0, arch, accepted);
    }
    if accepted {
      AllRechecked(test, data, options, binaries, affected, exempt, now, after, archs);
    }
    if stopOnFirstRegression {
      AcceptanceExact(options, touched, test, data, binaries, affected, archs, now, accepted, after);
    }
  }

  /** One architecture has been rechecked and is acceptable. */
  ghost predicate Done(test: PackageId -> bool, data: Packages, options: Options, binaries: Binaries,
                       affected: set<PackageId>, exempt: set<string>, now: Nuninst, n: Nuninst, a: string)
    requires Nuninsts.Covers(now, {a}) && Nuninsts.Covers(n, {a}) && a in options.allowUninst
  {
    && Updated(test, data, options.nobreakall, binaries, affected, now, n, a)
    && (a !in exempt ==>
          !IsNuninstWorse(options.keepInstallable, now.archs[a], n.archs[a], options.allowUninst[a]))
  }

  ghost predicate Rechecking(test: PackageId -> bool, data: Packages, options: Options, binaries: Binaries,
                             affected: set<PackageId>, exempt: set<string>, now: Nuninst, n: Nuninst, archs: set<string>,
                             rest: set<string>, accepted: bool)
    requires archs <= options.allowUninst.Keys && Nuninsts.Covers(now, archs)
  {
    && rest <= archs && KeptOff(now, n, archs)
    && (forall a {:trigger IsClone(binaries, now, n, a)} :: a in rest ==> IsClone(binaries, now, n, a))
    && (accepted ==> forall a {:trigger Done(test, data, options, binaries, affected, exempt, now, n, a)} ::
          a in archs && a !in rest ==> Done(test, data, options, binaries, affected, exempt, now, n, a))
  }

  lemma RecheckStep(test: PackageId -> bool, data: Packages, options: Options, binaries: Binaries,
                    affected: set<PackageId>, exempt: set<string>, now: Nuninst, n0: Nuninst, n: Nuninst, archs: set<string>,
                    rest: set<string>, arch: string, accepted: bool)
    requires archs <= options.allowUninst.Keys && Nuninsts.Covers(now, archs)
    requires Rechecking(test, data, options, binaries, affected, exempt, now, n0, archs, rest, true) && arch in rest
    requires KeptOff(n0, n, {arch})
    requires accepted ==> Done(test, data, options, binaries, affected, exempt, now, n, arch)
    ensures Rechecking(test, data, options, binaries, affected, exempt, now, n, archs, rest - {arch}, accepted)
  {
    forall a | a in rest - {arch}
      ensures IsClone(binaries, now, n, a)
    {
      assert IsClone(binaries, now, n0, a);
    }
    if accepted {
      forall a | a in archs && a !in rest - {arch}
        ensures Done(test, data, options, binaries, affected, exempt, now, n, a)
      {
        if a != arch {
          assert Done(test, data, options, binaries, affected, exempt, now, n0, a);
          SameUpdated(test, data, options.nobreakall, binaries, affected, now, n0, n, a);
        }
      }
    }
  }

  lemma SameUpdated(test: PackageId -> bool, data: Packages, nobreakall: set<string>, binaries: Binaries,
                    a: set<PackageId>, now: Nuninst, n: Nuninst, n': Nuninst, arch: string)
    requires Nuninsts.Covers(now, {arch}) && Nuninsts.Covers(n, {arch}) && Nuninsts.Covers(n', {arch})
    requires n.archs[arch] == n'.archs[arch] && n.withAll[arch] == n'.withAll[arch]
    requires Updated(test, data, nobreakall, binaries, a, now, n, arch)
    ensures Updated(test, data, nobreakall, binaries, a, now, n', arch)
  {
  }

  lemma AllRechecked(test: PackageId -> bool, data: Packages, options: Options, binaries: Binaries,
                     affected: set<PackageId>, exempt: set<string>, now: Nuninst, n: Nuninst, archs: set<string>)
    requires archs <= options.architectures <= options.allowUninst.Keys && Nuninsts.Covers(now, options.architectures)
    requires Rechecking(test, data, options, binaries, affected, exempt, now, n, archs, {}, true)
    ensures UpdatedOn(test, data, options.nobreakall, binaries, affected, now, n, archs)
    ensures NeverWorse(options, exempt, now, n)
  {
    forall a | a in archs
      ensures Done(test, data, options, binaries, affected, exempt, now, n, a)
    {
    }
    forall a | a in options.architectures && a !in archs
      ensures !IsNuninstWorse(options.keepInstallable, now.archs[a], n.archs[a], options.allowUninst[a])
    {
    }
  }

  /** The names of one architecture, without those that have left the suite. */
  ghost predicate IsClone(binaries: Binaries, now: Nuninst, n: Nuninst, arch: string)
    requires Nuninsts.Covers(now, {arch}) && Nuninsts.Covers(n, {arch})
  {
    && n.archs[arch] == Present(binaries, now.archs[arch], arch)
    && n.withAll[arch] == Present(binaries, now.withAll[arch], arch)
  }

  method RecheckOne(binaries: Binaries, data: Packages, affected: set<PackageId>, arch: string, now: Nuninst, n0: Nuninst,
                    options: Options, test: PackageId -> bool, stopOnFirstRegression: bool, isSource: bool)
    returns (accepted: bool, n: Nuninst)
    requires Nuninsts.Covers(now, {arch}) && Nuninsts.Covers(n0, {arch}) && arch in options.allowUninst
    requires forall k :: k in binaries ==> KeyOf(binaries[k]) == k
    requires IsClone(binaries, now, n0, arch)
    ensures KeptOff(n0, n, {arch})
    ensures Updated(test, data, options.nobreakall, binaries, affected, now, n, arch)
    ensures !stopOnFirstRegression ==> accepted
    ensures !accepted ==> arch !in Tolerated(options, isSource) && Worse(options, test, data, binaries, affected, now, n, arch)
    ensures stopOnFirstRegression && accepted && arch !in Tolerated(options, isSource) ==>
      !IsNuninstWorse(options.keepInstallable, now.archs[arch], n.archs[arch], options.allowUninst[arch])
  {
    accepted := true;
    n := CheckInstallability(test, data, binaries, arch, affected, arch in options.nobreakall, n0);
    // if the uninstallability counter is worse than before, stop
    if stopOnFirstRegression {
      var worse := IsNuninstWorse(options.keepInstallable, now.archs[arch], n.archs[arch], options.allowUninst[arch]);
      // ... except for a few special cases
      if worse && ((!isSource && arch !in options.newArches) || arch !in options.breakArches) {
        accepted := false;
      }
    }
  }
}
