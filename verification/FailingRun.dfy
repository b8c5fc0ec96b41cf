/** Main runs that fail their final comparison.

    When only items of break architectures are selected, and one of them is of a new architecture, the
    steps of the run let a package become uninstallable there, and the final comparison then counts it. */
module FailingRuns {
  import opened Universes
  import opened Builder
  import opened Transactions
  import opened Changes
  import opened Affected
  import opened Migration
  import opened Nuninsts
  import opened ItemMigration
  import opened InstallabilitySolver
  import opened UpgradeLoop
  import opened UpgradeRuns

  /** Item `x` is of a new architecture, and `p` is a package of it that is not allowed to be uninstallable. */
  predicate Culprit(options: Options, selected: seq<Item>, x: Item, p: PackageId) {
    && x in selected && x.architecture in options.architectures * options.newArches
    && p.architecture == x.architecture && x.architecture in options.allowUninst
    && p.packageName !in options.allowUninst[x.architecture]
  }

  lemma CulpritExists(options: Options, selected: seq<Item>) returns (x: Item, p: PackageId)
    requires options.architectures <= options.allowUninst.Keys && !SafeSelection(options, selected)
    ensures Culprit(options, selected, x, p)
  {
    x :| x in selected && x.architecture in options.architectures * options.newArches;
    var name := NewName(options.allowUninst[x.architecture]);
    p := PackageId(name, "1", x.architecture);
  }

  // ---------------------------------------------------------------------------------------------
  // A suite that `x` brings an uninstallable package into
  // ---------------------------------------------------------------------------------------------

  /** The package has a dependency that nothing satisfies. */
  function Hopeless(p: PackageId): Declarations {
    map[p := Declared({{}}, {})]
  }

  function Idle(item: Item): Change {
    Change(item.name, item.architecture, false, "", {}, {})
  }

  /** Item `x` brings in `p`, the others change nothing. */
  function ChangeOf(x: Item, p: PackageId, binaries: Binaries, item: Item): Change {
    if item == x && KeyOf(p) !in binaries then AddOnly(p) else Idle(item)
  }

  function GroupsFor(x: Item, p: PackageId): Groups {
    (s: SuiteState, batch: seq<Item>, i: nat) =>
      if |batch| <= i then None else Some(Group(ChangeOf(x, p, s.binaries, batch[i]), {}))
  }

  function EnvironmentFor(options: Options, x: Item, p: PackageId): Environment {
    Environment(
      options,
      GroupsFor(x, p),
      (history: int) => (suite: set<PackageId>, q: PackageId) => false,
      (history: int, items: seq<Item>) => [],
      (q: PackageId) => Item("removal", p.architecture, true))
  }

  lemma HopelessUniverse(p: PackageId)
    ensures var u := Built(Hopeless(p), {});
      && WellFormed(u) && u.essential == {} && u.broken == {p} && u.relations.Keys == {p}
  {
    var decl := Hopeless(p);
    assert p in decl && {} in decl[p].clauses;
    forall q, clause, d | clause in ClausesOf(decl, q) && d in clause
      ensures false
    {
    }
    assert forall q :: BreaksOf(decl, q) == {};
    BuildWellFormed(decl, {});
  }

  /** The test is right: nothing is installable. */
  lemma HopelessTest(options: Options, x: Item, p: PackageId)
    ensures AlwaysReliable(Built(Hopeless(p), {}), EnvironmentFor(options, x, p))
  {
    var u := Built(Hopeless(p), {});
    HopelessUniverse(p);
    forall suite, q, m
      ensures !Witness(u, suite, q, m)
    {
      if Witness(u, suite, q, m) {
        assert u.Knows(q);
        BrokenInNoClosedSet(u, m, q);
      }
    }
  }

  lemma HopelessTrusted(options: Options, x: Item, p: PackageId)
    requires options.architectures <= options.allowUninst.Keys
    requires p.architecture == x.architecture && x.architecture in options.architectures
    ensures Trusted(Built(Hopeless(p), {}), EnvironmentFor(options, x, p))
  {
    HopelessUniverse(p);
    var u, env := Built(Hopeless(p), {}), EnvironmentFor(options, x, p);
    assert u.Knows(p);
    assert GroupsPromise(u, env.groups);
  }

  // ---------------------------------------------------------------------------------------------
  // What an attempt does
  // ---------------------------------------------------------------------------------------------

  /** At most `p` is in the suite. */
  predicate AtMost(p: PackageId, binaries: Binaries) {
    binaries == map[] || binaries == map[KeyOf(p) := p]
  }

  lemma OneItem(binaries: Binaries, item: Item, x: Item, p: PackageId)
    requires AtMost(p, binaries)
    ensures var c := ChangeOf(x, p, binaries, item);
      && DistinctKeys(c.updates) && AtMost(p, BinariesAfter(binaries, c))
      && (KeyOf(p) in binaries || item == x ==> KeyOf(p) in BinariesAfter(binaries, c))
      && (KeyOf(p) in BinariesAfter(binaries, c) ==> KeyOf(p) in binaries || (c == AddOnly(p) && item == x))
  {
    assert BinariesWithout(binaries, {}) == binaries;
    ByKeyAt({p});
    assert ByKey({p}) == map[KeyOf(p) := p] && ByKey({}) == map[];
  }

  lemma {:induction false} Brought(u: Universe, data: Packages, batch: seq<Item>, states: seq<SuiteState>, items: seq<Change>,
                                   x: Item, p: PackageId, i: nat)
    requires Plan(u, data, states, items) && Follows(GroupsFor(x, p), batch, states, items)
    requires AtMost(p, states[0].binaries) && i <= |items|
    ensures AtMost(p, states[i].binaries)
    ensures KeyOf(p) in states[0].binaries || x in batch[..i] ==> KeyOf(p) in states[i].binaries
    ensures KeyOf(p) in states[i].binaries && KeyOf(p) !in states[0].binaries ==>
      exists j :: 0 <= j < i && items[j] == AddOnly(p) && batch[j] == x
  {
    if i > 0 {
      Brought(u, data, batch, states, items, x, p, i - 1);
      assert PlanAt(u, data, states, items, i - 1);
      assert items[i - 1] == ChangeOf(x, p, states[i - 1].binaries, batch[i - 1]);
      OneItem(states[i - 1].binaries, batch[i - 1], x, p);
      assert batch[..i] == batch[..i - 1] + [batch[i - 1]];
    }
  }

  /** No component is ever rejected: only on an exempt architecture can anything get worse. */
  lemma NeverRejected(u: Universe, options: Options, x: Item, p: PackageId, a: Attempt)
    requires Tried(u, map[], EnvironmentFor(options, x, p), a) && AtMost(p, a.before.suite.binaries)
    requires p.architecture in options.breakArches * options.newArches
    ensures a.accepted
  {
    var env := EnvironmentFor(options, x, p);
    if !a.accepted {
      var n := |a.items|;
      Brought(u, map[], a.comp, a.states, a.items, x, p, n);
      var s, now, after := a.states[n], a.before.table, a.rechecked;
      var test := TestsOf(env.inst(a.past), s.contents);
      forall arch | arch in options.architectures && arch !in Exempt(env, a.comp)
        ensures !Worse(options, test, map[], s.binaries, a.affected, now, after, arch)
      {
        NotWorseOn(options, test, s.binaries, a.affected, now, after, arch, p);
      }
    }
  }

  lemma NotWorseOn(options: Options, test: PackageId -> bool, binaries: Binaries, affected: set<PackageId>, now: Nuninst,
                   after: Nuninst, arch: string, p: PackageId)
    requires AtMost(p, binaries) && arch != p.architecture
    ensures !Worse(options, test, map[], binaries, affected, now, after, arch)
  {
    if Worse(options, test, map[], binaries, affected, now, after, arch) {
      forall name | name in after.archs[arch]
        ensures name in now.archs[arch]
      {
        var k := BinaryKey(name, arch);
        assert k in binaries ==> k == KeyOf(p);
      }
      NotWorse(options.keepInstallable, now.archs[arch], after.archs[arch], options.allowUninst[arch]);
    }
  }

  lemma NotWorse(keep: set<string>, now: set<string>, after: set<string>, allow: set<string>)
    requires after <= now
    ensures !IsNuninstWorse(keep, now, after, allow)
  {
    var rest := (now - allow) - (after - allow);
    assert now - allow == (after - allow) + rest;
    assert after - now == {};
  }

  /** `p` is on record as uninstallable as soon as it is in the suite. */
  predicate OnRecord(p: PackageId, s: Standing) {
    && AtMost(p, s.suite.binaries)
    && (KeyOf(p) in s.suite.binaries ==>
          p.architecture in s.table.archs && p.packageName in s.table.archs[p.architecture])
  }

  lemma AdditionAffects(u: Universe, binaries: Binaries, enclosing: seq<LogEntry>, p: PackageId)
    ensures InTree(u, DirectlyAffected(u, binaries, enclosing, AddOnly(p)), p)
  {
    assert EqvKeys(u, {p}, {}) == {};
    assert p in UpdateAffects(u, BinariesWithout(binaries, {}), enclosing, {}, p);
    assert p in DirectlyAffected(u, binaries, enclosing, AddOnly(p));
  }

  lemma StaysOnRecord(u: Universe, options: Options, x: Item, p: PackageId, a: Attempt)
    requires Tried(u, map[], EnvironmentFor(options, x, p), a) && a.accepted && OnRecord(p, a.before)
    requires p.architecture == x.architecture && p.architecture in options.architectures
    ensures OnRecord(p, AfterAttempt(map[], a))
    ensures x in a.comp || KeyOf(p) in a.before.suite.binaries ==> KeyOf(p) in AfterAttempt(map[], a).suite.binaries
  {
    var n := |a.items|;
    var s, arch, k := a.states[n], p.architecture, KeyOf(p);
    Brought(u, map[], a.comp, a.states, a.items, x, p, n);
    assert a.comp[..n] == a.comp;
    if k in s.binaries {
      if k !in a.before.suite.binaries {
        var j :| 0 <= j < n && a.items[j] == AddOnly(p) && a.comp[j] == x;
        AdditionAffects(u, a.states[j].binaries, LastLog(a.before.logs), p);
        assert p in a.affected;
        assert arch in ItemArchs(a.comp);
      }
      assert k == BinaryKey(p.packageName, arch) && s.binaries[k] == p;
      assert p.packageName in a.rechecked.archs[arch];
    }
  }

  // ---------------------------------------------------------------------------------------------
  // The run
  // ---------------------------------------------------------------------------------------------

  /** Everything that was tried went in, and nothing was queued. */
  predicate AllWentIn(attempts: seq<Attempt>) {
    QueuedIn(attempts) == [] && forall a :: a in attempts ==> a.accepted
  }

  lemma {:induction false} RunGoesOn(u: Universe, options: Options, x: Item, p: PackageId, s0: Standing, attempts: seq<Attempt>,
                                     s: Standing)
    requires History(u, map[], EnvironmentFor(options, x, p), s0, attempts, s) && s0.suite.binaries == map[]
    requires p.architecture == x.architecture
    requires p.architecture in options.architectures * options.breakArches * options.newArches
    ensures AllWentIn(attempts) && OnRecord(p, s)
    ensures x in AcceptedIn(attempts) ==> KeyOf(p) in s.suite.binaries
  {
    if attempts != [] {
      var n := |attempts| - 1;
      RunGoesOn(u, options, x, p, s0, attempts[..n], attempts[n].before);
      StepGoesOn(u, options, x, p, attempts[..n], attempts[n]);
      Split(attempts);
    }
  }

  lemma Split(attempts: seq<Attempt>)
    requires attempts != []
    ensures attempts == attempts[..|attempts| - 1] + [attempts[|attempts| - 1]]
  {
  }

  lemma StepGoesOn(u: Universe, options: Options, x: Item, p: PackageId, earlier: seq<Attempt>, a: Attempt)
    requires AttemptMade(u, map[], EnvironmentFor(options, x, p), a) && AllWentIn(earlier) && OnRecord(p, a.before)
    requires p.architecture == x.architecture
    requires p.architecture in options.architectures * options.breakArches * options.newArches
    requires x in AcceptedIn(earlier) ==> KeyOf(p) in a.before.suite.binaries
    ensures AllWentIn(earlier + [a]) && OnRecord(p, AfterAttempt(map[], a))
    ensures x in AcceptedIn(earlier + [a]) ==> KeyOf(p) in AfterAttempt(map[], a).suite.binaries
  {
    NeverRejected(u, options, x, p, a);
    StaysOnRecord(u, options, x, p, a);
    NothingQueued(u, options, x, p, a);
    OneMoreIn(earlier, a);
  }

  lemma OneMoreIn(earlier: seq<Attempt>, a: Attempt)
    requires AllWentIn(earlier) && a.accepted && a.queued == []
    ensures AllWentIn(earlier + [a]) && AcceptedIn(earlier + [a]) == AcceptedIn(earlier) + a.comp
  {
    var all := earlier + [a];
    assert all[..|all| - 1] == earlier;
  }

  lemma NothingQueued(u: Universe, options: Options, x: Item, p: PackageId, a: Attempt)
    requires AttemptMade(u, map[], EnvironmentFor(options, x, p), a)
    ensures a.queued == []
  {
    var env := EnvironmentFor(options, x, p);
    assert a.accepted ==> SmoothOf(env.groups, a.comp, a.states) == {};
    SomeElement(a.queued);
  }

  lemma SomeElement(items: seq<Item>)
    ensures items != [] ==> Elements(items) != {}
  {
    if items != [] {
      assert items[0] in Elements(items);
    }
  }

  lemma {:induction false} AllMovable(x: Item, p: PackageId, s: SuiteState, items: seq<Item>)
    ensures Movable(GroupsFor(x, p), s, items) == items
  {
    if items != [] {
      var n := |items| - 1;
      AllMovable(x, p, s, items[..n]);
      assert items == items[..n] + [items[n]];
    }
  }

  /** All items were accepted. */
  lemma AllSelected(selected: seq<Item>, attempts: seq<Attempt>, left: seq<Item>)
    requires AllWentIn(attempts) && AllNamesDiffer(selected)
    requires Balanced(selected, QueuedIn(attempts), AcceptedIn(attempts), left)
    requires forall item :: item in left ==> TriedInVain(attempts, item)
    ensures multiset(AcceptedIn(attempts)) == multiset(selected)
  {
    assert selected + [] == selected;
    forall i: nat | i < |attempts|
      ensures !NoneAccepted(attempts, i)
    {
      assert attempts[i] in attempts;
    }
    assert Elements(left) == {};
    SomeElement(left);
  }

  /** A table without uninstallable packages. */
  function NothingBroken(options: Options): Nuninst {
    var nothing := map a | a in options.architectures :: {};
    Nuninst(nothing, nothing)
  }

  /** Its table is then worse than the empty one. */
  lemma RecordedIsWorse(options: Options, archs: seq<string>, selected: seq<Item>, accepted: seq<Item>, x: Item, p: PackageId,
                        n: Nuninst)
    requires forall a :: a in archs <==> a in options.architectures
    requires !SafeSelection(options, selected) && Culprit(options, selected, x, p) && multiset(accepted) == multiset(selected)
    requires p.architecture in n.archs && p.packageName in n.archs[p.architecture]
    ensures !AsGood(options, archs, NothingBroken(options), n, Ignored(options, accepted))
  {
    forall item | item in accepted
      ensures item.architecture in options.breakArches
    {
      assert item in multiset(selected);
    }
    if AsGood(options, archs, NothingBroken(options), n, {}) {
      OneMoreBroken(options, archs, NothingBroken(options), n, p.architecture, p.packageName);
    }
  }

  const EMPTY := SuiteState(map[], map[], map[], {})

  lemma EmptyStart(options: Options, u: Universe)
    ensures Sound(u, map[], EMPTY) && TableRight(u, map[], options, EMPTY, NothingBroken(options))
  {
  }

  /** For every selection that is not safe there is a main run that accepts exactly its items and fails
      the final comparison, although the engine is sound and the table right at the start, and the test
      of installability is right throughout. */
  method FailMainRun(options: Options, archs: seq<string>, selected: seq<Item>, x: Item, p: PackageId)
    returns (b: Britney, ok: bool, ghost attempts: seq<Attempt>, ghost end: Standing)
    requires options.architectures <= options.allowUninst.Keys && SOURCE !in options.breakArches
    requires forall a :: a in archs <==> a in options.architectures
    requires forall item :: item in selected ==> item.architecture in options.architectures + {SOURCE}
    requires AllNamesDiffer(selected) && !SafeSelection(options, selected) && Culprit(options, selected, x, p)
    ensures b.env.options == options && b.archs == archs
    ensures WellFormed(b.m.universe) && AlwaysReliable(b.m.universe, b.env)
    ensures Sound(b.m.universe, b.m.data, EMPTY) && TableRight(b.m.universe, b.m.data, options, EMPTY, NothingBroken(options))
    ensures History(b.m.universe, b.m.data, b.env, Standing(EMPTY, NothingBroken(options), []), attempts, end)
    ensures multiset(AcceptedIn(attempts)) == multiset(selected) && !ok
  {
    var u, env := Built(Hopeless(p), {}), EnvironmentFor(options, x, p);
    HopelessTrusted(options, x, p);
    HopelessTest(options, x, p);
    EmptyStart(options, u);
    var suite := new TargetSuite(EMPTY);
    var m := new MigrationManager(u, map[], suite);
    b := new Britney(m, env, archs, selected, NothingBroken(options));
    ghost var s0, left := Standing(EMPTY, NothingBroken(options), []), [];
    assert m.Logs() == [];
    ghost var rounds;
    ok, rounds, attempts, end, left := b.MainRun();
    assert x.architecture in options.breakArches;
    RunGoesOn(u, options, x, p, s0, attempts, end);
    AllMovable(x, p, EMPTY, selected);
    AllSelected(selected, attempts, left);
    assert x in multiset(AcceptedIn(attempts));
    RecordedIsWorse(options, archs, selected, AcceptedIn(attempts), x, p, end.table);
  }
}
