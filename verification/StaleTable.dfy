/** A batch after which the uninstallability table is wrong.

    The first item adds a binary, the second removes it again and adds an equivalent one.  The second
    item finds nothing to check because the two are equivalent, and the check of what the first item
    affects skips the first binary because it has left the suite. */
module StaleTable {
  import opened Universes
  import opened Builder
  import opened Transactions
  import opened Changes
  import opened Affected
  import opened Migration
  import opened Nuninsts
  import opened ItemMigration

  function Replace(p: PackageId, q: PackageId): Change {
    Change(q.packageName, q.architecture, false, q.version, {q}, {p})
  }

  /** Two equivalent versions of a binary that needs something, and a user of either. */
  ghost predicate IsExample(u: Universe, p: PackageId, q: PackageId, lib: PackageId, user: PackageId) {
    && WellFormed(u) && u.essential == {}
    && p != q && KeyOf(p) == KeyOf(q) && lib != q && p.architecture != SOURCE
    && u.AreEquivalent(q, p) && u.DependenciesOf(q) == {{lib}}
    && u.ReverseDependenciesOf(p) == {user} && u.ReverseDependenciesOf(user) == {}
    && u.NegativeDependenciesOf(p) == {}
  }

  // ---------------------------------------------------------------------------------------------
  // There is such a universe
  // ---------------------------------------------------------------------------------------------

  const OLD := PackageId("app", "1", "amd64")
  const NEW := PackageId("app", "2", "amd64")
  const LIB := PackageId("lib", "1", "amd64")
  const USER := PackageId("user", "1", "amd64")

  lemma Distinct()
    ensures OLD != NEW && OLD != LIB && OLD != USER && NEW != LIB && NEW != USER && LIB != USER
    ensures OLD.architecture != SOURCE
  {
    assert OLD.packageName[0] == 'a' && LIB.packageName[0] == 'l' && USER.packageName[0] == 'u';
    assert OLD.version[0] == '1' && NEW.version[0] == '2';
    assert OLD.architecture[0] == 'a' && SOURCE[0] == 's';
  }

  ghost predicate Declares(decl: Declarations, p: PackageId, q: PackageId, lib: PackageId, user: PackageId) {
    && decl == map[p := Declared({{lib}}, {}), q := Declared({{lib}}, {}), lib := NOTHING, user := Declared({{p, q}}, {})]
    && p != q && lib !in {p, q, user} && user !in {p, q}
    && p.architecture == q.architecture == lib.architecture == user.architecture
  }

  lemma DeclaredRelations(decl: Declarations, p: PackageId, q: PackageId, lib: PackageId, user: PackageId)
    requires Declares(decl, p, q, lib, user)
    ensures Broken(decl) == {} && DeclarationsLocal(decl) && Builder.AllAdded(decl)
    ensures ReverseClauses(decl, p) == ReverseClauses(decl, q) == {{p, q}}
    ensures ReverseDeps(decl, p) == {user} && ReverseDeps(decl, user) == {}
    ensures forall r :: r in decl ==> BreaksOf(decl, r) == ReverseBreaks(decl, r) == {}
  {
    assert lib in {lib} && p in {p, q};
    assert user in decl && {p, q} in decl[user].clauses;
  }

  lemma BuiltExample(decl: Declarations, u: Universe, p: PackageId, q: PackageId, lib: PackageId, user: PackageId)
    requires u == Built(decl, u.essential) && Broken(decl) == {}
    requires p in decl && q in decl && user in decl && decl[p] == decl[q] == Declared({{lib}}, {})
    requires ReverseClauses(decl, p) == ReverseClauses(decl, q) != {}
    requires ReverseBreaks(decl, p) == ReverseBreaks(decl, q) == {}
    ensures u.AreEquivalent(q, p) && u.DependenciesOf(q) == {{lib}}
    ensures u.ReverseDependenciesOf(p) == ReverseDeps(decl, p)
    ensures u.ReverseDependenciesOf(user) == ReverseDeps(decl, user)
    ensures u.NegativeDependenciesOf(p) == {}
  {
    BuiltUnbroken(decl, u, p);
    BuiltUnbroken(decl, u, q);
    BuiltUnbroken(decl, u, user);
    OneClass(decl, p, q);
  }

  lemma OneClass(decl: Declarations, p: PackageId, q: PackageId)
    requires Broken(decl) == {} && p in decl && q in decl && decl[p] == decl[q]
    requires ReverseClauses(decl, p) == ReverseClauses(decl, q) != {}
    requires ReverseBreaks(decl, p) == ReverseBreaks(decl, q)
    ensures p in BuiltClass(decl, q)
  {
    UnbrokenRelations(decl, p);
    UnbrokenRelations(decl, q);
    assert SameSignature(decl, q, p);
  }

  lemma ExampleExists() returns (u: Universe)
    ensures IsExample(u, OLD, NEW, LIB, USER)
  {
    Distinct();
    var decl: Declarations :=
      map[OLD := Declared({{LIB}}, {}), NEW := Declared({{LIB}}, {}), LIB := NOTHING, USER := Declared({{OLD, NEW}}, {})];
    u := Built(decl, {});
    DeclaredRelations(decl, OLD, NEW, LIB, USER);
    BuildWellFormed(decl, {});
    BuiltExample(decl, u, OLD, NEW, LIB, USER);
  }

  // ---------------------------------------------------------------------------------------------
  // What the batch does
  // ---------------------------------------------------------------------------------------------

  lemma SecondIsEquivalent(u: Universe, p: PackageId, q: PackageId)
    requires KeyOf(p) == KeyOf(q) && u.AreEquivalent(q, p)
    ensures EqvKeys(u, {q}, {p}) == {KeyOf(p)} && EqvKeys(u, {p}, {}) == {}
  {
    assert q in {q} && p in {p} && u.AreEquivalent(q, p);
  }

  /** Only the first binary and what needs it are affected, directly or not. */
  lemma WhatIsAffected(u: Universe, p: PackageId, q: PackageId, lib: PackageId, user: PackageId)
    requires IsExample(u, p, q, lib, user)
    ensures IsReverseTree(u, DirectlyAffected(u, map[], [], AddOnly(p)), {p, user})
    ensures IsReverseTree(u, DirectlyAffected(u, map[KeyOf(p) := p], [], Replace(p, q)), {})
  {
    SecondIsEquivalent(u, p, q);
    assert BinariesWithout(map[KeyOf(p) := p], {p}) == map[];
    assert EarlierAffects(u, [], KeyOf(p)) == {};
    assert UpdateAffects(u, map[], [], {}, p) == {p};
    assert p in {p};
    assert DirectlyAffected(u, map[], [], AddOnly(p)) == {p};
    assert UpdateAffects(u, map[], [], {KeyOf(p)}, q) == {};
    assert DirectlyAffected(u, map[KeyOf(p) := p], [], Replace(p, q)) == {};
    forall b | {p} <= b && ReverseClosed(u, b)
      ensures {p, user} <= b
    {
      assert user in u.ReverseDependenciesOf(p);
    }
  }

  lemma SingleKey(p: PackageId)
    ensures DistinctKeys({p}) && ByKey({p}) == map[KeyOf(p) := p]
    ensures (map[KeyOf(p) := p]).Values == {p}
  {
    ByKeyAt({p});
    assert (map[KeyOf(p) := p])[KeyOf(p)] == p;
  }

  lemma SecondIsBad(u: Universe, p: PackageId, q: PackageId, lib: PackageId, user: PackageId, binaries: Binaries)
    requires IsExample(u, p, q, lib, user) && binaries == map[KeyOf(p) := q]
    ensures Bad(u, binaries, KeyOf(p)) && !Bad(u, map[], KeyOf(p))
  {
    SingleKey(q);
    forall m
      ensures !Witness(u, {q}, q, m)
    {
      assert Witness(u, {q}, q, m) ==> Satisfied(u, q, m) && Hits({lib}, m);
    }
  }

  lemma Replaced(u: Universe, p: PackageId, q: PackageId)
    requires KeyOf(p) == KeyOf(q) && u.AreEquivalent(q, p)
    ensures KeyOf(p) in ReplacedKeys(u, [AddOnly(p), Replace(p, q)])
  {
    SecondIsEquivalent(u, p, q);
    var items := [AddOnly(p), Replace(p, q)];
    assert items[0].updates == {p} && items[0].rms == {} && items[1].rms == {p} && items[1].updates == {q};
    assert p in items[1].rms && KeyOf(p) in EqvKeys(u, items[1].updates, items[1].rms);
    ReplacedAddition(u, items, 0, p);
  }

  lemma ReplacedAddition(u: Universe, items: seq<Change>, i: nat, p: PackageId)
    requires i < |items| && p in Fresh(u, items[i]) && LaterReplaced(u, items, i + 1, p)
    ensures KeyOf(p) in ReplacedKeys(u, items)
  {
  }

  lemma EmptyTable(u: Universe, archs: set<string>) returns (now: Nuninst)
    ensures Nuninsts.Covers(now, archs) && AllAgree(u, map[], now, archs)
    ensures forall a :: a in archs ==> now.archs[a] == {} && now.withAll[a] == {}
  {
    var nothing: map<string, set<string>> := map a | a in archs :: {};
    now := Nuninst(nothing, nothing);
  }

  // ---------------------------------------------------------------------------------------------
  // The engine accepts it
  // ---------------------------------------------------------------------------------------------

  const BATCH := [Item("app/1", "amd64", false), Item("app/2", "amd64", false)]

  /** The groups of the two items: the first adds the old version, the second replaces it. */
  function ExampleGroup(s: SuiteState, batch: seq<Item>, i: nat): Option<Group> {
    if |batch| <= i || batch[i].architecture != "amd64" || batch[i].isCruft then None
    else if batch[i].name == "app/1" then Some(Group(AddOnly(OLD), {}))
    else if OLD in s.binaries.Values then Some(Group(Replace(OLD, NEW), {}))
    else None
  }

  lemma ExamplePromise(u: Universe)
    requires IsExample(u, OLD, NEW, LIB, USER)
    ensures GroupsPromise(u, ExampleGroup)
  {
    Distinct();
    assert u.Knows(OLD) && u.Knows(NEW) by {
      assert Interchangeable(u, NEW, OLD);
    }
    assert DistinctKeys({OLD}) && DistinctKeys({NEW});
  }

  /** What the batch does, seen from its groups. */
  lemma BatchNamesDiffer()
    ensures BATCH[0].name != BATCH[1].name
  {
    assert BATCH[0].name == "app/1" && BATCH[1].name == "app/2" && "app/1"[4] != "app/2"[4];
  }

  lemma FirstFollowed(u: Universe, states: seq<SuiteState>, items: seq<Change>)
    requires Plan(u, map[], states, items) && Follows(ExampleGroup, BATCH, states, items)
    requires states[0].binaries == map[]
    requires |items| < 2 ==> ExampleGroup(states[|items|], BATCH, |items|).None?
    ensures |items| > 0 && items[0] == AddOnly(OLD) && states[1].binaries == map[KeyOf(OLD) := OLD]
  {
    SingleKey(OLD);
    assert |items| > 0 ==> items[0] == AddOnly(OLD);
    assert |items| > 0;
    assert PlanAt(u, map[], states, items, 0);
  }

  lemma BatchFollowed(u: Universe, states: seq<SuiteState>, items: seq<Change>)
    requires Plan(u, map[], states, items) && Follows(ExampleGroup, BATCH, states, items)
    requires states[0].binaries == map[]
    requires |items| < 2 ==> ExampleGroup(states[|items|], BATCH, |items|).None?
    ensures |items| == 2 && items == [AddOnly(OLD), Replace(OLD, NEW)]
    ensures states[1].binaries == map[KeyOf(OLD) := OLD] && states[2].binaries == map[KeyOf(OLD) := NEW]
  {
    Distinct();
    SingleKey(OLD);
    SingleKey(NEW);
    BatchNamesDiffer();
    FirstFollowed(u, states, items);
    assert |items| > 1 ==> items[1] == Replace(OLD, NEW);
    assert |items| == 2;
    assert PlanAt(u, map[], states, items, 1);
  }

  /** The affected packages are the first binary and what needs it. */
  lemma BatchAffects(u: Universe, states: seq<SuiteState>, items: seq<Change>, affected: set<PackageId>)
    requires IsExample(u, OLD, NEW, LIB, USER) && |states| == 3 && items == [AddOnly(OLD), Replace(OLD, NEW)]
    requires states[0].binaries == map[] && states[1].binaries == map[KeyOf(OLD) := OLD]
    requires AffectedBy(u, [], states, items, affected)
    ensures affected == {OLD, USER}
  {
    var first, second := DirectlyAffected(u, map[], [], AddOnly(OLD)), DirectlyAffected(u, states[1].binaries, [], Replace(OLD, NEW));
    WhatIsAffected(u, OLD, NEW, LIB, USER);
    TreeMembers(u, first, {OLD, USER});
    TreeMembers(u, second, {});
    forall x
      ensures x in affected <==> x in {OLD, USER}
    {
      AffectedByTwo(u, states, items, affected, x);
      assert x in {OLD, USER} <==> InTree(u, first, x);
      assert !InTree(u, second, x);
    }
  }

  lemma AffectedByTwo(u: Universe, states: seq<SuiteState>, items: seq<Change>, affected: set<PackageId>, x: PackageId)
    requires |states| == 3 && |items| == 2 && AffectedBy(u, [], states, items, affected)
    ensures x in affected <==>
      InTree(u, DirectlyAffected(u, states[0].binaries, [], items[0]), x) || InTree(u, DirectlyAffected(u, states[1].binaries, [], items[1]), x)
  {
    if x in affected {
      var i :| 0 <= i < 2 && InTree(u, DirectlyAffected(u, states[i].binaries, [], items[i]), x);
      assert i == 0 || i == 1;
    }
  }

  /** Nothing that the suite holds is affected, so the recheck leaves the empty table as it is. */
  lemma NothingRechecked(options: Options, test: PackageId -> bool, binaries: Binaries, now: Nuninst, n: Nuninst, arch: string)
    requires binaries == map[KeyOf(OLD) := NEW] && Nuninsts.Covers(now, {arch}) && Nuninsts.Covers(n, {arch})
    requires now.archs[arch] == {} && now.withAll[arch] == {}
    requires Updated(test, map[], options.nobreakall, binaries, {OLD, USER}, now, n, arch)
    ensures n.archs[arch] == {} && n.withAll[arch] == {}
  {
    Distinct();
    assert forall k :: !Rechecked(binaries, {OLD, USER}, k);
    forall name
      ensures name !in n.archs[arch] && name !in n.withAll[arch]
    {
    }
  }

  lemma OutcomeStale(u: Universe, options: Options, test: PackageId -> bool, binaries: Binaries, now: Nuninst,
                     accepted: bool, after: Nuninst, exempt: set<string>)
    requires IsExample(u, OLD, NEW, LIB, USER) && binaries == map[KeyOf(OLD) := NEW]
    requires "amd64" in options.architectures && Empty(now, options.architectures)
    requires !accepted ==> SomeWorse(options, {"amd64"}, exempt, test, map[], binaries, {OLD, USER}, now, after)
    requires accepted ==> UpdatedTable(options, test, map[], binaries, {OLD, USER}, {"amd64"}, now, after)
    ensures accepted && !Installable(u, binaries.Values, NEW)
    ensures !AllAgree(u, binaries, after, options.architectures)
  {
    SingleKey(NEW);
    SecondIsBad(u, OLD, NEW, LIB, USER, binaries);
    forall a | a in options.architectures
      ensures !Worse(options, test, map[], binaries, {OLD, USER}, now, after, a)
    {
      if Worse(options, test, map[], binaries, {OLD, USER}, now, after, a) {
        NothingRechecked(options, test, binaries, now, after, a);
      }
    }
    NothingRechecked(options, test, binaries, now, after, "amd64");
    assert Bad(u, binaries, BinaryKey("app", "amd64"));
    assert "app" !in after.withAll["amd64"];
  }

  ghost predicate Empty(now: Nuninst, archs: set<string>) {
    Nuninsts.Covers(now, archs) && forall a :: a in archs ==> now.archs[a] == {} && now.withAll[a] == {}
  }

  /** Whatever the test of installability answers, the engine takes the batch into the empty suite and
      accepts it with the table it had.  That was right for the empty suite, but the binary that is in
      the suite now is uninstallable. */
  method AcceptStaleTable(options: Options, inst: (set<PackageId>, PackageId) -> bool, u: Universe)
    returns (now: Nuninst, outcome: Outcome, binaries: Binaries)
    requires IsExample(u, OLD, NEW, LIB, USER)
    requires "amd64" in options.architectures && options.architectures <= options.allowUninst.Keys
    ensures AllAgree(u, map[], now, options.architectures)
    ensures outcome.Checked? && outcome.accepted
    ensures !Installable(u, binaries.Values, NEW)
    ensures !AllAgree(u, binaries, outcome.after, options.architectures)
  {
    ExamplePromise(u);
    var suite := new TargetSuite(SuiteState(map[], map[], map[], {}));
    var m := new MigrationManager(u, map[], suite);
    var nothing: map<string, set<string>> := map a | a in options.architectures :: {};
    now := Nuninst(nothing, nothing);
    assert ItemArchs(BATCH) == {"amd64"} by {
      assert BATCH[0].architecture == "amd64" && BATCH[1].architecture == "amd64";
    }
    ghost var affected, states, items;
    outcome, affected, states, items := MigrateItems(m, ExampleGroup, BATCH, now, options, inst, true);
    binaries := m.suite.binaries;
    BatchFollowed(u, states, items);
    BatchAffects(u, states, items, affected);
    Distinct();
    OutcomeStale(u, options, TestsOf(inst, m.suite.contents), binaries, now, outcome.accepted, outcome.after,
                 Tolerated(options, SOURCE in ItemArchs(BATCH)));
  }

  /** There is such a universe. */
  lemma StaleTableExists() returns (u: Universe)
    ensures IsExample(u, OLD, NEW, LIB, USER)
    ensures KeyOf(OLD) in ReplacedKeys(u, [AddOnly(OLD), Replace(OLD, NEW)])
  {
    u := ExampleExists();
    Replaced(u, OLD, NEW);
  }
}
