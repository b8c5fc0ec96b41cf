/** The greedy upgrade run: components of items are tried one after the other, split when they fail
    and tried again whenever something else has succeeded. */
module UpgradeLoop {
  import opened Graphs
  import opened Universes
  import opened Transactions
  import opened Changes
  import opened Affected
  import opened Migration
  import opened Nuninsts
  import opened ItemMigration
  import opened InstallabilitySolver

  // ---------------------------------------------------------------------------------------------
  // The environment of a run
  // ---------------------------------------------------------------------------------------------

  /** The tester and the scheduler remember what happened before, so their answers may differ from one
      call to the next: `inst` and `order` give an answer for every possible history. */
  datatype Environment = Environment(
    options: Options,
    groups: Groups,
    inst: int -> (set<PackageId>, PackageId) -> bool,
    order: (int, seq<Item>) -> seq<Constraint>,
    cruftItem: PackageId -> Item)

  function NamesOf(items: seq<Item>): set<Key> {
    set item | item in items :: item.name
  }

  ghost predicate Trusted(u: Universe, env: Environment) {
    && WellFormed(u)
    && GroupsPromise(u, env.groups)
    && env.options.architectures <= env.options.allowUninst.Keys
    && OrderNames(env)
    && CruftNames(env)
  }

  /** The constraints are about the items to be ordered. */
  ghost predicate OrderNames(env: Environment) {
    forall history, items, c {:trigger c in env.order(history, items)} :: c in env.order(history, items) ==>
      c.key in NamesOf(items) && c.other in NamesOf(items)
  }

  ghost predicate CruftNames(env: Environment) {
    forall p :: env.cruftItem(p).isCruft && env.cruftItem(p).architecture in env.options.architectures
  }

  predicate OnKnownArchs(env: Environment, items: seq<Item>) {
    forall item :: item in items ==> item.architecture in env.options.architectures + {SOURCE}
  }

  /** Equivalent packages are both arch:all or both not. */
  ghost predicate EquivalentsKeepStatus(u: Universe, data: Packages) {
    forall p, q {:trigger u.AreEquivalent(p, q)} :: u.AreEquivalent(p, q) ==> (IsArchAll(data, p) <==> IsArchAll(data, q))
  }

  /** The test of installability is right, whatever happened before. */
  ghost predicate AlwaysReliable(u: Universe, env: Environment) {
    forall history {:trigger env.inst(history)} :: Reliable(u, env.inst(history))
  }

  /** The table is the one a compilation from scratch would give. */
  ghost predicate TableRight(u: Universe, data: Packages, options: Options, s: SuiteState, n: Nuninst) {
    Agrees(u, data, options.nobreakall, s.binaries, n, options.architectures)
  }

  /** With a reliable test the table is right if it was right. */
  ghost predicate TableKept(u: Universe, data: Packages, env: Environment, s0: SuiteState, n0: Nuninst, s: SuiteState, n: Nuninst) {
    AlwaysReliable(u, env) ==>
      && (AllAgree(u, s0.binaries, n0, env.options.architectures) ==> AllAgree(u, s.binaries, n, env.options.architectures))
      && (EquivalentsKeepStatus(u, data) && TableRight(u, data, env.options, s0, n0) ==> TableRight(u, data, env.options, s, n))
  }

  lemma NeverWorseTransitive(options: Options, exempt: set<string>, n0: Nuninst, n1: Nuninst, n2: Nuninst)
    requires Nuninsts.Covers(n0, options.architectures) && Nuninsts.Covers(n1, options.architectures)
    requires Nuninsts.Covers(n2, options.architectures) && options.architectures <= options.allowUninst.Keys
    requires NeverWorse(options, exempt, n0, n1) && NeverWorse(options, exempt, n1, n2)
    ensures NeverWorse(options, exempt, n0, n2)
  {
    forall a | a in options.architectures && a !in exempt
      ensures !IsNuninstWorse(options.keepInstallable, n0.archs[a], n2.archs[a], options.allowUninst[a])
    {
      assert !IsNuninstWorse(options.keepInstallable, n0.archs[a], n1.archs[a], options.allowUninst[a]);
      assert !IsNuninstWorse(options.keepInstallable, n1.archs[a], n2.archs[a], options.allowUninst[a]);
    }
  }

  // ---------------------------------------------------------------------------------------------
  // One attempt
  // ---------------------------------------------------------------------------------------------

  /** Where a run stands: the suite, the table and the logs of the open transactions. */
  datatype Standing = Standing(suite: SuiteState, table: Nuninst, logs: seq<seq<LogEntry>>)

  /** What an attempt to migrate a component did: where the run stood, the states that the suite went
      through, what was affected, what the tester had been asked before, the table after the recheck,
      whether the component was accepted, and which removals of cruft it put on the worklist. */
  datatype Attempt = Attempt(
    comp: seq<Item>,
    before: Standing,
    states: seq<SuiteState>,
    items: seq<Change>,
    affected: set<PackageId>,
    past: int,
    rechecked: Nuninst,
    accepted: bool,
    queued: seq<Item>)

  /** The states are those that the groups of the component prescribe, as far as they can be computed;
      only a component whose groups can all be computed is accepted. */
  ghost predicate Attempted(u: Universe, data: Packages, groups: Groups, comp: seq<Item>, states: seq<SuiteState>,
                            items: seq<Change>, accepted: bool) {
    && Plan(u, data, states, items) && Follows(groups, comp, states, items)
    && (|items| < |comp| ==> !accepted && groups(states[|items|], comp, |items|).None?)
  }

  /** A component is accepted exactly if all its groups can be computed and the recheck finds no
      architecture worse than is tolerated. */
  ghost predicate Judged(data: Packages, env: Environment, a: Attempt)
    requires |a.states| == |a.items| + 1
  {
    var options, s, now := env.options, a.states[|a.items|], a.before.table;
    var test, exempt := TestsOf(env.inst(a.past), s.contents), Exempt(env, a.comp);
    var archs := AffectedArchitectures(ItemArchs(a.comp), options.architectures);
    && options.architectures <= options.allowUninst.Keys
    && Nuninsts.Covers(now, options.architectures) && Nuninsts.Covers(a.rechecked, options.architectures)
    && (a.accepted ==>
          && UpdatedTable(options, test, data, s.binaries, a.affected, archs, now, a.rechecked)
          && NeverWorse(options, exempt, now, a.rechecked))
    && (!a.accepted && |a.items| == |a.comp| ==>
          SomeWorse(options, archs, exempt, test, data, s.binaries, a.affected, now, a.rechecked))
  }

  /** A component all of whose groups can be computed is accepted exactly if none of the rechecked
      architectures regresses, save those that may. */
  lemma JudgedExactly(data: Packages, env: Environment, a: Attempt)
    requires |a.states| == |a.items| + 1 && Judged(data, env, a) && |a.items| == |a.comp|
    requires OnKnownArchs(env, a.comp)
    ensures var s := a.states[|a.items|];
      AcceptedExactly(env.options, ItemArchs(a.comp), TestsOf(env.inst(a.past), s.contents), data, s.binaries, a.affected,
                      AffectedArchitectures(ItemArchs(a.comp), env.options.architectures), a.before.table, a.accepted)
  {
    var s := a.states[|a.items|];
    KnownArchs(env, a.comp);
    AcceptanceExact(env.options, ItemArchs(a.comp), TestsOf(env.inst(a.past), s.contents), data, s.binaries, a.affected,
                    AffectedArchitectures(ItemArchs(a.comp), env.options.architectures), a.before.table, a.accepted, a.rechecked);
  }

  lemma KnownArchs(env: Environment, items: seq<Item>)
    requires OnKnownArchs(env, items)
    ensures AffectedArchitectures(ItemArchs(items), env.options.architectures) <= env.options.architectures
  {
    forall a | a in ItemArchs(items)
      ensures a in env.options.architectures + {SOURCE}
    {
      var i :| 0 <= i < |items| && items[i].architecture == a;
      assert items[i] in items;
    }
  }

  /** An attempt as the program makes it. */
  ghost predicate Tried(u: Universe, data: Packages, env: Environment, a: Attempt) {
    && Attempted(u, data, env.groups, a.comp, a.states, a.items, a.accepted) && a.states[0] == a.before.suite
    && AffectedBy(u, LastLog(a.before.logs), a.states, a.items, a.affected)
    && Judged(data, env, a)
  }

  /** Where a run stands after an attempt. */
  ghost function AfterAttempt(data: Packages, a: Attempt): Standing
    requires |a.states| == |a.items| + 1
  {
    Standing(
      EndOf(data, a.states, a.items, a.accepted),
      if a.accepted then a.rechecked else a.before.table,
      ExtendLast(a.before.logs, EntriesTaken(data, a)))
  }

  /** What an attempt leaves in the log around it. */
  ghost function EntriesTaken(data: Packages, a: Attempt): seq<LogEntry>
    requires |a.states| == |a.items| + 1
  {
    if a.accepted then EntriesOf(data, a.states, a.items) else []
  }

  function LastLog(logs: seq<seq<LogEntry>>): seq<LogEntry> {
    if logs == [] then [] else logs[|logs| - 1]
  }

  // An attempt is determined by the component, by where the run stands and by what the tester answers.

  lemma {:induction false} SameSteps(u: Universe, data: Packages, groups: Groups, comp: seq<Item>, states: seq<SuiteState>,
                                     items: seq<Change>, states': seq<SuiteState>, items': seq<Change>, i: nat)
    requires Plan(u, data, states, items) && Follows(groups, comp, states, items)
    requires Plan(u, data, states', items') && Follows(groups, comp, states', items')
    requires states[0] == states'[0] && i <= |items| && i <= |items'|
    ensures states[..i + 1] == states'[..i + 1] && items[..i] == items'[..i]
  {
    if i > 0 {
      SameSteps(u, data, groups, comp, states, items, states', items', i - 1);
      var n := i - 1;
      assert states[n] == states[..i][n] == states'[n];
      assert items[n] == items'[n];
      assert PlanAt(u, data, states, items, n) && PlanAt(u, data, states', items', n);
      assert states[..i + 1] == states[..i] + [states[i]] && states'[..i + 1] == states'[..i] + [states'[i]];
      assert items[..i] == items[..n] + [items[n]] && items'[..i] == items'[..n] + [items'[n]];
    }
  }

  lemma FollowsAt(groups: Groups, comp: seq<Item>, states: seq<SuiteState>, items: seq<Change>, i: nat)
    requires Follows(groups, comp, states, items) && i < |items|
    ensures groups(states[i], comp, i).Some?
  {
    var c := items[i];
  }

  lemma SamePlan(u: Universe, data: Packages, groups: Groups, comp: seq<Item>, states: seq<SuiteState>, items: seq<Change>,
                 accepted: bool, states': seq<SuiteState>, items': seq<Change>, accepted': bool)
    requires Attempted(u, data, groups, comp, states, items, accepted)
    requires Attempted(u, data, groups, comp, states', items', accepted') && states[0] == states'[0]
    ensures states == states' && items == items'
  {
    var n := if |items| < |items'| then |items| else |items'|;
    SameSteps(u, data, groups, comp, states, items, states', items', n);
    assert states[n] == states[..n + 1][n] == states'[n];
    if n < |items| {
      FollowsAt(groups, comp, states, items, n);
    }
    if n < |items'| {
      FollowsAt(groups, comp, states', items', n);
    }
    assert items[..|items|] == items && states[..|states|] == states;
    assert items'[..|items'|] == items' && states'[..|states'|] == states';
  }

  lemma SameAffected(u: Universe, data: Packages, env: Environment, a: Attempt, b: Attempt)
    requires Tried(u, data, env, a) && Tried(u, data, env, b) && a.before == b.before && a.states == b.states && a.items == b.items
    ensures a.affected == b.affected
  {
    var enclosing := LastLog(a.before.logs);
    forall x
      ensures x in a.affected <==> x in b.affected
    {
      assert x in a.affected <==>
        exists i :: 0 <= i < |a.items| && InTree(u, DirectlyAffected(u, a.states[i].binaries, enclosing, a.items[i]), x);
    }
  }

  lemma NotBoth(data: Packages, env: Environment, a: Attempt, b: Attempt)
    requires |a.states| == |a.items| + 1 && |b.states| == |b.items| + 1 && Judged(data, env, a) && Judged(data, env, b)
    requires a.comp == b.comp && a.before == b.before && a.states == b.states && a.items == b.items && a.past == b.past
    requires a.affected == b.affected && |a.items| == |a.comp| && a.accepted
    ensures b.accepted
  {
    if !b.accepted {
      var options, s, now := env.options, a.states[|a.items|], a.before.table;
      var test := TestsOf(env.inst(a.past), s.contents);
      var arch :| arch in AffectedArchitectures(ItemArchs(a.comp), options.architectures) && arch in options.architectures
        && arch !in Exempt(env, a.comp)
        && Worse(options, test, data, s.binaries, a.affected, now, b.rechecked, arch);
      SameOn(test, data, options.nobreakall, s.binaries, a.affected, now, a.rechecked, b.rechecked, arch);
    }
  }

  lemma SameRecheck(options: Options, test: PackageId -> bool, data: Packages, binaries: Binaries, affected: set<PackageId>,
                    archs: set<string>, now: Nuninst, n: Nuninst, n': Nuninst)
    requires UpdatedTable(options, test, data, binaries, affected, archs, now, n)
    requires UpdatedTable(options, test, data, binaries, affected, archs, now, n')
    ensures n == n'
  {
    forall arch | arch in archs
      ensures n.archs[arch] == n'.archs[arch] && n.withAll[arch] == n'.withAll[arch]
    {
      SameOn(test, data, options.nobreakall, binaries, affected, now, n, n', arch);
    }
    assert n.archs == n'.archs && n.withAll == n'.withAll;
  }

  /** The verdict on a component and where the run stands afterwards are determined. */
  lemma Determined(u: Universe, data: Packages, env: Environment, a: Attempt, b: Attempt)
    requires Tried(u, data, env, a) && Tried(u, data, env, b)
    requires a.comp == b.comp && a.before == b.before && a.past == b.past
    ensures a.accepted == b.accepted && AfterAttempt(data, a) == AfterAttempt(data, b)
  {
    SamePlan(u, data, env.groups, a.comp, a.states, a.items, a.accepted, b.states, b.items, b.accepted);
    SameAffected(u, data, env, a, b);
    if a.accepted {
      NotBoth(data, env, a, b);
      var s := a.states[|a.items|];
      SameRecheck(env.options, TestsOf(env.inst(a.past), s.contents), data, s.binaries, a.affected,
                  AffectedArchitectures(ItemArchs(a.comp), env.options.architectures), a.before.table, a.rechecked, b.rechecked);
    } else if b.accepted {
      NotBoth(data, env, b, a);
    }
  }

  /** The suite after an attempt. */
  ghost function EndOf(data: Packages, states: seq<SuiteState>, items: seq<Change>, accepted: bool): SuiteState
    requires |states| == |items| + 1
  {
    if accepted then states[|items|] else RolledBack(states[|items|], EntriesOf(data, states, items))
  }

  /** A rejected component leaves no trace. */
  ghost predicate Traceless(data: Packages, states: seq<SuiteState>, items: seq<Change>, accepted: bool)
    requires |states| == |items| + 1
  {
    accepted || Reversible(states[0], EntriesOf(data, states, items))
  }

  /** An accepted component replaces none of its own additions by an equivalent; a rejected one removes
      and replaces none of them. */
  ghost predicate Harmless(u: Universe, data: Packages, states: seq<SuiteState>, items: seq<Change>, accepted: bool)
    requires |states| == |items| + 1
  {
    if accepted then ReplacedKeys(u, items) == {} else Reversible(states[0], EntriesOf(data, states, items))
  }

  /** Nothing taken back means nothing replaced by an equivalent either. */
  lemma KeptAdditionsHarmless(u: Universe, data: Packages, states: seq<SuiteState>, items: seq<Change>, accepted: bool)
    requires Plan(u, data, states, items) && Sound(u, data, states[0]) && KeepsAdditions(EntriesOf(data, states, items))
    ensures Harmless(u, data, states, items, accepted)
  {
    var log := EntriesOf(data, states, items);
    forall i, p | 0 <= i < |items| && p in Fresh(u, items[i])
      ensures !LaterReplaced(u, items, i + 1, p)
    {
      forall j | i + 1 <= j < |items|
        ensures p !in items[j].rms
      {
        assert p in log[i].updated && log[j] == EntryOf(data, states[j], items[j]);
        assert PlanAt(u, data, states, items, j);
        RemovalsRecorded(states[j].binaries, items[j]);
        assert p !in log[j].undo.binaries.Values;
      }
    }
    PlanTraced(u, data, states, items);
    KeptAdditionsReversible(states, log);
  }

  lemma PlanTraced(u: Universe, data: Packages, states: seq<SuiteState>, items: seq<Change>)
    requires Plan(u, data, states, items) && Sound(u, data, states[0])
    ensures Trace(states, EntriesOf(data, states, items))
  {
    var log := EntriesOf(data, states, items);
    forall i | 0 <= i < |log|
      ensures RecordsAt(states, log, i)
    {
      assert PlanAt(u, data, states, items, i);
      SoundAt(u, data, states, items, i);
      StaysSound(u, data, states[i], items[i]);
    }
  }

  lemma RemovalsRecorded(binaries: Binaries, c: Change)
    requires c.rms <= binaries.Values
    ensures c.rms <= LostBinaries(binaries, c).Values
  {
    forall p | p in c.rms
      ensures p in LostBinaries(binaries, c).Values
    {
      var k :| k in binaries && binaries[k] == p;
      assert LostBinaries(binaries, c)[k] == p;
    }
  }

  lemma AcceptedKept(u: Universe, data: Packages, env: Environment, history: int, states: seq<SuiteState>, items: seq<Change>,
                     affected: set<PackageId>, now: Nuninst, after: Nuninst)
    requires WellFormed(u) && Plan(u, data, states, items) && Sound(u, data, states[0]) && AffectingAll(u, states, items, affected)
    requires ReplacedKeys(u, items) == {}
    requires Reliable(u, env.inst(history)) ==>
      IncrementalEqualsFull(u, data, env.options, states, items, affected, now, after)
    ensures TableKept(u, data, env, states[0], now, states[|items|], after)
  {
    if AlwaysReliable(u, env) {
      assert Reliable(u, env.inst(history));
      if EquivalentsKeepStatus(u, data) {
        forall k: BinaryKey | k in states[|items|].binaries && states[|items|].binaries[k] !in affected
          ensures k in states[0].binaries
          ensures IsArchAll(data, states[0].binaries[k]) <==> IsArchAll(data, states[|items|].binaries[k])
        {
          KeptBack(u, data, states, items, affected, k, 0);
        }
      }
    }
  }

  /** Where the items may make things worse. */
  function Exempt(env: Environment, items: seq<Item>): set<string> {
    Tolerated(env.options, SOURCE in ItemArchs(items))
  }

  /** Try a component inside a transaction of its own: it goes in and nothing gets worse that may not, or
      it is rolled back because its groups cannot be computed or something got worse, whatever the test
      of installability answers.  If the engine was intact, the suite is as it
      was after a rejection exactly when the log is reversible; a harmless attempt keeps the engine
      intact and the table right. */
  method Try(m: MigrationManager, env: Environment, comp: seq<Item>, now: Nuninst)
    returns (accepted: bool, after: Nuninst, smooth: set<PackageId>, ghost a: Attempt)
    requires m.Valid() && Trusted(m.universe, env)
    requires OnKnownArchs(env, comp) && Nuninsts.Covers(now, env.options.architectures)
    modifies m`transactions, m`records, m.transactions, m.suite
    ensures m.Valid() && m.transactions == old(m.transactions)
    ensures Tried(m.universe, m.data, env, a) && a.comp == comp && a.accepted == accepted
    ensures a.before == old(Standing(m.suite.State(), now, m.Logs()))
    ensures AfterAttempt(m.data, a) == Standing(m.suite.State(), after, m.Logs())
    ensures smooth == if accepted then SmoothOf(env.groups, comp, a.states) else {}
    ensures old(m.Intact()) && !accepted ==>
      (m.suite.State() == old(m.suite.State()) <==> Reversible(old(m.suite.State()), EntriesOf(m.data, a.states, a.items)))
    ensures old(m.Intact()) && Traceless(m.data, a.states, a.items, accepted) ==> m.Intact()
    ensures old(m.Intact()) && Harmless(m.universe, m.data, a.states, a.items, accepted) ==>
      TableKept(m.universe, m.data, env, old(m.suite.State()), now, m.suite.State(), after)
    ensures (forall item :: item in comp ==> item.isCruft) ==> smooth == {}
  {
    var t, outcome;
    t, outcome, a := MigrateInside(m, env, comp, now);
    if outcome.Checked? && outcome.accepted {
      m.CommitTransaction();
      return true, outcome.after, outcome.smooth, a;
    }
    RollBack(m, t, EntriesOf(m.data, a.states, a.items));
    ExtendTwice(a.before.logs, [], []);
    return false, now, {}, a;
  }

  /** Open a transaction and migrate a component in it. */
  method MigrateInside(m: MigrationManager, env: Environment, comp: seq<Item>, now: Nuninst)
    returns (t: MigrationTransactionState, outcome: Outcome, ghost a: Attempt)
    requires m.Valid() && Trusted(m.universe, env)
    requires OnKnownArchs(env, comp) && Nuninsts.Covers(now, env.options.architectures)
    modifies m`transactions, m`records, m.transactions, m.suite
    ensures m.Valid() && fresh(t) && m.transactions == old(m.transactions) + [t] && t.start == old(m.suite.State())
    ensures Tried(m.universe, m.data, env, a) && a.comp == comp
    ensures a.before == old(Standing(m.suite.State(), now, m.Logs()))
    ensures a.accepted <==> outcome.Checked? && outcome.accepted
    ensures t.undoItems == EntriesOf(m.data, a.states, a.items) && m.Logs() == old(m.Logs()) + [t.undoItems]
    ensures m.suite.State() == a.states[|a.items|]
    ensures old(m.Intact()) ==> m.Intact()
    ensures a.accepted ==> outcome.after == a.rechecked && outcome.smooth == SmoothOf(env.groups, comp, a.states)
    ensures a.accepted && old(m.Intact()) && ReplacedKeys(m.universe, a.items) == {} ==>
      TableKept(m.universe, m.data, env, old(m.suite.State()), now, m.suite.State(), outcome.after)
    ensures outcome.Checked? && (forall item :: item in comp ==> item.isCruft) ==> outcome.smooth == {}
  {
    ghost var before := Standing(m.suite.State(), now, m.Logs());
    t := m.StartTransaction();
    outcome, a := MigrateNow(m, env, comp, now, before);
    assert t.undoItems == EntriesOf(m.data, a.states, a.items) by {
      var n := |m.transactions| - 1;
      assert m.Frame(n, n + 1);
      assert m.Logs()[n] == t.undoItems;
    }
  }

  /** Migrate a component in the transaction that has just been opened for it. */
  method MigrateNow(m: MigrationManager, env: Environment, comp: seq<Item>, now: Nuninst, ghost before: Standing)
    returns (outcome: Outcome, ghost a: Attempt)
    requires m.Valid() && Trusted(m.universe, env)
    requires OnKnownArchs(env, comp) && Nuninsts.Covers(now, env.options.architectures)
    requires before.suite == m.suite.State() && before.table == now && m.Logs() == before.logs + [[]]
    modifies m.transactions, m`records, m.suite
    ensures m.Valid() && Tried(m.universe, m.data, env, a) && a.comp == comp && a.before == before
    ensures a.accepted <==> outcome.Checked? && outcome.accepted
    ensures m.Logs() == before.logs + [EntriesOf(m.data, a.states, a.items)] && m.suite.State() == a.states[|a.items|]
    ensures old(m.Intact()) ==> m.Intact()
    ensures a.accepted ==> outcome.after == a.rechecked && outcome.smooth == SmoothOf(env.groups, comp, a.states)
    ensures a.accepted && old(m.Intact()) && ReplacedKeys(m.universe, a.items) == {} ==>
      TableKept(m.universe, m.data, env, before.suite, now, m.suite.State(), outcome.after)
    ensures outcome.Checked? && (forall item :: item in comp ==> item.isCruft) ==> outcome.smooth == {}
  {
    m.EnclosingLog();
    ghost var affected, states, items;
    // what the tester answers may depend on all that it was asked before
    var past: int := *;
    outcome, affected, states, items := MigrateItems(m, env.groups, comp, now, env.options, env.inst(past), true);
    ghost var rechecked := if outcome.Checked? then outcome.after else now;
    a := Attempt(comp, before, states, items, affected, past, rechecked, outcome.Checked? && outcome.accepted, []);
    assert [] + EntriesOf(m.data, states, items) == EntriesOf(m.data, states, items);
    if a.accepted && old(m.Intact()) && ReplacedKeys(m.universe, items) == {} {
      AcceptedKept(m.universe, m.data, env, past, states, items, affected, now, outcome.after);
    }
  }

  /** Roll back the transaction of a rejected component. */
  method RollBack(m: MigrationManager, t: MigrationTransactionState, ghost entries: seq<LogEntry>)
    requires m.Valid() && m.transactions != [] && m.transactions[|m.transactions| - 1] == t && t.undoItems == entries
    modifies m`transactions, m`records, m.transactions, m.suite
    ensures m.Valid() && m.transactions == old(m.transactions[..|m.transactions| - 1])
    ensures m.Logs() == old(m.Logs()[..|m.transactions| - 1])
    ensures m.suite.State() == RolledBack(old(m.suite.State()), entries)
    ensures old(m.Intact()) ==> (m.suite.State() == t.start <==> Reversible(t.start, entries))
    ensures old(m.Intact()) && Reversible(t.start, entries) ==> m.Intact()
  {
    m.RollbackTransaction();
  }

  // ---------------------------------------------------------------------------------------------
  // The work of a run
  // ---------------------------------------------------------------------------------------------

  function Flatten(worklist: seq<seq<Item>>): seq<Item> {
    if worklist == [] then [] else Flatten(worklist[..|worklist| - 1]) + worklist[|worklist| - 1]
  }

  lemma FlattenAppend(worklist: seq<seq<Item>>, comp: seq<Item>)
    ensures Flatten(worklist + [comp]) == Flatten(worklist) + comp
  {
    assert (worklist + [comp])[..|worklist|] == worklist;
  }

  lemma {:induction false} FlattenPrepend(worklist: seq<seq<Item>>, comp: seq<Item>)
    ensures Flatten([comp] + worklist) == comp + Flatten(worklist)
  {
    var n := |worklist| - 1;
    if worklist == [] {
      assert [comp] + worklist == [] + [comp];
      FlattenAppend([], comp);
    } else {
      var front, last := worklist[..n], worklist[n];
      FlattenPrepend(front, comp);
      FlattenAppend([comp] + front, last);
      FlattenAppend(front, last);
      assert front + [last] == worklist && [comp] + worklist == [comp] + front + [last];
    }
  }

  function Singles(comp: seq<Item>): seq<seq<Item>> {
    seq(|comp|, i requires 0 <= i < |comp| => [comp[i]])
  }

  lemma {:induction false} FlattenSingles(worklist: seq<seq<Item>>, comp: seq<Item>)
    ensures Flatten(worklist + Singles(comp)) == Flatten(worklist) + comp
    ensures Effort(worklist + Singles(comp)) == Effort(worklist) + |comp|
  {
    if comp == [] {
      assert worklist + Singles(comp) == worklist;
    } else {
      var n := |comp| - 1;
      FlattenSingles(worklist, comp[..n]);
      assert worklist + Singles(comp) == (worklist + Singles(comp[..n])) + [[comp[n]]];
      FlattenAppend(worklist + Singles(comp[..n]), [comp[n]]);
      EffortAppend(worklist + Singles(comp[..n]), [comp[n]]);
      assert comp == comp[..n] + [comp[n]];
    }
  }

  /** How often the components can still be split and tried. */
  function Effort(worklist: seq<seq<Item>>): nat {
    if worklist == [] then 0
    else
      var comp := worklist[|worklist| - 1];
      Effort(worklist[..|worklist| - 1]) + if comp == [] then 1 else 2 * |comp| - 1
  }

  lemma EffortAppend(worklist: seq<seq<Item>>, comp: seq<Item>)
    ensures Effort(worklist + [comp]) == Effort(worklist) + if comp == [] then 1 else 2 * |comp| - 1
  {
    assert (worklist + [comp])[..|worklist|] == worklist;
  }

  /** The number of items that can still bring forth cruft. */
  function Sources(items: seq<Item>): nat {
    if items == [] then 0 else Sources(items[1..]) + if items[0].isCruft then 0 else 1
  }

  lemma {:induction false} SourcesConcat(a: seq<Item>, b: seq<Item>)
    ensures Sources(a + b) == Sources(a) + Sources(b)
  {
    if a == [] {
      assert a + b == b;
    } else {
      SourcesConcat(a[1..], b);
      assert (a + b)[1..] == a[1..] + b;
    }
  }

  lemma {:induction false} SourcesPositive(a: seq<Item>, item: Item)
    requires item in a && !item.isCruft
    ensures Sources(a) > 0
  {
    if item != a[0] {
      SourcesPositive(a[1..], item);
    }
  }

  lemma {:induction false} SourcesNone(a: seq<Item>)
    requires forall item :: item in a ==> item.isCruft
    ensures Sources(a) == 0
  {
    if a != [] {
      SourcesNone(a[1..]);
    }
  }

  function Elements(items: seq<Item>): set<Item> {
    set item | item in items
  }

  predicate NoDuplicates(items: seq<Item>) {
    forall i, j :: 0 <= i < j < |items| ==> items[i] != items[j]
  }

  /** Dropping repetitions and items cannot add work. */
  lemma {:induction false} SubListSmaller(a: seq<Item>, b: seq<Item>)
    requires NoDuplicates(a) && forall item :: item in a ==> item in b
    ensures |a| <= |b| && Sources(a) <= Sources(b)
    decreases |a|
  {
    if a != [] {
      var item := a[0];
      assert item in a;
      var k :| 0 <= k < |b| && b[k] == item;
      var rest := b[..k] + b[k + 1..];
      assert b == b[..k] + [item] + b[k + 1..];
      forall other | other in a[1..]
        ensures other in rest
      {
        assert other in a && other != item;
      }
      SubListSmaller(a[1..], rest);
      SourcesConcat(b[..k], [item] + b[k + 1..]);
      SourcesConcat([item], b[k + 1..]);
      SourcesConcat(b[..k], b[k + 1..]);
      assert b == b[..k] + ([item] + b[k + 1..]);
      assert Sources([item]) == if item.isCruft then 0 else 1;
    }
  }

  /** All that is still to be done. */
  function Pending(rescheduled: seq<Item>, maybe: seq<Item>, worklist: seq<seq<Item>>): seq<Item> {
    rescheduled + maybe + Flatten(worklist)
  }

  /** Work comes in three measures: items that can bring forth cruft, items, and steps on the worklist. */
  ghost predicate LessWork(rescheduled: seq<Item>, maybe: seq<Item>, worklist: seq<seq<Item>>, sources: nat, size: nat) {
    var pending := Pending(rescheduled, maybe, worklist);
    Sources(pending) < sources || (Sources(pending) == sources && |pending| < size)
  }

  lemma PendingWork(rescheduled: seq<Item>, maybe: seq<Item>, worklist: seq<seq<Item>>)
    ensures var pending := Pending(rescheduled, maybe, worklist);
      && Sources(pending) == Sources(rescheduled) + Sources(maybe) + Sources(Flatten(worklist))
      && |pending| == |rescheduled| + |maybe| + |Flatten(worklist)|
      && multiset(pending) == multiset(rescheduled) + multiset(maybe) + multiset(Flatten(worklist))
  {
    SourcesConcat(rescheduled + maybe, Flatten(worklist));
    SourcesConcat(rescheduled, maybe);
  }

  // ---------------------------------------------------------------------------------------------
  // Scheduling
  // ---------------------------------------------------------------------------------------------

  /** Every item comes under a name of its own. */
  predicate DistinctNames(items: set<Item>) {
    forall x, y {:trigger x in items, y in items} :: x in items && y in items && x.name == y.name ==> x == y
  }

  /** The list read backwards. */
  function Reversed(batches: seq<seq<Item>>): seq<seq<Item>> {
    if batches == [] then [] else [batches[|batches| - 1]] + Reversed(batches[..|batches| - 1])
  }

  function NamesIn(comp: seq<Item>): seq<Key> {
    seq(|comp|, k requires 0 <= k < |comp| => comp[k].name)
  }

  function KeysOfBatches(batches: seq<seq<Item>>): seq<seq<Key>> {
    seq(|batches|, i requires 0 <= i < |batches| => NamesIn(batches[i]))
  }

  /** The ordering of the items that the constraints ask for. */
  function OrderOf(env: Environment, past: int, items: seq<Item>): Order {
    Ordering(NamesOf(items), env.order(past, items))
  }

  /** The batches are the strongly connected components of the ordering, in an order that respects it. */
  ghost predicate IsSchedule(env: Environment, past: int, items: seq<Item>, batches: seq<seq<Item>>) {
    && ComponentsOf(OrderOf(env, past, items), KeysOfBatches(batches))
    && Respects(OrderOf(env, past, items), KeysOfBatches(batches))
    && forall batch, item :: batch in batches && item in batch ==> item in items
  }

  /** Group the items into components and order them; the component to try first comes last. */
  method Schedule(env: Environment, items: seq<Item>) returns (worklist: seq<seq<Item>>, ghost past: int, ghost batches: seq<seq<Item>>)
    requires OrderNames(env)
    ensures IsSchedule(env, past, items, batches) && worklist == Reversed(batches)
    ensures forall comp :: comp in worklist ==> comp != []
    ensures NoDuplicates(Flatten(worklist)) && forall item :: item in Flatten(worklist) ==> item in items
    ensures DistinctNames(Elements(items)) ==> Elements(Flatten(worklist)) == Elements(items)
  {
    var keyToItem := KeyToItem(items);
    var history: int := *;
    past := history;
    var keys := SolveGroups(keyToItem.Keys, env.order(history, items));
    worklist, batches := [], [];
    for i := 0 to |keys|
      invariant forall comp :: comp in worklist ==> comp != []
      invariant Scheduled(keyToItem, keys, i, Flatten(worklist))
      invariant worklist == Reversed(batches) && KeysOfBatches(batches) == keys[..i]
    {
      BatchKeys(OrderOf(env, past, items), keys, i);
      var comp := ComponentOf(keyToItem, keys[i]);
      FlattenPrepend(worklist, comp);
      ScheduledMore(keyToItem, keys, i, Flatten(worklist), comp);
      BatchesMore(keyToItem, keys[i], batches, comp);
      worklist, batches := [comp] + worklist, batches + [comp];
    }
    assert keys[..|keys|] == keys;
    AllScheduled(OrderOf(env, past, items), keyToItem, items, keys, Flatten(worklist));
    InReversed(batches);
  }

  lemma BatchesMore(keyToItem: map<Key, Item>, names: seq<Key>, batches: seq<seq<Item>>, comp: seq<Item>)
    requires (forall n :: n in names ==> n in keyToItem && keyToItem[n].name == n) && comp == ComponentOf(keyToItem, names)
    ensures KeysOfBatches(batches + [comp]) == KeysOfBatches(batches) + [names]
    ensures Reversed(batches + [comp]) == [comp] + Reversed(batches)
  {
    forall k | 0 <= k < |names|
      ensures comp[k].name == names[k]
    {
      assert names[k] in names;
    }
    assert NamesIn(comp) == names;
    assert (batches + [comp])[..|batches|] == batches;
  }

  lemma {:induction false} InReversed(batches: seq<seq<Item>>)
    ensures forall batch, item :: batch in batches && item in batch ==> item in Flatten(Reversed(batches))
  {
    if batches != [] {
      var n := |batches| - 1;
      InReversed(batches[..n]);
      FlattenPrepend(Reversed(batches[..n]), batches[n]);
      assert forall batch :: batch in batches ==> batch in batches[..n] || batch == batches[n];
    }
  }

  function ComponentOf(keyToItem: map<Key, Item>, batch: seq<Key>): seq<Item>
    requires forall n :: n in batch ==> n in keyToItem
  {
    seq(|batch|, k requires 0 <= k < |batch| => assert batch[k] in batch; keyToItem[batch[k]])
  }

  ghost predicate InBatches(batches: seq<seq<Key>>, i: nat, n: Key)
    requires i <= |batches|
  {
    exists k :: 0 <= k < i && n in batches[k]
  }

  /** `flat` holds the items of the first `i` batches, each once. */
  ghost predicate Scheduled(keyToItem: map<Key, Item>, batches: seq<seq<Key>>, i: nat, flat: seq<Item>)
    requires i <= |batches|
  {
    && NoDuplicates(flat)
    && (forall n :: n in keyToItem ==> keyToItem[n].name == n)
    && (forall item :: item in flat <==>
          item.name in keyToItem && keyToItem[item.name] == item && InBatches(batches, i, item.name))
  }

  lemma BatchKeys(g: Order, batches: seq<seq<Key>>, i: nat)
    requires ComponentsOf(g, batches) && i < |batches|
    ensures batches[i] != [] && NoRepeats(batches[i]) && forall n :: n in batches[i] ==> n in g
    ensures forall n :: n in batches[i] ==> !InBatches(batches, i, n)
  {
    assert IsComponent(g, batches[i]);
    forall n | n in batches[i]
      ensures n in g
    {
      assert InSome(batches, n);
    }
  }

  lemma ScheduledMore(keyToItem: map<Key, Item>, batches: seq<seq<Key>>, i: nat, flat: seq<Item>, comp: seq<Item>)
    requires i < |batches| && Scheduled(keyToItem, batches, i, flat)
    requires (forall n :: n in batches[i] ==> n in keyToItem) && comp == ComponentOf(keyToItem, batches[i])
    requires NoRepeats(batches[i]) && forall n :: n in batches[i] ==> !InBatches(batches, i, n)
    ensures Scheduled(keyToItem, batches, i + 1, comp + flat)
  {
    forall k | 0 <= k < |comp|
      ensures comp[k].name == batches[i][k]
    {
      assert batches[i][k] in batches[i];
    }
    forall item
      ensures item in comp <==> item.name in keyToItem && keyToItem[item.name] == item && item.name in batches[i]
    {
      if item.name in batches[i] {
        var k :| 0 <= k < |batches[i]| && batches[i][k] == item.name;
        assert comp[k] == keyToItem[item.name];
      }
    }
    assert NoDuplicates(comp);
    NoDuplicatesConcat(comp, flat);
    forall n
      ensures InBatches(batches, i + 1, n) <==> InBatches(batches, i, n) || n in batches[i]
    {
    }
  }

  lemma NoDuplicatesConcat(a: seq<Item>, b: seq<Item>)
    requires NoDuplicates(a) && NoDuplicates(b)
    requires forall item :: item in a ==> item !in b
    ensures NoDuplicates(a + b)
  {
    var ab := a + b;
    forall i, j | 0 <= i < j < |ab|
      ensures ab[i] != ab[j]
    {
      if i < |a| <= j {
        assert a[i] in a && b[j - |a|] in b;
      }
    }
  }

  lemma AllScheduled(g: Order, keyToItem: map<Key, Item>, items: seq<Item>, batches: seq<seq<Key>>, flat: seq<Item>)
    requires ComponentsOf(g, batches) && g.Keys == keyToItem.Keys == NamesOf(items)
    requires Scheduled(keyToItem, batches, |batches|, flat)
    requires forall n :: n in keyToItem ==> keyToItem[n] in items
    ensures forall item :: item in flat ==> item in items
    ensures DistinctNames(Elements(items)) ==> Elements(flat) == Elements(items)
  {
    if DistinctNames(Elements(items)) {
      forall item | item in items
        ensures item in flat
      {
        assert item.name in g && InSome(batches, item.name);
        assert keyToItem[item.name] in Elements(items) && item in Elements(items);
      }
    }
  }

  /** The last item under each name. */
  method KeyToItem(items: seq<Item>) returns (keyToItem: map<Key, Item>)
    ensures keyToItem.Keys == NamesOf(items)
    ensures forall n :: n in keyToItem ==> keyToItem[n].name == n && keyToItem[n] in items
  {
    keyToItem := map[];
    for i := 0 to |items|
      invariant keyToItem.Keys == NamesOf(items[..i])
      invariant forall n :: n in keyToItem ==> keyToItem[n].name == n && keyToItem[n] in items[..i]
    {
      assert items[..i + 1] == items[..i] + [items[i]];
      keyToItem := keyToItem[items[i].name := items[i]];
    }
    assert items[..|items|] == items;
  }

  // ---------------------------------------------------------------------------------------------
  // The run
  // ---------------------------------------------------------------------------------------------

  /** A movable item has groups in the present state of the suite. */
  function Movable(groups: Groups, s: SuiteState, items: seq<Item>): seq<Item> {
    if items == [] then []
    else
      var n := |items| - 1;
      Movable(groups, s, items[..n]) + if groups(s, [items[n]], 0).Some? then [items[n]] else []
  }

  /** Leave out the items whose groups cannot be computed. */
  method ReadGroups(m: MigrationManager, env: Environment, packages: seq<Item>) returns (movable: seq<Item>)
    ensures movable == Movable(env.groups, m.suite.State(), packages)
  {
    movable := [];
    var state := m.suite.State();
    for i := 0 to |packages|
      invariant movable == Movable(env.groups, state, packages[..i])
    {
      assert packages[..i + 1][..i] == packages[..i];
      var group := env.groups(state, [packages[i]], 0);
      if group.Some? {
        movable := movable + [packages[i]];
      }
    }
    assert packages[..|packages|] == packages;
  }

  ghost predicate WorklistOk(env: Environment, worklist: seq<seq<Item>>) {
    forall comp :: comp in worklist ==> comp != [] && OnKnownArchs(env, comp)
  }

  lemma WorklistMore(env: Environment, worklist: seq<seq<Item>>, more: seq<seq<Item>>)
    requires WorklistOk(env, worklist) && WorklistOk(env, more)
    ensures WorklistOk(env, worklist + more)
  {
  }

  /** The removals of cruft for which groups can be computed. */
  ghost function RemovableCruft(groups: Groups, s: SuiteState, cruft: set<Item>): set<Item> {
    set item | item in cruft && groups(s, [item], 0).Some?
  }

  /** The items that remove what was kept as a smooth update. */
  function CruftItems(env: Environment, smooth: set<PackageId>): set<Item> {
    set p | p in smooth :: env.cruftItem(p)
  }

  /** Queue the removal of the binaries that an accepted component left behind as cruft: each that can be
      moved, once, as a component of its own. */
  method AddCruft(m: MigrationManager, env: Environment, newCruft: set<Item>, worklist0: seq<seq<Item>>)
    returns (worklist: seq<seq<Item>>, ghost queued: seq<Item>)
    ensures worklist == worklist0 + Singles(queued)
    ensures NoDuplicates(queued) && Elements(queued) == RemovableCruft(env.groups, m.suite.State(), newCruft)
  {
    worklist, queued := worklist0, [];
    var rest := newCruft;
    while rest != {}
      invariant rest <= newCruft && worklist == worklist0 + Singles(queued)
      invariant NoDuplicates(queued)
      invariant Elements(queued) == RemovableCruft(env.groups, m.suite.State(), newCruft - rest)
    {
      var cruft :| cruft in rest;
      assert newCruft - (rest - {cruft}) == newCruft - rest + {cruft};
      rest := rest - {cruft};
      var group := env.groups(m.suite.State(), [cruft], 0);
      if group.Some? {
        assert cruft !in Elements(queued);
        NoDuplicatesConcat(queued, [cruft]);
        assert Singles(queued + [cruft]) == Singles(queued) + [[cruft]];
        assert Elements(queued + [cruft]) == Elements(queued) + {cruft};
        worklist := worklist + [[cruft]];
        queued := queued + [cruft];
      }
    }
    assert newCruft - rest == newCruft;
  }

  /** The lists of a run. */
  datatype Lists = Lists(rescheduled: seq<Item>, maybe: seq<Item>, worklist: seq<seq<Item>>, selected: seq<Item>)
  {
    function Left(): seq<Item> {
      Pending(rescheduled, maybe, worklist)
    }
  }

  ghost predicate ListsOk(env: Environment, lists: Lists) {
    && OnKnownArchs(env, lists.rescheduled) && OnKnownArchs(env, lists.maybe)
    && WorklistOk(env, lists.worklist)
  }

  // What a run did.

  /** The items that were accepted, in order. */
  function AcceptedIn(attempts: seq<Attempt>): seq<Item> {
    if attempts == [] then []
    else
      var n := |attempts| - 1;
      AcceptedIn(attempts[..n]) + Taken(attempts[n])
  }

  ghost function EntriesIn(data: Packages, attempts: seq<Attempt>): seq<LogEntry> {
    if attempts == [] then []
    else
      var n := |attempts| - 1;
      var a := attempts[n];
      EntriesIn(data, attempts[..n]) + if |a.states| == |a.items| + 1 then EntriesTaken(data, a) else []
  }

  lemma {:induction false} HistoryLogs(u: Universe, data: Packages, env: Environment, s0: Standing, attempts: seq<Attempt>, s: Standing)
    requires History(u, data, env, s0, attempts, s)
    ensures s.logs == ExtendLast(s0.logs, EntriesIn(data, attempts))
  {
    if attempts == [] {
      ExtendTwice(s0.logs, [], []);
    } else {
      var n := |attempts| - 1;
      HistoryLogs(u, data, env, s0, attempts[..n], attempts[n].before);
      ExtendTwice(s0.logs, EntriesIn(data, attempts[..n]), EntriesTaken(data, attempts[n]));
    }
  }

  /** The removals of cruft that were queued, in order. */
  function QueuedIn(attempts: seq<Attempt>): seq<Item> {
    if attempts == [] then [] else QueuedIn(attempts[..|attempts| - 1]) + attempts[|attempts| - 1].queued
  }

  /** An accepted component queues exactly the removals of its smooth updates that can be moved, a
      rejected one nothing. */
  ghost predicate AttemptMade(u: Universe, data: Packages, env: Environment, a: Attempt) {
    && Tried(u, data, env, a)
    && NoDuplicates(a.queued)
    && Elements(a.queued) == if !a.accepted then {} else
         RemovableCruft(env.groups, a.states[|a.items|], CruftItems(env, SmoothOf(env.groups, a.comp, a.states)))
  }

  /** The attempts lead a run from `s0` to `s`, one after the other. */
  ghost predicate History(u: Universe, data: Packages, env: Environment, s0: Standing, attempts: seq<Attempt>, s: Standing) {
    if attempts == [] then s == s0
    else
      var n := |attempts| - 1;
      && AttemptMade(u, data, env, attempts[n])
      && History(u, data, env, s0, attempts[..n], attempts[n].before)
      && s == AfterAttempt(data, attempts[n])
  }

  ghost predicate AllTraceless(data: Packages, attempts: seq<Attempt>) {
    forall a :: a in attempts ==> |a.states| == |a.items| + 1 && Traceless(data, a.states, a.items, a.accepted)
  }

  ghost predicate AllHarmless(u: Universe, data: Packages, attempts: seq<Attempt>) {
    forall a :: a in attempts ==> |a.states| == |a.items| + 1 && Harmless(u, data, a.states, a.items, a.accepted)
  }

  /** All items come under names of their own. */
  predicate AllNamesDiffer(items: seq<Item>) {
    forall i, j :: 0 <= i < j < |items| ==> items[i].name != items[j].name
  }

  /** What was to be moved and what was queued is accepted or left: nothing twice, and, as long as all
      come under names of their own, nothing missing. */
  ghost predicate Balanced(movable: seq<Item>, queued: seq<Item>, accepted: seq<Item>, left: seq<Item>) {
    && multiset(accepted) + multiset(left) <= multiset(movable) + multiset(queued)
    && (AllNamesDiffer(movable + queued) ==> multiset(accepted) + multiset(left) == multiset(movable) + multiset(queued))
  }

  /** Where a run starts, whether the engine was intact, the items that are already selected and those
      to be moved. */
  datatype RunStart = RunStart(at: Standing, intact: bool, selected: seq<Item>, movable: seq<Item>)

  datatype RunState = RunState(at: Standing, lists: Lists, attempts: seq<Attempt>, rounds: seq<Round>)

  // The rounds of a run.

  /** A round: the lists before it, the schedule that was made of what was to be tried again, and the
      attempts so far. */
  datatype Round = Round(before: Lists, past: int, batches: seq<seq<Item>>, attempts: seq<Attempt>)

  /** The lists when everything has been scheduled. */
  function Begun(r: Round): Lists {
    Lists([], r.before.maybe, Reversed(r.batches), r.before.selected)
  }

  /** The lists after some attempts, one after the other. */
  function Worked(lists0: Lists, attempts: seq<Attempt>): Lists {
    if attempts == [] then lists0
    else
      var n := |attempts| - 1;
      var lists, a := Worked(lists0, attempts[..n]), attempts[n];
      if lists.worklist == [] || a.comp == [] then lists else Settled(lists, a.comp, a.accepted, a.queued)
  }

  /** Each attempt is on the component that the worklist ends with. */
  predicate InTurn(lists0: Lists, attempts: seq<Attempt>) {
    attempts == [] ||
      var n := |attempts| - 1;
      var lists, a := Worked(lists0, attempts[..n]), attempts[n];
      InTurn(lists0, attempts[..n]) && lists.worklist != [] && a.comp != [] && a.comp == LastOf(lists)
  }

  /** The rounds lead from `lists0` to `lists`; a round starts when the worklist is empty and something is
      to be tried again, and only the last one may still be going on. */
  ghost predicate Chronicle(env: Environment, lists0: Lists, rounds: seq<Round>, lists: Lists) {
    if rounds == [] then lists == lists0
    else
      var n := |rounds| - 1;
      var r := rounds[n];
      && Chronicle(env, lists0, rounds[..n], r.before)
      && r.before.worklist == [] && r.before.rescheduled != []
      && IsSchedule(env, r.past, r.before.rescheduled, r.batches)
      && InTurn(Begun(r), r.attempts) && lists == Worked(Begun(r), r.attempts)
  }

  function AttemptsIn(rounds: seq<Round>): seq<Attempt> {
    if rounds == [] then [] else AttemptsIn(rounds[..|rounds| - 1]) + rounds[|rounds| - 1].attempts
  }

  ghost predicate Chronicled(env: Environment, r0: RunStart, r: RunState) {
    && Chronicle(env, Lists(r0.movable, [], [], r0.selected), r.rounds, r.lists)
    && AttemptsIn(r.rounds) == r.attempts
  }

  /** The rounds with one more attempt in the last one. */
  function OneMoreAttempt(rounds: seq<Round>, a: Attempt): seq<Round> {
    if rounds == [] then []
    else
      var n := |rounds| - 1;
      rounds[..n] + [rounds[n].(attempts := rounds[n].attempts + [a])]
  }

  lemma ChronicleMore(env: Environment, r0: RunStart, r: RunState, a: Attempt)
    requires Chronicled(env, r0, r) && r.lists.worklist != [] && a.comp == LastOf(r.lists) && a.comp != []
    ensures var lists := Settled(r.lists, a.comp, a.accepted, a.queued);
      && Chronicle(env, Lists(r0.movable, [], [], r0.selected), OneMoreAttempt(r.rounds, a), lists)
      && AttemptsIn(OneMoreAttempt(r.rounds, a)) == r.attempts + [a]
  {
    var n := |r.rounds| - 1;
    var last, rounds := r.rounds[n], OneMoreAttempt(r.rounds, a);
    assert (last.attempts + [a])[..|last.attempts|] == last.attempts;
    assert rounds[..n] == r.rounds[..n];
    assert AttemptsIn(rounds) == AttemptsIn(r.rounds[..n]) + (last.attempts + [a]);
  }

  lemma ChronicleNext(env: Environment, r0: RunStart, r: RunState, round: Round)
    requires Chronicled(env, r0, r) && round.before == r.lists && round.attempts == []
    requires r.lists.worklist == [] && r.lists.rescheduled != []
    requires IsSchedule(env, round.past, r.lists.rescheduled, round.batches)
    ensures Chronicle(env, Lists(r0.movable, [], [], r0.selected), r.rounds + [round], Begun(round))
    ensures AttemptsIn(r.rounds + [round]) == r.attempts
  {
    var rounds := r.rounds + [round];
    assert rounds[..|r.rounds|] == r.rounds;
  }

  /** What a run keeps. */
  ghost predicate Running(u: Universe, data: Packages, env: Environment, r0: RunStart, r: RunState) {
    && Accounted(u, data, env, r0, r) && TablesKept(u, data, env, r0, r)
    && forall item :: item in r.lists.maybe ==> TriedInVain(r.attempts, item)
  }

  /** The item was tried alone and rejected, and nothing has been accepted since. */
  ghost predicate TriedInVain(attempts: seq<Attempt>, item: Item) {
    exists i :: 0 <= i < |attempts| && attempts[i].comp == [item] && NoneAccepted(attempts, i)
  }

  ghost predicate NoneAccepted(attempts: seq<Attempt>, i: nat) {
    forall j :: i <= j < |attempts| ==> !attempts[j].accepted
  }

  lemma StillInVain(attempts: seq<Attempt>, a: Attempt, item: Item)
    requires !a.accepted && (TriedInVain(attempts, item) || a.comp == [item])
    ensures TriedInVain(attempts + [a], item)
  {
    var all := attempts + [a];
    if TriedInVain(attempts, item) {
      var i :| 0 <= i < |attempts| && attempts[i].comp == [item] && NoneAccepted(attempts, i);
      assert all[i] == attempts[i] && NoneAccepted(all, i);
    } else {
      assert all[|attempts|] == a && NoneAccepted(all, |attempts|);
    }
  }

  lemma AttemptInVain(r1: RunState, a: Attempt)
    requires r1.lists.worklist != [] && a.comp != []
    requires forall item :: item in r1.lists.maybe ==> TriedInVain(r1.attempts, item)
    ensures forall item :: item in Settled(r1.lists, a.comp, a.accepted, a.queued).maybe ==> TriedInVain(r1.attempts + [a], item)
  {
    forall item | item in Settled(r1.lists, a.comp, a.accepted, a.queued).maybe
      ensures TriedInVain(r1.attempts + [a], item)
    {
      assert item !in r1.lists.maybe ==> a.comp == [item];
      StillInVain(r1.attempts, a, item);
    }
  }

  /** The suite, the selected items and the items left are what the attempts make of the start. */
  ghost predicate Accounted(u: Universe, data: Packages, env: Environment, r0: RunStart, r: RunState) {
    && ListsOk(env, r.lists)
    && History(u, data, env, r0.at, r.attempts, r.at)
    && r.lists.selected == r0.selected + AcceptedIn(r.attempts)
    && Balanced(r0.movable, QueuedIn(r.attempts), AcceptedIn(r.attempts), r.lists.Left())
  }

  /** The table has got no worse where that matters, and it is right if harmless attempts led there. */
  ghost predicate TablesKept(u: Universe, data: Packages, env: Environment, r0: RunStart, r: RunState) {
    && env.options.architectures <= env.options.allowUninst.Keys
    && Nuninsts.Covers(r0.at.table, env.options.architectures) && Nuninsts.Covers(r.at.table, env.options.architectures)
    && NeverWorse(env.options, Exempt(env, AcceptedIn(r.attempts)), r0.at.table, r.at.table)
    && (AcceptedIn(r.attempts) == [] ==> r.at.table == r0.at.table)
    && (r0.intact && AllHarmless(u, data, r.attempts) ==>
          TableKept(u, data, env, r0.at.suite, r0.at.table, r.at.suite, r.at.table))
  }

  lemma ExemptConcat(env: Environment, a: seq<Item>, b: seq<Item>)
    ensures Exempt(env, a) + Exempt(env, b) <= Exempt(env, a + b)
    ensures Exempt(env, a) <= Exempt(env, a + b)
  {
    var ab := a + b;
    if SOURCE in ItemArchs(a) {
      var i :| 0 <= i < |a| && a[i].architecture == SOURCE;
      assert ab[i].architecture == SOURCE;
    }
    if SOURCE in ItemArchs(b) {
      var i :| 0 <= i < |b| && b[i].architecture == SOURCE;
      assert ab[|a| + i].architecture == SOURCE;
    }
  }

  lemma NeverWorseWeaken(options: Options, exempt: set<string>, exempt': set<string>, n0: Nuninst, n: Nuninst)
    requires Nuninsts.Covers(n0, options.architectures) && Nuninsts.Covers(n, options.architectures)
    requires options.architectures <= options.allowUninst.Keys && NeverWorse(options, exempt, n0, n) && exempt <= exempt'
    ensures NeverWorse(options, exempt', n0, n)
  {
  }

  lemma HistoryMore(u: Universe, data: Packages, env: Environment, s0: Standing, attempts: seq<Attempt>, a: Attempt)
    requires History(u, data, env, s0, attempts, a.before) && AttemptMade(u, data, env, a)
    ensures History(u, data, env, s0, attempts + [a], AfterAttempt(data, a))
    ensures AcceptedIn(attempts + [a]) == AcceptedIn(attempts) + Taken(a)
    ensures QueuedIn(attempts + [a]) == QueuedIn(attempts) + a.queued
  {
    var all := attempts + [a];
    assert all[..|all| - 1] == attempts;
  }

  /** One more attempt changes the balance by what it queues. */
  lemma StillBalanced(movable: seq<Item>, queued: seq<Item>, accepted: seq<Item>, left: seq<Item>,
                      more: seq<Item>, accepted': seq<Item>, left': seq<Item>)
    requires Balanced(movable, queued, accepted, left)
    requires multiset(accepted') + multiset(left') == multiset(accepted) + multiset(left) + multiset(more)
    ensures Balanced(movable, queued + more, accepted', left')
  {
    if AllNamesDiffer(movable + (queued + more)) {
      assert forall i :: 0 <= i < |movable + queued| ==> (movable + queued)[i] == (movable + (queued + more))[i];
    }
  }

  lemma AttemptBalanced(movable: seq<Item>, queued: seq<Item>, accepted: seq<Item>, lists: Lists, a: Attempt, left: seq<Item>)
    requires lists.worklist != [] && a.comp == LastOf(lists) && a.comp != [] && (!a.accepted ==> a.queued == [])
    requires Balanced(movable, queued, accepted, lists.Left())
    requires left == Settled(lists, a.comp, a.accepted, a.queued).Left()
    ensures Balanced(movable, queued + a.queued, accepted + Taken(a), left)
  {
    SettledItems(lists, a.comp, a.accepted, a.queued);
    SumStep(multiset(accepted), multiset(Taken(a)), multiset(left), multiset(lists.Left()), multiset(a.queued));
    StillBalanced(movable, queued, accepted, lists.Left(), a.queued, accepted + Taken(a), left);
  }

  lemma SumStep(a: multiset<Item>, b: multiset<Item>, l': multiset<Item>, l: multiset<Item>, q: multiset<Item>)
    requires b + l' == l + q
    ensures (a + b) + l' == a + l + q
  {
    assert (a + b) + l' == a + (b + l');
  }

  lemma AttemptAccounted(u: Universe, data: Packages, env: Environment, r0: RunStart, r1: RunState, a: Attempt)
    requires Accounted(u, data, env, r0, r1) && AttemptMade(u, data, env, a) && a.before == r1.at
    requires r1.lists.worklist != [] && a.comp == LastOf(r1.lists) && a.comp != []
    requires ListsOk(env, Settled(r1.lists, a.comp, a.accepted, a.queued))
    ensures Accounted(u, data, env, r0, Advanced(data, r1, a))
  {
    var accepted, lists := AcceptedIn(r1.attempts), Settled(r1.lists, a.comp, a.accepted, a.queued);
    assert !a.accepted ==> a.queued == [] by {
      assert a.queued != [] ==> a.queued[0] in Elements(a.queued);
    }
    HistoryMore(u, data, env, r0.at, r1.attempts, a);
    AttemptBalanced(r0.movable, QueuedIn(r1.attempts), accepted, r1.lists, a, lists.Left());
    Regrouped(r0.selected, accepted, Taken(a));
    assert lists.selected == r1.lists.selected + Taken(a);
  }

  lemma Regrouped(a: seq<Item>, b: seq<Item>, c: seq<Item>)
    ensures a + b + c == a + (b + c)
  {
  }

  lemma AttemptNotWorse(env: Environment, accepted: seq<Item>, a: Attempt, n0: Nuninst, n1: Nuninst, n: Nuninst)
    requires env.options.architectures <= env.options.allowUninst.Keys
    requires Nuninsts.Covers(n0, env.options.architectures) && Nuninsts.Covers(n1, env.options.architectures)
    requires Nuninsts.Covers(n, env.options.architectures)
    requires NeverWorse(env.options, Exempt(env, accepted), n0, n1)
    requires NeverWorse(env.options, if a.accepted then Exempt(env, a.comp) else {}, n1, n)
    ensures NeverWorse(env.options, Exempt(env, accepted + Taken(a)), n0, n)
  {
    var all := Exempt(env, accepted + Taken(a));
    ExemptConcat(env, accepted, Taken(a));
    NeverWorseWeaken(env.options, Exempt(env, accepted), all, n0, n1);
    NeverWorseWeaken(env.options, if a.accepted then Exempt(env, a.comp) else {}, all, n1, n);
    NeverWorseTransitive(env.options, all, n0, n1, n);
  }

  lemma AttemptTables(u: Universe, data: Packages, env: Environment, r0: RunStart, r1: RunState, r: RunState, a: Attempt)
    requires TablesKept(u, data, env, r0, r1) && a.comp != [] && a.before == r1.at
    requires |a.states| == |a.items| + 1 && r.attempts == r1.attempts + [a] && Judged(data, env, a)
    requires r.at.table == if a.accepted then a.rechecked else r1.at.table
    requires r0.intact && AllHarmless(u, data, r1.attempts) && Harmless(u, data, a.states, a.items, a.accepted) ==>
      TableKept(u, data, env, r1.at.suite, r1.at.table, r.at.suite, r.at.table)
    ensures TablesKept(u, data, env, r0, r)
  {
    var all := r.attempts;
    assert all[..|all| - 1] == r1.attempts;
    assert forall b :: b in all <==> b in r1.attempts || b == a;
    assert AcceptedIn(all) == AcceptedIn(r1.attempts) + Taken(a);
    AttemptNotWorse(env, AcceptedIn(r1.attempts), a, r0.at.table, r1.at.table, r.at.table);
  }

  /** The items that an attempt takes into the suite. */
  function Taken(a: Attempt): seq<Item> {
    if a.accepted then a.comp else []
  }

  /** The state of a run after another attempt. */
  ghost function Advanced(data: Packages, r: RunState, a: Attempt): RunState
    requires |a.states| == |a.items| + 1 && r.lists.worklist != [] && a.comp != []
  {
    RunState(AfterAttempt(data, a), Settled(r.lists, a.comp, a.accepted, a.queued), r.attempts + [a],
             OneMoreAttempt(r.rounds, a))
  }

  function LastOf(lists: Lists): seq<Item>
    requires lists.worklist != []
  {
    lists.worklist[|lists.worklist| - 1]
  }

  /** The lists after an attempt on the last component: accepted items are selected, their cruft is
      queued and everything put aside is to be scheduled again; a rejected component is split, or put
      aside if it is a single item. */
  function Settled(lists: Lists, comp: seq<Item>, accepted: bool, queued: seq<Item>): Lists
    requires lists.worklist != [] && comp != []
  {
    var rest := lists.worklist[..|lists.worklist| - 1];
    if accepted then Lists(lists.rescheduled + lists.maybe, [], rest + Singles(queued), lists.selected + comp)
    else if |comp| > 1 then lists.(worklist := rest + Singles(comp))
    else lists.(maybe := lists.maybe + [comp[0]], worklist := rest)
  }

  lemma SettledItems(lists: Lists, comp: seq<Item>, accepted: bool, queued: seq<Item>)
    requires lists.worklist != [] && comp == LastOf(lists) && comp != [] && (!accepted ==> queued == [])
    ensures var lists' := Settled(lists, comp, accepted, queued);
      multiset(if accepted then comp else []) + multiset(lists'.Left()) == multiset(lists.Left()) + multiset(queued)
  {
    var rest := lists.worklist[..|lists.worklist| - 1];
    assert rest + [comp] == lists.worklist;
    if accepted {
      FlattenSingles(rest, queued);
      LastComponent(rest, comp);
    } else if |comp| > 1 {
      SplitWork(lists.rescheduled, lists.maybe, rest, comp);
    } else {
      PostponedWork(lists.rescheduled, lists.maybe, rest, comp);
    }
  }

  /** Take the next component and try it. */
  method TryNext(m: MigrationManager, env: Environment, lists0: Lists, now: Nuninst, ghost r0: RunStart, ghost r1: RunState)
    returns (lists: Lists, after: Nuninst, ghost r: RunState)
    requires m.Valid() && Trusted(m.universe, env) && lists0.worklist != []
    requires Running(m.universe, m.data, env, r0, r1) && Chronicled(env, r0, r1)
    requires r1.at == Standing(m.suite.State(), now, m.Logs()) && r1.lists == lists0
    requires r0.intact && AllTraceless(m.data, r1.attempts) ==> m.Intact()
    modifies m`transactions, m`records, m.transactions, m.suite
    ensures m.Valid() && m.transactions == old(m.transactions)
    ensures Running(m.universe, m.data, env, r0, r) && Chronicled(env, r0, r)
    ensures r.at == Standing(m.suite.State(), after, m.Logs()) && r.lists == lists
    ensures r0.intact && AllTraceless(m.data, r.attempts) ==> m.Intact()
    ensures Continued(r1, r) && LessLeft(lists0, lists)
  {
    var comp := lists0.worklist[|lists0.worklist| - 1];
    TakeLast(env, lists0.worklist);
    ghost var a;
    lists, after, a := TryAndSettle(m, env, lists0, comp, now);
    r := Advanced(m.data, r1, a);
    AttemptKept(m.universe, m.data, env, r0, r1, old(m.Intact()), a);
    ChronicleMore(env, r0, r1, a);
  }

  /** What trying and settling the last component of `lists` does. */
  ghost predicate AttemptRight(u: Universe, data: Packages, env: Environment, lists: Lists, intact: bool, a: Attempt) {
    && AttemptMade(u, data, env, a)
    && lists.worklist != [] && a.comp == LastOf(lists) && a.comp != []
    && ListsOk(env, Settled(lists, a.comp, a.accepted, a.queued))
    && (intact && Harmless(u, data, a.states, a.items, a.accepted) ==>
          var after := AfterAttempt(data, a);
          TableKept(u, data, env, a.before.suite, a.before.table, after.suite, after.table))
  }

  /** One more attempt keeps what a run keeps. */
  lemma AttemptKept(u: Universe, data: Packages, env: Environment, r0: RunStart, r1: RunState, intact: bool, a: Attempt)
    requires Running(u, data, env, r0, r1) && AttemptRight(u, data, env, r1.lists, intact, a) && a.before == r1.at
    requires r0.intact && AllTraceless(data, r1.attempts) ==> intact
    ensures Running(u, data, env, r0, Advanced(data, r1, a)) && Continued(r1, Advanced(data, r1, a))
    ensures AllTraceless(data, r1.attempts + [a]) <==>
      AllTraceless(data, r1.attempts) && Traceless(data, a.states, a.items, a.accepted)
  {
    HarmlessMore(u, data, r1.attempts, a);
    AttemptAccounted(u, data, env, r0, r1, a);
    AttemptTables(u, data, env, r0, r1, Advanced(data, r1, a), a);
    AttemptInVain(r1, a);
  }

  lemma HarmlessMore(u: Universe, data: Packages, attempts: seq<Attempt>, a: Attempt)
    requires |a.states| == |a.items| + 1
    ensures AllHarmless(u, data, attempts + [a]) <==>
      AllHarmless(u, data, attempts) && Harmless(u, data, a.states, a.items, a.accepted)
    ensures AllTraceless(data, attempts + [a]) <==>
      AllTraceless(data, attempts) && Traceless(data, a.states, a.items, a.accepted)
    ensures AllHarmless(u, data, attempts) ==> AllTraceless(data, attempts)
  {
    assert forall b :: b in attempts + [a] <==> b in attempts || b == a;
  }

  /** The run has made one more attempt, on the last component, and settled it. */
  ghost predicate Continued(r1: RunState, r: RunState)
    requires r1.lists.worklist != []
  {
    exists a: Attempt :: a.comp == LastOf(r1.lists) && a.comp != [] && r.attempts == r1.attempts + [a]
      && r.lists == Settled(r1.lists, a.comp, a.accepted, a.queued)
  }

  method TryAndSettle(m: MigrationManager, env: Environment, lists0: Lists, comp: seq<Item>, now: Nuninst)
    returns (lists: Lists, after: Nuninst, ghost a: Attempt)
    requires m.Valid() && Trusted(m.universe, env) && ListsOk(env, lists0) && Nuninsts.Covers(now, env.options.architectures)
    requires lists0.worklist != [] && comp == LastOf(lists0) && comp != [] && OnKnownArchs(env, comp)
    modifies m`transactions, m`records, m.transactions, m.suite
    ensures m.Valid() && m.transactions == old(m.transactions)
    ensures AttemptRight(m.universe, m.data, env, lists0, old(m.Intact()), a)
    ensures a.before == old(Standing(m.suite.State(), now, m.Logs()))
    ensures AfterAttempt(m.data, a) == Standing(m.suite.State(), after, m.Logs())
    ensures lists == Settled(lists0, a.comp, a.accepted, a.queued) && LessLeft(lists0, lists)
    ensures old(m.Intact()) && Traceless(m.data, a.states, a.items, a.accepted) ==> m.Intact()
  {
    var accepted, smooth;
    ghost var tried, queued;
    accepted, after, smooth, tried := Try(m, env, comp, now);
    lists, queued := Settle(m, env, lists0, comp, accepted, smooth);
    a := tried.(queued := queued);
    StillTried(m.universe, m.data, env, tried, a);
    NowRight(m.universe, m.data, env, lists0, old(m.Intact()), a);
  }

  /** What an attempt queues does not matter to the rest. */
  lemma StillTried(u: Universe, data: Packages, env: Environment, tried: Attempt, a: Attempt)
    requires Tried(u, data, env, tried) && a == tried.(queued := a.queued)
    ensures Tried(u, data, env, a) && AfterAttempt(data, a) == AfterAttempt(data, tried)
  {
  }

  lemma NowRight(u: Universe, data: Packages, env: Environment, lists: Lists, intact: bool, a: Attempt)
    requires Tried(u, data, env, a) && NoDuplicates(a.queued)
    requires Elements(a.queued) == if !a.accepted then {} else
      RemovableCruft(env.groups, AfterAttempt(data, a).suite, CruftItems(env, SmoothOf(env.groups, a.comp, a.states)))
    requires lists.worklist != [] && a.comp == LastOf(lists) && a.comp != []
    requires ListsOk(env, Settled(lists, a.comp, a.accepted, a.queued))
    requires intact && Harmless(u, data, a.states, a.items, a.accepted) ==>
      var after := AfterAttempt(data, a);
      TableKept(u, data, env, a.before.suite, a.before.table, after.suite, after.table)
    ensures AttemptRight(u, data, env, lists, intact, a)
  {
  }

  /** Something has been worked off, or the same is left with fewer steps to go. */
  ghost predicate LessLeft(lists0: Lists, lists: Lists) {
    || LessWork(lists.rescheduled, lists.maybe, lists.worklist, Sources(lists0.Left()), |lists0.Left()|)
    || (&& Sources(lists.Left()) == Sources(lists0.Left()) && |lists.Left()| == |lists0.Left()|
        && Effort(lists.worklist) < Effort(lists0.worklist) && lists.rescheduled == lists0.rescheduled)
  }

  /** Move a component that has been tried to where it belongs. */
  method Settle(m: MigrationManager, env: Environment, lists0: Lists, comp: seq<Item>, accepted: bool, smooth: set<PackageId>)
    returns (lists: Lists, ghost queued: seq<Item>)
    requires CruftNames(env)
    requires ListsOk(env, lists0) && lists0.worklist != [] && comp == LastOf(lists0) && comp != []
    requires (forall item :: item in comp ==> item.isCruft) ==> smooth == {}
    ensures ListsOk(env, lists) && lists == Settled(lists0, comp, accepted, queued)
    ensures NoDuplicates(queued)
    ensures Elements(queued) == if !accepted then {} else RemovableCruft(env.groups, m.suite.State(), CruftItems(env, smooth))
    ensures LessLeft(lists0, lists)
  {
    var Lists(rescheduled, maybe, worklist, selected) := lists0;
    TakeLast(env, worklist);
    worklist := worklist[..|worklist| - 1];
    ghost var rest := worklist;
    queued := [];
    if accepted {
      selected := selected + comp;
      worklist, queued := AddCruft(m, env, CruftItems(env, smooth), worklist);
      rescheduled, maybe := rescheduled + maybe, [];
      CruftQueued(env, smooth, rest, queued);
      AcceptedWork(lists0.rescheduled, lists0.maybe, rest, comp, worklist, queued);
    } else if |comp| > 1 {
      WorklistMore(env, worklist, Singles(comp));
      worklist := worklist + Singles(comp);
      SplitWork(lists0.rescheduled, lists0.maybe, rest, comp);
    } else {
      maybe := maybe + [comp[0]];
      PostponedWork(lists0.rescheduled, lists0.maybe, rest, comp);
    }
    lists := Lists(rescheduled, maybe, worklist, selected);
  }

  lemma CruftQueued(env: Environment, smooth: set<PackageId>, rest: seq<seq<Item>>, queued: seq<Item>)
    requires CruftNames(env) && WorklistOk(env, rest) && Elements(queued) <= CruftItems(env, smooth)
    ensures Flatten(rest + Singles(queued)) == Flatten(rest) + queued && WorklistOk(env, rest + Singles(queued))
    ensures (forall item :: item in queued ==> item.isCruft) && (smooth == {} ==> queued == [])
  {
    FlattenSingles(rest, queued);
    assert queued != [] ==> queued[0] in Elements(queued);
    forall item | item in queued
      ensures item.isCruft && item.architecture in env.options.architectures && smooth != {}
    {
      assert item in Elements(queued);
    }
    forall single | single in Singles(queued)
      ensures single != [] && OnKnownArchs(env, single)
    {
      var i :| 0 <= i < |queued| && single == [queued[i]];
      assert queued[i] in queued;
    }
    WorklistMore(env, rest, Singles(queued));
  }

  lemma TakeLast(env: Environment, worklist: seq<seq<Item>>)
    requires WorklistOk(env, worklist) && worklist != []
    ensures var n := |worklist| - 1;
      && worklist[..n] + [worklist[n]] == worklist && WorklistOk(env, worklist[..n])
      && worklist[n] != [] && OnKnownArchs(env, worklist[n]) && WorklistOk(env, Singles(worklist[n]))
  {
    var n := |worklist| - 1;
    var comp := worklist[n];
    assert worklist[..n] + [comp] == worklist;
    WorklistPart(env, worklist[..n], comp);
    forall single | single in Singles(comp)
      ensures single != [] && OnKnownArchs(env, single)
    {
      var i :| 0 <= i < |comp| && single == [comp[i]];
      assert comp[i] in comp;
    }
  }

  lemma WorklistPart(env: Environment, rest: seq<seq<Item>>, comp: seq<Item>)
    requires WorklistOk(env, rest + [comp])
    ensures WorklistOk(env, rest) && comp != [] && OnKnownArchs(env, comp)
  {
    assert comp in rest + [comp];
    forall other | other in rest
      ensures other != [] && OnKnownArchs(env, other)
    {
      assert other in rest + [comp];
    }
  }

  // The three ways a component leaves the worklist.

  lemma LastComponent(worklist: seq<seq<Item>>, comp: seq<Item>)
    requires comp != []
    ensures Flatten(worklist + [comp]) == Flatten(worklist) + comp
    ensures Effort(worklist + [comp]) == Effort(worklist) + 2 * |comp| - 1
  {
    FlattenAppend(worklist, comp);
    EffortAppend(worklist, comp);
  }

  lemma AcceptedWork(rescheduled: seq<Item>, maybe: seq<Item>, rest: seq<seq<Item>>, comp: seq<Item>,
                     worklist: seq<seq<Item>>, queued: seq<Item>)
    requires comp != [] && Flatten(worklist) == Flatten(rest) + queued
    requires forall item :: item in queued ==> item.isCruft
    requires (forall item :: item in comp ==> item.isCruft) ==> queued == []
    ensures var before := Pending(rescheduled, maybe, rest + [comp]);
      && LessWork(rescheduled + maybe, [], worklist, Sources(before), |before|)
      && multiset(comp) + multiset(Pending(rescheduled + maybe, [], worklist)) == multiset(before) + multiset(queued)
  {
    LastComponent(rest, comp);
    PendingWork(rescheduled, maybe, rest + [comp]);
    PendingWork(rescheduled + maybe, [], worklist);
    SourcesConcat(rescheduled, maybe);
    SourcesConcat(Flatten(rest), comp);
    SourcesConcat(Flatten(rest), queued);
    SourcesNone(queued);
    if item :| item in comp && !item.isCruft {
      SourcesPositive(comp, item);
    } else {
      SourcesNone(comp);
    }
  }

  lemma SplitWork(rescheduled: seq<Item>, maybe: seq<Item>, rest: seq<seq<Item>>, comp: seq<Item>)
    requires |comp| > 1
    ensures Pending(rescheduled, maybe, rest + Singles(comp)) == Pending(rescheduled, maybe, rest + [comp])
    ensures Effort(rest + Singles(comp)) < Effort(rest + [comp])
  {
    LastComponent(rest, comp);
    FlattenSingles(rest, comp);
  }

  lemma PostponedWork(rescheduled: seq<Item>, maybe: seq<Item>, rest: seq<seq<Item>>, comp: seq<Item>)
    requires |comp| == 1
    ensures var before, after := Pending(rescheduled, maybe, rest + [comp]), Pending(rescheduled, maybe + [comp[0]], rest);
      && multiset(after) == multiset(before)
      && Sources(after) == Sources(before) && |after| == |before|
    ensures Effort(rest) < Effort(rest + [comp])
  {
    assert comp == [comp[0]];
    LastComponent(rest, comp);
    PendingWork(rescheduled, maybe, rest + [comp]);
    PendingWork(rescheduled, maybe + comp, rest);
    SourcesConcat(maybe, comp);
    SourcesConcat(Flatten(rest), comp);
    SumMoved(multiset(rescheduled), multiset(maybe), multiset(Flatten(rest)), multiset(comp));
  }

  lemma SumMoved(a: multiset<Item>, b: multiset<Item>, c: multiset<Item>, d: multiset<Item>)
    ensures a + (b + d) + c == a + b + (c + d)
  {
  }

  lemma ScheduledWork(maybe: seq<Item>, items: seq<Item>, worklist: seq<seq<Item>>)
    requires NoDuplicates(Flatten(worklist)) && forall item :: item in Flatten(worklist) ==> item in items
    ensures Sources(Pending([], maybe, worklist)) <= Sources(Pending(items, maybe, []))
    ensures |Pending([], maybe, worklist)| <= |Pending(items, maybe, [])|
  {
    SubListSmaller(Flatten(worklist), items);
    PendingWork([], maybe, worklist);
    PendingWork(items, maybe, []);
  }

  /** Scheduling adds nothing, and it loses nothing as long as all items come under names of their own. */
  lemma ScheduleBalanced(movable: seq<Item>, queued: seq<Item>, accepted: seq<Item>, maybe: seq<Item>, items: seq<Item>,
                         worklist: seq<seq<Item>>)
    requires Balanced(movable, queued, accepted, Pending(items, maybe, []))
    requires NoDuplicates(Flatten(worklist)) && forall item :: item in Flatten(worklist) ==> item in items
    requires DistinctNames(Elements(items)) ==> Elements(Flatten(worklist)) == Elements(items)
    ensures Balanced(movable, queued, accepted, Pending([], maybe, worklist))
  {
    var flat := Flatten(worklist);
    assert multiset(Pending(items, maybe, [])) == multiset(items) + multiset(maybe);
    assert multiset(Pending([], maybe, worklist)) == multiset(maybe) + multiset(flat);
    forall item
      ensures multiset(flat)[item] <= multiset(items)[item]
    {
      SetOnce(flat, item);
    }
    assert multiset(flat) <= multiset(items);
    if AllNamesDiffer(movable + queued) {
      var all := movable + queued;
      assert multiset(all) == multiset(movable) + multiset(queued);
      assert multiset(items) <= multiset(all);
      NamesOnce(all, items);
      forall item
        ensures multiset(flat)[item] == multiset(items)[item]
      {
        assert item in Elements(flat) <==> item in Elements(items);
        SetOnce(flat, item);
      }
      assert multiset(flat) == multiset(items);
    }
  }

  lemma NamesOnce(all: seq<Item>, items: seq<Item>)
    requires AllNamesDiffer(all) && multiset(items) <= multiset(all)
    ensures DistinctNames(Elements(items))
    ensures forall item :: item in items ==> multiset(items)[item] == 1
  {
    forall item | item in items
      ensures item in all && multiset(items)[item] == 1
    {
      assert item in multiset(items) && item in multiset(all);
      SetOnce(all, item);
    }
    forall x, y | x in items && y in items && x.name == y.name
      ensures x == y
    {
      var i :| 0 <= i < |all| && all[i] == x;
      var j :| 0 <= j < |all| && all[j] == y;
    }
  }

  /** Each item that was to be moved or was queued is accepted or left, exactly once. */
  lemma ExactlyOnce(movable: seq<Item>, queued: seq<Item>, accepted: seq<Item>, left: seq<Item>, item: Item)
    requires Balanced(movable, queued, accepted, left) && AllNamesDiffer(movable + queued)
    ensures multiset(accepted)[item] + multiset(left)[item] == if item in movable || item in queued then 1 else 0
  {
    var all := movable + queued;
    assert multiset(all) == multiset(movable) + multiset(queued);
    assert (multiset(accepted) + multiset(left))[item] == multiset(all)[item];
    SetOnce(all, item);
  }

  lemma {:induction false} SetOnce(s: seq<Item>, item: Item)
    requires NoDuplicates(s)
    ensures multiset(s)[item] == if item in s then 1 else 0
  {
    if s != [] {
      var n := |s| - 1;
      SetOnce(s[..n], item);
      assert s == s[..n] + [s[n]];
    }
  }

  /** The greedy run.  It ends whatever the test of installability answers, every movable item and every
      queued removal of cruft ends up among the accepted or the returned ones, and the architectures
      that are not exempt get no worse.  What it returns was tried alone, in vain, after the last
      success.  `attempts` is what it did, down to the table: as long as the attempts were harmless, the
      engine stays intact and the table right. */
  method IterPackages(m: MigrationManager, env: Environment, packages: seq<Item>, selected: seq<Item>, nuninst: Nuninst)
    returns (now: Nuninst, remaining: seq<Item>, selected': seq<Item>, ghost attempts: seq<Attempt>, ghost rounds: seq<Round>)
    requires m.Valid() && Trusted(m.universe, env)
    requires OnKnownArchs(env, packages) && Nuninsts.Covers(nuninst, env.options.architectures)
    modifies m`transactions, m`records, m.transactions, m.suite
    ensures m.Valid() && m.transactions == old(m.transactions)
    ensures Iterated(m.universe, m.data, env, old(Standing(m.suite.State(), nuninst, m.Logs())), packages, selected, rounds,
                     attempts, Standing(m.suite.State(), now, m.Logs()), remaining)
    ensures selected' == selected + AcceptedIn(attempts) && OnKnownArchs(env, remaining)
    ensures Nuninsts.Covers(now, env.options.architectures)
    ensures NeverWorse(env.options, Exempt(env, AcceptedIn(attempts)), nuninst, now)
    ensures AcceptedIn(attempts) == [] ==> now == nuninst
    ensures m.Logs() == ExtendLast(old(m.Logs()), EntriesIn(m.data, attempts))
    ensures old(m.Intact()) && AllTraceless(m.data, attempts) ==> m.Intact()
    ensures old(m.Intact()) && AllHarmless(m.universe, m.data, attempts) ==>
      TableKept(m.universe, m.data, env, old(m.suite.State()), nuninst, m.suite.State(), now)
  {
    var movable := ReadGroups(m, env, packages);
    MovableOk(env, m.suite.State(), packages);
    var lists := Lists(movable, [], [], selected);
    now := nuninst;
    ghost var s0 := Standing(m.suite.State(), now, m.Logs());
    ghost var r0, r := RunStart(s0, m.Intact(), selected, movable), RunState(s0, lists, [], []);
    lists, now, r := IterRounds(m, env, lists, now, r0, r);
    remaining, selected', attempts, rounds := lists.maybe, lists.selected, r.attempts, r.rounds;
    RunOver(m.universe, m.data, env, r0, r, packages);
  }

  /** What a run did from `s0` to `s` with the items `work`, on top of those already selected: its rounds
      and attempts, and the items that are left in the end. */
  ghost predicate Iterated(u: Universe, data: Packages, env: Environment, s0: Standing, work: seq<Item>, selected: seq<Item>,
                           rounds: seq<Round>, attempts: seq<Attempt>, s: Standing, left: seq<Item>) {
    var movable := Movable(env.groups, s0.suite, work);
    && History(u, data, env, s0, attempts, s) && attempts == AttemptsIn(rounds)
    && Chronicle(env, Lists(movable, [], [], selected), rounds, Lists([], left, [], selected + AcceptedIn(attempts)))
    && Balanced(movable, QueuedIn(attempts), AcceptedIn(attempts), left)
    && forall item :: item in left ==> TriedInVain(attempts, item)
  }

  lemma RunOver(u: Universe, data: Packages, env: Environment, r0: RunStart, r: RunState, work: seq<Item>)
    requires Running(u, data, env, r0, r) && Chronicled(env, r0, r) && r.lists.worklist == [] && r.lists.rescheduled == []
    requires r0.movable == Movable(env.groups, r0.at.suite, work)
    ensures Iterated(u, data, env, r0.at, work, r0.selected, r.rounds, r.attempts, r.at, r.lists.maybe)
    ensures r.lists.selected == r0.selected + AcceptedIn(r.attempts) && OnKnownArchs(env, r.lists.maybe)
    ensures r.at.logs == ExtendLast(r0.at.logs, EntriesIn(data, r.attempts))
  {
    HistoryLogs(u, data, env, r0.at, r.attempts, r.at);
    assert r.lists.Left() == r.lists.maybe;
    assert r.lists == Lists([], r.lists.maybe, [], r.lists.selected);
  }

  /** One round after the other until nothing is to be tried again. */
  method IterRounds(m: MigrationManager, env: Environment, lists0: Lists, now0: Nuninst, ghost r0: RunStart, ghost r1: RunState)
    returns (lists: Lists, now: Nuninst, ghost r: RunState)
    requires m.Valid() && Trusted(m.universe, env) && lists0.worklist == []
    requires Running(m.universe, m.data, env, r0, r1) && Chronicled(env, r0, r1)
    requires r1.at == Standing(m.suite.State(), now0, m.Logs()) && r1.lists == lists0
    requires r0.intact && AllTraceless(m.data, r1.attempts) ==> m.Intact()
    modifies m`transactions, m`records, m.transactions, m.suite
    ensures m.Valid() && m.transactions == old(m.transactions)
    ensures Running(m.universe, m.data, env, r0, r) && Chronicled(env, r0, r)
    ensures r.at == Standing(m.suite.State(), now, m.Logs()) && r.lists == lists
    ensures r0.intact && AllTraceless(m.data, r.attempts) ==> m.Intact()
    ensures lists.worklist == [] && lists.rescheduled == []
  {
    lists, now, r := lists0, now0, r1;
    while lists.rescheduled != []
      invariant m.Valid() && m.transactions == old(m.transactions)
      invariant lists.worklist == [] && r.at == Standing(m.suite.State(), now, m.Logs()) && r.lists == lists
      invariant Running(m.universe, m.data, env, r0, r) && Chronicled(env, r0, r)
      invariant r0.intact && AllTraceless(m.data, r.attempts) ==> m.Intact()
      decreases Sources(lists.Left()), |lists.Left()|, |lists.rescheduled|
    {
      lists, now, r := RunRound(m, env, lists, now, r0, r);
    }
  }

  /** Nothing can be added to what a run has accepted: each item it returns fails on the suite and the
      table that the run ends with. */
  lemma LocalMaximum(u: Universe, data: Packages, env: Environment, s0: Standing, attempts: seq<Attempt>, s: Standing, item: Item)
    requires History(u, data, env, s0, attempts, s) && Sound(u, data, s0.suite) && AllTraceless(data, attempts)
    requires TriedInVain(attempts, item)
    ensures FailsAlone(u, data, env, s, item)
  {
    var i :| 0 <= i < |attempts| && attempts[i].comp == [item] && NoneAccepted(attempts, i);
    Standstill(u, data, env, s0, attempts, s, i);
    TriedAt(u, data, env, s0, attempts, s, attempts[i]);
  }

  /** Its groups cannot be computed, or the recheck finds an architecture worse than is tolerated. */
  ghost predicate FailsAlone(u: Universe, data: Packages, env: Environment, s: Standing, item: Item) {
    exists a: Attempt :: Tried(u, data, env, a) && a.comp == [item] && a.before == s && !a.accepted
  }

  lemma {:induction false} TriedAt(u: Universe, data: Packages, env: Environment, s0: Standing, attempts: seq<Attempt>, s: Standing,
                                   a: Attempt)
    requires History(u, data, env, s0, attempts, s) && a in attempts
    ensures Tried(u, data, env, a)
    decreases |attempts|
  {
    var n := |attempts| - 1;
    if a != attempts[n] {
      EarlierMember(attempts, a);
      TriedAt(u, data, env, s0, attempts[..n], attempts[n].before, a);
    }
  }

  lemma EarlierMember(attempts: seq<Attempt>, a: Attempt)
    requires a in attempts && a != attempts[|attempts| - 1]
    ensures a in attempts[..|attempts| - 1]
  {
    var i :| 0 <= i < |attempts| && attempts[i] == a;
    assert attempts[..|attempts| - 1][i] == a;
  }

  /** Rejected attempts without traces leave a run where it was. */
  lemma {:induction false} Standstill(u: Universe, data: Packages, env: Environment, s0: Standing, attempts: seq<Attempt>,
                                      s: Standing, i: nat)
    requires History(u, data, env, s0, attempts, s) && Sound(u, data, s0.suite) && AllTraceless(data, attempts)
    requires i < |attempts| && NoneAccepted(attempts, i)
    ensures attempts[i].before == s
    decreases |attempts|
  {
    var n := |attempts| - 1;
    EarlierTraceless(data, attempts);
    LastRejected(u, data, env, s0, attempts, s);
    if i < n {
      EarlierNone(attempts, i);
      Standstill(u, data, env, s0, attempts[..n], s, i);
    }
  }

  lemma LastRejected(u: Universe, data: Packages, env: Environment, s0: Standing, attempts: seq<Attempt>, s: Standing)
    requires History(u, data, env, s0, attempts, s) && Sound(u, data, s0.suite) && AllTraceless(data, attempts)
    requires attempts != [] && !attempts[|attempts| - 1].accepted
    ensures History(u, data, env, s0, attempts[..|attempts| - 1], s) && attempts[|attempts| - 1].before == s
  {
    var n := |attempts| - 1;
    EarlierTraceless(data, attempts);
    HistorySound(u, data, env, s0, attempts[..n], attempts[n].before);
    AttemptSound(u, data, env, attempts[n]);
  }

  lemma EarlierNone(attempts: seq<Attempt>, i: nat)
    requires NoneAccepted(attempts, i) && i + 1 < |attempts|
    ensures NoneAccepted(attempts[..|attempts| - 1], i) && attempts[..|attempts| - 1][i] == attempts[i]
  {
  }

  lemma EarlierTraceless(data: Packages, attempts: seq<Attempt>)
    requires AllTraceless(data, attempts) && attempts != []
    ensures AllTraceless(data, attempts[..|attempts| - 1])
    ensures var a := attempts[|attempts| - 1]; |a.states| == |a.items| + 1 && Traceless(data, a.states, a.items, a.accepted)
  {
    assert attempts[|attempts| - 1] in attempts;
    assert forall a :: a in attempts[..|attempts| - 1] ==> a in attempts;
  }

  lemma {:induction false} HistorySound(u: Universe, data: Packages, env: Environment, s0: Standing, attempts: seq<Attempt>, s: Standing)
    requires History(u, data, env, s0, attempts, s) && Sound(u, data, s0.suite) && AllTraceless(data, attempts)
    ensures Sound(u, data, s.suite)
    decreases |attempts|
  {
    if attempts != [] {
      var n := |attempts| - 1;
      EarlierTraceless(data, attempts);
      HistorySound(u, data, env, s0, attempts[..n], attempts[n].before);
      AttemptSound(u, data, env, attempts[n]);
    }
  }

  lemma AttemptSound(u: Universe, data: Packages, env: Environment, a: Attempt)
    requires Tried(u, data, env, a) && Sound(u, data, a.before.suite) && Traceless(data, a.states, a.items, a.accepted)
    ensures Sound(u, data, AfterAttempt(data, a).suite)
    ensures !a.accepted ==> AfterAttempt(data, a) == a.before
  {
    if a.accepted {
      SoundAt(u, data, a.states, a.items, |a.items|);
    } else {
      PlanTraced(u, data, a.states, a.items);
      RolledBackRight(a.states, EntriesOf(data, a.states, a.items));
      ExtendTwice(a.before.logs, [], []);
    }
  }

  lemma {:induction false} MovableOk(env: Environment, s: SuiteState, packages: seq<Item>)
    ensures forall item :: item in Movable(env.groups, s, packages) ==> item in packages
  {
    if packages != [] {
      MovableOk(env, s, packages[..|packages| - 1]);
    }
  }

  /** Schedule what is to be tried again and work it off. */
  method RunRound(m: MigrationManager, env: Environment, lists0: Lists, now0: Nuninst, ghost r0: RunStart, ghost r1: RunState)
    returns (lists: Lists, now: Nuninst, ghost r: RunState)
    requires m.Valid() && Trusted(m.universe, env) && lists0.worklist == [] && lists0.rescheduled != []
    requires Running(m.universe, m.data, env, r0, r1) && Chronicled(env, r0, r1)
    requires r1.at == Standing(m.suite.State(), now0, m.Logs()) && r1.lists == lists0
    requires r0.intact && AllTraceless(m.data, r1.attempts) ==> m.Intact()
    modifies m`transactions, m`records, m.transactions, m.suite
    ensures m.Valid() && m.transactions == old(m.transactions)
    ensures Running(m.universe, m.data, env, r0, r) && Chronicled(env, r0, r)
    ensures r.at == Standing(m.suite.State(), now, m.Logs()) && r.lists == lists
    ensures r0.intact && AllTraceless(m.data, r.attempts) ==> m.Intact()
    ensures lists.worklist == [] && RoundDone(lists0, lists)
  {
    now := now0;
    ghost var r2;
    lists, r2 := StartRound(m.universe, m.data, env, lists0, r0, r1);
    lists, now, r := WorkOff(m, env, lists0, lists, now, r0, r2);
  }

  /** Try one component after the other until the worklist is empty. */
  method WorkOff(m: MigrationManager, env: Environment, ghost lists0: Lists, lists1: Lists, now1: Nuninst, ghost r0: RunStart,
                 ghost r1: RunState)
    returns (lists: Lists, now: Nuninst, ghost r: RunState)
    requires m.Valid() && Trusted(m.universe, env) && RoundDone(lists0, lists1)
    requires Running(m.universe, m.data, env, r0, r1) && Chronicled(env, r0, r1)
    requires r1.at == Standing(m.suite.State(), now1, m.Logs()) && r1.lists == lists1
    requires r0.intact && AllTraceless(m.data, r1.attempts) ==> m.Intact()
    modifies m`transactions, m`records, m.transactions, m.suite
    ensures m.Valid() && m.transactions == old(m.transactions)
    ensures Running(m.universe, m.data, env, r0, r) && Chronicled(env, r0, r)
    ensures r.at == Standing(m.suite.State(), now, m.Logs()) && r.lists == lists
    ensures r0.intact && AllTraceless(m.data, r.attempts) ==> m.Intact()
    ensures lists.worklist == [] && RoundDone(lists0, lists)
  {
    lists, now, r := lists1, now1, r1;
    while lists.worklist != []
      invariant m.Valid() && m.transactions == old(m.transactions)
      invariant r.at == Standing(m.suite.State(), now, m.Logs()) && r.lists == lists
      invariant Running(m.universe, m.data, env, r0, r) && Chronicled(env, r0, r)
      invariant r0.intact && AllTraceless(m.data, r.attempts) ==> m.Intact()
      invariant RoundDone(lists0, lists)
      decreases Sources(lists.Left()), |lists.Left()|, Effort(lists.worklist)
    {
      ghost var lists2 := lists;
      lists, now, r := TryNext(m, env, lists, now, r0, r);
      StillDone(lists0, lists2, lists);
    }
  }

  lemma StillDone(lists0: Lists, lists1: Lists, lists: Lists)
    requires RoundDone(lists0, lists1) && LessLeft(lists1, lists)
    ensures RoundDone(lists0, lists)
  {
  }

  method StartRound(ghost u: Universe, ghost data: Packages, env: Environment, lists0: Lists, ghost r0: RunStart, ghost r1: RunState)
    returns (lists: Lists, ghost r: RunState)
    requires OrderNames(env) && lists0.worklist == [] && lists0.rescheduled != []
    requires Running(u, data, env, r0, r1) && Chronicled(env, r0, r1) && r1.lists == lists0
    ensures Running(u, data, env, r0, r) && Chronicled(env, r0, r) && RoundDone(lists0, lists)
    ensures r.at == r1.at && r.lists == lists && r.attempts == r1.attempts
  {
    var worklist;
    ghost var past, batches;
    worklist, past, batches := Schedule(env, lists0.rescheduled);
    lists := Lists([], lists0.maybe, worklist, lists0.selected);
    ghost var round := Round(lists0, past, batches, []);
    r := r1.(lists := lists, rounds := r1.rounds + [round]);
    SchedulingKept(u, data, env, r0, r1, worklist, r.rounds);
    ChronicleNext(env, r0, r1, round);
  }

  lemma SchedulingKept(u: Universe, data: Packages, env: Environment, r0: RunStart, r1: RunState, worklist: seq<seq<Item>>,
                       rounds: seq<Round>)
    requires Running(u, data, env, r0, r1) && r1.lists.worklist == []
    requires forall comp :: comp in worklist ==> comp != []
    requires NoDuplicates(Flatten(worklist)) && forall item :: item in Flatten(worklist) ==> item in r1.lists.rescheduled
    requires DistinctNames(Elements(r1.lists.rescheduled)) ==> Elements(Flatten(worklist)) == Elements(r1.lists.rescheduled)
    ensures var lists := Lists([], r1.lists.maybe, worklist, r1.lists.selected);
      Running(u, data, env, r0, r1.(lists := lists, rounds := rounds)) && RoundDone(r1.lists, lists)
  {
    ScheduledWork(r1.lists.maybe, r1.lists.rescheduled, worklist);
    ScheduledOk(env, r1.lists.rescheduled, worklist);
    ScheduleBalanced(r0.movable, QueuedIn(r1.attempts), AcceptedIn(r1.attempts), r1.lists.maybe, r1.lists.rescheduled, worklist);
  }

  /** A round works something off, or it has put nothing up for another round. */
  ghost predicate RoundDone(lists0: Lists, lists: Lists) {
    || LessWork(lists.rescheduled, lists.maybe, lists.worklist, Sources(lists0.Left()), |lists0.Left()|)
    || (&& Sources(lists.Left()) == Sources(lists0.Left()) && |lists.Left()| == |lists0.Left()|
        && lists.rescheduled == [])
  }

  lemma ScheduledOk(env: Environment, items: seq<Item>, worklist: seq<seq<Item>>)
    requires OnKnownArchs(env, items) && forall comp :: comp in worklist ==> comp != []
    requires forall item :: item in Flatten(worklist) ==> item in items
    ensures WorklistOk(env, worklist)
  {
    forall comp | comp in worklist
      ensures OnKnownArchs(env, comp)
    {
      var i :| 0 <= i < |worklist| && worklist[i] == comp;
      InFlatten(worklist, i);
    }
  }

  lemma {:induction false} InFlatten(worklist: seq<seq<Item>>, i: nat)
    requires i < |worklist|
    ensures forall item :: item in worklist[i] ==> item in Flatten(worklist)
  {
    if i < |worklist| - 1 {
      InFlatten(worklist[..|worklist| - 1], i);
    }
  }
}
