/** Runs of the upgrade: the main run, which cannot be taken back, and hints, which can. */
module UpgradeRuns {
  import opened Universes
  import opened Transactions
  import opened Changes
  import opened Migration
  import opened Nuninsts
  import opened ItemMigration
  import opened UpgradeLoop

  // ---------------------------------------------------------------------------------------------
  // The final comparison
  // ---------------------------------------------------------------------------------------------

  /** How many more uninstallable packages there are than before, beyond the allowed ones. */
  function Diff(options: Options, archs: seq<string>, n0: Nuninst, n: Nuninst, exempt: set<string>): int
    requires forall a :: a in archs ==> a in n0.archs && a in n.archs && a in options.allowUninst
  {
    if archs == [] then 0
    else
      var i := |archs| - 1;
      var a := archs[i];
      Diff(options, archs[..i], n0, n, exempt) +
      if a in exempt then 0 else |n.archs[a] - options.allowUninst[a]| - |n0.archs[a] - options.allowUninst[a]|
  }

  /** There are no more uninstallable packages than before, and none that must stay installable is new. */
  predicate AsGood(options: Options, archs: seq<string>, n0: Nuninst, n: Nuninst, exempt: set<string>) {
    && (forall a :: a in archs ==> a in n0.archs && a in n.archs && a in options.allowUninst)
    && Diff(options, archs, n0, n, exempt) <= 0
    && (forall a :: a in archs && a !in exempt ==> (n.archs[a] - n0.archs[a]) !! options.keepInstallable)
  }

  /** Compare two tables as a whole, ignoring some architectures. */
  method IsNuninstAsGoodGenerous(options: Options, archs: seq<string>, n0: Nuninst, n: Nuninst, exempt: set<string>)
    returns (good: bool)
    requires forall a :: a in archs ==> a in n0.archs && a in n.archs && a in options.allowUninst
    ensures good <==> AsGood(options, archs, n0, n, exempt)
  {
    var diff := 0;
    for i := 0 to |archs|
      invariant diff == Diff(options, archs[..i], n0, n, exempt)
    {
      assert archs[..i + 1][..i] == archs[..i];
      var a := archs[i];
      if a !in exempt {
        diff := diff + (|n.archs[a] - options.allowUninst[a]| - |n0.archs[a] - options.allowUninst[a]|);
      }
    }
    assert archs[..|archs|] == archs;
    if diff > 0 {
      return false;
    }
    for i := 0 to |archs|
      invariant forall a :: a in archs[..i] && a !in exempt ==> (n.archs[a] - n0.archs[a]) !! options.keepInstallable
    {
      var a := archs[i];
      if a !in exempt {
        var regression := n.archs[a] - n0.archs[a];
        if !(regression !! options.keepInstallable) {
          assert a in archs;
          return false;
        }
      }
    }
    good := true;
  }

  /** The uninstallable packages that count, with their architectures. */
  ghost function Excess(options: Options, archs: seq<string>, n: Nuninst, exempt: set<string>): set<(string, string)>
    requires forall a :: a in archs ==> a in n.archs && a in options.allowUninst
  {
    set a, name | a in archs && a !in exempt && name in n.archs[a] && name !in options.allowUninst[a] :: (a, name)
  }

  /** The comparison is about the number of uninstallable packages on all architectures together. */
  lemma {:induction false} DiffCounts(options: Options, archs: seq<string>, n0: Nuninst, n: Nuninst, exempt: set<string>)
    requires forall a :: a in archs ==> a in n0.archs && a in n.archs && a in options.allowUninst
    requires forall i, j :: 0 <= i < j < |archs| ==> archs[i] != archs[j]
    ensures Diff(options, archs, n0, n, exempt) == |Excess(options, archs, n, exempt)| - |Excess(options, archs, n0, exempt)|
  {
    if archs == [] {
      assert Excess(options, [], n, exempt) == {} && Excess(options, [], n0, exempt) == {};
    } else {
      var i := |archs| - 1;
      DiffCounts(options, archs[..i], n0, n, exempt);
      LastExcess(options, archs, n0, exempt);
      LastExcess(options, archs, n, exempt);
    }
  }

  lemma LastExcess(options: Options, archs: seq<string>, n: Nuninst, exempt: set<string>)
    requires forall a :: a in archs ==> a in n.archs && a in options.allowUninst
    requires forall i, j :: 0 <= i < j < |archs| ==> archs[i] != archs[j]
    requires archs != []
    ensures var a := archs[|archs| - 1];
      |Excess(options, archs, n, exempt)| ==
      |Excess(options, archs[..|archs| - 1], n, exempt)| + if a in exempt then 0 else |n.archs[a] - options.allowUninst[a]|
  {
    var i := |archs| - 1;
    var a, earlier := archs[i], Excess(options, archs[..i], n, exempt);
    var own := if a in exempt then {} else Pairs(a, n.archs[a] - options.allowUninst[a]);
    assert archs == archs[..i] + [a];
    assert Excess(options, archs, n, exempt) == earlier + own;
    assert earlier !! own;
    if a !in exempt {
      PairsCount(a, n.archs[a] - options.allowUninst[a]);
    }
  }

  ghost function Pairs(a: string, names: set<string>): set<(string, string)> {
    set name | name in names :: (a, name)
  }

  lemma {:induction false} PairsCount(a: string, names: set<string>)
    ensures |Pairs(a, names)| == |names|
    decreases |names|
  {
    if names == {} {
      assert Pairs(a, names) == {};
    } else {
      var name :| name in names;
      PairsCount(a, names - {name});
      assert Pairs(a, names) == Pairs(a, names - {name}) + {(a, name)};
    }
  }

  /** On a single architecture both comparisons say the same. */
  lemma OneArchitecture(options: Options, n0: Nuninst, n: Nuninst, a: string)
    requires a in n0.archs && a in n.archs && a in options.allowUninst
    ensures IsNuninstWorse(options.keepInstallable, n0.archs[a], n.archs[a], options.allowUninst[a]) <==>
            !AsGood(options, [a], n0, n, {})
  {
    assert [a][..0] == [];
    assert Diff(options, [a], n0, n, {}) == |n.archs[a] - options.allowUninst[a]| - |n0.archs[a] - options.allowUninst[a]|;
  }

  /** A table that is no worse architecture by architecture is as good as a whole. */
  lemma {:induction false} NeverWorseDiff(options: Options, archs: seq<string>, n0: Nuninst, n: Nuninst, exempt: set<string>)
    requires Nuninsts.Covers(n0, options.architectures) && Nuninsts.Covers(n, options.architectures)
    requires options.architectures <= options.allowUninst.Keys && NeverWorse(options, exempt, n0, n)
    requires forall a :: a in archs ==> a in options.architectures
    ensures Diff(options, archs, n0, n, exempt) <= 0
    ensures forall a :: a in archs && a !in exempt ==> (n.archs[a] - n0.archs[a]) !! options.keepInstallable
  {
    if archs != [] {
      var i := |archs| - 1;
      NeverWorseDiff(options, archs[..i], n0, n, exempt);
      var a := archs[i];
      assert a in archs;
      assert a !in exempt ==> !IsNuninstWorse(options.keepInstallable, n0.archs[a], n.archs[a], options.allowUninst[a]);
      assert archs == archs[..i] + [a];
    }
  }

  /** The architectures that the final comparison ignores: none when only items of break architectures
      have migrated. */
  function Ignored(options: Options, selected: seq<Item>): set<string> {
    if forall item :: item in selected ==> item.architecture in options.breakArches then {} else options.breakArches
  }

  /** The runs whose result passes the final comparison in any case: those that have taken in an item
      that is not of a break architecture, or none of a new architecture. */
  predicate SafeSelection(options: Options, selected: seq<Item>) {
    || (exists item :: item in selected && item.architecture !in options.breakArches)
    || (forall item :: item in selected ==> item.architecture !in options.architectures * options.newArches)
  }

  /** The architectures that `selected` has nothing to do with have kept their table. */
  ghost predicate UntouchedKept(options: Options, selected: seq<Item>, n0: Nuninst, n: Nuninst)
    requires Nuninsts.Covers(n0, options.architectures) && Nuninsts.Covers(n, options.architectures)
  {
    forall a :: a in options.architectures && a !in AffectedArchitectures(ItemArchs(selected), options.architectures) ==>
      n.archs[a] == n0.archs[a]
  }

  lemma SafeNeverWorse(env: Environment, selected: seq<Item>, n0: Nuninst, n: Nuninst)
    requires env.options.architectures <= env.options.allowUninst.Keys && SOURCE !in env.options.breakArches
    requires StepsAllow(env, selected, n0, n) && SafeSelection(env.options, selected)
    ensures NeverWorse(env.options, Ignored(env.options, selected), n0, n)
  {
    var options := env.options;
    if forall item :: item in selected ==> item.architecture in options.breakArches {
      forall a | a in ItemArchs(selected)
        ensures a in options.breakArches && a !in options.architectures * options.newArches
      {
        var i :| 0 <= i < |selected| && selected[i].architecture == a;
        assert selected[i] in selected;
      }
      forall a | a in options.architectures
        ensures !IsNuninstWorse(options.keepInstallable, n0.archs[a], n.archs[a], options.allowUninst[a])
      {
        assert a !in ItemArchs(selected) ==> n.archs[a] == n0.archs[a];
        assert n.archs[a] - n.archs[a] == {};
      }
    }
  }

  lemma SafePasses(env: Environment, archs: seq<string>, selected: seq<Item>, n0: Nuninst, n: Nuninst)
    requires env.options.architectures <= env.options.allowUninst.Keys && SOURCE !in env.options.breakArches
    requires forall a :: a in archs <==> a in env.options.architectures
    requires StepsAllow(env, selected, n0, n) && SafeSelection(env.options, selected)
    ensures AsGood(env.options, archs, n0, n, Ignored(env.options, selected))
  {
    SafeNeverWorse(env, selected, n0, n);
    NeverWorseDiff(env.options, archs, n0, n, Ignored(env.options, selected));
  }

  /** What the steps of a run guarantee is enough for the final comparison exactly for the safe selections. */
  lemma SafeExactly(env: Environment, archs: seq<string>, selected: seq<Item>)
    requires env.options.architectures <= env.options.allowUninst.Keys && SOURCE !in env.options.breakArches
    requires forall a :: a in archs <==> a in env.options.architectures
    ensures SafeSelection(env.options, selected) <==>
      forall n0, n :: StepsAllow(env, selected, n0, n) ==> AsGood(env.options, archs, n0, n, Ignored(env.options, selected))
  {
    if SafeSelection(env.options, selected) {
      forall n0, n | StepsAllow(env, selected, n0, n)
        ensures AsGood(env.options, archs, n0, n, Ignored(env.options, selected))
      {
        SafePasses(env, archs, selected, n0, n);
      }
    } else {
      var n0, n := UnsafeRegression(env, archs, selected);
    }
  }

  /** How the table may change over a run that accepts `selected`. */
  ghost predicate StepsAllow(env: Environment, selected: seq<Item>, n0: Nuninst, n: Nuninst)
    requires env.options.architectures <= env.options.allowUninst.Keys
  {
    && Nuninsts.Covers(n0, env.options.architectures) && Nuninsts.Covers(n, env.options.architectures)
    && NeverWorse(env.options, Exempt(env, selected), n0, n)
    && UntouchedKept(env.options, selected, n0, n)
    && (selected == [] ==> n == n0)
  }

  /** A run only changes the table of the architectures of what it accepts. */
  lemma {:induction false} HistoryUntouched(u: Universe, data: Packages, env: Environment, s0: Standing, attempts: seq<Attempt>,
                                            s: Standing, a: string)
    requires History(u, data, env, s0, attempts, s) && a in env.options.architectures
    requires Nuninsts.Covers(s0.table, {a}) && Nuninsts.Covers(s.table, {a})
    requires a !in AffectedArchitectures(ItemArchs(AcceptedIn(attempts)), env.options.architectures)
    ensures s.table.archs[a] == s0.table.archs[a]
  {
    if attempts != [] {
      var n := |attempts| - 1;
      var last := attempts[n];
      ArchsConcat(AcceptedIn(attempts[..n]), UpgradeLoop.Taken(last));
      assert Judged(data, env, last);
      HistoryUntouched(u, data, env, s0, attempts[..n], last.before, a);
    }
  }

  lemma StepsTaken(u: Universe, data: Packages, env: Environment, s0: Standing, attempts: seq<Attempt>, s: Standing)
    requires env.options.architectures <= env.options.allowUninst.Keys && History(u, data, env, s0, attempts, s)
    requires Nuninsts.Covers(s0.table, env.options.architectures) && Nuninsts.Covers(s.table, env.options.architectures)
    requires NeverWorse(env.options, Exempt(env, AcceptedIn(attempts)), s0.table, s.table)
    requires AcceptedIn(attempts) == [] ==> s.table == s0.table
    ensures StepsAllow(env, AcceptedIn(attempts), s0.table, s.table)
  {
    var selected := AcceptedIn(attempts);
    forall a | a in env.options.architectures && a !in AffectedArchitectures(ItemArchs(selected), env.options.architectures)
      ensures s.table.archs[a] == s0.table.archs[a]
    {
      HistoryUntouched(u, data, env, s0, attempts, s, a);
    }
  }

  /** The final comparison of a run. */
  method IsRunAsGood(env: Environment, archs: seq<string>, n0: Nuninst, n: Nuninst, selected: seq<Item>,
                     ghost u: Universe, ghost data: Packages, ghost s0: Standing, ghost attempts: seq<Attempt>, ghost s: Standing)
    returns (good: bool)
    requires env.options.architectures <= env.options.allowUninst.Keys && SOURCE !in env.options.breakArches
    requires forall a :: a in archs <==> a in env.options.architectures
    requires History(u, data, env, s0, attempts, s) && selected == AcceptedIn(attempts) && s0.table == n0 && s.table == n
    requires Nuninsts.Covers(n0, env.options.architectures) && Nuninsts.Covers(n, env.options.architectures)
    requires NeverWorse(env.options, Exempt(env, selected), n0, n) && (selected == [] ==> n == n0)
    ensures good <==> AsGood(env.options, archs, n0, n, Ignored(env.options, selected))
    ensures SafeSelection(env.options, selected) ==> good
  {
    good := IsNuninstAsGoodGenerous(env.options, archs, n0, n, Ignored(env.options, selected));
    StepsTaken(u, data, env, s0, attempts, s);
    if SafeSelection(env.options, selected) {
      SafePasses(env, archs, selected, n0, n);
    }
  }

  lemma ArchsConcat(items: seq<Item>, more: seq<Item>)
    ensures ItemArchs(items + more) == ItemArchs(items) + ItemArchs(more)
  {
    var all := items + more;
    forall i | 0 <= i < |items|
      ensures items[i].architecture in ItemArchs(all)
    {
      assert all[i] == items[i];
    }
    forall i | 0 <= i < |more|
      ensures more[i].architecture in ItemArchs(all)
    {
      assert all[|items| + i] == more[i];
    }
  }

  /** Items of break architectures alone may break a package on a new one of theirs, which is then compared. */
  lemma UnsafeRegression(env: Environment, archs: seq<string>, selected: seq<Item>) returns (n0: Nuninst, n: Nuninst)
    requires env.options.architectures <= env.options.allowUninst.Keys && SOURCE !in env.options.breakArches
    requires forall a :: a in archs <==> a in env.options.architectures
    requires !SafeSelection(env.options, selected)
    ensures StepsAllow(env, selected, n0, n) && !AsGood(env.options, archs, n0, n, Ignored(env.options, selected))
  {
    var item :| item in selected && item.architecture in env.options.architectures * env.options.newArches;
    var arch := item.architecture;
    var nothing: map<string, set<string>> := map a | a in env.options.architectures :: {};
    var name := NewName(env.options.allowUninst[arch]);
    n0, n := Nuninst(nothing, nothing), Nuninst(nothing[arch := {name}], nothing);
    assert SOURCE !in ItemArchs(selected);
    assert arch in ItemArchs(selected) by {
      var i :| 0 <= i < |selected| && selected[i] == item;
    }
    assert {name} - env.options.allowUninst[arch] == {name};
    OneMoreBroken(env.options, archs, n0, n, arch, name);
  }

  /** A package that must stay installable cannot be traded for another one: the count is the same, but the
      table is rejected. */
  lemma KeepInstallable(options: Options, arch: string, keep: string, other: string) returns (n0: Nuninst, n: Nuninst)
    requires arch in options.allowUninst && keep in options.keepInstallable && keep != other
    requires keep !in options.allowUninst[arch] && other !in options.allowUninst[arch]
    ensures n0.archs.Keys == n.archs.Keys == {arch} && Diff(options, [arch], n0, n, {}) == 0
    ensures !AsGood(options, [arch], n0, n, {})
  {
    n0, n := Nuninst(map[arch := {other}], map[arch := {other}]), Nuninst(map[arch := {keep}], map[arch := {keep}]);
    assert [arch][..0] == [];
    assert {keep} - options.allowUninst[arch] == {keep} && {other} - options.allowUninst[arch] == {other};
    assert keep in n.archs[arch] - n0.archs[arch] && arch in [arch];
  }

  lemma {:induction false} OneMoreBroken(options: Options, archs: seq<string>, n0: Nuninst, n: Nuninst, arch: string, name: string)
    requires forall a :: a in archs ==> a in options.allowUninst && a in n0.archs && n0.archs[a] == {} && a in n.archs
    requires arch in archs ==> name in n.archs[arch] && name !in options.allowUninst[arch]
    ensures Diff(options, archs, n0, n, {}) >= if arch in archs then 1 else 0
  {
    if archs != [] {
      var i := |archs| - 1;
      var a := archs[i];
      OneMoreBroken(options, archs[..i], n0, n, arch, name);
      assert a in archs && (arch in archs ==> arch in archs[..i] || arch == a);
      var excess := n.archs[a] - options.allowUninst[a];
      assert |n0.archs[a] - options.allowUninst[a]| == 0 && (a == arch ==> name in excess);
      assert |excess| >= if a == arch then 1 else 0;
    }
  }

  lemma NewName(names: set<string>) returns (name: string)
    ensures name !in names
  {
    var longest := LongestOf(names);
    name := longest + "x";
  }

  /** A name at least as long as all others. */
  lemma {:induction false} LongestOf(names: set<string>) returns (longest: string)
    ensures forall name :: name in names ==> |name| <= |longest|
    decreases |names|
  {
    if names == {} {
      longest := "";
    } else {
      var name :| name in names;
      var other := LongestOf(names - {name});
      longest := if |name| <= |other| then other else name;
    }
  }

  datatype HintType = Easy | ForceHint | RecursiveHint

  datatype HintResult = NotACandidate | HintRaised | Success | Failed

  /** A hint that is not forced is taken back unless it succeeds. */
  predicate TakenBack(hint: HintType, result: HintResult) {
    result.Failed? || (result.HintRaised? && !hint.ForceHint?)
  }

  /** What playing a hint did: its own items migrated together, then a run over what was to follow, with
      the new cruft in some order. */
  datatype HintRun = HintRun(
    first: Attempt,
    cruft: seq<Item>,
    rounds: seq<Round>,
    attempts: seq<Attempt>,
    end: Standing,
    left: seq<Item>)

  /** What a hint works on after its own items, apart from new cruft: everything else on the list for a
      recursive hint, otherwise the removals of cruft on it. */
  function WorkOf(hint: HintType, list: seq<Item>, init: seq<Item>): seq<Item> {
    if hint.RecursiveHint? then Without(list, init) else Cruft(list)
  }

  /** The list of what is still to be upgraded after a successful hint. */
  function ListAfter(hint: HintType, list: seq<Item>, init: seq<Item>, run: HintRun): seq<Item> {
    if hint.RecursiveHint? then run.left else Without(list, init + AcceptedIn(run.attempts))
  }

  /** The list without the items of a hint. */
  function Leftover(list: seq<Item>, init: seq<Item>): seq<Item> {
    if init == [] then list
    else
      var n := |init| - 1;
      var left := Leftover(list, init[..n]);
      if init[n] in left then RemoveFirst(left, init[n]) else left
  }

  /** The run that follows the items of a hint. */
  ghost predicate FollowedUp(u: Universe, data: Packages, env: Environment, work: seq<Item>, init: seq<Item>, s0: Standing,
                             smooth: set<PackageId>, run: HintRun) {
    && NoDuplicates(run.cruft) && Elements(run.cruft) == CruftItems(env, smooth)
    && Iterated(u, data, env, s0, work + run.cruft, init, run.rounds, run.attempts, run.end, run.left)
  }

  /** The items of a hint migrate as soon as all their groups can be computed, whatever the recheck finds. */
  ghost predicate TriedUnchecked(u: Universe, data: Packages, env: Environment, a: Attempt) {
    && Attempted(u, data, env.groups, a.comp, a.states, a.items, a.accepted) && a.states[0] == a.before.suite
    && AffectedBy(u, EnclosingOf(a.before.logs), a.states, a.items, a.affected)
    && (a.accepted <==> |a.items| == |a.comp|)
    && (a.accepted ==>
          UpdatedTable(env.options, TestsOf(env.inst(a.past), a.states[|a.items|].contents), data, a.states[|a.items|].binaries,
                       a.affected, AffectedArchitectures(ItemArchs(a.comp), env.options.architectures), a.before.table,
                       a.rechecked))
  }

  /** Where a hint stands after its items; nothing is taken back yet. */
  ghost function AfterFirst(data: Packages, a: Attempt): Standing
    requires |a.states| == |a.items| + 1
  {
    Standing(
      a.states[|a.items|],
      if a.accepted then a.rechecked else a.before.table,
      ExtendLast(a.before.logs, EntriesOf(data, a.states, a.items)))
  }

  /** `list` is what is to be upgraded, apart from the items of the hint. */
  ghost predicate HintPlayed(u: Universe, data: Packages, env: Environment, hint: HintType, list: seq<Item>, init: seq<Item>,
                              s0: SuiteState, n0: Nuninst, run: HintRun) {
    var first := run.first;
    && first.comp == init && first.before.suite == s0 && first.before.table == n0
    && TriedUnchecked(u, data, env, first)
    && (first.accepted ==>
          FollowedUp(u, data, env, WorkOf(hint, list, init), init, AfterFirst(data, first), SmoothOf(env.groups, init, first.states), run))
    && (!first.accepted ==> run.attempts == [] && run.end == AfterFirst(data, first))
  }

  /** The log of a hint. */
  ghost function LogOfHint(data: Packages, run: HintRun): seq<LogEntry>
    requires |run.first.states| == |run.first.items| + 1
  {
    EntriesOf(data, run.first.states, run.first.items) + EntriesIn(data, run.attempts)
  }

  /** The table at the end is as good as the one at the start. */
  ghost predicate GoodHint(options: Options, archs: seq<string>, n0: Nuninst, init: seq<Item>, run: HintRun) {
    AsGood(options, archs, n0, run.end.table, Ignored(options, init + AcceptedIn(run.attempts)))
  }

  /** What `run` says of the hint played from the suite `s0` with the table `n0`. */
  ghost predicate HintRight(u: Universe, data: Packages, env: Environment, hint: HintType, list: seq<Item>, init: seq<Item>,
                            s0: SuiteState, n0: Nuninst, intact: bool, run: HintRun) {
    && HintPlayed(u, data, env, hint, list, init, s0, n0, run)
    && (run.first.accepted && intact && HarmlessHint(u, data, run) ==>
          TableKept(u, data, env, s0, n0, run.end.suite, run.end.table))
  }

  /** Whether a hint raised, and otherwise its table and the items that it accepted. */
  ghost predicate ResultOf(env: Environment, init: seq<Item>, run: HintRun, raised: bool, end: Nuninst, chosen: seq<Item>) {
    && (raised <==> !run.first.accepted)
    && (!raised ==> end == run.end.table && Nuninsts.Covers(end, env.options.architectures))
    && (!raised ==> chosen == init + AcceptedIn(run.attempts))
  }

  /** Is the table of a hint that did not raise as good as the one before? */
  method IsBetter(env: Environment, archs: seq<string>, n0: Nuninst, raised: bool, end: Nuninst, chosen: seq<Item>,
                  ghost init: seq<Item>, ghost run: HintRun)
    returns (better: bool)
    requires ResultOf(env, init, run, raised, end, chosen)
    requires (forall a :: a in archs <==> a in env.options.architectures) && Nuninsts.Covers(n0, env.options.architectures)
    requires forall a :: a in env.options.architectures ==> a in env.options.allowUninst
    ensures better <==> !raised && GoodHint(env.options, archs, n0, init, run)
  {
    better := false;
    if !raised {
      better := IsNuninstAsGoodGenerous(env.options, archs, n0, end, Ignored(env.options, chosen));
    }
  }

  ghost predicate HarmlessHint(u: Universe, data: Packages, run: HintRun) {
    ReplacedKeys(u, run.first.items) == {} && AllHarmless(u, data, run.attempts)
  }

  class Britney {
    const m: MigrationManager
    const env: Environment
    /** The architectures, in the configured order. */
    const archs: seq<string>
    var upgradeMe: seq<Item>
    var nuninstOrig: Nuninst
    var allSelected: seq<Item>

    constructor (m: MigrationManager, env: Environment, archs: seq<string>, upgradeMe: seq<Item>, nuninst: Nuninst)
      requires m.Valid() && Trusted(m.universe, env) && m.transactions == []
      requires (forall a :: a in archs <==> a in env.options.architectures) && SOURCE !in env.options.breakArches
      requires OnKnownArchs(env, upgradeMe) && Nuninsts.Covers(nuninst, env.options.architectures)
      ensures this.m == m && this.env == env && this.archs == archs
      ensures this.upgradeMe == upgradeMe && this.nuninstOrig == nuninst && this.allSelected == []
      ensures Valid()
    {
      this.m, this.env, this.archs := m, env, archs;
      this.upgradeMe, this.nuninstOrig, this.allSelected := upgradeMe, nuninst, [];
    }

    ghost predicate Valid()
      reads this, m, m.suite, m.transactions
    {
      && m.Valid() && m.transactions == []
      && Trusted(m.universe, env)
      && (forall a :: a in archs <==> a in env.options.architectures) && SOURCE !in env.options.breakArches
      && OnKnownArchs(env, upgradeMe) && Nuninsts.Covers(nuninstOrig, env.options.architectures)
    }

    /** The main run.  Whatever it does to the suite cannot be rolled back, so its result must pass:
        it does for every safe selection, whatever the test of installability answers.  After harmless
        attempts the table on record is as right as it was. */
    method MainRun() returns (ok: bool, ghost rounds: seq<Round>, ghost attempts: seq<Attempt>, ghost end: Standing, ghost left: seq<Item>)
      requires Valid()
      modifies this, m`transactions, m`records, m.suite
      ensures Iterated(m.universe, m.data, env, old(Standing(m.suite.State(), nuninstOrig, m.Logs())), old(upgradeMe), [], rounds,
                       attempts, end, left)
      ensures end.suite == m.suite.State()
      ensures ok <==> AsGood(env.options, archs, old(nuninstOrig), end.table, Ignored(env.options, AcceptedIn(attempts)))
      ensures SafeSelection(env.options, AcceptedIn(attempts)) ==> ok
      ensures !ok ==>
        upgradeMe == old(upgradeMe) && nuninstOrig == old(nuninstOrig) && allSelected == old(allSelected)
      ensures ok ==> Valid() && allSelected == old(allSelected) + AcceptedIn(attempts) && nuninstOrig == end.table
      ensures ok ==> upgradeMe == left
      ensures ok ==> NeverWorse(env.options, env.options.breakArches, old(nuninstOrig), nuninstOrig)
      ensures old(m.Intact()) && AllTraceless(m.data, attempts) ==> m.Intact()
      ensures ok && old(m.Intact()) && AllHarmless(m.universe, m.data, attempts) ==>
        TableKept(m.universe, m.data, env, old(m.suite.State()), old(nuninstOrig), m.suite.State(), nuninstOrig)
    {
      var table, extra, chosen;
      ok, table, extra, chosen, rounds, attempts := JudgeMain();
      end, left := Standing(m.suite.State(), table, m.Logs()), extra;
      RecordRun(ok, table, chosen, extra);
    }

    /** Iterate over everything and compare. */
    method JudgeMain()
      returns (ok: bool, table: Nuninst, extra: seq<Item>, chosen: seq<Item>, ghost rounds: seq<Round>, ghost attempts: seq<Attempt>)
      requires Valid()
      modifies m`transactions, m`records, m.suite
      ensures m.Valid() && m.transactions == []
      ensures Iterated(m.universe, m.data, env, old(Standing(m.suite.State(), nuninstOrig, m.Logs())), upgradeMe, [], rounds,
                       attempts, Standing(m.suite.State(), table, m.Logs()), extra)
      ensures chosen == AcceptedIn(attempts) && OnKnownArchs(env, extra) && Nuninsts.Covers(table, env.options.architectures)
      ensures ok <==> AsGood(env.options, archs, nuninstOrig, table, Ignored(env.options, chosen))
      ensures SafeSelection(env.options, chosen) ==> ok
      ensures NeverWorse(env.options, env.options.breakArches, nuninstOrig, table)
      ensures old(m.Intact()) && AllTraceless(m.data, attempts) ==> m.Intact()
      ensures old(m.Intact()) && AllHarmless(m.universe, m.data, attempts) ==>
        TableKept(m.universe, m.data, env, old(m.suite.State()), nuninstOrig, m.suite.State(), table)
    {
      table, extra, chosen, attempts, rounds := IterPackages(m, env, upgradeMe, [], nuninstOrig);
      assert chosen == AcceptedIn(attempts);
      ok := IsRunAsGood(env, archs, nuninstOrig, table, chosen, m.universe, m.data,
                        old(Standing(m.suite.State(), nuninstOrig, m.Logs())), attempts, Standing(m.suite.State(), table, m.Logs()));
    }

    /** Record the result of a main run that passed. */
    method RecordRun(ok: bool, table: Nuninst, chosen: seq<Item>, extra: seq<Item>)
      requires m.Valid() && m.transactions == [] && Trusted(m.universe, env)
      requires (forall a :: a in archs <==> a in env.options.architectures) && SOURCE !in env.options.breakArches
      requires OnKnownArchs(env, extra) && Nuninsts.Covers(table, env.options.architectures)
      modifies this
      ensures ok ==> Valid()
      ensures ok ==> nuninstOrig == table && allSelected == old(allSelected) + chosen && upgradeMe == extra
      ensures !ok ==> upgradeMe == old(upgradeMe) && nuninstOrig == old(nuninstOrig) && allSelected == old(allSelected)
    {
      if ok {
        nuninstOrig := table;
        allSelected := allSelected + chosen;
        upgradeMe := extra;
      }
    }

    /** Try a hint: its items go in together, then cruft removals or, for a recursive hint, everything
        else is tried on top.  `run` is what that did.  A hint that fails is rolled back; if the engine
        was intact and the attempts left no traces, the suite is as it was exactly when the log of the
        hint is reversible.  A hint that succeeds without force is as good as the start. */
    method RunHint(hint: HintType, init: seq<Item>) returns (result: HintResult, ghost run: HintRun)
      requires Valid()
      modifies this, m`transactions, m`records, m.suite
      ensures Valid()
      ensures result.NotACandidate? <==> !(multiset(init) <= multiset(old(upgradeMe)))
      ensures result.NotACandidate? ==> m.suite.State() == old(m.suite.State())
      ensures !result.Success? ==>
        upgradeMe == old(upgradeMe) && nuninstOrig == old(nuninstOrig) && allSelected == old(allSelected)
      ensures !result.NotACandidate? ==>
        && HintPlayed(m.universe, m.data, env, hint, Leftover(old(upgradeMe), init), init, old(m.suite.State()), old(nuninstOrig), run)
        && (result.HintRaised? <==> !run.first.accepted)
      ensures !result.NotACandidate? ==>
        m.suite.State() == (if TakenBack(hint, result) then RolledBack(run.end.suite, LogOfHint(m.data, run)) else run.end.suite)
      ensures TakenBack(hint, result) && old(m.Intact()) && AllTraceless(m.data, run.attempts) ==>
        (m.suite.State() == old(m.suite.State()) <==> Reversible(old(m.suite.State()), LogOfHint(m.data, run)))
      ensures !result.NotACandidate? && old(m.Intact()) && AllTraceless(m.data, run.attempts) ==>
        (TakenBack(hint, result) ==> Reversible(old(m.suite.State()), LogOfHint(m.data, run))) ==>
        m.Intact()
      ensures result.Success? ==> nuninstOrig == run.end.table && allSelected == old(allSelected) + (init + AcceptedIn(run.attempts))
      ensures result.Success? ==> upgradeMe == ListAfter(hint, old(upgradeMe), init, run)
      ensures result.Success? || result.Failed? ==>
        (result.Success? <==> hint.ForceHint? || GoodHint(env.options, archs, old(nuninstOrig), init, run))
      ensures result.Success? && old(m.Intact()) && HarmlessHint(m.universe, m.data, run) ==>
        TableKept(m.universe, m.data, env, old(m.suite.State()), old(nuninstOrig), m.suite.State(), nuninstOrig)
    {
      var candidates, left := TakeCandidates(init, upgradeMe);
      if !candidates {
        run := *;
        return NotACandidate, run;
      }
      CandidatesKnown(env, init, upgradeMe, left);
      if hint.ForceHint? {
        result, run := RunForced(init, left);
      } else {
        result, run := RunInTransaction(hint, init, left);
      }
    }

    /** A forced hint is better unconditionally; nothing will have to be rolled back. */
    method RunForced(init: seq<Item>, left: seq<Item>) returns (result: HintResult, ghost run: HintRun)
      requires Valid() && OnKnownArchs(env, init) && OnKnownArchs(env, left)
      modifies this, m`transactions, m`records, m.suite
      ensures Valid() && (if run.first.accepted then result.Success? else result.HintRaised?)
      ensures result.HintRaised? ==>
        upgradeMe == old(upgradeMe) && nuninstOrig == old(nuninstOrig) && allSelected == old(allSelected)
      ensures HintPlayed(m.universe, m.data, env, ForceHint, left, init, old(m.suite.State()), old(nuninstOrig), run)
      ensures m.suite.State() == run.end.suite
      ensures result.Success? ==> upgradeMe == ListAfter(ForceHint, old(upgradeMe), init, run)
      ensures old(m.Intact()) && AllTraceless(m.data, run.attempts) ==> m.Intact()
      ensures result.Success? ==> nuninstOrig == run.end.table && allSelected == old(allSelected) + (init + AcceptedIn(run.attempts))
      ensures result.Success? && old(m.Intact()) && HarmlessHint(m.universe, m.data, run) ==>
        TableKept(m.universe, m.data, env, old(m.suite.State()), old(nuninstOrig), m.suite.State(), nuninstOrig)
    {
      var raised, end, chosen, rest;
      raised, end, chosen, rest, run := PlayHint(ForceHint, init, left);
      if raised {
        return HintRaised, run;
      }
      PartsKnown(env, upgradeMe, chosen);
      Settle(ForceHint, end, chosen, rest);
      result := Success;
    }

    method RunInTransaction(hint: HintType, init: seq<Item>, left: seq<Item>)
      returns (result: HintResult, ghost run: HintRun)
      requires Valid() && OnKnownArchs(env, init) && OnKnownArchs(env, left)
      modifies this, m`transactions, m`records, m.suite
      ensures Valid() && (result.Success? || result.HintRaised? || result.Failed?)
      ensures !result.Success? ==>
        upgradeMe == old(upgradeMe) && nuninstOrig == old(nuninstOrig) && allSelected == old(allSelected)
      ensures HintPlayed(m.universe, m.data, env, hint, left, init, old(m.suite.State()), old(nuninstOrig), run)
      ensures result.Success? ==> upgradeMe == ListAfter(hint, old(upgradeMe), init, run)
      ensures result.HintRaised? <==> !run.first.accepted
      ensures m.suite.State() == if result.Success? then run.end.suite else RolledBack(run.end.suite, LogOfHint(m.data, run))
      ensures old(m.Intact()) && AllTraceless(m.data, run.attempts) && !result.Success? ==>
        (m.suite.State() == old(m.suite.State()) <==> Reversible(old(m.suite.State()), LogOfHint(m.data, run)))
      ensures old(m.Intact()) && AllTraceless(m.data, run.attempts) ==>
        result.Success? || Reversible(old(m.suite.State()), LogOfHint(m.data, run)) ==>
        m.Intact()
      ensures result.Success? ==> nuninstOrig == run.end.table && allSelected == old(allSelected) + (init + AcceptedIn(run.attempts))
      ensures !result.HintRaised? ==>
        (result.Success? <==> GoodHint(env.options, archs, old(nuninstOrig), init, run))
      ensures result.Success? && old(m.Intact()) && HarmlessHint(m.universe, m.data, run) ==>
        TableKept(m.universe, m.data, env, old(m.suite.State()), old(nuninstOrig), m.suite.State(), nuninstOrig)
    {
      var t, raised, better, end, chosen, rest;
      t, raised, better, end, chosen, rest, run := JudgeInside(hint, init, left);
      result := Conclude(hint, t, raised, better, end, chosen, rest, LogOfHint(m.data, run));
    }

    /** Keep what a hint did, or take it back. */
    method Conclude(hint: HintType, t: MigrationTransactionState, raised: bool, better: bool, end: Nuninst, chosen: seq<Item>,
                    rest: seq<Item>, ghost entries: seq<LogEntry>)
      returns (result: HintResult)
      requires m.Valid() && m.transactions == [t] && t.undoItems == entries && Trusted(m.universe, env)
      requires (forall a :: a in archs <==> a in env.options.architectures) && SOURCE !in env.options.breakArches
      requires OnKnownArchs(env, upgradeMe) && Nuninsts.Covers(nuninstOrig, env.options.architectures)
      requires better ==> OnKnownArchs(env, rest) && Nuninsts.Covers(end, env.options.architectures)
      modifies this, m`transactions, m`records, m.transactions, m.suite
      ensures Valid() && result == if better then Success else if raised then HintRaised else Failed
      ensures m.suite.State() == if better then old(m.suite.State()) else RolledBack(old(m.suite.State()), entries)
      ensures better ==>
        && nuninstOrig == end && allSelected == old(allSelected) + chosen
        && upgradeMe == if hint.RecursiveHint? then rest else Without(old(upgradeMe), chosen)
      ensures !better ==> upgradeMe == old(upgradeMe) && nuninstOrig == old(nuninstOrig) && allSelected == old(allSelected)
      ensures old(m.Intact()) && !better ==> (m.suite.State() == t.start <==> Reversible(t.start, entries))
      ensures old(m.Intact()) && (better || Reversible(t.start, entries)) ==> m.Intact()
    {
      if better {
        CommitHint(hint, end, chosen, rest);
        result := Success;
      } else {
        UpgradeLoop.RollBack(m, t, entries);
        result := if raised then HintRaised else Failed;
      }
    }

    /** Open a transaction and judge a hint in it. */
    method JudgeInside(hint: HintType, init: seq<Item>, left: seq<Item>)
      returns (t: MigrationTransactionState, raised: bool, better: bool, end: Nuninst, chosen: seq<Item>, rest: seq<Item>,
               ghost run: HintRun)
      requires Valid() && OnKnownArchs(env, init) && OnKnownArchs(env, left)
      modifies m`transactions, m`records, m.suite
      ensures m.Valid() && fresh(t) && m.transactions == [t] && t.start == old(m.suite.State())
      ensures HintRight(m.universe, m.data, env, hint, left, init, old(m.suite.State()), nuninstOrig, old(m.Intact()), run)
      ensures ResultOf(env, init, run, raised, end, chosen)
      ensures m.suite.State() == run.end.suite && t.undoItems == LogOfHint(m.data, run)
      ensures !raised ==> OnKnownArchs(env, rest) && rest == run.left
      ensures better <==> !raised && GoodHint(env.options, archs, nuninstOrig, init, run)
      ensures old(m.Intact()) && AllTraceless(m.data, run.attempts) ==> m.Intact()
    {
      t := m.StartTransaction();
      raised, better, end, chosen, rest, run := JudgeHint(hint, init, left);
      assert t.undoItems == LogOfHint(m.data, run) by {
        assert m.Frame(0, 1);
        assert m.Logs()[0] == [] + LogOfHint(m.data, run);
      }
    }

    method JudgeHint(hint: HintType, init: seq<Item>, left: seq<Item>)
      returns (raised: bool, better: bool, end: Nuninst, chosen: seq<Item>, rest: seq<Item>, ghost run: HintRun)
      requires m.Valid() && Trusted(m.universe, env) && (forall a :: a in archs <==> a in env.options.architectures)
      requires OnKnownArchs(env, init) && OnKnownArchs(env, left) && Nuninsts.Covers(nuninstOrig, env.options.architectures)
      modifies m`transactions, m`records, m.transactions, m.suite
      ensures m.Valid() && m.transactions == old(m.transactions)
      ensures HintRight(m.universe, m.data, env, hint, left, init, old(m.suite.State()), nuninstOrig, old(m.Intact()), run)
      ensures ResultOf(env, init, run, raised, end, chosen)
      ensures m.suite.State() == run.end.suite && m.Logs() == ExtendLast(old(m.Logs()), LogOfHint(m.data, run))
      ensures !raised ==> OnKnownArchs(env, rest) && rest == run.left
      ensures better <==> !raised && GoodHint(env.options, archs, nuninstOrig, init, run)
      ensures old(m.Intact()) && AllTraceless(m.data, run.attempts) ==> m.Intact()
    {
      raised, end, chosen, rest, run := PlayHint(hint, init, left);
      better := IsBetter(env, archs, nuninstOrig, raised, end, chosen, init, run);
    }

    method CommitHint(hint: HintType, end: Nuninst, chosen: seq<Item>, rest: seq<Item>)
      requires m.Valid() && |m.transactions| == 1 && Trusted(m.universe, env)
      requires (forall a :: a in archs <==> a in env.options.architectures) && SOURCE !in env.options.breakArches
      requires OnKnownArchs(env, upgradeMe) && OnKnownArchs(env, rest) && Nuninsts.Covers(end, env.options.architectures)
      modifies this, m`transactions, m`records, m.transactions
      ensures Valid() && nuninstOrig == end && allSelected == old(allSelected) + chosen
      ensures upgradeMe == if hint.RecursiveHint? then rest else Without(old(upgradeMe), chosen)
      ensures old(m.Intact()) ==> m.Intact()
    {
      m.CommitTransaction();
      PartsKnown(env, upgradeMe, chosen);
      Settle(hint, end, chosen, rest);
    }

    /** Record the result of a successful hint. */
    method Settle(hint: HintType, end: Nuninst, chosen: seq<Item>, rest: seq<Item>)
      modifies this
      ensures nuninstOrig == end && allSelected == old(allSelected) + chosen
      ensures upgradeMe == if hint.RecursiveHint? then rest else Without(old(upgradeMe), chosen)
    {
      nuninstOrig := end;
      allSelected := allSelected + chosen;
      upgradeMe := if hint.RecursiveHint? then rest else Without(upgradeMe, chosen);
    }

    /** Take the items of a hint out of the list; all of them must be on it. */
    method TakeCandidates(init: seq<Item>, items: seq<Item>) returns (ok: bool, left: seq<Item>)
      ensures ok <==> multiset(init) <= multiset(items)
      ensures ok ==> multiset(left) == multiset(items) - multiset(init) && left == Leftover(items, init)
    {
      left := items;
      ghost var taken := [];
      for i := 0 to |init|
        invariant taken == init[..i] && CandidatesTaken(items, taken, left)
      {
        if init[i] !in left {
          NotContained(items, taken, init, i, left);
          return false, left;
        }
        OneMoreTaken(items, taken, init[i], left);
        left := RemoveFirst(left, init[i]);
        taken := taken + [init[i]];
        PrefixMore(init, i);
      }
      assert taken == init;
      ok := true;
    }

    /** Migrate the items of a hint whatever the table says. */
    method MigrateUnchecked(init: seq<Item>) returns (outcome: Outcome, ghost first: Attempt)
      requires m.Valid() && Trusted(m.universe, env)
      requires OnKnownArchs(env, init) && Nuninsts.Covers(nuninstOrig, env.options.architectures)
      modifies m.transactions, m`records, m.suite
      ensures m.Valid() && TriedUnchecked(m.universe, m.data, env, first) && first.comp == init
      ensures first.before == old(Standing(m.suite.State(), nuninstOrig, m.Logs()))
      ensures (first.accepted <==> outcome.Checked?) && m.suite.State() == first.states[|first.items|]
      ensures m.Logs() == ExtendLast(old(m.Logs()), EntriesOf(m.data, first.states, first.items))
      ensures outcome.Checked? ==>
        && Nuninsts.Covers(outcome.after, env.options.architectures) && outcome.after == first.rechecked
        && outcome.smooth == SmoothOf(env.groups, init, first.states)
      ensures old(m.Intact()) ==> m.Intact()
      ensures outcome.Checked? && old(m.Intact()) && ReplacedKeys(m.universe, first.items) == {} ==>
        TableKept(m.universe, m.data, env, old(m.suite.State()), nuninstOrig, m.suite.State(), outcome.after)
    {
      m.EnclosingLog();
      ghost var before := Standing(m.suite.State(), nuninstOrig, m.Logs());
      ghost var affected, states, items;
      var past: int := *;
      outcome, affected, states, items := MigrateItems(m, env.groups, init, nuninstOrig, env.options, env.inst(past), false);
      ghost var rechecked := if outcome.Checked? then outcome.after else nuninstOrig;
      first := Attempt(init, before, states, items, affected, past, rechecked, outcome.Checked?, []);
      if outcome.Checked? && old(m.Intact()) && ReplacedKeys(m.universe, items) == {} {
        AcceptedKept(m.universe, m.data, env, past, states, items, affected, nuninstOrig, outcome.after);
      }
    }

    /** A list of the removals of cruft. */
    method CruftList(smooth: set<PackageId>) returns (cruft: seq<Item>)
      requires CruftNames(env)
      ensures OnKnownArchs(env, cruft) && NoDuplicates(cruft)
      ensures Elements(cruft) == CruftItems(env, smooth)
    {
      cruft := [];
      var all := CruftItems(env, smooth);
      var rest := all;
      while rest != {}
        invariant rest <= all && OnKnownArchs(env, cruft) && NoDuplicates(cruft)
        invariant Elements(cruft) == all - rest
      {
        var item :| item in rest;
        assert item !in Elements(cruft);
        NoDuplicatesConcat(cruft, [item]);
        assert Elements(cruft + [item]) == Elements(cruft) + {item};
        rest := rest - {item};
        cruft := cruft + [item];
      }
    }

    /** The changes of a hint: migrate its items whatever the table says, then the rest of the run. */
    method PlayHint(hint: HintType, init: seq<Item>, left0: seq<Item>)
      returns (raised: bool, end: Nuninst, chosen: seq<Item>, rest: seq<Item>, ghost run: HintRun)
      requires m.Valid() && Trusted(m.universe, env)
      requires OnKnownArchs(env, init) && OnKnownArchs(env, left0) && Nuninsts.Covers(nuninstOrig, env.options.architectures)
      modifies m`transactions, m`records, m.transactions, m.suite
      ensures m.Valid() && m.transactions == old(m.transactions)
      ensures HintRight(m.universe, m.data, env, hint, left0, init, old(m.suite.State()), nuninstOrig, old(m.Intact()), run)
      ensures ResultOf(env, init, run, raised, end, chosen)
      ensures m.suite.State() == run.end.suite && m.Logs() == ExtendLast(old(m.Logs()), LogOfHint(m.data, run))
      ensures !raised ==> OnKnownArchs(env, rest) && rest == run.left
      ensures old(m.Intact()) && AllTraceless(m.data, run.attempts) ==> m.Intact()
    {
      ghost var logs := m.Logs();
      var outcome;
      ghost var first;
      outcome, first := MigrateUnchecked(init);
      if outcome.Raised? {
        run := HintRun(first, [], [], [], AfterFirst(m.data, first), []);
        assert LogOfHint(m.data, run) == EntriesOf(m.data, first.states, first.items);
        return true, nuninstOrig, init, left0, run;
      }
      end, rest, chosen, run := FollowHint(hint, init, left0, outcome.smooth, outcome.after, first);
      ExtendTwice(logs, EntriesOf(m.data, first.states, first.items), EntriesIn(m.data, run.attempts));
      raised := false;
    }

    /** What follows the items of a hint: removals of cruft or, for a recursive hint, everything else. */
    method FollowHint(hint: HintType, init: seq<Item>, left0: seq<Item>, smooth: set<PackageId>, now: Nuninst, ghost first: Attempt)
      returns (end: Nuninst, rest: seq<Item>, chosen: seq<Item>, ghost run: HintRun)
      requires m.Valid() && Trusted(m.universe, env)
      requires OnKnownArchs(env, left0) && Nuninsts.Covers(now, env.options.architectures)
      modifies m`transactions, m`records, m.transactions, m.suite
      ensures m.Valid() && m.transactions == old(m.transactions)
      ensures FollowedUp(m.universe, m.data, env, WorkOf(hint, left0, init), init, old(Standing(m.suite.State(), now, m.Logs())),
                         smooth, run)
      ensures run.first == first && run.end == Standing(m.suite.State(), end, m.Logs()) && run.left == rest
      ensures chosen == init + AcceptedIn(run.attempts) && OnKnownArchs(env, rest)
      ensures m.Logs() == ExtendLast(old(m.Logs()), EntriesIn(m.data, run.attempts))
      ensures Nuninsts.Covers(end, env.options.architectures)
      ensures old(m.Intact()) && AllTraceless(m.data, run.attempts) ==> m.Intact()
      ensures old(m.Intact()) && AllHarmless(m.universe, m.data, run.attempts) ==>
        TableKept(m.universe, m.data, env, old(m.suite.State()), now, m.suite.State(), end)
    {
      ghost var cruft, attempts, rounds;
      var work;
      work, cruft := WorkAfter(hint, init, left0, smooth);
      end, rest, chosen, attempts, rounds := IterUnless(!hint.RecursiveHint? && work == [], init, work, now);
      run := HintRun(first, cruft, rounds, attempts, Standing(m.suite.State(), end, m.Logs()), rest);
    }

    /** Work on what there is, unless there is nothing to be done. */
    method IterUnless(idle: bool, init: seq<Item>, work: seq<Item>, now: Nuninst)
      returns (end: Nuninst, rest: seq<Item>, chosen: seq<Item>, ghost attempts: seq<Attempt>, ghost rounds: seq<Round>)
      requires m.Valid() && Trusted(m.universe, env) && (idle ==> work == [])
      requires OnKnownArchs(env, work) && Nuninsts.Covers(now, env.options.architectures)
      modifies m`transactions, m`records, m.transactions, m.suite
      ensures m.Valid() && m.transactions == old(m.transactions)
      ensures Iterated(m.universe, m.data, env, old(Standing(m.suite.State(), now, m.Logs())), work, init, rounds, attempts,
                       Standing(m.suite.State(), end, m.Logs()), rest)
      ensures chosen == init + AcceptedIn(attempts) && OnKnownArchs(env, rest)
      ensures m.Logs() == ExtendLast(old(m.Logs()), EntriesIn(m.data, attempts))
      ensures Nuninsts.Covers(end, env.options.architectures)
      ensures old(m.Intact()) && AllTraceless(m.data, attempts) ==> m.Intact()
      ensures old(m.Intact()) && AllHarmless(m.universe, m.data, attempts) ==>
        TableKept(m.universe, m.data, env, old(m.suite.State()), now, m.suite.State(), end)
    {
      if idle {
        NoAttempts(m.universe, m.data, env, Standing(m.suite.State(), now, m.Logs()), init);
        return now, [], init, [], [];
      }
      end, rest, chosen, attempts, rounds := IterPackages(m, env, work, init, now);
    }

    /** The removals of cruft on the list or, for a recursive hint, everything on it, and the new cruft. */
    method WorkAfter(hint: HintType, init: seq<Item>, left0: seq<Item>, smooth: set<PackageId>)
      returns (work: seq<Item>, ghost cruft: seq<Item>)
      requires CruftNames(env) && OnKnownArchs(env, left0)
      ensures OnKnownArchs(env, work)
      ensures NoDuplicates(cruft) && Elements(cruft) == CruftItems(env, smooth)
      ensures work == WorkOf(hint, left0, init) + cruft
    {
      PartsKnown(env, left0, init);
      var newCruft := CruftList(smooth);
      cruft := newCruft;
      work := (if hint.RecursiveHint? then Without(left0, init) else Cruft(left0)) + newCruft;
    }
  }

  lemma NoAttempts(u: Universe, data: Packages, env: Environment, s: Standing, init: seq<Item>)
    ensures Iterated(u, data, env, s, [], init, [], [], s, []) && init + AcceptedIn([]) == init
    ensures ExtendLast(s.logs, EntriesIn(data, [])) == s.logs
    ensures TableKept(u, data, env, s.suite, s.table, s.suite, s.table)
  {
    ExtendTwice(s.logs, [], []);
    assert init + [] == init;
  }

  lemma PrefixMore(items: seq<Item>, i: nat)
    requires i < |items|
    ensures items[..i + 1] == items[..i] + [items[i]]
  {
  }

  predicate CandidatesTaken(items: seq<Item>, taken: seq<Item>, left: seq<Item>) {
    multiset(taken) <= multiset(items) && multiset(left) == multiset(items) - multiset(taken) && left == Leftover(items, taken)
  }

  lemma OneMoreTaken(items: seq<Item>, taken: seq<Item>, item: Item, left: seq<Item>)
    requires item in left && CandidatesTaken(items, taken, left)
    ensures CandidatesTaken(items, taken + [item], RemoveFirst(left, item))
  {
    assert (taken + [item])[..|taken|] == taken;
    MovedOver(multiset(items), multiset(taken), multiset(left), item);
  }

  lemma MovedOver(items: multiset<Item>, taken: multiset<Item>, left: multiset<Item>, item: Item)
    requires taken <= items && left == items - taken && item in left
    ensures taken + multiset{item} <= items && left - multiset{item} == items - (taken + multiset{item})
  {
  }

  lemma NotContained(items: seq<Item>, taken: seq<Item>, init: seq<Item>, i: nat, left: seq<Item>)
    requires i < |init| && init[i] !in left && taken == init[..i] && CandidatesTaken(items, taken, left)
    ensures !(multiset(init) <= multiset(items))
  {
    var item := init[i];
    assert init == taken + [item] + init[i + 1..];
    assert multiset(left)[item] == 0;
    assert multiset(init)[item] > multiset(items)[item];
  }

  lemma CandidatesKnown(env: Environment, init: seq<Item>, items: seq<Item>, left: seq<Item>)
    requires OnKnownArchs(env, items) && multiset(init) <= multiset(items) && multiset(left) == multiset(items) - multiset(init)
    ensures OnKnownArchs(env, init) && OnKnownArchs(env, left)
  {
    forall item | item in init || item in left
      ensures item in items
    {
      assert item in multiset(init) || item in multiset(left);
      assert item in multiset(items);
    }
  }

  lemma {:induction false} PartsKnown(env: Environment, items: seq<Item>, gone: seq<Item>)
    requires OnKnownArchs(env, items)
    ensures OnKnownArchs(env, Without(items, gone)) && OnKnownArchs(env, Cruft(items))
  {
    if items != [] {
      var n := |items| - 1;
      assert items == items[..n] + [items[n]] && items[n] in items;
      PartsKnown(env, items[..n], gone);
    }
  }

  function Without(items: seq<Item>, gone: seq<Item>): seq<Item> {
    if items == [] then []
    else
      var n := |items| - 1;
      Without(items[..n], gone) + if items[n] in gone then [] else [items[n]]
  }

  function Cruft(items: seq<Item>): seq<Item> {
    if items == [] then []
    else
      var n := |items| - 1;
      Cruft(items[..n]) + if items[n].isCruft then [items[n]] else []
  }

  function RemoveFirst(items: seq<Item>, item: Item): (left: seq<Item>)
    requires item in items
    ensures multiset(left) == multiset(items) - multiset{item}
  {
    if items[0] == item then
      assert items == [items[0]] + items[1..];
      items[1..]
    else
      assert items == [items[0]] + items[1..];
      [items[0]] + RemoveFirst(items[1..], item)
  }
}
