/** Excuses and the invalidation of those that depend on invalid ones. */
module Excuses {
  import opened Universes
  import opened Transactions

  datatype PolicyVerdict =
    | NotApplicable
    | Pass
    | PassHinted
    | RejectedTemporarily
    | RejectedWaitingForAnotherItem
    | RejectedBlockedByAnotherItem
    | RejectedNeedsApproval
    | RejectedCannotDetermineIfPermanent
    | RejectedPermanently
  {
    function Rank(): nat {
      match this
      case NotApplicable => 0
      case Pass => 1
      case PassHinted => 2
      case RejectedTemporarily => 3
      case RejectedWaitingForAnotherItem => 4
      case RejectedBlockedByAnotherItem => 5
      case RejectedNeedsApproval => 6
      case RejectedCannotDetermineIfPermanent => 7
      case RejectedPermanently => 8
    }

    predicate IsRejected() {
      Rank() >= RejectedTemporarily.Rank()
    }

    predicate IsBlocked() {
      Rank() >= RejectedBlockedByAnotherItem.Rank()
    }
  }

  function WorstOf(a: PolicyVerdict, b: PolicyVerdict): PolicyVerdict {
    if a.Rank() < b.Rank() then b else a
  }

  /** One way to satisfy a dependency: another excuse, or nothing (an impossible one). */
  datatype DependencyState = DependencyState(valid: bool, verdict: PolicyVerdict, dep: Option<string>)

  function Alternative(name: string): DependencyState {
    DependencyState(true, Pass, Some(name))
  }

  const IMPOSSIBLE := DependencyState(false, RejectedPermanently, None)

  /** A dependency on one of several excuses. */
  datatype ExcuseDependency = ExcuseDependency(depstates: seq<DependencyState>)
  {
    predicate Valid() {
      exists d :: d in depstates && d.valid
    }
  }

  /** What is no longer an alternative never is again, and it is rejected. */
  predicate Sound(dep: ExcuseDependency) {
    && dep.depstates != []
    && (forall d :: d in dep.depstates ==> d.valid || d.verdict.IsRejected())
  }

  function Names(dep: ExcuseDependency): set<string> {
    set d | d in dep.depstates && d.dep.Some? :: d.dep.value
  }

  function Invalidate(dep: ExcuseDependency, name: string, verdict: PolicyVerdict): ExcuseDependency {
    ExcuseDependency(seq(|dep.depstates|, i requires 0 <= i < |dep.depstates| =>
      if dep.depstates[i].dep == Some(name) then dep.depstates[i].(valid := false, verdict := verdict)
      else dep.depstates[i]))
  }

  class Excuse {
    const name: string
    const forced: bool
    /** What migrates with the item of the excuse. */
    const packages: set<PackageId>
    /** For every dependency, the packages that satisfy it. */
    const dependsPackages: seq<set<PackageId>>
    var policyVerdict: PolicyVerdict
    var allDeps: seq<ExcuseDependency>

    constructor (name: string, forced: bool, packages: set<PackageId>, dependsPackages: seq<set<PackageId>>,
                 verdict: PolicyVerdict)
      ensures this.name == name && this.forced == forced
      ensures this.packages == packages && this.dependsPackages == dependsPackages
      ensures allDeps == [] && ForcedPasses()
      ensures policyVerdict == if forced && verdict.IsRejected() then PassHinted else verdict
    {
      this.name, this.forced := name, forced;
      this.packages, this.dependsPackages := packages, dependsPackages;
      policyVerdict := if forced && verdict.IsRejected() then PassHinted else verdict;
      allDeps := [];
    }

    predicate IsValid()
      reads this
    {
      !policyVerdict.IsRejected()
    }

    /** By virtue of being forced, the item was hinted to undo a rejection. */
    predicate ForcedPasses()
      reads this
    {
      forced ==> IsValid()
    }

    /** No verdict makes a forced excuse invalid, and any other verdict stands as given. */
    method SetPolicyVerdict(value: PolicyVerdict)
      modifies this`policyVerdict
      ensures ForcedPasses()
      ensures IsValid() <==> forced || !value.IsRejected()
      ensures policyVerdict == value || (policyVerdict == PassHinted && value.IsRejected())
    {
      policyVerdict := if value.IsRejected() && forced then PassHinted else value;
    }

    /** A dependency has no valid alternative: reject the excuse unless it is forced. */
    method DoInvalidate(dep: ExcuseDependency)
      requires Sound(dep) && !dep.Valid()
      modifies this`policyVerdict
      ensures IsValid() <==> forced
    {
      var verdict := LeastVerdict(dep);
      SetPolicyVerdict(WorstOf(policyVerdict, verdict));
    }

    /** Add a dependency on one of the named excuses or on packages that none of them has. */
    method AddDependency(names: set<string>, impossible: nat) returns (ok: bool)
      requires names != {} || impossible > 0
      modifies this
      ensures |allDeps| == |old(allDeps)| + 1 && allDeps[..|old(allDeps)|] == old(allDeps)
      ensures IsFresh(allDeps[|old(allDeps)|], names)
      ensures ok <==> names != {}
      ensures if ok then policyVerdict == old(policyVerdict) else (IsValid() <==> forced)
    {
      var states := MakeStates(names, impossible);
      var dep := ExcuseDependency(states);
      allDeps := allDeps + [dep];
      FreshCounts(dep, names);
      ok := dep.Valid();
      if !ok {
        DoInvalidate(dep);
      }
    }

    /** Another excuse has become invalid: cross it out everywhere. */
    method InvalidateDependency(other: string, verdict: PolicyVerdict) returns (stillValid: bool)
      requires verdict.IsRejected() && forall dep :: dep in allDeps ==> Sound(dep)
      modifies this
      ensures |allDeps| == |old(allDeps)|
      ensures forall i :: 0 <= i < |allDeps| ==> allDeps[i] == Invalidate(old(allDeps)[i], other, verdict)
      ensures stillValid <==> forall dep :: dep in allDeps ==> dep.Valid()
      ensures if stillValid then policyVerdict == old(policyVerdict) else (IsValid() <==> forced)
    {
      stillValid := true;
      for i := 0 to |allDeps|
        invariant |allDeps| == |old(allDeps)|
        invariant forall j :: 0 <= j < |allDeps| ==>
          allDeps[j] == if j < i then Invalidate(old(allDeps)[j], other, verdict) else old(allDeps)[j]
        invariant stillValid <==> forall j :: 0 <= j < i ==> allDeps[j].Valid()
        invariant if stillValid then policyVerdict == old(policyVerdict) else (IsValid() <==> forced)
      {
        var dep := Invalidate(allDeps[i], other, verdict);
        assert allDeps[i] in old(allDeps);
        StaysSound(allDeps[i], other, verdict);
        allDeps := allDeps[i := dep];
        if !dep.Valid() {
          stillValid := false;
          DoInvalidate(dep);
        }
      }
    }
  }

  /** A dependency on the named excuses, all of which still count. */
  ghost predicate IsFresh(dep: ExcuseDependency, names: set<string>) {
    && Sound(dep) && Names(dep) == names
    && (forall d :: d in dep.depstates ==> (d.valid <==> d.dep.Some?))
  }

  lemma FreshCounts(dep: ExcuseDependency, names: set<string>)
    requires IsFresh(dep, names)
    ensures dep.Valid() <==> names != {}
  {
    if n :| n in names {
      assert n in Names(dep);
    }
    if d :| d in dep.depstates && d.valid {
      assert d.dep.value in Names(dep);
    }
  }

  method MakeStates(names: set<string>, impossible: nat) returns (states: seq<DependencyState>)
    requires names != {} || impossible > 0
    ensures IsFresh(ExcuseDependency(states), names)
  {
    states := seq(impossible, _ => IMPOSSIBLE);
    var rest := names;
    while rest != {}
      invariant rest <= names && (rest != {} || states != [])
      invariant forall d :: d in states ==> d == IMPOSSIBLE || (d.dep.Some? && d == Alternative(d.dep.value) && d.dep.value in names)
      invariant forall n :: n in names && n !in rest ==> Alternative(n) in states
      invariant names == {} ==> states != []
      invariant names != {} && rest != names ==> states != []
    {
      var n :| n in rest;
      rest := rest - {n};
      states := states + [Alternative(n)];
    }
    forall n | n in names
      ensures n in Names(ExcuseDependency(states))
    {
      assert Alternative(n) in states;
    }
  }

  method LeastVerdict(dep: ExcuseDependency) returns (verdict: PolicyVerdict)
    requires dep.depstates != []
    ensures exists d :: d in dep.depstates && d.verdict == verdict
    ensures forall d :: d in dep.depstates ==> verdict.Rank() <= d.verdict.Rank()
  {
    verdict := dep.depstates[0].verdict;
    for i := 1 to |dep.depstates|
      invariant exists d :: d in dep.depstates && d.verdict == verdict
      invariant forall j :: 0 <= j < i ==> verdict.Rank() <= dep.depstates[j].verdict.Rank()
    {
      if dep.depstates[i].verdict.Rank() < verdict.Rank() {
        verdict := dep.depstates[i].verdict;
        assert dep.depstates[i] in dep.depstates;
      }
    }
  }

  lemma StaysSound(dep: ExcuseDependency, name: string, verdict: PolicyVerdict)
    requires Sound(dep) && verdict.IsRejected()
    ensures Sound(Invalidate(dep, name, verdict))
    ensures Names(Invalidate(dep, name, verdict)) == Names(dep)
  {
    var dep' := Invalidate(dep, name, verdict);
    forall d' | d' in dep'.depstates
      ensures d'.valid || d'.verdict.IsRejected()
    {
      var i :| 0 <= i < |dep'.depstates| && dep'.depstates[i] == d';
      assert dep.depstates[i] in dep.depstates;
    }
    forall n
      ensures n in Names(dep') <==> n in Names(dep)
    {
      if n in Names(dep) {
        var i :| 0 <= i < |dep.depstates| && dep.depstates[i].dep == Some(n);
        assert dep'.depstates[i] in dep'.depstates;
      }
      if n in Names(dep') {
        var i :| 0 <= i < |dep'.depstates| && dep'.depstates[i].dep == Some(n);
        assert dep.depstates[i] in dep.depstates;
      }
    }
  }

  // ---------------------------------------------------------------------------------------------
  // Which excuses are invalid
  // ---------------------------------------------------------------------------------------------

  type Excuses = map<string, Excuse>

  ghost predicate WellNamed(excuses: Excuses) {
    && (forall n :: n in excuses ==> excuses[n].name == n)
    && (forall n, deps :: n in excuses && deps in excuses[n].dependsPackages ==> deps != {})
  }

  /** The excuses that bring a package along. */
  function Providers(excuses: Excuses, p: PackageId): set<string> {
    set n | n in excuses && p in excuses[n].packages
  }

  /** The excuses that can satisfy a dependency. */
  function Alternatives(excuses: Excuses, deps: set<PackageId>): set<string> {
    set p, n | p in deps && n in Providers(excuses, p) :: n
  }

  function AlternativesOf(excuses: Excuses, x: Excuse): seq<set<string>> {
    seq(|x.dependsPackages|, i requires 0 <= i < |x.dependsPackages| => Alternatives(excuses, x.dependsPackages[i]))
  }

  /** The excuses with a dependency that `e` could satisfy. */
  function Dependents(excuses: Excuses, e: string): set<string> {
    set n | n in excuses && exists i :: 0 <= i < |excuses[n].dependsPackages| && e in AlternativesOf(excuses, excuses[n])[i]
  }

  /** The excuses with an impossible dependency. */
  predicate Impossible(excuses: Excuses, n: string)
    requires n in excuses
  {
    {} in AlternativesOf(excuses, excuses[n])
  }

  function Doomed(excuses: Excuses): set<string> {
    set n | n in excuses && Impossible(excuses, n)
  }

  /** An unforced excuse with a dependency that only `s` could satisfy is in `s`. */
  ghost predicate Closed(excuses: Excuses, s: set<string>) {
    forall n :: n in excuses && !excuses[n].forced && !AllOpen(AlternativesOf(excuses, excuses[n]), s) ==> n in s
  }

  /** `s` is within every closed set that holds `start`. */
  ghost predicate WithinClosed(excuses: Excuses, start: set<string>, s: set<string>) {
    forall t {:trigger Closed(excuses, t)} :: start <= t && Closed(excuses, t) ==> s <= t
  }

  /** `s` is the least closed set that holds `start`. */
  ghost predicate LeastClosed(excuses: Excuses, start: set<string>, s: set<string>) {
    start <= s && Closed(excuses, s) && WithinClosed(excuses, start, s)
  }

  /** The outcome does not depend on the order in which the worklist is processed. */
  lemma LeastClosedUnique(excuses: Excuses, start: set<string>, s: set<string>, t: set<string>)
    requires LeastClosed(excuses, start, s) && LeastClosed(excuses, start, t)
    ensures s == t
  {
    assert s <= t;
    assert t <= s;
  }

  // ---------------------------------------------------------------------------------------------
  // Invalidation
  // ---------------------------------------------------------------------------------------------

  /** The dependencies have the given alternatives, of which those in `gone` no longer count. */
  ghost predicate Matches(deps: seq<ExcuseDependency>, alternatives: seq<set<string>>, gone: set<string>) {
    && |deps| == |alternatives|
    && (forall i :: 0 <= i < |deps| ==> DepMatches(deps[i], alternatives[i], gone))
  }

  ghost predicate DepMatches(dep: ExcuseDependency, alternatives: set<string>, gone: set<string>) {
    && Sound(dep) && Names(dep) == alternatives
    && (forall d :: d in dep.depstates ==> (d.valid <==> d.dep.Some? && d.dep.value !in gone))
  }

  lemma MatchingValid(dep: ExcuseDependency, alternatives: set<string>, gone: set<string>)
    requires DepMatches(dep, alternatives, gone)
    ensures dep.Valid() <==> !(alternatives <= gone)
  {
    if n :| n in alternatives && n !in gone {
      assert n in Names(dep);
    }
    if d :| d in dep.depstates && d.valid {
      assert d.dep.value in Names(dep);
    }
  }

  lemma CrossedOut(dep: ExcuseDependency, alternatives: set<string>, gone: set<string>, name: string, verdict: PolicyVerdict)
    requires DepMatches(dep, alternatives, gone) && verdict.IsRejected()
    ensures DepMatches(Invalidate(dep, name, verdict), alternatives, gone + {name})
  {
    StaysSound(dep, name, verdict);
    var dep' := Invalidate(dep, name, verdict);
    forall d' | d' in dep'.depstates
      ensures d'.valid <==> d'.dep.Some? && d'.dep.value !in gone + {name}
    {
      var i :| 0 <= i < |dep'.depstates| && dep'.depstates[i] == d';
      assert dep.depstates[i] in dep.depstates;
    }
  }

  /** Whom the excuse does not depend on makes no difference. */
  lemma Unmentioned(deps: seq<ExcuseDependency>, alternatives: seq<set<string>>, gone: set<string>, name: string)
    requires Matches(deps, alternatives, gone) && forall i :: 0 <= i < |alternatives| ==> name !in alternatives[i]
    ensures Matches(deps, alternatives, gone + {name})
  {
    forall i | 0 <= i < |deps|
      ensures DepMatches(deps[i], alternatives[i], gone + {name})
    {
      assert DepMatches(deps[i], alternatives[i], gone);
      forall d | d in deps[i].depstates && d.dep.Some?
        ensures d.dep.value != name
      {
        assert d.dep.value in Names(deps[i]);
      }
    }
  }

  /** Every dependency still has an alternative. */
  ghost predicate AllOpen(alternatives: seq<set<string>>, gone: set<string>) {
    forall i :: 0 <= i < |alternatives| ==> !(alternatives[i] <= gone)
  }

  /** What holds of an excuse while invalidation is going on. */
  ghost predicate ExcuseOk(excuses: Excuses, n: string, valid: set<string>, gone: set<string>, matched: bool)
    requires n in excuses
    reads excuses[n]
  {
    var x, alternatives := excuses[n], AlternativesOf(excuses, excuses[n]);
    && (n in valid && !x.forced ==> Matches(x.allDeps, alternatives, gone) && AllOpen(alternatives, gone))
    && (matched ==> (x.IsValid() <==> n in valid || x.forced))
  }

  /** Cross out one excuse in another. */
  method CrossOut(excuses: Excuses, n: string, ghost gone: set<string>, ename: string, verdict: PolicyVerdict,
                  ghost valid: set<string>, ghost matched: bool)
    returns (stillValid: bool)
    requires n in excuses && n in valid && !excuses[n].forced && verdict.IsRejected()
    requires ExcuseOk(excuses, n, valid, gone, matched)
    modifies excuses[n]
    ensures stillValid <==> AllOpen(AlternativesOf(excuses, excuses[n]), gone + {ename})
    ensures ExcuseOk(excuses, n, if stillValid then valid else valid - {n}, gone + {ename}, matched)
  {
    var x := excuses[n];
    ghost var alternatives, before := AlternativesOf(excuses, x), x.allDeps;
    stillValid := x.InvalidateDependency(ename, verdict);
    forall i | 0 <= i < |alternatives|
      ensures DepMatches(x.allDeps[i], alternatives[i], gone + {ename})
      ensures x.allDeps[i].Valid() <==> !(alternatives[i] <= gone + {ename})
    {
      assert DepMatches(before[i], alternatives[i], gone);
      CrossedOut(before[i], alternatives[i], gone, ename, verdict);
      MatchingValid(x.allDeps[i], alternatives[i], gone + {ename});
    }
    if stillValid {
      forall i | 0 <= i < |alternatives|
        ensures !(alternatives[i] <= gone + {ename})
      {
        assert x.allDeps[i] in x.allDeps;
      }
    }
  }

  ghost predicate AllOk(excuses: Excuses, valid: set<string>, gone: set<string>, matched: bool)
    reads excuses.Values
  {
    forall n {:trigger ExcuseOk(excuses, n, valid, gone, matched)} :: n in excuses ==> ExcuseOk(excuses, n, valid, gone, matched)
  }

  /** Add the dependencies of one excuse. */
  method AddDependencies(excuses: Excuses, n: string) returns (ok: bool)
    requires WellNamed(excuses) && n in excuses && excuses[n].allDeps == []
    modifies excuses[n]
    ensures Matches(excuses[n].allDeps, AlternativesOf(excuses, excuses[n]), {})
    ensures ok <==> !Impossible(excuses, n)
    ensures if ok then excuses[n].policyVerdict == old(excuses[n].policyVerdict) else (excuses[n].IsValid() <==> excuses[n].forced)
  {
    var x := excuses[n];
    var alternatives := AlternativesOf(excuses, x);
    ok := true;
    for i := 0 to |x.dependsPackages|
      invariant |x.allDeps| == i && forall j :: 0 <= j < i ==> DepMatches(x.allDeps[j], alternatives[j], {})
      invariant ok <==> {} !in alternatives[..i]
      invariant if ok then x.policyVerdict == old(x.policyVerdict) else (x.IsValid() <==> x.forced)
    {
      var deps := x.dependsPackages[i];
      assert deps in x.dependsPackages;
      var missing := set p | p in deps && Providers(excuses, p) == {};
      SomeState(excuses, deps, missing);
      ghost var before := x.allDeps;
      var added := x.AddDependency(alternatives[i], |missing|);
      forall j | 0 <= j < i
        ensures x.allDeps[j] == before[j]
      {
        assert x.allDeps[..i][j] == before[j];
      }
      assert alternatives[..i + 1] == alternatives[..i] + [alternatives[i]];
      ok := ok && added;
    }
    assert alternatives[..|alternatives|] == alternatives;
  }

  /** A dependency always gets some state, be it an impossible one. */
  lemma SomeState(excuses: Excuses, deps: set<PackageId>, missing: set<PackageId>)
    requires deps != {} && missing == set p | p in deps && Providers(excuses, p) == {}
    ensures Alternatives(excuses, deps) != {} || |missing| > 0
  {
    var p :| p in deps;
    if n :| n in Providers(excuses, p) {
      assert n in Alternatives(excuses, deps);
    } else {
      assert p in missing;
    }
  }

  /** Create the dependencies between excuses; those with an impossible one are invalid. */
  method CollectDependencies(excuses: Excuses, valid0: set<string>, invalid0: set<string>, ghost matched: bool)
    returns (valid: set<string>, invalid: set<string>)
    requires WellNamed(excuses) && valid0 <= excuses.Keys
    requires forall n :: n in excuses ==> excuses[n].allDeps == []
    requires matched ==> forall n :: n in excuses ==> (excuses[n].IsValid() <==> n in valid0) && excuses[n].ForcedPasses()
    modifies excuses.Values
    ensures valid == valid0 - Doomed(excuses) && invalid == invalid0 + Doomed(excuses)
    ensures AllOk(excuses, valid, {}, matched)
  {
    valid, invalid := valid0, invalid0;
    var rest := excuses.Keys;
    while rest != {}
      invariant rest <= excuses.Keys
      invariant valid == valid0 - (Doomed(excuses) - rest) && invalid == invalid0 + (Doomed(excuses) - rest)
      invariant forall n :: n in rest ==> excuses[n].allDeps == [] && excuses[n].policyVerdict == old(excuses[n].policyVerdict)
      invariant forall n :: n in excuses && n !in rest ==> ExcuseOk(excuses, n, valid, {}, matched)
    {
      var n :| n in rest;
      rest := rest - {n};
      ghost var valid1 := valid;
      var ok := AddDependencies(excuses, n);
      if !ok {
        valid := valid - {n};
        invalid := invalid + {n};
      }
      DependenciesAdded(excuses, n, valid, matched);
      forall k | k in excuses && k !in rest && k != n
        ensures ExcuseOk(excuses, k, valid, {}, matched)
      {
        assert excuses[k] != excuses[n];
        assert ExcuseOk(excuses, k, valid1, {}, matched);
      }
    }
  }

  lemma DependenciesAdded(excuses: Excuses, n: string, valid: set<string>, matched: bool)
    requires n in excuses && Matches(excuses[n].allDeps, AlternativesOf(excuses, excuses[n]), {})
    requires n in valid ==> !Impossible(excuses, n)
    requires matched ==> (excuses[n].IsValid() <==> n in valid || excuses[n].forced)
    ensures ExcuseOk(excuses, n, valid, {}, matched)
  {
    var alternatives := AlternativesOf(excuses, excuses[n]);
    if n in valid {
      forall i | 0 <= i < |alternatives|
        ensures !(alternatives[i] <= {})
      {
        assert alternatives[i] in alternatives;
        NotWithinEmpty(alternatives[i]);
      }
    }
  }

  lemma NotWithinEmpty(s: set<string>)
    ensures s <= {} <==> s == {}
  {
  }

  /** Excuses that do not depend on `ename` are as they should be once it is gone. */
  lemma NotDependent(excuses: Excuses, n: string, valid: set<string>, gone: set<string>, ename: string, matched: bool)
    requires n in excuses && ExcuseOk(excuses, n, valid, gone, matched)
    requires n !in Dependents(excuses, ename) || n !in valid || excuses[n].forced
    ensures ExcuseOk(excuses, n, valid, gone + {ename}, matched)
  {
    var x, alternatives := excuses[n], AlternativesOf(excuses, excuses[n]);
    if n in valid && !x.forced {
      forall i | 0 <= i < |alternatives|
        ensures ename !in alternatives[i] && !(alternatives[i] <= gone + {ename})
      {
        assert ename !in alternatives[i];
        assert !(alternatives[i] <= gone);
      }
      Unmentioned(x.allDeps, alternatives, gone, ename);
    }
  }

  lemma OtherValid(excuses: Excuses, n: string, valid: set<string>, valid': set<string>, gone: set<string>, matched: bool)
    requires n in excuses && ExcuseOk(excuses, n, valid, gone, matched) && (n in valid <==> n in valid')
    ensures ExcuseOk(excuses, n, valid', gone, matched)
  {
  }

  /** The excuses of `rest` still have to hear that `ename` is gone. */
  ghost predicate PartlyOk(excuses: Excuses, valid: set<string>, gone: set<string>, ename: string, rest: set<string>, matched: bool)
    reads excuses.Values
  {
    forall n {:trigger n in rest} {:trigger n in excuses} :: n in excuses ==>
      ExcuseOk(excuses, n, valid, if n in rest then gone else gone + {ename}, matched)
  }

  /** Cross an invalid excuse out in all excuses that depend on it. */
  method CrossOutAll(excuses: Excuses, valid0: set<string>, ghost gone: set<string>, ename: string, verdict: PolicyVerdict,
                     ghost matched: bool)
    returns (valid: set<string>, more: seq<string>)
    requires WellNamed(excuses) && verdict.IsRejected() && AllOk(excuses, valid0, gone, matched)
    modifies excuses.Values
    ensures AllOk(excuses, valid, gone + {ename}, matched)
    ensures valid <= valid0 && (forall n :: n in more <==> n in valid0 && n !in valid)
    ensures forall n :: n in more ==> Stuck(excuses, n, gone + {ename})
  {
    valid, more := valid0, [];
    var rest := Dependents(excuses, ename);
    forall n | n in excuses
      ensures ExcuseOk(excuses, n, valid, if n in rest then gone else gone + {ename}, matched)
    {
      assert ExcuseOk(excuses, n, valid, gone, matched);
      if n !in rest {
        NotDependent(excuses, n, valid, gone, ename, matched);
      }
    }
    while rest != {}
      invariant rest <= Dependents(excuses, ename) && valid <= valid0
      invariant forall n :: n in more <==> n in valid0 && n !in valid
      invariant forall n :: n in more ==> Stuck(excuses, n, gone + {ename})
      invariant PartlyOk(excuses, valid, gone, ename, rest, matched)
    {
      var n :| n in rest;
      var stillValid := CrossOutOne(excuses, n, valid, gone, ename, verdict, rest, matched);
      if !stillValid {
        valid := valid - {n};
        more := more + [n];
      }
      rest := rest - {n};
    }
  }

  /** An unforced excuse with a dependency that has no alternative left. */
  ghost predicate Stuck(excuses: Excuses, n: string, gone: set<string>) {
    n in excuses && !excuses[n].forced && !AllOpen(AlternativesOf(excuses, excuses[n]), gone)
  }

  method CrossOutOne(excuses: Excuses, n: string, valid: set<string>, ghost gone: set<string>, ename: string,
                     verdict: PolicyVerdict, ghost rest: set<string>, ghost matched: bool)
    returns (stillValid: bool)
    requires WellNamed(excuses) && verdict.IsRejected() && PartlyOk(excuses, valid, gone, ename, rest, matched)
    requires n in rest && n in excuses
    modifies excuses[n]
    ensures !stillValid ==> n in valid && Stuck(excuses, n, gone + {ename})
    ensures PartlyOk(excuses, if stillValid then valid else valid - {n}, gone, ename, rest - {n}, matched)
  {
    stillValid := true;
    assert ExcuseOk(excuses, n, valid, gone, matched);
    if n in valid && !excuses[n].forced {
      stillValid := CrossOut(excuses, n, gone, ename, verdict, valid, matched);
    } else {
      NotDependent(excuses, n, valid, gone, ename, matched);
    }
    ghost var valid' := if stillValid then valid else valid - {n};
    forall k | k in excuses && k != n
      ensures ExcuseOk(excuses, k, valid', if k in rest then gone else gone + {ename}, matched)
    {
      assert excuses[k] != excuses[n];
      assert old(ExcuseOk(excuses, k, valid, if k in rest then gone else gone + {ename}, matched));
      OtherValid(excuses, k, valid, valid', if k in rest then gone else gone + {ename}, matched);
    }
  }

  function Listed(names: seq<string>): set<string> {
    set n | n in names
  }

  /** Where the invalidation stands: every excuse is valid, waiting on the worklist, or invalidated. */
  ghost predicate Underway(excuses: Excuses, start: set<string>, valid: set<string>, pending: seq<string>, invalidated: set<string>)
  {
    && valid + Listed(pending) + invalidated == excuses.Keys
    && valid !! Listed(pending) + invalidated
    && start <= Listed(pending) + invalidated
    && WithinClosed(excuses, start, Listed(pending) + invalidated)
  }

  lemma UnderwayMore(excuses: Excuses, start: set<string>, valid: set<string>, pending: seq<string>, invalidated: set<string>,
                     valid': set<string>, more: seq<string>)
    requires pending != [] && Underway(excuses, start, valid, pending, invalidated)
    requires valid' <= valid && forall n :: n in more <==> n in valid && n !in valid'
    requires forall n :: n in more ==> Stuck(excuses, n, invalidated + {pending[|pending| - 1]})
    ensures Underway(excuses, start, valid', pending[..|pending| - 1] + more, invalidated + {pending[|pending| - 1]})
  {
    var n := |pending| - 1;
    var ename, before := pending[n], pending[..n];
    assert pending == before + [ename];
    assert Listed(pending) == Listed(before) + {ename};
    assert Listed(before + more) == Listed(before) + Listed(more);
    forall t | start <= t && Closed(excuses, t)
      ensures Listed(before + more) + (invalidated + {ename}) <= t
    {
      assert Listed(pending) + invalidated <= t;
      forall k | k in more
        ensures k in t
      {
        StuckWithin(excuses, k, invalidated + {ename}, t);
      }
    }
  }

  lemma StuckWithin(excuses: Excuses, n: string, gone: set<string>, t: set<string>)
    requires Stuck(excuses, n, gone) && gone <= t && Closed(excuses, t)
    ensures n in t
  {
    var alternatives := AlternativesOf(excuses, excuses[n]);
    var i :| 0 <= i < |alternatives| && alternatives[i] <= gone;
    assert alternatives[i] <= t;
  }

  /** Invalidate whatever depends on invalid excuses only: exactly the least set that has to go. */
  method InvalidateExcuses(excuses: Excuses, valid0: set<string>, invalid0: set<string>, ghost matched: bool)
    returns (valid: set<string>, invalidated: set<string>)
    requires WellNamed(excuses) && valid0 + invalid0 == excuses.Keys && valid0 !! invalid0
    requires forall n :: n in excuses ==> excuses[n].allDeps == []
    requires matched ==> forall n :: n in excuses ==> (excuses[n].IsValid() <==> n in valid0) && excuses[n].ForcedPasses()
    modifies excuses.Values
    ensures LeastClosed(excuses, invalid0 + Doomed(excuses), invalidated)
    ensures valid == excuses.Keys - invalidated
    ensures matched ==> forall n :: n in excuses ==> (excuses[n].IsValid() <==> n in valid || excuses[n].forced)
  {
    var invalid;
    valid, invalid := CollectDependencies(excuses, valid0, invalid0, matched);
    valid, invalidated := InvalidateAll(excuses, valid, invalid, matched);
    NothingPending(excuses, invalid, valid, invalidated, matched);
  }

  /** Work off the worklist. */
  method InvalidateAll(excuses: Excuses, valid0: set<string>, invalid: set<string>, ghost matched: bool)
    returns (valid: set<string>, invalidated: set<string>)
    requires WellNamed(excuses) && valid0 + invalid == excuses.Keys && valid0 !! invalid
    requires AllOk(excuses, valid0, {}, matched)
    modifies excuses.Values
    ensures Underway(excuses, invalid, valid, [], invalidated) && AllOk(excuses, valid, invalidated, matched)
  {
    valid, invalidated := valid0, {};
    var pending := ToList(invalid);
    assert Listed(pending) + {} == invalid;
    while pending != []
      invariant Underway(excuses, invalid, valid, pending, invalidated)
      invariant AllOk(excuses, valid, invalidated, matched)
      decreases |valid|, |pending|
    {
      valid, pending, invalidated := InvalidateNext(excuses, invalid, valid, pending, invalidated, matched);
    }
  }

  /** Take the next invalid excuse off the worklist. */
  method InvalidateNext(excuses: Excuses, ghost start: set<string>, valid0: set<string>, pending0: seq<string>,
                        invalidated0: set<string>, ghost matched: bool)
    returns (valid: set<string>, pending: seq<string>, invalidated: set<string>)
    requires WellNamed(excuses) && pending0 != []
    requires Underway(excuses, start, valid0, pending0, invalidated0) && AllOk(excuses, valid0, invalidated0, matched)
    modifies excuses.Values
    ensures Underway(excuses, start, valid, pending, invalidated) && AllOk(excuses, valid, invalidated, matched)
    ensures |valid| < |valid0| || (|valid| == |valid0| && |pending| < |pending0|)
  {
    var n := |pending0| - 1;
    var ename := pending0[n];
    assert ename in Listed(pending0);
    var verdict := RejectedWaitingForAnotherItem;
    if excuses[ename].policyVerdict.IsBlocked() {
      verdict := RejectedBlockedByAnotherItem;
    }
    var more;
    valid, more := CrossOutAll(excuses, valid0, invalidated0, ename, verdict, matched);
    UnderwayMore(excuses, start, valid0, pending0, invalidated0, valid, more);
    Shrunk(valid, valid0, more);
    pending := pending0[..n] + more;
    invalidated := invalidated0 + {ename};
  }

  lemma Shrunk(valid: set<string>, valid0: set<string>, more: seq<string>)
    requires valid <= valid0 && forall n :: n in more <==> n in valid0 && n !in valid
    ensures more == [] ==> valid == valid0
    ensures more != [] ==> |valid| < |valid0|
  {
    if more == [] {
      assert forall n :: n in valid0 ==> n in valid;
    } else {
      assert more[0] in more;
      assert valid0 == valid + (valid0 - valid);
      assert more[0] in valid0 - valid;
    }
  }

  method ToList(names: set<string>) returns (list: seq<string>)
    ensures Listed(list) == names
  {
    list := [];
    var rest := names;
    while rest != {}
      invariant rest <= names && Listed(list) == names - rest
    {
      var n :| n in rest;
      rest := rest - {n};
      assert Listed(list + [n]) == Listed(list) + {n};
      list := list + [n];
    }
  }

  lemma NothingPending(excuses: Excuses, start: set<string>, valid: set<string>, invalidated: set<string>, matched: bool)
    requires Underway(excuses, start, valid, [], invalidated) && AllOk(excuses, valid, invalidated, matched)
    ensures LeastClosed(excuses, start, invalidated) && valid == excuses.Keys - invalidated
    ensures matched ==> forall n :: n in excuses ==> (excuses[n].IsValid() <==> n in valid || excuses[n].forced)
  {
    assert Listed([]) == {} && {} + invalidated == invalidated;
    forall n | n in excuses
      ensures matched ==> (excuses[n].IsValid() <==> n in valid || excuses[n].forced)
      ensures n in valid && !excuses[n].forced ==> AllOpen(AlternativesOf(excuses, excuses[n]), invalidated)
    {
      assert ExcuseOk(excuses, n, valid, invalidated, matched);
    }
  }

  /** Compute the actionable excuses and check that the verdicts agree with them.  Given entry sets
      that agree with the verdicts, both checks pass exactly when no forced excuse has an impossible
      dependency. */
  method FindActionableExcuses(excuses: Excuses, actionable: set<string>) returns (valid: set<string>, invalidated: set<string>, ok: bool)
    requires WellNamed(excuses) && actionable <= excuses.Keys
    requires forall n :: n in excuses ==> excuses[n].allDeps == []
    modifies excuses.Values
    ensures LeastClosed(excuses, (excuses.Keys - actionable) + Doomed(excuses), invalidated)
    ensures valid == excuses.Keys - invalidated
    ensures old(forall n :: n in excuses ==> (excuses[n].IsValid() <==> n in actionable) && excuses[n].ForcedPasses()) ==>
      (ok <==> forall n :: n in Doomed(excuses) ==> !excuses[n].forced)
  {
    ghost var matched := forall n :: n in excuses ==> (excuses[n].IsValid() <==> n in actionable) && excuses[n].ForcedPasses();
    var unconsidered := set n | n in excuses && n !in actionable;
    assert unconsidered == excuses.Keys - actionable;
    valid, invalidated := InvalidateExcuses(excuses, actionable, unconsidered, matched);
    var passing := set n | n in excuses && excuses[n].IsValid();
    var failing := set n | n in excuses && !excuses[n].IsValid();
    ok := valid == passing && invalidated == failing;
    if matched {
      ChecksPass(excuses, unconsidered, valid, invalidated, passing, failing);
    }
  }

  lemma ChecksPass(excuses: Excuses, unconsidered: set<string>, valid: set<string>, invalidated: set<string>,
                   passing: set<string>, failing: set<string>)
    requires forall n :: n in unconsidered ==> n in excuses && !excuses[n].forced
    requires LeastClosed(excuses, unconsidered + Doomed(excuses), invalidated) && valid == excuses.Keys - invalidated
    requires passing == set n | n in excuses && (n in valid || excuses[n].forced)
    requires failing == excuses.Keys - passing
    ensures valid == passing && invalidated == failing <==> forall n :: n in Doomed(excuses) ==> !excuses[n].forced
  {
    ghost var unforced := set n | n in invalidated && n in excuses && (!excuses[n].forced || n in Doomed(excuses));
    assert Closed(excuses, unforced) by {
      forall n | n in excuses && !excuses[n].forced && !AllOpen(AlternativesOf(excuses, excuses[n]), unforced)
        ensures n in unforced
      {
        StuckWithin(excuses, n, unforced, invalidated);
      }
    }
    assert invalidated <= unforced;
    if forall n :: n in Doomed(excuses) ==> !excuses[n].forced {
      assert forall n :: n in invalidated ==> n in excuses && !excuses[n].forced;
    }
    if n :| n in Doomed(excuses) && excuses[n].forced {
      assert n in invalidated && n in passing;
    }
  }
}
