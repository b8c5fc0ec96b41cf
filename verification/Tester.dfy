/** The installability tester: a backtracking search over clauses and conflicts, with caches that
    survive changes to the suite. */
module InstallabilityTesters {
  import opened Universes
  import opened Search
  import opened SearchRuns
  import opened SeparatedSuites
  import opened Caches

  /** The result of a call on one package id, or the exception for an unknown one. */
  datatype Reply = KeyError | Reply(value: bool)

  function CheckSet(check: seq<PackageId>): set<PackageId> {
    set p | p in check
  }

  /** Every model supported before is supported after, and holds the packages added to `musts`. */
  ghost predicate Keeps(u: Universe, full: set<PackageId>, arch: string, region: set<PackageId>,
                        check: set<PackageId>, musts: set<PackageId>, never: set<PackageId>, choices: set<set<PackageId>>,
                        check': set<PackageId>, musts': set<PackageId>, never': set<PackageId>, choices': set<set<PackageId>>)
  {
    forall m :: Supports(u, full, arch, region, m, check, musts, never, choices) ==>
      Supports(u, full, arch, region, m, check', musts', never', choices') && musts' - musts <= m
  }

  ghost predicate Unsupported(u: Universe, full: set<PackageId>, arch: string, region: set<PackageId>,
                              check: set<PackageId>, musts: set<PackageId>, never: set<PackageId>, choices: set<set<PackageId>>)
  {
    forall m :: !Supports(u, full, arch, region, m, check, musts, never, choices)
  }

  /** `run` is a search for `t`, from the pseudo-essential packages and in what was left of `suite`. */
  ghost predicate RunFor(u: Universe, closure: set<PackageId>, full: set<PackageId>, t: PackageId, suite: set<PackageId>, run: Run) {
    && RunOk(u, run) && run.start.suite <= suite && run.start.check == [t]
    && (exists e :: PseudoEssentialSound(u, full, t.architecture, RegionOf(closure, t.architecture), e) && StartsFrom(run.start, t, e))
    && (u.essential == {} ==> run.start.suite == suite)
  }

  predicate StartsFrom(s: Spot, t: PackageId, e: PseudoEssential) {
    s.musts == {t} + e.start && s.never == e.never && s.choices == e.choices
  }

  /** `run` is a search for a package of the suite; if a shortcut past a conflict has led to its verdict,
      its selection has a conflict. */
  ghost predicate RunForSome(u: Universe, closure: set<PackageId>, full: set<PackageId>, run: Run) {
    exists t, suite :: t in full && suite <= full && RunFor(u, closure, full, t, suite, run)
      && (u.essential == {} && !TidyRuns([run]) ==> WrongYes(u, t, Found(run)))
      && (Verdict(run) ==> EssentialsHeld(u, full, t, Found(run)))
  }

  /** No search with a positive verdict has taken a shortcut past a conflict. */
  predicate TidyRuns(runs: seq<Run>) {
    forall i :: 0 <= i < |runs| && Verdict(runs[i]) ==> AllTidy(Shortcuts(runs[i]))
  }

  /** A selection with the package that satisfies all dependencies but has a conflict. */
  predicate WrongYes(u: Universe, p: PackageId, found: set<PackageId>) {
    p in found && DependencyClosed(u, found) && !ConflictFree(u, found)
  }

  lemma TidyRunsConcat(a: seq<Run>, b: seq<Run>)
    ensures TidyRuns(a + b) <==> TidyRuns(a) && TidyRuns(b)
  {
    var ab := a + b;
    if TidyRuns(ab) {
      assert forall i :: 0 <= i < |a| ==> ab[i] == a[i];
      assert forall i :: 0 <= i < |b| ==> ab[|a| + i] == b[i];
    }
  }

  class InstallabilityTester {
    const universe: Universe
    var suiteContents: set<PackageId>
    var cacheBroken: set<PackageId>
    var cacheInst: set<PackageId>
    var cacheEss: map<string, PseudoEssential>
    const essentialClosure: set<PackageId>
    /** No positive verdict so far rests on a shortcut taken past a conflict. */
    ghost var clean: bool

    constructor (u: Universe, suite: set<PackageId>)
      requires WellFormed(u) && forall p :: p in suite ==> u.Knows(p)
      ensures universe == u && suiteContents == suite && clean
      ensures Coherent(suite)
    {
      var closure := TransitiveDependencies(u, u.essential);
      universe := u;
      suiteContents := suite;
      cacheBroken, cacheInst, cacheEss := {}, {}, map[];
      essentialClosure := closure;
      clean := true;
    }

    /** All packages that clauses reach from `initial`. */
    static method TransitiveDependencies(u: Universe, initial: set<PackageId>) returns (all: set<PackageId>)
      requires ClausesLocal(u) && forall p :: p in initial ==> u.Knows(p)
      ensures initial <= all
      ensures forall p :: p in all ==> u.Knows(p)
      ensures forall p, clause :: p in all && clause in u.DependenciesOf(p) ==> clause <= all
    {
      all := initial;
      var remain := initial;
      while remain != {}
        invariant initial <= all && remain <= all
        invariant forall p :: p in all ==> u.Knows(p)
        invariant forall p, clause :: p in all && p !in remain && clause in u.DependenciesOf(p) ==> clause <= all
        decreases u.relations.Keys - all, remain
      {
        var p :| p in remain;
        var added := set clause, d | clause in u.DependenciesOf(p) && d in clause && d !in all :: d;
        Shrinks(u.relations.Keys, all, all + added);
        ghost var all1 := all;
        all := all + added;
        remain := remain - {p} + added;
        forall q, clause | q in all && q !in remain && clause in u.DependenciesOf(q)
          ensures clause <= all
        {
          forall d | d in clause
            ensures d in all
          {
            if q == p {
              assert d in all1 || d in added;
            } else {
              assert clause <= all1;
            }
          }
        }
        assert added == {} ==> all == all1;
      }
    }

    /** Between two calls, for the suite `full` that the calls so far describe. */
    ghost predicate Coherent(full: set<PackageId>)
      reads this
    {
      CoherentState(universe, essentialClosure, full, suiteContents, cacheBroken, cacheInst, cacheEss, clean)
    }

    /** The suite as it was at `start` and what has been found broken since; `full` is the suite
        that the calls to AddBinary and RemoveBinary describe. */
    ghost predicate Searching(full: set<PackageId>, start: set<PackageId>)
      reads this
    {
      && WellFormed(universe)
      && (forall p :: p in full ==> universe.Knows(p))
      && suiteContents + cacheBroken == full
      && suiteContents <= start <= full
      && CacheBrokenSound(universe, full, cacheBroken)
      && OnlyUnclosedDropped(universe, start, suiteContents)
    }

    /** Where the search stands. */
    function Here(musts: set<PackageId>, never: set<PackageId>, choices: set<set<PackageId>>, check: seq<PackageId>): Spot
      reads this
    {
      Spot(suiteContents, cacheBroken, musts, never, choices, check)
    }

    /** Keep one candidate of each equivalence class. */
    method ReduceEquivalent(candidates: set<PackageId>) returns (kept: set<PackageId>)
      requires WellFormed(universe) && forall p :: p in candidates ==> universe.Knows(p)
      ensures Narrowed(universe, candidates, kept)
    {
      var possibleEqv := set x | x in candidates && x in universe.equivalent;
      if |possibleEqv| > 1 {
        kept := set x | x in candidates && x !in possibleEqv;
        forall p | p in kept
          ensures HasEquivalentIn(universe, p, kept)
        {
          assert universe.AreEquivalent(p, p);
        }
        while possibleEqv != {}
          invariant kept + possibleEqv <= candidates
          invariant Covers(universe, candidates - possibleEqv, kept)
        {
          var chosen :| chosen in possibleEqv;
          ghost var before, left := kept, possibleEqv;
          kept := kept + {chosen};
          possibleEqv := possibleEqv - {chosen};
          possibleEqv := possibleEqv - universe.EquivalentTo(chosen);
          forall p | p in candidates - possibleEqv
            ensures HasEquivalentIn(universe, p, kept)
          {
            if p in candidates - left {
              assert HasEquivalentIn(universe, p, before);
            } else {
              assert universe.AreEquivalent(chosen, chosen);
              assert universe.AreEquivalent(chosen, p);
              EquivalentSymmetric(universe, chosen, p);
            }
          }
        }
      } else {
        kept := candidates;
        forall p | p in kept
          ensures HasEquivalentIn(universe, p, kept)
        {
          assert universe.AreEquivalent(p, p);
        }
      }
    }

    /** One clause of `cur` that nothing in `musts` meets yet. */
    method CheckClause(cur: PackageId, depgroup: set<PackageId>, musts0: set<PackageId>, never: set<PackageId>,
                       choices0: set<set<PackageId>>, check0: seq<PackageId>,
                       ghost full: set<PackageId>, ghost start: set<PackageId>)
      returns (ok: bool, musts: set<PackageId>, choices: set<set<PackageId>>, check: seq<PackageId>, ghost picked: set<PackageId>)
      requires Searching(full, start)
      requires cur in full && depgroup in universe.DependenciesOf(cur) && depgroup !! musts0
      modifies this`suiteContents, this`cacheBroken
      ensures Searching(full, start)
      ensures suiteContents <= old(suiteContents)
      ensures !ok ==> depgroup * old(suiteContents) - never == {}
      ensures !ok ==> musts == musts0 && choices == choices0 && check == check0
      ensures ok ==> suiteContents == old(suiteContents) && cacheBroken == old(cacheBroken)
      ensures ok ==> picked <= depgroup * suiteContents - never
      ensures ok ==> Covers(universe, depgroup * suiteContents - never, picked)
      ensures ClauseMove(universe, cur, depgroup, old(Here(musts0, never, choices0, check0)), Here(musts, never, choices, check), ok)
      ensures ok ==>
        || (exists x :: picked == {x} && musts == musts0 + {x} && check == check0 + [x] && choices == choices0)
        || (|picked| > 1 && musts == musts0 && check == check0 && choices == choices0 + {picked})
    {
      musts, choices, check, picked := musts0, choices0, check0, {};
      var candidates := depgroup * suiteContents - never;
      if candidates == {} {
        NoteBroken(cur, depgroup, never, full, start);
        return false, musts, choices, check, picked;
      }
      ok := true;
      var kept := Narrow(candidates);
      picked := kept;
      ghost var before := Here(musts0, never, choices0, check0);
      if |kept| == 1 {
        var x :| x in kept;
        Singleton(kept, x);
        check := check + [x];
        musts := musts + {x};
      } else {
        choices := choices + {kept};
      }
      assert Narrowed(universe, candidates, kept) && Chosen(before, kept, Here(musts, never, choices, check));
    }

    /** Without candidates even if nothing were ruled out, the package itself is broken. */
    method NoteBroken(cur: PackageId, depgroup: set<PackageId>, never: set<PackageId>,
                      ghost full: set<PackageId>, ghost start: set<PackageId>)
      requires Searching(full, start)
      requires cur in full && depgroup in universe.DependenciesOf(cur) && depgroup * suiteContents - never == {}
      modifies this`suiteContents, this`cacheBroken
      ensures Searching(full, start) && suiteContents <= old(suiteContents)
      ensures forall musts, choices, check ::
        Here(musts, never, choices, check) == Noted(cur, depgroup, old(Here(musts, never, choices, check)))
    {
      if cur !in cacheBroken && depgroup !! never {
        NoneLeft(depgroup, suiteContents, never);
        NoCandidatesBroken(universe, full, suiteContents, cacheBroken, cur, depgroup);
        NoCandidatesUnclosed(universe, start, suiteContents, cur, depgroup);
        cacheBroken := cacheBroken + {cur};
        suiteContents := suiteContents - {cur};
      }
    }

    /** Leave out candidates that are as good as another one. */
    method Narrow(candidates: set<PackageId>) returns (kept: set<PackageId>)
      requires WellFormed(universe) && candidates != {} && forall p :: p in candidates ==> universe.Knows(p)
      ensures Narrowed(universe, candidates, kept) && |kept| > 0
    {
      kept := candidates;
      if |candidates| > 1 {
        kept := ReduceEquivalent(candidates);
      } else {
        CoversSuperset(universe, candidates, kept);
      }
      KeptNonEmpty(candidates, kept);
    }

    /** The clauses of `cur` one by one; each is met, forced or deferred. */
    method CheckClauses(cur: PackageId, musts0: set<PackageId>, never: set<PackageId>,
                        choices0: set<set<PackageId>>, check0: seq<PackageId>,
                        ghost full: set<PackageId>, ghost start: set<PackageId>,
                        ghost arch: string, ghost region: set<PackageId>)
      returns (ok: bool, musts: set<PackageId>, choices: set<set<PackageId>>, check: seq<PackageId>)
      requires Searching(full, start) && RegionClosed(universe, arch, region)
      requires cur in full && cur in region
      modifies this`suiteContents, this`cacheBroken
      ensures Searching(full, start) && suiteContents <= old(suiteContents)
      ensures !ok ==> Unsupported(universe, full, arch, region, CheckSet(check0) + {cur}, musts0, never, choices0)
      ensures ClausesBounded(start, region, cur, musts0, choices0, check0, musts, choices, check)
      ensures ClausesMove(universe, cur, old(Here(musts0, never, choices0, check0)), Here(musts, never, choices, check), ok)
      ensures ok ==> suiteContents == old(suiteContents)
      ensures ok ==> Keeps(universe, full, arch, region, CheckSet(check0) + {cur}, musts0, never, choices0,
                           CheckSet(check) + {cur}, musts, never, choices)
      ensures ok ==> ClausesMet(universe, cur, musts, choices)
    {
      musts, choices, check := musts0, choices0, check0;
      var todo := universe.DependenciesOf(cur);
      ghost var before := Here(musts0, never, choices0, check0);
      assert universe.DependenciesOf(cur) - todo == {};
      while todo != {}
        invariant Searching(full, start) && suiteContents == old(suiteContents) && todo <= universe.DependenciesOf(cur)
        invariant ClausesKept(full, start, arch, region, cur, never, musts0, choices0, check0, todo, musts, choices, check)
        invariant ClausesDone(universe, cur, universe.DependenciesOf(cur) - todo, before, Here(musts, never, choices, check))
      {
        var depgroup :| depgroup in todo;
        ok, musts, choices, check :=
          NextClause(cur, depgroup, musts, never, choices, check, full, start, arch, region, musts0, choices0, check0, todo, before);
        todo := todo - {depgroup};
        if !ok {
          return;
        }
      }
      assert universe.DependenciesOf(cur) - todo == universe.DependenciesOf(cur);
      ok := true;
    }

    /** The clauses of `cur` except `todo` have been met, forced or deferred since `musts0`. */
    ghost predicate ClausesKept(full: set<PackageId>, start: set<PackageId>, arch: string, region: set<PackageId>,
                                cur: PackageId, never: set<PackageId>, musts0: set<PackageId>, choices0: set<set<PackageId>>,
                                check0: seq<PackageId>, todo: set<set<PackageId>>,
                                musts: set<PackageId>, choices: set<set<PackageId>>, check: seq<PackageId>)
    {
      && ClausesBounded(start, region, cur, musts0, choices0, check0, musts, choices, check)
      && Keeps(universe, full, arch, region, CheckSet(check0) + {cur}, musts0, never, choices0,
               CheckSet(check) + {cur}, musts, never, choices)
      && (forall clause :: clause in universe.DependenciesOf(cur) - todo ==> MetOrDeferred(clause, musts, choices))
    }

    /** What looking at clauses may add. */
    ghost predicate ClausesBounded(start: set<PackageId>, region: set<PackageId>, cur: PackageId, musts0: set<PackageId>,
                                   choices0: set<set<PackageId>>, check0: seq<PackageId>,
                                   musts: set<PackageId>, choices: set<set<PackageId>>, check: seq<PackageId>)
    {
      && musts0 <= musts && musts - musts0 <= start * region
      && choices0 <= choices && ChoicesWithin(choices - choices0, start * region)
      && (forall choice :: choice in choices - choices0 ==> |choice| > 1)
      && CheckSet(check) == CheckSet(check0) + (musts - musts0)
      && (musts == musts0 ==> check == check0 && (choices == choices0 || !Satisfied(universe, cur, musts0)))
    }

    /** The next clause of `cur`. */
    method NextClause(cur: PackageId, depgroup: set<PackageId>, musts1: set<PackageId>, never: set<PackageId>,
                      choices1: set<set<PackageId>>, check1: seq<PackageId>,
                      ghost full: set<PackageId>, ghost start: set<PackageId>, ghost arch: string, ghost region: set<PackageId>,
                      ghost musts0: set<PackageId>, ghost choices0: set<set<PackageId>>, ghost check0: seq<PackageId>,
                      ghost todo: set<set<PackageId>>, ghost before: Spot)
      returns (ok: bool, musts: set<PackageId>, choices: set<set<PackageId>>, check: seq<PackageId>)
      requires Searching(full, start) && RegionClosed(universe, arch, region) && cur in full && cur in region
      requires depgroup in universe.DependenciesOf(cur) && depgroup in todo && todo <= universe.DependenciesOf(cur)
      requires ClausesKept(full, start, arch, region, cur, never, musts0, choices0, check0, todo, musts1, choices1, check1)
      requires ClausesDone(universe, cur, universe.DependenciesOf(cur) - todo, before, Here(musts1, never, choices1, check1))
      modifies this`suiteContents, this`cacheBroken
      ensures Searching(full, start) && suiteContents <= old(suiteContents)
      ensures !ok ==> Unsupported(universe, full, arch, region, CheckSet(check0) + {cur}, musts0, never, choices0)
      ensures !ok ==> ClausesBounded(start, region, cur, musts0, choices0, check0, musts, choices, check)
      ensures !ok ==> ClausesFailed(universe, cur, before, Here(musts, never, choices, check))
      ensures ok ==> suiteContents == old(suiteContents)
      ensures ok ==> ClausesKept(full, start, arch, region, cur, never, musts0, choices0, check0, todo - {depgroup}, musts, choices, check)
      ensures ok ==>
        ClausesDone(universe, cur, universe.DependenciesOf(cur) - (todo - {depgroup}), before, Here(musts, never, choices, check))
    {
      ghost var done, spot := universe.DependenciesOf(cur) - todo, Here(musts1, never, choices1, check1);
      assert done + {depgroup} == universe.DependenciesOf(cur) - (todo - {depgroup});
      ok, musts, choices, check := true, musts1, choices1, check1;
      if depgroup !! musts {
        ghost var broken1, suite1 := cacheBroken, suiteContents;
        ghost var picked;
        ok, musts, choices, check, picked := CheckClause(cur, depgroup, musts, never, choices, check, full, start);
        if !ok {
          ClauseFails(full, suite1, broken1, arch, region, cur, depgroup, CheckSet(check0), musts0, choices0,
                      CheckSet(check1), musts1, never, choices1);
          return;
        }
        ClausePicked(full, start, arch, region, cur, depgroup, musts1, never, choices1, check1, musts0, choices0, check0, todo,
                     suiteContents, cacheBroken, picked, musts, choices, check);
      }
      ClausesMore(universe, cur, done, depgroup, before, spot, Here(musts, never, choices, check));
    }

    lemma ClausePicked(full: set<PackageId>, start: set<PackageId>, arch: string, region: set<PackageId>, cur: PackageId,
                       depgroup: set<PackageId>, musts1: set<PackageId>, never: set<PackageId>, choices1: set<set<PackageId>>,
                       check1: seq<PackageId>, musts0: set<PackageId>, choices0: set<set<PackageId>>, check0: seq<PackageId>,
                       todo: set<set<PackageId>>, suite: set<PackageId>, broken: set<PackageId>, picked: set<PackageId>,
                       musts: set<PackageId>, choices: set<set<PackageId>>, check: seq<PackageId>)
      requires WellFormed(universe) && RegionClosed(universe, arch, region) && cur in region && suite <= start
      requires CacheBrokenSound(universe, full, broken) && suite + broken == full
      requires depgroup in universe.DependenciesOf(cur) && depgroup in todo && depgroup !! musts1
      requires ClausesKept(full, start, arch, region, cur, never, musts0, choices0, check0, todo, musts1, choices1, check1)
      requires picked <= depgroup * suite - never && Covers(universe, depgroup * suite - never, picked)
      requires
        || (exists x :: picked == {x} && musts == musts1 + {x} && check == check1 + [x] && choices == choices1)
        || (|picked| > 1 && musts == musts1 && check == check1 && choices == choices1 + {picked})
      ensures ClausesKept(full, start, arch, region, cur, never, musts0, choices0, check0, todo - {depgroup}, musts, choices, check)
    {
      forall x | check == check1 + [x]
        ensures CheckSet(check) == CheckSet(check1) + {x}
      {
        PushCheck(check1, x, musts, musts);
      }
      assert depgroup <= region;
      forall choice | choice in choices - choices0
        ensures choice <= start * region && choice != {} && |choice| > 1
      {
        if choice !in choices1 {
          assert choice == picked && |choice| > 1;
        }
      }
      forall m | Supports(universe, full, arch, region, m, CheckSet(check0) + {cur}, musts0, never, choices0)
        ensures Supports(universe, full, arch, region, m, CheckSet(check) + {cur}, musts, never, choices)
        ensures musts - musts0 <= m
      {
        ClauseStepSupports(universe, full, suite, broken, arch, region, m, cur, depgroup, picked,
                           CheckSet(check1), musts1, never, choices1, CheckSet(check), musts, choices);
      }
      MetGrows(universe.DependenciesOf(cur) - todo, musts1, choices1, musts, choices);
    }

    lemma ClauseFails(full: set<PackageId>, suite: set<PackageId>, broken: set<PackageId>, arch: string, region: set<PackageId>,
                      cur: PackageId, depgroup: set<PackageId>,
                      check0: set<PackageId>, musts0: set<PackageId>, choices0: set<set<PackageId>>,
                      check: set<PackageId>, musts: set<PackageId>, never: set<PackageId>, choices: set<set<PackageId>>)
      requires ClausesLocal(universe) && RegionClosed(universe, arch, region)
      requires CacheBrokenSound(universe, full, broken) && suite + broken == full
      requires cur in region && depgroup in universe.DependenciesOf(cur) && depgroup !! musts
      requires depgroup * suite - never == {}
      requires Keeps(universe, full, arch, region, check0 + {cur}, musts0, never, choices0, check + {cur}, musts, never, choices)
      ensures Unsupported(universe, full, arch, region, check0 + {cur}, musts0, never, choices0)
    {
      forall m | Supports(universe, full, arch, region, m, check0 + {cur}, musts0, never, choices0)
        ensures false
      {
        PickedHit(universe, full, suite, broken, arch, region, m, check + {cur}, cur, musts, never, choices, depgroup, {});
      }
    }

    /** One package of `check`; `done` has been examined since the conflicts were `never0`. */
    method CheckPackage(cur: PackageId, musts0: set<PackageId>, never1: set<PackageId>,
                        choices0: set<set<PackageId>>, check0: seq<PackageId>,
                        ghost full: set<PackageId>, ghost start: set<PackageId>,
                        ghost arch: string, ghost region: set<PackageId>,
                        ghost done: set<PackageId>, ghost never0: set<PackageId>)
      returns (ok: bool, musts: set<PackageId>, never: set<PackageId>, choices: set<set<PackageId>>, check: seq<PackageId>)
      requires Searching(full, start) && RegionClosed(universe, arch, region)
      requires cur in full && cur in region
      requires {} !in choices0
      requires Examined(universe, suiteContents, done, never0, musts0, never1, choices0)
      modifies this`suiteContents, this`cacheBroken
      ensures Searching(full, start) && suiteContents <= old(suiteContents)
      ensures PackageMove(universe, old(Here(musts0, never1, choices0, check0 + [cur])), Here(musts, never, choices, check), ok)
      ensures !ok ==> Unsupported(universe, full, arch, region, CheckSet(check0) + {cur}, musts0, never1, choices0)
      ensures ClausesBounded(start, region, cur, musts0, choices0, check0, musts, choices, check)
      ensures ok ==> Keeps(universe, full, arch, region, CheckSet(check0) + {cur}, musts0, never1, choices0,
                           CheckSet(check), musts, never, choices)
      ensures ok ==> Examined(universe, suiteContents, done + {cur}, never0, musts, never, choices)
    {
      musts, never, choices, check := musts0, never1, choices0, check0;
      ghost var all := CheckSet(check0) + {cur};
      assert (check0 + [cur])[..|check0|] == check0;
      if universe.NegativeDependenciesOf(cur) != {} && cur in never {
        RuledOut(full, arch, region, cur, all, musts, never, choices);
        return false, musts, never, choices, check;
      }
      ExaminedConflicts(universe, suiteContents, done, never0, musts, never, choices, cur);
      never := never + universe.NegativeDependenciesOf(cur) * suiteContents;
      ConflictsKept(full, arch, region, cur, all, musts, never1, choices, suiteContents);
      ok, musts, choices, check := CheckClauses(cur, musts, never, choices, check, full, start, arch, region);
      if ok {
        forall p | p in done {
          ProcessedMonotone(universe, p, suiteContents, musts0, never, choices0, suiteContents, musts, never, choices);
        }
        assert {} in choices ==> {} in choices - choices0;
        ExaminedStep(universe, suiteContents, done, never0, musts, never, choices, cur);
        DropFromCheck(full, arch, region, cur, CheckSet(check), musts, never, choices);
        KeepsChain(full, arch, region, all, musts0, never1, choices0, all, musts0, never, choices0,
                   CheckSet(check) + {cur}, musts, never, choices);
        KeepsChain(full, arch, region, all, musts0, never1, choices0, CheckSet(check) + {cur}, musts, never, choices,
                   CheckSet(check), musts, never, choices);
      } else {
        KeepsNone(full, arch, region, all, musts0, never1, choices0, all, musts0, never, choices0);
      }
    }

    /** Examine everything in `check` and whatever follows from it without a choice. */
    method CheckLoop(musts0: set<PackageId>, never0: set<PackageId>, choices0: set<set<PackageId>>, check0: seq<PackageId>,
                     ghost full: set<PackageId>, ghost start: set<PackageId>,
                     ghost arch: string, ghost region: set<PackageId>)
      returns (ok: bool, musts: set<PackageId>, never: set<PackageId>, choices: set<set<PackageId>>, check: seq<PackageId>)
      requires Searching(full, start) && RegionClosed(universe, arch, region)
      requires musts0 + CheckSet(check0) <= full && CheckSet(check0) <= region
      requires {} !in choices0
      modifies this`suiteContents, this`cacheBroken
      ensures Searching(full, start) && suiteContents <= old(suiteContents)
      ensures !ok ==> Unsupported(universe, full, arch, region, CheckSet(check0), musts0, never0, choices0)
      ensures musts0 <= musts && musts - musts0 <= start * region
      ensures choices0 <= choices && ChoicesWithin(choices - choices0, start * region)
      ensures forall choice :: choice in choices - choices0 ==> |choice| > 1
      ensures CheckSet(check) <= CheckSet(check0) + (musts - musts0)
      ensures musts == musts0 ==> check <= check0 && (check0 != [] ==> |check| < |check0|)
      ensures musts == musts0 && choices != choices0 ==> UnmetCount(universe, check, musts0) < UnmetCount(universe, check0, musts0)
      ensures LoopMove(universe, old(Here(musts0, never0, choices0, check0)), Here(musts, never, choices, check), ok)
      ensures ok ==> check == []
      ensures ok ==> Keeps(universe, full, arch, region, CheckSet(check0), musts0, never0, choices0,
                           {}, musts, never, choices)
      ensures ok ==> Examined(universe, suiteContents, CheckSet(check0) + (musts - musts0), never0, musts, never, choices)
    {
      musts, never, choices, check := musts0, never0, choices0, check0;
      ghost var done: set<PackageId> := {};
      ghost var before := Here(musts0, never0, choices0, check0);
      ReachesSelf(universe, before);
      while check != []
        invariant Searching(full, start) && suiteContents <= old(suiteContents)
        invariant Reaches(universe, before, Here(musts, never, choices, check))
        invariant LoopKept(full, start, arch, region, musts0, never0, choices0, check0, suiteContents, done, musts, never, choices, check)
        decreases universe.relations.Keys - musts, |check|
      {
        ghost var musts1 := musts;
        ok, musts, never, choices, check, done :=
          NextPackage(musts, never, choices, check, full, start, arch, region, musts0, never0, choices0, check0, done, before);
        if !ok {
          return;
        }
        Shrinks(universe.relations.Keys, musts1, musts);
      }
      ok := true;
    }

    /** What the loop keeps while it works `check` off; `done` has been examined. */
    ghost predicate LoopKept(full: set<PackageId>, start: set<PackageId>, arch: string, region: set<PackageId>,
                             musts0: set<PackageId>, never0: set<PackageId>, choices0: set<set<PackageId>>, check0: seq<PackageId>,
                             suite: set<PackageId>, done: set<PackageId>,
                             musts: set<PackageId>, never: set<PackageId>, choices: set<set<PackageId>>, check: seq<PackageId>)
    {
      && musts + CheckSet(check) <= full && CheckSet(check) <= region && {} !in choices
      && LoopBounded(start, region, musts0, choices0, check0, musts, choices, check)
      && done + CheckSet(check) == CheckSet(check0) + (musts - musts0)
      && Examined(universe, suite, done, never0, musts, never, choices)
      && Keeps(universe, full, arch, region, CheckSet(check0), musts0, never0, choices0, CheckSet(check), musts, never, choices)
      && (musts == musts0 ==> check <= check0)
    }

    /** What the loop may add. */
    ghost predicate LoopBounded(start: set<PackageId>, region: set<PackageId>, musts0: set<PackageId>, choices0: set<set<PackageId>>,
                                check0: seq<PackageId>, musts: set<PackageId>, choices: set<set<PackageId>>, check: seq<PackageId>)
    {
      && musts0 <= musts && musts - musts0 <= start * region
      && choices0 <= choices && ChoicesWithin(choices - choices0, start * region)
      && (forall choice :: choice in choices - choices0 ==> |choice| > 1)
      && CheckSet(check) <= CheckSet(check0) + (musts - musts0)
      && (musts == musts0 && choices != choices0 ==>
            UnmetCount(universe, check, musts0) < UnmetCount(universe, check0, musts0))
    }

    /** The last package of `check`. */
    method NextPackage(musts1: set<PackageId>, never1: set<PackageId>, choices1: set<set<PackageId>>, check1: seq<PackageId>,
                       ghost full: set<PackageId>, ghost start: set<PackageId>, ghost arch: string, ghost region: set<PackageId>,
                       ghost musts0: set<PackageId>, ghost never0: set<PackageId>, ghost choices0: set<set<PackageId>>,
                       ghost check0: seq<PackageId>, ghost done1: set<PackageId>, ghost before: Spot)
      returns (ok: bool, musts: set<PackageId>, never: set<PackageId>, choices: set<set<PackageId>>, check: seq<PackageId>,
               ghost done: set<PackageId>)
      requires Searching(full, start) && RegionClosed(universe, arch, region) && check1 != []
      requires Reaches(universe, before, Here(musts1, never1, choices1, check1))
      requires LoopKept(full, start, arch, region, musts0, never0, choices0, check0, suiteContents, done1, musts1, never1, choices1, check1)
      modifies this`suiteContents, this`cacheBroken
      ensures Searching(full, start) && suiteContents <= old(suiteContents) && musts1 <= musts
      ensures musts == musts1 ==> |check| < |check1|
      ensures !ok ==> Unsupported(universe, full, arch, region, CheckSet(check0), musts0, never0, choices0)
      ensures !ok ==> LoopBounded(start, region, musts0, choices0, check0, musts, choices, check)
      ensures !ok ==> musts == musts0 ==> check <= check0 && |check| < |check0|
      ensures !ok ==> LoopMove(universe, before, Here(musts, never, choices, check), false)
      ensures ok ==> Reaches(universe, before, Here(musts, never, choices, check))
      ensures ok ==>
        LoopKept(full, start, arch, region, musts0, never0, choices0, check0, suiteContents, done, musts, never, choices, check)
    {
      var n := |check1| - 1;
      var cur := check1[n];
      ghost var spot := Here(musts1, never1, choices1, check1);
      PopCheck(check1);
      check := check1[..n];
      assert check1 == check + [cur];
      ok, musts, never, choices, check :=
        CheckPackage(cur, musts1, never1, choices1, check, full, start, arch, region, done1, never0);
      done := done1 + {cur};
      PackageAdds(full, start, arch, region, musts0, never0, choices0, check0, old(suiteContents), done1, musts1, never1,
                  choices1, check1, musts, choices, check);
      if ok {
        ReachesMore(universe, before, spot, Here(musts, never, choices, check));
        PackageKeeps(full, start, arch, region, musts0, never0, choices0, check0, old(suiteContents), done1, musts1, never1,
                     choices1, check1, suiteContents, musts, never, choices, check);
      } else {
        KeepsNone(full, arch, region, CheckSet(check0), musts0, never0, choices0, CheckSet(check1), musts1, never1, choices1);
      }
    }

    lemma PackageAdds(full: set<PackageId>, start: set<PackageId>, arch: string, region: set<PackageId>,
                      musts0: set<PackageId>, never0: set<PackageId>, choices0: set<set<PackageId>>, check0: seq<PackageId>,
                      suite1: set<PackageId>, done1: set<PackageId>,
                      musts1: set<PackageId>, never1: set<PackageId>, choices1: set<set<PackageId>>, check1: seq<PackageId>,
                      musts: set<PackageId>, choices: set<set<PackageId>>, check: seq<PackageId>)
      requires LoopKept(full, start, arch, region, musts0, never0, choices0, check0, suite1, done1, musts1, never1, choices1, check1)
      requires check1 != []
      requires var n := |check1| - 1;
        ClausesBounded(start, region, check1[n], musts1, choices1, check1[..n], musts, choices, check)
      ensures LoopBounded(start, region, musts0, choices0, check0, musts, choices, check)
      ensures musts == musts0 ==> check <= check0 && |check| < |check0|
      ensures musts == musts1 ==> |check| < |check1|
    {
      var n := |check1| - 1;
      PopCheck(check1);
      forall choice | choice in choices - choices0
        ensures choice <= start * region && choice != {} && |choice| > 1
      {
        assert choice in choices1 - choices0 || choice in choices - choices1;
      }
      if musts == musts0 {
        UnmetPrefix(universe, check1, check0, musts0);
        assert check == check1[..n];
      }
    }

    lemma PackageKeeps(full: set<PackageId>, start: set<PackageId>, arch: string, region: set<PackageId>,
                       musts0: set<PackageId>, never0: set<PackageId>, choices0: set<set<PackageId>>, check0: seq<PackageId>,
                       suite1: set<PackageId>, done1: set<PackageId>,
                       musts1: set<PackageId>, never1: set<PackageId>, choices1: set<set<PackageId>>, check1: seq<PackageId>,
                       suite: set<PackageId>,
                       musts: set<PackageId>, never: set<PackageId>, choices: set<set<PackageId>>, check: seq<PackageId>)
      requires LoopKept(full, start, arch, region, musts0, never0, choices0, check0, suite1, done1, musts1, never1, choices1, check1)
      requires check1 != [] && start <= full
      requires LoopBounded(start, region, musts0, choices0, check0, musts, choices, check)
      requires musts == musts0 ==> check <= check0
      requires var n := |check1| - 1;
        && ClausesBounded(start, region, check1[n], musts1, choices1, check1[..n], musts, choices, check)
        && Examined(universe, suite, done1 + {check1[n]}, never0, musts, never, choices)
        && Keeps(universe, full, arch, region, CheckSet(check1[..n]) + {check1[n]}, musts1, never1, choices1,
                 CheckSet(check), musts, never, choices)
      ensures LoopKept(full, start, arch, region, musts0, never0, choices0, check0, suite, done1 + {check1[|check1| - 1]},
                       musts, never, choices, check)
    {
      var n := |check1| - 1;
      var cur := check1[n];
      PopCheck(check1);
      Pushed(full, region, start, musts0, musts1, musts, CheckSet(check1[..n]), cur, CheckSet(check0), done1);
      KeepsChain(full, arch, region, CheckSet(check0), musts0, never0, choices0, CheckSet(check1), musts1, never1, choices1,
                 CheckSet(check), musts, never, choices);
      assert {} in choices ==> {} in choices - choices1;
    }

    lemma KeepsChain(full: set<PackageId>, arch: string, region: set<PackageId>,
                     check0: set<PackageId>, musts0: set<PackageId>, never0: set<PackageId>, choices0: set<set<PackageId>>,
                     check1: set<PackageId>, musts1: set<PackageId>, never1: set<PackageId>, choices1: set<set<PackageId>>,
                     check2: set<PackageId>, musts2: set<PackageId>, never2: set<PackageId>, choices2: set<set<PackageId>>)
      requires Keeps(universe, full, arch, region, check0, musts0, never0, choices0, check1, musts1, never1, choices1)
      requires Keeps(universe, full, arch, region, check1, musts1, never1, choices1, check2, musts2, never2, choices2)
      ensures Keeps(universe, full, arch, region, check0, musts0, never0, choices0, check2, musts2, never2, choices2)
    {
    }

    lemma KeepsNone(full: set<PackageId>, arch: string, region: set<PackageId>,
                    check0: set<PackageId>, musts0: set<PackageId>, never0: set<PackageId>, choices0: set<set<PackageId>>,
                    check1: set<PackageId>, musts1: set<PackageId>, never1: set<PackageId>, choices1: set<set<PackageId>>)
      requires Keeps(universe, full, arch, region, check0, musts0, never0, choices0, check1, musts1, never1, choices1)
      requires Unsupported(universe, full, arch, region, check1, musts1, never1, choices1)
      ensures Unsupported(universe, full, arch, region, check0, musts0, never0, choices0)
    {
    }

    lemma DropFromCheck(full: set<PackageId>, arch: string, region: set<PackageId>, cur: PackageId,
                        check: set<PackageId>, musts: set<PackageId>, never: set<PackageId>, choices: set<set<PackageId>>)
      ensures Keeps(universe, full, arch, region, check + {cur}, musts, never, choices, check, musts, never, choices)
    {
    }

    lemma RuledOut(full: set<PackageId>, arch: string, region: set<PackageId>, cur: PackageId,
                   check: set<PackageId>, musts: set<PackageId>, never: set<PackageId>, choices: set<set<PackageId>>)
      requires WellFormed(universe) && cur in check
      requires universe.NegativeDependenciesOf(cur) != {} && cur in never
      ensures Unsupported(universe, full, arch, region, check, musts, never, choices)
    {
      forall m | Supports(universe, full, arch, region, m, check, musts, never, choices)
        ensures false
      {
        RecordConflicts(universe, full, arch, region, m, check, cur, musts, never, choices, {});
      }
    }

    lemma ConflictsKept(full: set<PackageId>, arch: string, region: set<PackageId>, cur: PackageId,
                        check: set<PackageId>, musts: set<PackageId>, never: set<PackageId>, choices: set<set<PackageId>>,
                        suite: set<PackageId>)
      requires WellFormed(universe) && cur in check
      ensures Keeps(universe, full, arch, region, check, musts, never, choices, check, musts,
                    never + universe.NegativeDependenciesOf(cur) * suite, choices)
    {
      forall m | Supports(universe, full, arch, region, m, check, musts, never, choices)
        ensures Supports(universe, full, arch, region, m, check, musts,
                         never + universe.NegativeDependenciesOf(cur) * suite, choices)
      {
        RecordConflicts(universe, full, arch, region, m, check, cur, musts, never, choices, suite);
      }
    }

    /** Drop the choices that `musts` meets, commit to those with one option left, narrow the rest. */
    method PruneChoices(musts0: set<PackageId>, never: set<PackageId>, choices: set<set<PackageId>>,
                        ghost full: set<PackageId>, ghost start: set<PackageId>,
                        ghost arch: string, ghost region: set<PackageId>, ghost m: set<PackageId>)
      returns (ok: bool, musts: set<PackageId>, check: seq<PackageId>, rebuild: set<set<PackageId>>)
      requires Searching(full, start) && RegionClosed(universe, arch, region)
      requires ChoicesWithin(choices, region * full)
      ensures CheckSet(check) == musts - musts0
      ensures ChoicesMove(Here(musts0, never, choices, []), Here(musts, never, rebuild, check), ok)
      ensures Pruned(choices, if ok then choices else {}, musts0, musts, rebuild)
      ensures Supports(universe, full, arch, region, m, {}, musts0, never, choices) ==>
        ok && Supports(universe, full, arch, region, m, CheckSet(check), musts, never, rebuild)
    {
      musts, check, rebuild := musts0, [], {};
      var todo := choices;
      ghost var before := Here(musts0, never, {}, []);
      assert choices - todo == {};
      while todo != {}
        invariant todo <= choices
        invariant PruneDone(choices - todo, before, Here(musts, never, rebuild, check))
        invariant PruneKept(full, arch, region, m, never, choices, musts0, todo, musts, check, rebuild)
      {
        var choice :| choice in todo;
        ok, musts, check, rebuild :=
          PruneOne(choice, never, musts, check, rebuild, full, start, arch, region, m, choices, musts0, todo, before);
        if !ok {
          return;
        }
        todo := todo - {choice};
      }
      assert choices - todo == choices;
      ok := true;
    }

    /** The choices but `todo` have been pruned. */
    ghost predicate PruneKept(full: set<PackageId>, arch: string, region: set<PackageId>, m: set<PackageId>,
                              never: set<PackageId>, choices: set<set<PackageId>>, musts0: set<PackageId>, todo: set<set<PackageId>>,
                              musts: set<PackageId>, check: seq<PackageId>, rebuild: set<set<PackageId>>)
    {
      && CheckSet(check) == musts - musts0
      && Pruned(choices, choices - todo, musts0, musts, rebuild)
      && (Supports(universe, full, arch, region, m, {}, musts0, never, choices) ==>
            Supports(universe, full, arch, region, m, CheckSet(check), musts, never, rebuild))
    }

    method PruneOne(choice: set<PackageId>, never: set<PackageId>, musts1: set<PackageId>, check1: seq<PackageId>,
                    rebuild1: set<set<PackageId>>, ghost full: set<PackageId>, ghost start: set<PackageId>,
                    ghost arch: string, ghost region: set<PackageId>, ghost m: set<PackageId>, ghost choices: set<set<PackageId>>,
                    ghost musts0: set<PackageId>, ghost todo: set<set<PackageId>>, ghost before: Spot)
      returns (ok: bool, musts: set<PackageId>, check: seq<PackageId>, rebuild: set<set<PackageId>>)
      requires Searching(full, start) && RegionClosed(universe, arch, region) && ChoicesWithin(choices, region * full)
      requires choice in todo && todo <= choices && before == Here(musts0, never, {}, [])
      requires PruneDone(choices - todo, before, Here(musts1, never, rebuild1, check1))
      requires PruneKept(full, arch, region, m, never, choices, musts0, todo, musts1, check1, rebuild1)
      ensures !ok ==> !Supports(universe, full, arch, region, m, {}, musts0, never, choices)
      ensures !ok ==> CheckSet(check) == musts - musts0 && Pruned(choices, {}, musts0, musts, rebuild)
      ensures !ok ==> ChoicesMove(Here(musts0, never, choices, []), Here(musts, never, rebuild, check), false)
      ensures ok ==> PruneDone(choices - (todo - {choice}), before, Here(musts, never, rebuild, check))
      ensures ok ==> PruneKept(full, arch, region, m, never, choices, musts0, todo - {choice}, musts, check, rebuild)
    {
      ghost var done, spot := choices - todo, Here(musts1, never, rebuild1, check1);
      assert done + {choice} == choices - (todo - {choice});
      ok, musts, check, rebuild := true, musts1, check1, rebuild1;
      if choice !! musts {
        var remain := choice - never - cacheBroken;
        if Supports(universe, full, arch, region, m, {}, musts0, never, choices) {
          RemainHit(universe, full, cacheBroken, arch, region, m, choice, musts0, never, choices);
          RemainSupports(universe, full, arch, region, m, CheckSet(check), musts, never, rebuild, remain);
        }
        if remain == {} {
          PruneFails(done, choice, before.(choices := choices), spot);
          ok := false;
          return;
        }
        if |remain| == 1 {
          var x :| x in remain;
          Singleton(remain, x);
          PushCheck(check, x, musts0, musts);
          PrunedCommit(choices, done, musts0, musts, rebuild, choice, x);
          check := check + [x];
          musts := musts + {x};
        } else {
          NonEmpty(remain);
          PrunedDefer(choices, done, musts0, musts, rebuild, choice, remain);
          rebuild := rebuild + {remain};
        }
        assert Chosen(spot, remain, Here(musts, never, rebuild, check));
      } else {
        PrunedMet(choices, done, musts0, musts, rebuild, choice);
      }
      PruneMore(done, choice, before, spot, Here(musts, never, rebuild, check));
    }

    /** Examine one option `p` of a choice on its own, from no recorded conflicts. */
    method ExamineOption(p: PackageId, musts: set<PackageId>, never: set<PackageId>, choices: set<set<PackageId>>,
                         ghost choice: set<PackageId>, ghost clean: bool,
                         ghost full: set<PackageId>, ghost start: set<PackageId>,
                         ghost arch: string, ghost region: set<PackageId>, ghost m: set<PackageId>)
      returns (ok: bool, mustsCopy: set<PackageId>, neverTmp: set<PackageId>, choicesTmp: set<set<PackageId>>,
               ghost rest: seq<PackageId>)
      requires Searching(full, start) && RegionClosed(universe, arch, region)
      requires Position(universe, suiteContents, full, start, region, musts, {}, never, choices + {choice}, clean)
      requires p in choice
      modifies this`suiteContents, this`cacheBroken
      ensures Searching(full, start) && suiteContents <= old(suiteContents)
      ensures Position(universe, suiteContents, full, start, region, musts, {}, never, choices + {choice}, clean)
      ensures LoopMove(universe, old(Here(musts + {p}, {}, {}, [p])), Here(mustsCopy, neverTmp, choicesTmp, rest), ok)
      ensures musts + {p} <= mustsCopy <= full && p in region
      ensures !ok || !(musts !! neverTmp) ==>
        Supports(universe, full, arch, region, m, {}, musts, never, choices + {choice}) ==> p !in m
      ensures ok && neverTmp <= never && choicesTmp <= choices ==>
        && Position(universe, suiteContents, full, start, region, mustsCopy, {}, never, choices, clean && musts !! neverTmp)
        && (Supports(universe, full, arch, region, m, {}, musts, never, choices + {choice}) ==>
              Supports(universe, full, arch, region, m, {}, mustsCopy, never, choices))
      ensures ok && musts !! neverTmp ==>
        && Position(universe, suiteContents, full, start, region, mustsCopy, {p}, neverTmp + never, choicesTmp + choices, clean)
        && (Supports(universe, full, arch, region, m, {}, musts, never, choices + {choice}) && p in m ==>
              Supports(universe, full, arch, region, m, {p}, mustsCopy, neverTmp + never, choicesTmp + choices))
    {
      ghost var suite0 := suiteContents;
      assert choice in choices + {choice};
      ok, mustsCopy, neverTmp, choicesTmp, rest := LoopOption(p, musts, full, start, arch, region);
      OptionExamined(full, start, arch, region, m, musts, never, choices, choice, p, clean, suite0,
                     ok, mustsCopy, neverTmp, choicesTmp);
    }

    /** What the loop over an option alone has found out. */
    ghost predicate OptionLooped(full: set<PackageId>, start: set<PackageId>, arch: string, region: set<PackageId>,
                                 p: PackageId, musts: set<PackageId>, ok: bool,
                                 musts': set<PackageId>, never2: set<PackageId>, choices2: set<set<PackageId>>)
      reads this
    {
      && musts + {p} <= musts' && musts' - (musts + {p}) <= start * region && ChoicesWithin(choices2, start * region)
      && (!ok ==> Unsupported(universe, full, arch, region, {p}, musts + {p}, {}, {}))
      && (ok ==> Keeps(universe, full, arch, region, {p}, musts + {p}, {}, {}, {}, musts', never2, choices2))
      && (ok ==> Examined(universe, suiteContents, {p} + (musts' - (musts + {p})), {}, musts', never2, choices2))
    }

    method LoopOption(p: PackageId, musts: set<PackageId>, ghost full: set<PackageId>, ghost start: set<PackageId>,
                      ghost arch: string, ghost region: set<PackageId>)
      returns (ok: bool, mustsCopy: set<PackageId>, neverTmp: set<PackageId>, choicesTmp: set<set<PackageId>>,
               ghost rest: seq<PackageId>)
      requires Searching(full, start) && RegionClosed(universe, arch, region)
      requires musts + {p} <= full && p in region
      modifies this`suiteContents, this`cacheBroken
      ensures Searching(full, start) && suiteContents <= old(suiteContents)
      ensures OptionLooped(full, start, arch, region, p, musts, ok, mustsCopy, neverTmp, choicesTmp)
      ensures LoopMove(universe, old(Here(musts + {p}, {}, {}, [p])), Here(mustsCopy, neverTmp, choicesTmp, rest), ok)
    {
      assert CheckSet([p]) == {p};
      var check;
      ok, mustsCopy, neverTmp, choicesTmp, check := CheckLoop(musts + {p}, {}, {}, [p], full, start, arch, region);
      rest := check;
      assert choicesTmp - {} == choicesTmp;
    }

    lemma OptionExamined(full: set<PackageId>, start: set<PackageId>, arch: string, region: set<PackageId>, m: set<PackageId>,
                         musts: set<PackageId>, never: set<PackageId>, choices: set<set<PackageId>>, choice: set<PackageId>,
                         p: PackageId, clean: bool, suite: set<PackageId>,
                         ok: bool, musts': set<PackageId>, never2: set<PackageId>, choices2: set<set<PackageId>>)
      requires Searching(full, start) && RegionClosed(universe, arch, region) && suiteContents <= suite
      requires Position(universe, suite, full, start, region, musts, {}, never, choices + {choice}, clean)
      requires p in choice && p in region && musts + {p} <= full
      requires OptionLooped(full, start, arch, region, p, musts, ok, musts', never2, choices2)
      ensures Position(universe, suiteContents, full, start, region, musts, {}, never, choices + {choice}, clean)
      ensures musts + {p} <= musts' <= full
      ensures !ok || !(musts !! never2) ==>
        Supports(universe, full, arch, region, m, {}, musts, never, choices + {choice}) ==> p !in m
      ensures ok && never2 <= never && choices2 <= choices ==>
        && Position(universe, suiteContents, full, start, region, musts', {}, never, choices, clean && musts !! never2)
        && (Supports(universe, full, arch, region, m, {}, musts, never, choices + {choice}) ==>
              Supports(universe, full, arch, region, m, {}, musts', never, choices))
      ensures ok && musts !! never2 ==>
        && Position(universe, suiteContents, full, start, region, musts', {p}, never2 + never, choices2 + choices, clean)
        && (Supports(universe, full, arch, region, m, {}, musts, never, choices + {choice}) && p in m ==>
              Supports(universe, full, arch, region, m, {p}, musts', never2 + never, choices2 + choices))
    {
      OptionRejected(full, start, region, musts, never, choices + {choice}, clean, suite, never);
      OptionBound(musts, p, musts', start, full);
      if ok {
        OptionJoined(full, start, region, musts, never, choices, choice, p, clean, suite, musts', never2, choices2);
      }
      if Supports(universe, full, arch, region, m, {}, musts, never, choices + {choice}) {
        OptionSupport(full, start, arch, region, m, musts, never, choices, choice, p, suite, ok, musts', never2, choices2);
      }
    }

    lemma OptionBound(musts: set<PackageId>, p: PackageId, musts': set<PackageId>, start: set<PackageId>, full: set<PackageId>)
      requires musts + {p} <= musts' && musts' - (musts + {p}) <= start && start <= full && musts + {p} <= full
      ensures musts' <= full
    {
      assert musts' == (musts + {p}) + (musts' - (musts + {p}));
    }

    /** What the examination of an option tells about one supported model. */
    lemma OptionSupport(full: set<PackageId>, start: set<PackageId>, arch: string, region: set<PackageId>, m: set<PackageId>,
                        musts: set<PackageId>, never: set<PackageId>, choices: set<set<PackageId>>, choice: set<PackageId>,
                        p: PackageId, suite: set<PackageId>,
                        ok: bool, musts': set<PackageId>, never2: set<PackageId>, choices2: set<set<PackageId>>)
      requires Searching(full, start) && RegionClosed(universe, arch, region) && suiteContents <= suite
      requires Supports(universe, full, arch, region, m, {}, musts, never, choices + {choice})
      requires musts + {p} <= musts' && musts <= full && p in region && ConflictsRecorded(universe, suite, musts, never)
      requires musts' - (musts + {p}) <= start * region
      requires !ok ==> Unsupported(universe, full, arch, region, {p}, musts + {p}, {}, {})
      requires ok ==> Keeps(universe, full, arch, region, {p}, musts + {p}, {}, {}, {}, musts', never2, choices2)
      requires ok ==> Examined(universe, suiteContents, {p} + (musts' - (musts + {p})), {}, musts', never2, choices2)
      ensures p in m ==> ok && musts !! never2
      ensures ok && never2 <= never && choices2 <= choices ==>
        Supports(universe, full, arch, region, m, {}, musts', never, choices)
      ensures p in m ==> Supports(universe, full, arch, region, m, {p}, musts', never2 + never, choices2 + choices)
    {
      if p in m {
        OptionSupported(universe, full, arch, region, m, p, musts, never, choices + {choice});
        assert Supports(universe, full, arch, region, m, {}, musts', never2, choices2);
        NoGoExcluded(full, start, arch, region, m, musts, never, choices + {choice}, p, suite, musts', never2, choices2);
        RecursionSupports(universe, full, arch, region, m, musts, never, choices, p, musts', never2, choices2);
      }
      if ok {
        assert musts' == musts + ({p} + (musts' - (musts + {p})));
        if never2 <= never && choices2 <= choices {
          CommitSupports(universe, full, arch, region, m, musts, never, choices, choice, suiteContents,
                         {p} + (musts' - (musts + {p})), musts', never2, choices2);
        }
      }
    }

    /** One option `p` of a choice that has to be guessed; `choice` is the one it was taken from. */
    method TryOption(p: PackageId, musts0: set<PackageId>, never0: set<PackageId>, choices: set<set<PackageId>>,
                     ghost choice: set<PackageId>, ghost clean0: bool,
                     ghost full: set<PackageId>, ghost start: set<PackageId>,
                     ghost arch: string, ghost region: set<PackageId>, ghost m: set<PackageId>)
      returns (outcome: Outcome, musts: set<PackageId>, never: set<PackageId>, ghost found: set<PackageId>, ghost clean: bool,
               ghost record: Try)
      requires Searching(full, start) && RegionClosed(universe, arch, region)
      requires Position(universe, suiteContents, full, start, region, musts0, {}, never0, choices + {choice}, clean0)
      requires p in choice && musts0 != {}
      modifies this`suiteContents, this`cacheBroken, this`cacheInst
      ensures Searching(full, start) && suiteContents <= old(suiteContents)
      ensures TryOk(universe, record) && record.option == p && record.before == old(Here(musts0, never0, choices, []))
      ensures outcome == OutcomeOf(record.effect)
      ensures if outcome.Solved? then record.after.suite == suiteContents && record.after.broken == cacheBroken
              else record.after == Here(musts, never, choices, [])
      ensures outcome.Solved? ==> found == FoundBy(record)
      ensures Tracked(universe, clean0, ShortcutsOfTry(record), clean)
      ensures outcome.Solved? ==>
        musts0 <= found && Answered(universe, suiteContents, found, clean) && cacheInst == old(cacheInst) + found
      ensures !outcome.Solved? ==> cacheInst == old(cacheInst)
      ensures outcome.NoGo? || outcome.GivenUp? ==>
        && musts == musts0 && clean == clean0
        && never == (if outcome.GivenUp? then never0 + {p} else never0)
        && Position(universe, suiteContents, full, start, region, musts, {}, never, choices + {choice}, clean)
        && (Supports(universe, full, arch, region, m, {}, musts0, never0, choices + {choice}) ==> p !in m)
      ensures outcome.Committed? ==>
        && musts0 + {p} <= musts && never == never0
        && Position(universe, suiteContents, full, start, region, musts, {}, never, choices, clean)
        && (Supports(universe, full, arch, region, m, {}, musts0, never0, choices + {choice}) ==>
              Supports(universe, full, arch, region, m, {}, musts, never, choices))
      decreases universe.relations.Keys - (musts0 + {p}), 7
    {
      musts, never, found, clean := musts0, never0, {}, clean0;
      var ok, mustsCopy, neverTmp, choicesTmp;
      ghost var rest;
      ghost var before := Here(musts0, never0, choices, []);
      ok, mustsCopy, neverTmp, choicesTmp, rest :=
        ExamineOption(p, musts, never, choices, choice, clean, full, start, arch, region, m);
      ghost var looped := Here(mustsCopy, neverTmp, choicesTmp, rest);
      record := Try(p, before, looped, ok, Rejected, Learnt(before, looped));
      NothingTracked(universe, clean0, record);
      if !ok {
        outcome := NoGo;
      } else if neverTmp <= never && choicesTmp <= choices {
        musts := mustsCopy;
        clean := clean0 && musts0 !! neverTmp;
        record := record.(effect := Effect.Shortcut, after := Learnt(before, looped).(musts := mustsCopy));
        ShortcutTracked(universe, clean0, record);
        outcome := Outcome.Committed;
      } else if !(musts !! neverTmp) {
        outcome := NoGo;
      } else {
        // More than one package is in musts by now, so the recursive search does not include the
        // essential packages again.
        assert musts + {p} <= mustsCopy;
        ghost var suite1 := suiteContents;
        var verdict;
        ghost var run;
        verdict, found, clean, run :=
          CheckFrom(p, mustsCopy, neverTmp + never, choicesTmp + choices, clean0, full, start, arch, region, m);
        if verdict {
          outcome := Outcome.Solved;
          record := record.(effect := Succeeded(run), after := Learnt(before, End(run)));
        } else {
          never := never + {p};
          clean := clean0;
          outcome := Outcome.GivenUp;
          record := record.(effect := Effect.GivenUp(run), after := Learnt(before, End(run)).(never := never));
          NothingTracked(universe, clean0, record);
          OptionRejected(full, start, region, musts, never0, choices + {choice}, clean0, suite1, never);
        }
      }
    }

    static function OutcomeOf(effect: Effect): Outcome {
      match effect
      case Rejected => NoGo
      case Shortcut => Outcome.Committed
      case GivenUp(_) => Outcome.GivenUp
      case Succeeded(_) => Outcome.Solved
    }

    lemma NoGoExcluded(full: set<PackageId>, start: set<PackageId>, arch: string, region: set<PackageId>, m: set<PackageId>,
                       musts: set<PackageId>, never: set<PackageId>, choices: set<set<PackageId>>, p: PackageId,
                       suite: set<PackageId>, musts': set<PackageId>, never2: set<PackageId>, choices2: set<set<PackageId>>)
      requires Searching(full, start) && RegionClosed(universe, arch, region) && suiteContents <= suite
      requires musts <= full && ConflictsRecorded(universe, suite, musts, never)
      requires Supports(universe, full, arch, region, m, {}, musts, never, choices)
      requires p in m && p in region
      requires musts' - (musts + {p}) <= m && musts' - (musts + {p}) <= start * region
      requires Examined(universe, suiteContents, {p} + (musts' - (musts + {p})), {}, musts', never2, choices2)
      ensures musts !! never2
    {
      var done := {p} + (musts' - (musts + {p}));
      assert ConflictsRecorded(universe, suiteContents, musts, never);
      NoGoAvoided(universe, full, suiteContents, cacheBroken, arch, region, m, musts, never, choices,
                  done, musts', never2, choices2);
    }

    lemma OptionJoined(full: set<PackageId>, start: set<PackageId>, region: set<PackageId>,
                       musts: set<PackageId>, never: set<PackageId>, choices: set<set<PackageId>>, choice: set<PackageId>,
                       p: PackageId, clean: bool, suite: set<PackageId>,
                       musts': set<PackageId>, never2: set<PackageId>, choices2: set<set<PackageId>>)
      requires Searching(full, start) && suiteContents <= suite
      requires Position(universe, suite, full, start, region, musts, {}, never, choices + {choice}, clean)
      requires p in choice
      requires musts + {p} <= musts' && musts' - (musts + {p}) <= start * region
      requires ChoicesWithin(choices2, start * region)
      requires Examined(universe, suiteContents, {p} + (musts' - (musts + {p})), {}, musts', never2, choices2)
      ensures never2 <= never && choices2 <= choices ==>
        Position(universe, suiteContents, full, start, region, musts', {}, never, choices, clean && musts !! never2)
      ensures musts !! never2 ==>
        Position(universe, suiteContents, full, start, region, musts', {p}, never2 + never, choices2 + choices, clean)
      ensures musts' <= full && p in region
    {
      var both := choices + choices2;
      PositionJoined(universe, suite, full, start, region, musts, never, choices, choice, p, clean,
                     suiteContents, musts', never2, choices2);
      assert choice in choices + {choice};
      if never2 <= never && choices2 <= choices {
        assert never + never2 == never && both == choices;
      }
      if musts !! never2 {
        assert never + never2 == never2 + never && both == choices2 + choices;
        SubsetCarried(both, musts', both);
        PositionCarried(universe, suiteContents, full, start, region, musts', {}, never + never2, both, clean,
                        suiteContents, musts', {p}, never + never2, both);
      }
    }

    lemma OptionRejected(full: set<PackageId>, start: set<PackageId>, region: set<PackageId>,
                         musts: set<PackageId>, never: set<PackageId>, choices: set<set<PackageId>>, clean: bool,
                         suite: set<PackageId>, never': set<PackageId>)
      requires suiteContents <= suite && never <= never'
      requires Position(universe, suite, full, start, region, musts, {}, never, choices, clean)
      ensures Position(universe, suiteContents, full, start, region, musts, {}, never', choices, clean)
    {
      SubsetCarried(choices, musts, choices);
      PositionCarried(universe, suite, full, start, region, musts, {}, never, choices, clean,
                      suiteContents, musts, {}, never', choices);
    }

    lemma CheckedFrom(full: set<PackageId>, region: set<PackageId>, musts: set<PackageId>, check: set<PackageId>,
                      choices: set<set<PackageId>>)
      requires musts <= full && check <= musts * region && ChoicesWithin(choices, region * full)
      ensures musts + check <= full && check <= region && check <= musts && {} !in choices
    {
    }

    /** The options of a choice but the last, one after the other, until one settles the choice or the
        question. */
    method TryOptions(choice: set<PackageId>, last: PackageId, musts1: set<PackageId>, never1: set<PackageId>,
                      choices: set<set<PackageId>>, ghost clean1: bool, ghost base: set<PackageId>,
                      ghost full: set<PackageId>, ghost start: set<PackageId>,
                      ghost arch: string, ghost region: set<PackageId>, ghost m: set<PackageId>)
      returns (outcome: Outcome, musts: set<PackageId>, never: set<PackageId>, ghost found: set<PackageId>, ghost clean: bool,
               ghost tries: seq<Try>)
      requires Searching(full, start) && RegionClosed(universe, arch, region)
      requires Position(universe, suiteContents, full, start, region, musts1, {}, never1, choices + {choice}, clean1)
      requires last in choice && musts1 != {}
      requires base <= musts1 && (musts1 == base ==> choice !! base)
      modifies this`suiteContents, this`cacheBroken, this`cacheInst
      ensures Searching(full, start) && suiteContents <= old(suiteContents) && !outcome.GivenUp?
      ensures TriesOk(universe, tries, old(Here(musts1, never1, choices, [])), choice - {last})
      ensures (outcome.Solved? <==> Answering(tries)) && (outcome.Committed? <==> TookShortcut(tries))
      ensures Tracked(universe, clean1, ShortcutsOfTries(tries), clean)
      ensures var after := AfterTries(tries, old(Here(musts1, never1, choices, [])));
        if outcome.Solved? then after.suite == suiteContents && after.broken == cacheBroken
        else after == Here(musts, never, choices, [])
      ensures outcome.Solved? ==>
        && found == FoundIn(tries) && musts1 <= found && Answered(universe, suiteContents, found, clean)
        && cacheInst == old(cacheInst) + found
      ensures !outcome.Solved? ==> cacheInst == old(cacheInst) && musts1 <= musts
      ensures outcome.Committed? ==>
        && Position(universe, suiteContents, full, start, region, musts, {}, never, choices, clean)
        && (Supports(universe, full, arch, region, m, {}, musts1, never1, choices + {choice}) ==>
              Supports(universe, full, arch, region, m, {}, musts, never, choices))
      ensures outcome.NoGo? ==>
        && musts == musts1 && OptionsOf(tries) == choice - {last} && clean == clean1
        && Position(universe, suiteContents, full, start, region, musts, {}, never, choices + {choice}, clean)
        && (Supports(universe, full, arch, region, m, {}, musts1, never1, choices + {choice}) ==>
              Supports(universe, full, arch, region, m, {}, musts, never, choices + {choice}) && choice * m <= {last})
      decreases universe.relations.Keys - base, 0
    {
      musts, never, found, clean, tries := musts1, never1, {}, clean1, [];
      outcome := NoGo;
      ghost var before := Here(musts1, never1, choices, []);
      var rest := choice - {last};
      while rest != {}
        invariant Searching(full, start) && suiteContents <= old(suiteContents)
        invariant cacheInst == old(cacheInst) && musts == musts1 && clean == clean1 && rest <= choice - {last}
        invariant TriedSoFar(universe, before, choice - {last}, rest, tries, Here(musts, never, choices, []))
        invariant ShortcutsOfTries(tries) == [] && outcome == NoGo
        invariant Position(universe, suiteContents, full, start, region, musts, {}, never, choices + {choice}, clean)
        invariant Supports(universe, full, arch, region, m, {}, musts1, never1, choices + {choice}) ==>
          Supports(universe, full, arch, region, m, {}, musts, never, choices + {choice}) && choice * m <= rest + {last}
      {
        var p :| p in rest;
        OptionShrinks(universe.relations.Keys, full, base, musts, choice, p);
        ghost var never2, spot := never, Here(musts, never, choices, []);
        ghost var t;
        outcome, musts, never, found, clean, t :=
          TryOption(p, musts, never, choices, choice, clean, full, start, arch, region, m);
        OneMoreTry(universe, before, choice - {last}, rest, tries, spot, t);
        tries := tries + [t];
        rest := rest - {p};
        if outcome.Solved? || outcome.Committed? {
          return;
        }
        outcome := NoGo;
        if Supports(universe, full, arch, region, m, {}, musts1, never1, choices + {choice}) {
          NeverGrows(universe, full, arch, region, m, musts1, never2, choices + {choice}, p, never);
        }
      }
    }

    /** Take up one choice: settle it by an option, answer the question, or go for the last option. */
    method TakeUp(choice: set<PackageId>, musts1: set<PackageId>, never1: set<PackageId>, choices1: set<set<PackageId>>,
                  ghost clean1: bool, ghost base: set<PackageId>, ghost full: set<PackageId>, ghost start: set<PackageId>,
                  ghost arch: string, ghost region: set<PackageId>, ghost m: set<PackageId>)
      returns (outcome: Outcome, check: seq<PackageId>, musts: set<PackageId>, never: set<PackageId>, choices: set<set<PackageId>>,
               ghost found: set<PackageId>, ghost clean: bool, ghost pick: Pick)
      requires Searching(full, start) && RegionClosed(universe, arch, region)
      requires Position(universe, suiteContents, full, start, region, musts1, {}, never1, choices1, clean1)
      requires choice in choices1 && musts1 != {}
      requires base <= musts1 && (musts1 == base ==> choice !! base)
      modifies this`suiteContents, this`cacheBroken, this`cacheInst
      ensures Searching(full, start) && suiteContents <= old(suiteContents) && !outcome.GivenUp?
      ensures PickOk(universe, pick) && pick.before == old(Here(musts1, never1, choices1, []))
      ensures (outcome.Solved? <==> Answering(pick.tries)) && (outcome.Committed? <==> TookShortcut(pick.tries))
      ensures Tracked(universe, clean1, ShortcutsOfTries(pick.tries), clean)
      ensures if outcome.Solved? then pick.after.suite == suiteContents && pick.after.broken == cacheBroken
              else pick.after == Here(musts, never, choices, check)
      ensures outcome.Solved? ==>
        && found == FoundIn(pick.tries) && musts1 <= found && Answered(universe, suiteContents, found, clean)
        && cacheInst == old(cacheInst) + found
      ensures !outcome.Solved? ==> cacheInst == old(cacheInst) && musts1 <= musts && choices == choices1 - {choice}
      ensures !outcome.Solved? ==>
        Position(universe, suiteContents, full, start, region, musts, CheckSet(check), never, choices, clean)
      ensures !outcome.Solved? && Supports(universe, full, arch, region, m, {}, musts1, never1, choices1) ==>
        Supports(universe, full, arch, region, m, CheckSet(check), musts, never, choices)
      ensures outcome.Committed? ==> check == []
      ensures outcome.NoGo? ==> check != [] && musts != base && CheckSet(check) <= musts * region
      decreases universe.relations.Keys - base, 1
    {
      choices := choices1 - {choice};
      assert choices + {choice} == choices1;
      assert choice != {} && choice <= region * full;
      var last :| last in choice;
      ghost var tries;
      outcome, musts, never, found, clean, tries :=
        TryOptions(choice, last, musts1, never1, choices, clean1, base, full, start, arch, region, m);
      check := [];
      assert CheckSet(check) == {};
      ghost var before := old(Here(musts1, never1, choices1, []));
      pick := Pick(before, choice, last, tries, AfterTries(tries, before.(choices := choices)));
      if outcome.NoGo? {
        PositionLast(universe, suiteContents, full, start, region, musts, never, choices, choice, last, clean);
        if Supports(universe, full, arch, region, m, {}, musts1, never1, choices1) {
          LastOption(universe, full, arch, region, m, musts, never, choices, choice, last);
        }
        check := [last];
        assert CheckSet(check) == {last};
        musts := musts + {last};
        pick := pick.(after := Here(musts, never, choices, check));
      }
    }

    /** Take up the next choice and put it on record. */
    method NextChoice(choice: set<PackageId>, musts1: set<PackageId>, never1: set<PackageId>, choices1: set<set<PackageId>>,
                      ghost clean1: bool, ghost base: set<PackageId>, ghost full: set<PackageId>, ghost start: set<PackageId>,
                      ghost arch: string, ghost region: set<PackageId>, ghost m: set<PackageId>,
                      ghost before: Spot, ghost picks1: seq<Pick>, ghost clean0: bool)
      returns (outcome: Outcome, check: seq<PackageId>, musts: set<PackageId>, never: set<PackageId>, choices: set<set<PackageId>>,
               ghost found: set<PackageId>, ghost clean: bool, ghost picks: seq<Pick>)
      requires Searching(full, start) && RegionClosed(universe, arch, region)
      requires Position(universe, suiteContents, full, start, region, musts1, {}, never1, choices1, clean1)
      requires choice in choices1 && musts1 != {}
      requires base <= musts1 && (musts1 == base ==> choice !! base)
      requires before.check == [] && before.choices != {}
      requires PickedSoFar(universe, before, picks1, Here(musts1, never1, choices1, []), clean0, clean1)
      modifies this`suiteContents, this`cacheBroken, this`cacheInst
      ensures Searching(full, start) && suiteContents <= old(suiteContents) && !outcome.GivenUp?
      ensures picks != [] && Tracked(universe, clean0, ShortcutsOfPicks(picks), clean)
      ensures outcome.Committed? ==>
        check == [] && PickedSoFar(universe, before, picks, Here(musts, never, choices, []), clean0, clean)
      ensures !outcome.Committed? ==> Chose(true, outcome.Solved?, before, picks, Here(musts, never, choices, check))
      ensures outcome.Solved? ==>
        && found == FoundIn(picks[|picks| - 1].tries) && musts1 <= found && Answered(universe, suiteContents, found, clean)
        && cacheInst == old(cacheInst) + found
      ensures !outcome.Solved? ==> cacheInst == old(cacheInst) && musts1 <= musts && choices == choices1 - {choice}
      ensures !outcome.Solved? ==>
        Position(universe, suiteContents, full, start, region, musts, CheckSet(check), never, choices, clean)
      ensures !outcome.Solved? && Supports(universe, full, arch, region, m, {}, musts1, never1, choices1) ==>
        Supports(universe, full, arch, region, m, CheckSet(check), musts, never, choices)
      ensures outcome.NoGo? ==> check != [] && musts != base && CheckSet(check) <= musts * region
      decreases universe.relations.Keys - base, 2
    {
      ghost var pick;
      outcome, check, musts, never, choices, found, clean, pick :=
        TakeUp(choice, musts1, never1, choices1, clean1, base, full, start, arch, region, m);
      OneMorePick(universe, before, picks1, old(Here(musts1, never1, choices1, [])), clean0, clean1, pick, clean);
      picks := picks1 + [pick];
    }

    /** Guess: go through the choices, committing to options without consequences, backtracking over
        the others, and leaving the last option of a choice untested. */
    method ResolveChoices(musts0: set<PackageId>, never0: set<PackageId>, choices0: set<set<PackageId>>,
                          ghost clean0: bool, ghost full: set<PackageId>, ghost start: set<PackageId>,
                          ghost arch: string, ghost region: set<PackageId>, ghost m: set<PackageId>)
      returns (solved: bool, check: seq<PackageId>, musts: set<PackageId>, never: set<PackageId>,
               choices: set<set<PackageId>>, ghost found: set<PackageId>, ghost clean: bool, ghost picks: seq<Pick>)
      requires Searching(full, start) && RegionClosed(universe, arch, region)
      requires Position(universe, suiteContents, full, start, region, musts0, {}, never0, choices0, clean0)
      requires musts0 != {} && choices0 != {}
      requires forall choice :: choice in choices0 ==> choice !! musts0
      modifies this`suiteContents, this`cacheBroken, this`cacheInst
      ensures Searching(full, start) && suiteContents <= old(suiteContents)
      ensures Chose(true, solved, old(Here(musts0, never0, choices0, [])), picks, Here(musts, never, choices, check))
      ensures Tracked(universe, clean0, ShortcutsOfPicks(picks), clean)
      ensures solved ==>
        && picks != [] && found == FoundIn(picks[|picks| - 1].tries) && musts0 <= found && Answered(universe, suiteContents, found, clean)
        && cacheInst == old(cacheInst) + found
      ensures !solved ==> cacheInst == old(cacheInst)
      ensures !solved ==> musts0 <= musts && Position(universe, suiteContents, full, start, region, musts, CheckSet(check), never, choices, clean)
      ensures !solved ==> check == [] ==> choices == {}
      ensures !solved && check != [] ==> musts != musts0 && CheckSet(check) <= musts * region
      ensures !solved && Supports(universe, full, arch, region, m, {}, musts0, never0, choices0) ==>
        Supports(universe, full, arch, region, m, CheckSet(check), musts, never, choices)
      decreases universe.relations.Keys - musts0, 3
    {
      check, musts, never, choices, found, clean, picks := [], musts0, never0, choices0, {}, clean0, [];
      ghost var before := Here(musts0, never0, choices0, []);
      solved := false;
      while choices != {}
        invariant Searching(full, start) && suiteContents <= old(suiteContents)
        invariant cacheInst == old(cacheInst)
        invariant musts0 <= musts && choices <= choices0 && check == []
        invariant PickedSoFar(universe, before, picks, Here(musts, never, choices, []), clean0, clean)
        invariant choices == choices0 || picks != []
        invariant Position(universe, suiteContents, full, start, region, musts, {}, never, choices, clean)
        invariant Supports(universe, full, arch, region, m, {}, musts0, never0, choices0) ==>
          Supports(universe, full, arch, region, m, {}, musts, never, choices)
      {
        var choice :| choice in choices;
        var outcome;
        outcome, check, musts, never, choices, found, clean, picks :=
          NextChoice(choice, musts, never, choices, clean, musts0, full, start, arch, region, m, before, picks, clean0);
        if outcome.Solved? {
          solved := true;
          return;
        }
        if outcome.NoGo? {
          return;
        }
        assert CheckSet(check) == {};
      }
      assert CheckSet(check) == {};
    }

    /** One round of choosing, once nothing is left to examine: prune the choices and, if that forces
        nothing, guess. */
    method Choose(musts0: set<PackageId>, never0: set<PackageId>, choices0: set<set<PackageId>>,
                  ghost clean0: bool, ghost full: set<PackageId>, ghost start: set<PackageId>,
                  ghost arch: string, ghost region: set<PackageId>, ghost m: set<PackageId>)
      returns (ok: bool, solved: bool, check: seq<PackageId>, musts: set<PackageId>, never: set<PackageId>,
               choices: set<set<PackageId>>, ghost found: set<PackageId>, ghost clean: bool,
               ghost pruned: Spot, ghost picks: seq<Pick>)
      requires Searching(full, start) && RegionClosed(universe, arch, region)
      requires Position(universe, suiteContents, full, start, region, musts0, {}, never0, choices0, clean0)
      requires musts0 != {}
      modifies this`suiteContents, this`cacheBroken, this`cacheInst
      ensures Searching(full, start) && suiteContents <= old(suiteContents)
      ensures ChoicesMove(old(Here(musts0, never0, choices0, [])), pruned, ok)
      ensures Chose(ok, solved, pruned, picks, Here(musts, never, choices, check))
      ensures Tracked(universe, clean0, ShortcutsOfPicks(picks), clean)
      ensures solved ==> ok && musts0 <= found && Answered(universe, suiteContents, found, clean)
      ensures solved ==> picks != [] && found == FoundIn(picks[|picks| - 1].tries) && cacheInst == old(cacheInst) + found
      ensures !solved ==> cacheInst == old(cacheInst)
      ensures ok && !solved ==> musts0 <= musts
      ensures ok && !solved ==>
        Position(universe, suiteContents, full, start, region, musts, CheckSet(check), never, choices, clean)
      ensures ok && !solved ==> check == [] ==> choices == {}
      ensures ok && !solved && check != [] ==> musts != musts0 && CheckSet(check) <= musts * region
      ensures !solved && Supports(universe, full, arch, region, m, {}, musts0, never0, choices0) ==>
        ok && Supports(universe, full, arch, region, m, CheckSet(check), musts, never, choices)
      decreases universe.relations.Keys - musts0, 4
    {
      never, choices, found, clean, solved, picks := never0, choices0, {}, clean0, false, [];
      ok, musts, check, choices := PruneChoices(musts0, never, choices0, full, start, arch, region, m);
      pruned := Here(musts, never, choices, check);
      if !ok {
        return;
      }
      PositionPruned(universe, suiteContents, full, start, region, musts0, never, choices0, clean, musts, choices);
      assert musts - musts0 <= region;
      PrunedProgress(check, musts0, musts, region);
      if check == [] && choices != {} {
        solved, check, musts, never, choices, found, clean, picks :=
          ResolveChoices(musts, never, choices, clean, full, start, arch, region, m);
      }
    }

    /** The choices that were taken up after pruning led to `after`; if they answered the question, only
        what was learnt about the suite counts. */
    ghost predicate Chose(ok: bool, solved: bool, pruned: Spot, picks: seq<Pick>, after: Spot) {
      if !ok then !solved && picks == [] && after == pruned
      else if pruned.check != [] || pruned.choices == {} then !solved && picks == [] && after == pruned
      else
        && picks != [] && PicksOk(universe, picks, pruned)
        && (solved <==> Answering(picks[|picks| - 1].tries))
        && (!solved && TookShortcut(picks[|picks| - 1].tries) ==> after.choices == {})
        && var end := picks[|picks| - 1].after;
           if solved then end.suite == after.suite && end.broken == after.broken else end == after
    }

    /** One pass of the search: examine what is to be examined, then choose. */
    method Pass(musts1: set<PackageId>, never1: set<PackageId>, choices1: set<set<PackageId>>, check1: seq<PackageId>,
                ghost clean1: bool, ghost full: set<PackageId>, ghost start: set<PackageId>,
                ghost arch: string, ghost region: set<PackageId>, ghost m: set<PackageId>)
      returns (finished: bool, verdict: bool, musts: set<PackageId>, never: set<PackageId>, choices: set<set<PackageId>>,
               check: seq<PackageId>, ghost found: set<PackageId>, ghost clean: bool, ghost round: Round, ghost ending: Ending)
      requires Searching(full, start) && RegionClosed(universe, arch, region)
      requires Position(universe, suiteContents, full, start, region, musts1, CheckSet(check1), never1, choices1, clean1)
      requires check1 != [] && musts1 != {} && CheckSet(check1) <= musts1 * region
      modifies this`suiteContents, this`cacheBroken, this`cacheInst
      ensures Searching(full, start) && suiteContents <= old(suiteContents)
      ensures finished ==> EndingOk(universe, old(Here(musts1, never1, choices1, check1)), ending) && !ending.Settled?
      ensures finished ==> (verdict <==> ending.Solved?)
      ensures !finished ==> verdict
      ensures finished ==> EndSpot(ending).suite == suiteContents && EndSpot(ending).broken == cacheBroken
      ensures finished && verdict ==>
        && musts1 <= found && ending.picks != [] && found == FoundIn(ending.picks[|ending.picks| - 1].tries)
        && cacheInst == old(cacheInst) + found
        && Answered(universe, suiteContents, found, clean)
      ensures finished ==> Tracked(universe, clean1, ShortcutsOfEnding(ending), clean)
      ensures !finished || !verdict ==> cacheInst == old(cacheInst)
      ensures !finished ==> RoundOk(universe, round) && round.before == old(Here(musts1, never1, choices1, check1))
      ensures !finished ==> round.after == Here(musts, never, choices, check)
      ensures !finished ==> Tracked(universe, clean1, ShortcutsOfPicks(round.picks), clean)
      ensures !finished ==>
        && musts1 <= musts && (check != [] ==> musts != musts1) && CheckSet(check) <= musts * region
        && Position(universe, suiteContents, full, start, region, musts, CheckSet(check), never, choices, clean)
        && (check == [] ==> choices == {})
      ensures Supports(universe, full, arch, region, m, CheckSet(check1), musts1, never1, choices1) ==>
        if finished then verdict else Supports(universe, full, arch, region, m, CheckSet(check), musts, never, choices)
      decreases universe.relations.Keys - musts1, 5
    {
      ghost var suite1 := suiteContents;
      clean, found, finished, verdict := clean1, {}, false, true;
      ghost var before := Here(musts1, never1, choices1, check1);
      CheckedFrom(full, region, musts1, CheckSet(check1), choices1);
      var ok;
      ok, musts, never, choices, check := CheckLoop(musts1, never1, choices1, check1, full, start, arch, region);
      ghost var looped := Here(musts, never, choices, check);
      if !ok {
        finished, verdict := true, false;
        ending := Blocked(looped);
        round := *;
        return;
      }
      PositionExamined(universe, suite1, full, start, region, musts1, CheckSet(check1), never1, choices1, clean,
                       suiteContents, musts, never, choices);
      assert CheckSet(check) == {};
      ghost var pruned, picks := looped, [];
      if choices != {} {
        var solved;
        ok, solved, check, musts, never, choices, found, clean, pruned, picks :=
          Choose(musts, never, choices, clean, full, start, arch, region, m);
        if !ok || solved {
          finished, verdict := true, ok;
          ending := if ok then Ending.Solved(looped, pruned, picks) else Unprunable(looped, pruned);
          round := *;
          return;
        }
        assert check == [] ==> CheckSet(check) == {};
      }
      round := Round(before, looped, pruned, picks, Here(musts, never, choices, check));
      ending := *;
    }

    static function EndSpot(ending: Ending): Spot
      requires !ending.Settled?
    {
      match ending
      case Blocked(looped) => looped
      case Unprunable(looped, pruned) => pruned
      case Solved(looped, pruned, picks) => AfterPicks(picks, pruned)
    }

    /** Search on from `musts`, of which only `t` is still to be examined.  `run` is what that did: a
        positive verdict rests on an install set exactly when no shortcut of `run` was taken past a
        conflict. */
    method CheckFrom(t: PackageId, musts0: set<PackageId>, never0: set<PackageId>, choices0: set<set<PackageId>>,
                     ghost clean0: bool, ghost full: set<PackageId>, ghost start: set<PackageId>,
                     ghost arch: string, ghost region: set<PackageId>, ghost m: set<PackageId>)
      returns (verdict: bool, ghost found: set<PackageId>, ghost clean: bool, ghost run: Run)
      requires Searching(full, start) && RegionClosed(universe, arch, region)
      requires Position(universe, suiteContents, full, start, region, musts0, {t}, never0, choices0, clean0)
      requires t in musts0 && t in region
      modifies this`suiteContents, this`cacheBroken, this`cacheInst
      ensures Searching(full, start) && suiteContents <= old(suiteContents)
      ensures RunOk(universe, run) && run.start == old(Here(musts0, never0, choices0, [t])) && verdict == Verdict(run)
      ensures End(run).suite == suiteContents && End(run).broken == cacheBroken
      ensures verdict ==> musts0 <= found && found == Found(run) && cacheInst == old(cacheInst) + found
      ensures verdict ==> Answered(universe, suiteContents, found, clean)
      ensures Tracked(universe, clean0, Shortcuts(run), clean)
      ensures !verdict ==> cacheInst == old(cacheInst)
      ensures Supports(universe, full, arch, region, m, {t}, musts0, never0, choices0) ==> verdict
      decreases universe.relations.Keys - musts0, 6
    {
      var musts, never, choices := musts0, never0, choices0;
      var check := [t];
      assert CheckSet(check) == {t};
      clean, found, verdict := clean0, {}, true;
      ghost var before, rounds: seq<Round> := Here(musts0, never0, choices0, [t]), [];
      while check != []
        invariant Searching(full, start) && suiteContents <= old(suiteContents)
        invariant cacheInst == old(cacheInst) && verdict
        invariant musts0 <= musts && CheckSet(check) <= musts * region
        invariant PassedSoFar(universe, before, rounds, Here(musts, never, choices, check), clean0, clean)
        invariant Position(universe, suiteContents, full, start, region, musts, CheckSet(check), never, choices, clean)
        invariant check == [] ==> choices == {}
        invariant Supports(universe, full, arch, region, m, {t}, musts0, never0, choices0) ==>
          Supports(universe, full, arch, region, m, CheckSet(check), musts, never, choices)
        decreases universe.relations.Keys - musts, |check|
      {
        ghost var musts1, spot, clean1 := musts, Here(musts, never, choices, check), clean;
        Shrinks(universe.relations.Keys, musts0, musts);
        var finished;
        ghost var round, ending;
        finished, verdict, musts, never, choices, check, found, clean, round, ending :=
          Pass(musts, never, choices, check, clean, full, start, arch, region, m);
        if finished {
          LastPass(universe, before, rounds, spot, clean0, clean1, ending, clean);
          run := Run(before, rounds, ending);
          return;
        }
        OneMorePass(universe, before, rounds, spot, clean0, clean1, round, clean);
        rounds := rounds + [round];
        Shrinks(universe.relations.Keys, musts1, musts);
      }
      assert CheckSet(check) == {};
      PositionFinal(universe, suiteContents, full, start, region, musts, never, clean);
      run := Run(before, rounds, Settled);
      LastPass(universe, before, rounds, Here(musts, never, choices, []), clean0, clean, Settled, clean);
      found := musts;
      cacheInst := cacheInst + musts;
    }

    /** Take options of choices that have no consequences; the other choices stay. */
    method BreakChoices(start: set<PackageId>, never: set<PackageId>, choices0: set<set<PackageId>>, check0: seq<PackageId>,
                        ghost full: set<PackageId>, ghost arch: string, ghost region: set<PackageId>)
      returns (choices: set<set<PackageId>>, check: seq<PackageId>)
      requires WellFormed(universe) && ChoicesWithin(choices0, full * region) && CheckSet(check0) <= full * region
      requires EssentialPosition(full, arch, region, CheckSet(check0), start, never, choices0)
      ensures choices <= choices0 && CheckSet(check) <= full * region
      ensures |check| + |choices| <= |check0| + |choices0| && |choices| <= |choices0|
      ensures UnmetCount(universe, check, start) == UnmetCount(universe, check0, start)
      ensures EssentialPosition(full, arch, region, CheckSet(check), start, never, choices)
    {
      check, choices := check0, {};
      var todo := choices0;
      while todo != {}
        invariant choices + todo <= choices0 && choices !! todo && CheckSet(check) <= full * region
        invariant |check| + |choices| + |todo| <= |check0| + |choices0|
        invariant UnmetCount(universe, check, start) == UnmetCount(universe, check0, start)
        invariant EssentialPosition(full, arch, region, CheckSet(check), start, never, choices + todo)
      {
        var choice :| choice in todo;
        ghost var before := choices;
        TakeChoice(choices, todo, choice);
        choices, check := BreakOne(start, never, choices, check, choice, todo - {choice}, full, arch, region);
        ChoiceTaken(choices0, before, todo, choice, choices);
        todo := todo - {choice};
      }
      assert choices + {} == choices;
      CardinalityMonotone(choices, choices0);
    }

    method BreakOne(start: set<PackageId>, never: set<PackageId>, choices0: set<set<PackageId>>, check0: seq<PackageId>,
                    choice: set<PackageId>, ghost todo: set<set<PackageId>>,
                    ghost full: set<PackageId>, ghost arch: string, ghost region: set<PackageId>)
      returns (choices: set<set<PackageId>>, check: seq<PackageId>)
      requires WellFormed(universe) && CheckSet(check0) <= full * region && choice <= full * region
      requires choice !in choices0 && choice !in todo && choices0 !! todo
      requires EssentialPosition(full, arch, region, CheckSet(check0), start, never, choices0 + (todo + {choice}))
      ensures choices == choices0 || choices == choices0 + {choice}
      ensures |check| + |choices| <= |check0| + |choices0| + 1 && CheckSet(check) <= full * region
      ensures UnmetCount(universe, check, start) == UnmetCount(universe, check0, start)
      ensures EssentialPosition(full, arch, region, CheckSet(check), start, never, choices + todo)
    {
      check, choices := check0, choices0;
      ghost var left, kept := choices + (todo + {choice}), choices + todo;
      if choice !! start {
        var options := set c | c in choice && universe.NegativeDependenciesOf(c) <= never && Satisfied(universe, c, start);
        if options != {} {
          var c :| c in options;
          BreakChoice(full, arch, region, check, start, never, left, kept, c);
          check := check + [c];
        } else {
          assert choices + {choice} + todo == left;
          choices := choices + {choice};
        }
      } else {
        EssentialFewer(full, arch, region, CheckSet(check), start, never, left, kept);
      }
    }

    /** Every model of the essential packages is supported by the position reached so far. */
    ghost predicate EssentialPosition(full: set<PackageId>, arch: string, region: set<PackageId>, check: set<PackageId>,
                                      start: set<PackageId>, never: set<PackageId>, choices: set<set<PackageId>>)
    {
      forall m :: Model(universe, full, arch, region, m) ==>
        && Supports(universe, full, arch, region, m, check, start, never, choices)
        && start <= m
        && (forall p :: p in never ==> ConflictsWith(universe, p, m * region))
    }

    lemma BreakChoice(full: set<PackageId>, arch: string, region: set<PackageId>, check: seq<PackageId>,
                      start: set<PackageId>, never: set<PackageId>, left: set<set<PackageId>>, kept: set<set<PackageId>>,
                      c: PackageId)
      requires WellFormed(universe) && EssentialPosition(full, arch, region, CheckSet(check), start, never, left)
      requires universe.NegativeDependenciesOf(c) <= never && Satisfied(universe, c, start) && kept <= left
      ensures CheckSet(check + [c]) == CheckSet(check) + {c}
      ensures EssentialPosition(full, arch, region, CheckSet(check + [c]), start, never, kept)
      ensures UnmetCount(universe, check + [c], start) == UnmetCount(universe, check, start)
    {
      IdleOption(full, arch, region, CheckSet(check), start, never, left, c);
      EssentialFewer(full, arch, region, CheckSet(check) + {c}, start, never, left, kept);
      PushCheck(check, c, {}, {});
      assert (check + [c])[..|check|] == check;
    }

    lemma EssentialLooped(full: set<PackageId>, arch: string, region: set<PackageId>, ok: bool, suite: set<PackageId>,
                          check: set<PackageId>, start: set<PackageId>, never: set<PackageId>, choices: set<set<PackageId>>,
                          check': set<PackageId>, start': set<PackageId>, never': set<PackageId>, choices': set<set<PackageId>>)
      requires EssentialPosition(full, arch, region, check, start, never, choices)
      requires check <= region && start <= start' && start' - start <= region
      requires !ok ==> Unsupported(universe, full, arch, region, check, start, never, choices)
      requires ok ==> check' == {}
      requires ok ==> Keeps(universe, full, arch, region, check, start, never, choices, {}, start', never', choices')
      requires ok ==> Examined(universe, suite, check + (start' - start), never, start', never', choices')
      ensures EssentialPosition(full, arch, region, check', start', never', choices')
    {
      forall m | Model(universe, full, arch, region, m)
        ensures Supports(universe, full, arch, region, m, check', start', never', choices')
        ensures start' <= m
        ensures forall p :: p in never' ==> ConflictsWith(universe, p, m * region)
      {
        assert Supports(universe, full, arch, region, m, check, start, never, choices);
        assert ok;
        assert start' == start + (start' - start);
        forall p | p in never'
          ensures ConflictsWith(universe, p, m * region)
        {
          if p !in never {
            assert ConflictsWith(universe, p, check + (start' - start));
            var q :| q in check + (start' - start) && p in universe.NegativeDependenciesOf(q);
            assert q in m * region;
          }
        }
      }
    }

    lemma EssentialFollows(full: set<PackageId>, arch: string, region: set<PackageId>, check: set<PackageId>,
                           start: set<PackageId>, never: set<PackageId>, choices: set<set<PackageId>>)
      requires EssentialPosition(full, arch, region, check, start, never, choices) && start <= region
      ensures
        var never' := never + (set x, n | x in start && n in universe.NegativeDependenciesOf(x) :: n);
        forall m :: Model(universe, full, arch, region, m) ==> Follows(universe, region, PseudoEssential(start, never', choices), m)
    {
      var never' := never + (set x, n | x in start && n in universe.NegativeDependenciesOf(x) :: n);
      forall m | Model(universe, full, arch, region, m)
        ensures Follows(universe, region, PseudoEssential(start, never', choices), m)
      {
        assert Supports(universe, full, arch, region, m, check, start, never, choices);
        forall p | p in never'
          ensures ConflictsWith(universe, p, m * region)
        {
          if p !in never {
            var x :| x in start && p in universe.NegativeDependenciesOf(x);
            assert x in m * region;
          }
        }
      }
    }

    lemma EssentialFewer(full: set<PackageId>, arch: string, region: set<PackageId>, check: set<PackageId>,
                         start: set<PackageId>, never: set<PackageId>, choices: set<set<PackageId>>, choices': set<set<PackageId>>)
      requires EssentialPosition(full, arch, region, check, start, never, choices) && choices' <= choices
      ensures EssentialPosition(full, arch, region, check, start, never, choices')
    {
      forall m | Model(universe, full, arch, region, m)
        ensures Supports(universe, full, arch, region, m, check, start, never, choices')
      {
        assert Supports(universe, full, arch, region, m, check, start, never, choices);
      }
    }

    lemma IdleOption(full: set<PackageId>, arch: string, region: set<PackageId>, check: set<PackageId>,
                     start: set<PackageId>, never: set<PackageId>, choices: set<set<PackageId>>, c: PackageId)
      requires WellFormed(universe) && EssentialPosition(full, arch, region, check, start, never, choices)
      requires universe.NegativeDependenciesOf(c) <= never && Satisfied(universe, c, start)
      ensures EssentialPosition(full, arch, region, check + {c}, start, never, choices)
    {
      forall m | Model(universe, full, arch, region, m)
        ensures Supports(universe, full, arch, region, m, check + {c}, start, never, choices)
      {
        assert Supports(universe, full, arch, region, m, check, start, never, choices);
        assert !Hits({}, start);
        assert forall q :: q in m && c in universe.NegativeDependenciesOf(q) && universe.Knows(c) ==>
          q in universe.NegativeDependenciesOf(c);
        assert universe.NegativeDependenciesOf(c) != {} ==> !ConflictsWith(universe, c, m * region);
      }
    }

    /** The essential packages of an architecture and what always follows from them; cached. */
    method GetMinPseudoEssential(arch: string, ghost full: set<PackageId>, ghost start0: set<PackageId>)
      returns (e: PseudoEssential)
      requires Searching(full, start0) && EssentialClosure(universe, essentialClosure) && EssentialCacheSound(universe, essentialClosure, full, cacheEss)
      modifies this`suiteContents, this`cacheBroken, this`cacheEss
      ensures Searching(full, start0) && EssentialCacheSound(universe, essentialClosure, full, cacheEss) && suiteContents <= old(suiteContents)
      ensures PseudoEssentialSound(universe, full, arch, RegionOf(essentialClosure, arch), e)
      ensures universe.essential == {} ==> suiteContents == old(suiteContents)
    {
      if arch in cacheEss {
        e := cacheEss[arch];
      } else {
        e := ComputePseudoEssential(arch, full, start0);
        cacheEss := cacheEss[arch := e];
      }
    }

    method ComputePseudoEssential(arch: string, ghost full: set<PackageId>, ghost start0: set<PackageId>)
      returns (e: PseudoEssential)
      requires Searching(full, start0) && EssentialClosure(universe, essentialClosure)
      modifies this`suiteContents, this`cacheBroken
      ensures Searching(full, start0) && suiteContents <= old(suiteContents)
      ensures PseudoEssentialSound(universe, full, arch, RegionOf(essentialClosure, arch), e)
      ensures universe.essential == {} ==> suiteContents == old(suiteContents)
    {
      ghost var region := RegionOf(essentialClosure, arch);
      RegionOfClosed(universe, arch, essentialClosure);
      var start := set p | p in universe.essential && p.architecture == arch && p in suiteContents;
      EssentialEntry(full, start0, arch, start);
      EssentialsPresent(full, start0, arch, start);
      var essBase := SetToSeq(start);
      var never, choices := {}, {};
      while essBase != []
        invariant Searching(full, start0) && suiteContents <= old(suiteContents)
        invariant EssentialsStarted(universe, full, arch, start)
        invariant start + CheckSet(essBase) <= full * region && ChoicesWithin(choices, full * region)
        invariant EssentialPosition(full, arch, region, CheckSet(essBase), start, never, choices)
        invariant universe.essential == {} ==>
          essBase == [] && start == {} && never == {} && choices == {} && suiteContents == old(suiteContents)
        decreases universe.relations.Keys - start, UnmetCount(universe, essBase, start), 2 * |choices| + |essBase|
      {
        var start1 := start;
        start, never, choices, essBase := EssentialRound(start, never, choices, essBase, full, start0, arch, region);
        Shrinks(universe.relations.Keys, start1, start);
        if choices == {} {
          break;
        }
      }
      EssentialFollows(full, arch, region, CheckSet(essBase), start, never, choices);
      EssentialConflicts(start, never);
      SplitBound(start, CheckSet(essBase), full * region, full * region);
      never := never + (set x, n | x in start && n in universe.NegativeDependenciesOf(x) :: n);
      e := PseudoEssential(start, never, choices);
    }

    /** The essential packages that the tester has taken out of the suite are not installable. */
    lemma EssentialsPresent(full: set<PackageId>, start0: set<PackageId>, arch: string, start: set<PackageId>)
      requires Searching(full, start0)
      requires start == set p | p in universe.essential && p.architecture == arch && p in suiteContents
      ensures EssentialsStarted(universe, full, arch, start)
    {
      forall p | p in EssentialOf(universe, arch) && p in full && Installable(universe, full, p)
        ensures p in start
      {
        assert p !in cacheBroken;
      }
    }

    lemma EssentialConflicts(start: set<PackageId>, never: set<PackageId>)
      ensures forall p :: p in start ==>
        universe.NegativeDependenciesOf(p) <= never + (set x, n | x in start && n in universe.NegativeDependenciesOf(x) :: n)
    {
    }

    lemma EssentialEntry(full: set<PackageId>, start0: set<PackageId>, arch: string, start: set<PackageId>)
      requires Searching(full, start0) && EssentialClosure(universe, essentialClosure)
      requires start == set p | p in universe.essential && p.architecture == arch && p in suiteContents
      ensures start <= full * RegionOf(essentialClosure, arch)
      ensures EssentialPosition(full, arch, RegionOf(essentialClosure, arch), start, start, {}, {})
    {
      var region := RegionOf(essentialClosure, arch);
      forall m | Model(universe, full, arch, region, m)
        ensures Supports(universe, full, arch, region, m, start, start, {}, {}) && start <= m
      {
        forall p | p in start
          ensures p in m && p !in universe.broken
        {
          assert p in EssentialOf(universe, arch) * full;
          BrokenInNoClosedSet(universe, m, p);
        }
      }
    }

    /** One round: what follows without a choice, then the choices that can be broken. */
    method EssentialRound(start1: set<PackageId>, never1: set<PackageId>, choices1: set<set<PackageId>>, check1: seq<PackageId>,
                          ghost full: set<PackageId>, ghost start0: set<PackageId>, ghost arch: string, ghost region: set<PackageId>)
      returns (start: set<PackageId>, never: set<PackageId>, choices: set<set<PackageId>>, check: seq<PackageId>)
      requires Searching(full, start0) && RegionClosed(universe, arch, region) && check1 != []
      requires start1 + CheckSet(check1) <= full * region && ChoicesWithin(choices1, full * region)
      requires EssentialPosition(full, arch, region, CheckSet(check1), start1, never1, choices1)
      modifies this`suiteContents, this`cacheBroken
      ensures Searching(full, start0) && suiteContents <= old(suiteContents)
      ensures start1 <= start
      ensures start + CheckSet(check) <= full * region && ChoicesWithin(choices, full * region)
      ensures EssentialPosition(full, arch, region, CheckSet(check), start, never, choices)
      ensures start == start1 ==> UnmetCount(universe, check, start) <= UnmetCount(universe, check1, start)
      ensures start == start1 && UnmetCount(universe, check, start) == UnmetCount(universe, check1, start) ==>
        2 * |choices| + |check| < 2 * |choices1| + |check1|
    {
      SplitBound(start1, CheckSet(check1), full, region);
      var ok;
      ok, start, never, choices, check := CheckLoop(start1, never1, choices1, check1, full, start0, arch, region);
      EssentialLooped(full, arch, region, ok, suiteContents, CheckSet(check1), start1, never1, choices1,
                      CheckSet(check), start, never, choices);
      RoundBounds(full, start0, region, start1, start, CheckSet(check1), CheckSet(check), choices1, choices);
      if start == start1 {
        UnmetPrefix(universe, check, check1, start);
      }
      if choices != {} {
        choices, check := BreakChoices(start, never, choices, check, full, arch, region);
      }
    }

    /** Can `t` be installed?  `t` is in the suite.  `runs` is the search that answered, if one was needed. */
    method CheckInst(t: PackageId, ghost full: set<PackageId>) returns (verdict: bool, ghost runs: seq<Run>)
      requires Coherent(full) && t in suiteContents
      modifies this
      ensures Coherent(full) && suiteContents <= old(suiteContents)
      ensures Installable(universe, full, t) ==> verdict
      ensures |runs| <= 1 && (verdict <==> runs != [] && Verdict(runs[0]))
      ensures runs != [] ==> RunFor(universe, essentialClosure, full, t, old(suiteContents), runs[0])
      ensures verdict ==> Judged(t, runs[0]) && EssentialsHeld(universe, full, t, Found(runs[0]))
      ensures clean == (old(clean) && TidyRuns(runs))
      ensures universe.essential == {} && Separated(universe, full) ==> TidyRuns(runs)
      ensures old(cacheInst) <= cacheInst
    {
      ghost var start, inst0 := suiteContents, cacheInst;
      runs := [];
      assert Searching(full, start);
      var e := GetMinPseudoEssential(t.architecture, full, start);
      if t in e.never {
        NeverInstalled(full, t.architecture, e, t);
        cacheBroken := cacheBroken + {t};
        suiteContents := suiteContents - {t};
        verdict := false;
        return;
      }
      ghost var run;
      verdict, run := SearchWith(t, e, full, start);
      runs := [run];
      clean := clean && (verdict ==> AllTidy(Shortcuts(run)));
      if universe.essential == {} && clean {
        InstKept(start, inst0, suiteContents, if verdict then Found(run) else {}, cacheInst);
      }
    }

    /** The selection that a "yes" rests on holds the package and is cached, and without essential packages
        it is an install set exactly when no shortcut was taken past a conflict. */
    ghost predicate Judged(t: PackageId, run: Run)
      reads this
    {
      && t in Found(run) && Found(run) <= cacheInst
      && Answered(universe, suiteContents, Found(run), AllTidy(Shortcuts(run)))
    }

    /** Search from the pseudo-essential packages. */
    method SearchWith(t: PackageId, e: PseudoEssential, ghost full: set<PackageId>, ghost start: set<PackageId>)
      returns (verdict: bool, ghost run: Run)
      requires Searching(full, start) && t in start && t !in e.never && EssentialClosure(universe, essentialClosure)
      requires PseudoEssentialSound(universe, full, t.architecture, RegionOf(essentialClosure, t.architecture), e)
      requires universe.essential == {} ==> suiteContents == start
      modifies this`suiteContents, this`cacheBroken, this`cacheInst
      ensures Searching(full, start) && suiteContents <= old(suiteContents)
      ensures Installable(universe, full, t) ==> verdict
      ensures RunFor(universe, essentialClosure, full, t, start, run) && (verdict <==> Verdict(run))
      ensures verdict ==> t in Found(run) && Answered(universe, suiteContents, Found(run), AllTidy(Shortcuts(run)))
      ensures verdict ==> EssentialsHeld(universe, full, t, Found(run))
      ensures cacheInst == old(cacheInst) + if verdict then Found(run) else {}
      ensures universe.essential == {} && Separated(universe, full) && verdict ==> AllTidy(Shortcuts(run))
    {
      var arch := t.architecture;
      ghost var region := RegionOf(universe.relations.Keys, arch);
      ghost var m := ModelFor(full, t);
      StartPosition(full, start, arch, e, t);
      if Installable(universe, full, t) {
        StartSupported(full, arch, e, t, m);
      }
      ghost var found, tidy;
      verdict, found, tidy, run :=
        CheckFrom(t, {t} + e.start, e.never, e.choices, true, full, start, arch, region, m);
      assert StartsFrom(run.start, t, e);
      if verdict {
        StartedHeld(universe, full, e, t, found);
      }
      if universe.essential == {} && Separated(universe, full) && verdict {
        SeparatedTidy(universe, full, run);
      }
    }

    lemma InstKept(start: set<PackageId>, inst0: set<PackageId>, suite: set<PackageId>, found: set<PackageId>, inst: set<PackageId>)
      requires BrokenNulled(universe) && CacheInstSound(universe, start, inst0)
      requires suite <= start && OnlyUnclosedDropped(universe, start, suite)
      requires inst == inst0 + found && InstallSet(universe, suite, found)
      ensures CacheInstSound(universe, suite, inst)
    {
      CacheInstSearched(universe, start, inst0, suite, found);
    }

    /** An install set for `t`, closed under equivalence, if there is one. */
    ghost method ModelFor(full: set<PackageId>, t: PackageId) returns (m: set<PackageId>)
      requires WellFormed(universe)
      ensures Installable(universe, full, t) ==>
        t in m && Model(universe, full, t.architecture, RegionOf(universe.relations.Keys, t.architecture), m)
    {
      m := {};
      if Installable(universe, full, t) {
        var w :| Witness(universe, full, t, w);
        SaturateKeepsInstallSet(universe, full, w);
        m := Saturate(universe, full, w);
      }
    }

    lemma NeverInstalled(full: set<PackageId>, arch: string, e: PseudoEssential, t: PackageId)
      requires WellFormed(universe) && t in e.never && arch == t.architecture
      requires PseudoEssentialSound(universe, full, arch, RegionOf(essentialClosure, arch), e)
      ensures !Installable(universe, full, t)
      ensures universe.essential != {}
    {
      forall w | Witness(universe, full, t, w)
        ensures false
      {
        SaturateKeepsInstallSet(universe, full, w);
        var m := Saturate(universe, full, w);
        assert Model(universe, full, arch, RegionOf(essentialClosure, arch), m);
        FollowsExcludes(universe, RegionOf(essentialClosure, arch), e, m, t);
      }
    }

    lemma StartPosition(full: set<PackageId>, start: set<PackageId>, arch: string, e: PseudoEssential, t: PackageId)
      requires Searching(full, start) && t in start && arch == t.architecture
      requires EssentialClosure(universe, essentialClosure)
      requires PseudoEssentialSound(universe, full, arch, RegionOf(essentialClosure, arch), e)
      ensures
        var region := RegionOf(universe.relations.Keys, arch);
        && RegionClosed(universe, arch, region)
        && t in region
        && Position(universe, suiteContents, full, start, region, {t} + e.start, {t}, e.never, e.choices, true)
    {
      var region := RegionOf(universe.relations.Keys, arch);
      RegionOfClosed(universe, arch, universe.relations.Keys);
      assert full * RegionOf(essentialClosure, arch) <= region * full;
      if universe.essential == {} {
        assert {t} + e.start - {t} == {};
      }
    }

    lemma StartSupported(full: set<PackageId>, arch: string, e: PseudoEssential, t: PackageId, m: set<PackageId>)
      requires WellFormed(universe) && t in m
      requires Model(universe, full, arch, RegionOf(universe.relations.Keys, arch), m)
      requires essentialClosure <= universe.relations.Keys
      requires PseudoEssentialSound(universe, full, arch, RegionOf(essentialClosure, arch), e)
      ensures Supports(universe, full, arch, RegionOf(universe.relations.Keys, arch), m,
                       {t}, {t} + e.start, e.never, e.choices)
    {
      var region := RegionOf(essentialClosure, arch);
      assert Model(universe, full, arch, region, m);
      assert Follows(universe, region, e, m);
      forall p | p in e.never
        ensures p !in m
      {
        assert ConflictsWith(universe, p, m * region);
      }
      forall p | p in {t} + e.start
        ensures p !in universe.broken
      {
        BrokenInNoClosedSet(universe, m, p);
      }
    }

    /** Is the package installable?  A KeyError if the universe does not know it.  A "no" is always right;
        a "yes" is right without essential packages as long as no search has taken a shortcut past a
        conflict, and a search that does so has selected a set with a conflict. */
    method IsInstallable(p: PackageId, ghost full: set<PackageId>) returns (r: Reply, ghost runs: seq<Run>)
      requires Coherent(full)
      modifies this
      ensures Coherent(full)
      ensures r.KeyError? <==> !universe.Knows(p)
      ensures |runs| <= 1 && (runs != [] ==> RunFor(universe, essentialClosure, full, p, old(suiteContents), runs[0]))
      ensures clean == (old(clean) && TidyRuns(runs))
      ensures universe.essential == {} && Separated(universe, full) ==> TidyRuns(runs)
      ensures r.Reply? && Installable(universe, full, p) ==> r.value
      ensures r == Reply(true) && runs != [] ==> EssentialsHeld(universe, full, p, Found(runs[0]))
      ensures r.Reply? && universe.essential == {} && clean ==> (r.value <==> Installable(universe, full, p))
      ensures universe.essential == {} && !TidyRuns(runs) ==>
        r == Reply(true) && runs != [] && WrongYes(universe, p, Found(runs[0]))
    {
      runs := [];
      if !universe.Knows(p) {
        return KeyError, runs;
      }
      if p !in suiteContents || p in universe.broken {
        NotInstallable(full, p);
        return Reply(false), runs;
      }
      if p in cacheInst {
        if universe.essential == {} && clean {
          CachedInstallable(full, p);
        }
        return Reply(true), runs;
      }
      var verdict;
      verdict, runs := Ask(p, full);
      r := Reply(verdict);
    }

    /** Ask the search. */
    method Ask(p: PackageId, ghost full: set<PackageId>) returns (verdict: bool, ghost runs: seq<Run>)
      requires Coherent(full) && p in suiteContents
      modifies this
      ensures Coherent(full)
      ensures |runs| <= 1 && (runs != [] ==> RunFor(universe, essentialClosure, full, p, old(suiteContents), runs[0]))
      ensures clean == (old(clean) && TidyRuns(runs))
      ensures universe.essential == {} && Separated(universe, full) ==> TidyRuns(runs)
      ensures Installable(universe, full, p) ==> verdict
      ensures verdict ==> runs != [] && EssentialsHeld(universe, full, p, Found(runs[0]))
      ensures universe.essential == {} && clean && verdict ==> Installable(universe, full, p)
      ensures universe.essential == {} && !TidyRuns(runs) ==> verdict && runs != [] && WrongYes(universe, p, Found(runs[0]))
    {
      verdict, runs := CheckInst(p, full);
      AnswerJudged(full, p, verdict, runs);
    }

    lemma AnswerJudged(full: set<PackageId>, p: PackageId, verdict: bool, runs: seq<Run>)
      requires Coherent(full) && |runs| <= 1 && (verdict <==> runs != [] && Verdict(runs[0]))
      requires verdict ==> Judged(p, runs[0])
      ensures !verdict ==> TidyRuns(runs)
      ensures universe.essential == {} && verdict && TidyRuns(runs) ==> Installable(universe, full, p)
      ensures universe.essential == {} && !TidyRuns(runs) ==> WrongYes(universe, p, Found(runs[0]))
    {
      if universe.essential == {} && verdict {
        assert TidyRuns(runs) <==> AllTidy(Shortcuts(runs[0]));
        assert AllTidy(Shortcuts(runs[0])) ==> Witness(universe, full, p, Found(runs[0]));
      }
    }

    lemma NotInstallable(full: set<PackageId>, p: PackageId)
      requires Coherent(full)
      requires p !in suiteContents || p in universe.broken
      ensures !Installable(universe, full, p)
    {
      if p in universe.broken {
        forall m
          ensures !Witness(universe, full, p, m)
        {
          if DependencyClosed(universe, m) {
            NotInClosed(universe, m, p);
          }
        }
      } else if p in full {
        assert p in cacheBroken;
      }
    }

    lemma CachedInstallable(full: set<PackageId>, p: PackageId)
      requires Coherent(full) && universe.essential == {} && clean
      requires p in cacheInst && p in suiteContents
      ensures Installable(universe, full, p)
    {
      assert WitnessedWithin(universe, cacheInst * suiteContents, p);
      var m :| InstallSet(universe, cacheInst * suiteContents, m) && p in m;
      assert Witness(universe, full, p, m);
    }

    /** Add a binary to the suite.  A KeyError if the universe does not know it. */
    method AddBinary(q: PackageId, ghost full: set<PackageId>) returns (r: Reply)
      requires Coherent(full)
      modifies this
      ensures clean == old(clean)
      ensures r == if universe.Knows(q) then Reply(true) else KeyError
      ensures Coherent(if universe.Knows(q) then full + {q} else full)
    {
      if !universe.Knows(q) {
        return KeyError;
      }
      if q in universe.broken {
        AddBrokenCoherent(universe, essentialClosure, full, suiteContents, cacheBroken, cacheInst, cacheEss, clean, q);
        suiteContents := suiteContents + {q};
      } else if q !in suiteContents {
        ghost var suite0, broken0, inst0, ess0 := suiteContents, cacheBroken, cacheInst, cacheEss;
        suiteContents := suiteContents + {q};
        cacheInst := {};
        if cacheBroken != {} {
          suiteContents := suiteContents + cacheBroken;
          cacheBroken := {};
        }
        if q in essentialClosure && q.architecture in cacheEss {
          cacheEss := cacheEss - {q.architecture};
        }
        AddNewCoherent(universe, essentialClosure, full, suite0, broken0, inst0, ess0, clean, q, cacheEss);
        assert suiteContents == suite0 + {q} + broken0;
      } else {
        assert full + {q} == full;
      }
      r := Reply(true);
    }

    /** Remove a binary from the suite.  A KeyError if the universe does not know it.  The caches
        stay right unless the package belongs to what follows from the essential packages. */
    method RemoveBinary(x: PackageId, ghost full: set<PackageId>) returns (r: Reply)
      modifies this
      ensures clean == old(clean)
      ensures r == if universe.Knows(x) then Reply(true) else KeyError
      ensures universe.Knows(x) ==>
        suiteContents == old(suiteContents) - {x} && cacheBroken == old(cacheBroken) - {x}
      ensures !universe.Knows(x) ==> unchanged(this)
      ensures old(Coherent(full)) && x !in essentialClosure ==>
        Coherent(if universe.Knows(x) then full - {x} else full)
    {
      if !universe.Knows(x) {
        return KeyError;
      }
      r := Reply(true);
      ghost var suite0, broken0, inst0, ess0 := suiteContents, cacheBroken, cacheInst, cacheEss;
      cacheBroken := cacheBroken - {x};
      if x in suiteContents {
        suiteContents := suiteContents - {x};
        if x.architecture in cacheEss && x in cacheEss[x.architecture].start {
          cacheEss := cacheEss - {x.architecture};
        }
        if universe.ReverseDependenciesOf(x) != {} && x !in universe.broken && x in cacheInst {
          cacheInst := {};
        }
      }
      assert suiteContents == suite0 - {x};
      if old(Coherent(full)) && x !in essentialClosure {
        RemoveCoherent(universe, essentialClosure, full, suite0, broken0, inst0, ess0, clean, x, cacheInst, cacheEss);
      }
    }

    /** Compute and cache the installability of every package of the suite: no installable package
        is missing from the cache afterwards. */
    method ComputeInstallability(ghost full: set<PackageId>) returns (ghost runs: seq<Run>)
      requires Coherent(full)
      modifies this
      ensures Coherent(full)
      ensures forall run :: run in runs ==> RunForSome(universe, essentialClosure, full, run)
      ensures clean == (old(clean) && TidyRuns(runs))
      ensures universe.essential == {} && Separated(universe, full) ==> TidyRuns(runs)
      ensures forall p :: p in full && Installable(universe, full, p) ==> p in cacheInst
      ensures universe.essential == {} && clean ==>
        forall p :: p in suiteContents && p in cacheInst ==> Installable(universe, full, p)
    {
      var todo := suiteContents;
      runs := [];
      while todo != {}
        invariant Coherent(full) && todo <= full
        invariant forall run :: run in runs ==> RunForSome(universe, essentialClosure, full, run)
        invariant clean == (old(clean) && TidyRuns(runs))
        invariant universe.essential == {} && Separated(universe, full) ==> TidyRuns(runs)
        invariant Decided(full, todo)
      {
        var t :| t in todo;
        todo := todo - {t};
        if t !in cacheInst && t !in cacheBroken {
          ghost var searched := Decide(t, full, todo);
          TidyRunsConcat(runs, searched);
          runs := runs + searched;
        }
      }
      if universe.essential == {} && clean {
        forall p | p in suiteContents && p in cacheInst
          ensures Installable(universe, full, p)
        {
          CachedInstallable(full, p);
        }
      }
    }

    /** Decide one package and, with it, its equivalents in the suite. */
    method Decide(t: PackageId, ghost full: set<PackageId>, ghost todo: set<PackageId>) returns (ghost runs: seq<Run>)
      requires Coherent(full) && t in full && t !in cacheBroken && Decided(full, todo + {t})
      modifies this
      ensures Coherent(full) && Decided(full, todo)
      ensures forall run :: run in runs ==> RunForSome(universe, essentialClosure, full, run)
      ensures clean == (old(clean) && TidyRuns(runs))
      ensures universe.essential == {} && Separated(universe, full) ==> TidyRuns(runs)
    {
      assert t in suiteContents;
      ghost var suite := suiteContents;
      var verdict;
      verdict, runs := CheckInst(t, full);
      AnswerJudged(full, t, verdict, runs);
      SearchedFor(full, t, suite, runs);
      if t in universe.equivalent {
        var eqv := set q | q in universe.EquivalentTo(t) && q in suiteContents;
        assert forall q :: q in eqv ==> universe.AreEquivalent(t, q);
        if verdict {
          if universe.essential == {} && clean {
            CacheInstEquivalents(universe, suiteContents, cacheInst, t, eqv);
          }
          cacheInst := cacheInst + eqv;
        } else {
          EquivalentsBroken(full, t, eqv);
          suiteContents := suiteContents - eqv;
          cacheBroken := cacheBroken + eqv;
        }
      }
    }

    lemma SearchedFor(full: set<PackageId>, t: PackageId, suite: set<PackageId>, runs: seq<Run>)
      requires |runs| <= 1 && t in full && suite <= full
      requires runs != [] ==> RunFor(universe, essentialClosure, full, t, suite, runs[0])
      requires universe.essential == {} && !TidyRuns(runs) ==> WrongYes(universe, t, Found(runs[0]))
      requires runs != [] && Verdict(runs[0]) ==> EssentialsHeld(universe, full, t, Found(runs[0]))
      ensures forall run :: run in runs ==> RunForSome(universe, essentialClosure, full, run)
    {
      if runs != [] {
        assert runs == [runs[0]];
      }
    }

    /** Of the packages that are no longer to be looked at, the cache holds the installable ones. */
    ghost predicate Decided(full: set<PackageId>, todo: set<PackageId>)
      reads this
    {
      forall p :: p in full && p !in todo && Installable(universe, full, p) ==> p in cacheInst
    }

    lemma EquivalentsBroken(full: set<PackageId>, t: PackageId, eqv: set<PackageId>)
      requires Coherent(full) && !Installable(universe, full, t) && t in full
      requires eqv <= suiteContents && forall q :: q in eqv ==> universe.AreEquivalent(t, q)
      ensures CacheBrokenSound(universe, full, cacheBroken + eqv)
      ensures suiteContents - eqv + (cacheBroken + eqv) == full
      ensures universe.essential == {} && clean ==> CacheInstSound(universe, suiteContents - eqv, cacheInst)
    {
      forall q | q in eqv
        ensures !Installable(universe, full, q)
      {
        EquivalentsAgree(universe, full, t, q);
      }
      if universe.essential == {} && clean {
        forall p, m | p in eqv && InstallSet(universe, suiteContents, m)
          ensures p !in m
        {
          assert !Installable(universe, full, p);
          assert p in m ==> Witness(universe, full, p, m);
        }
        CacheInstDropBroken(universe, suiteContents, cacheInst, eqv);
      }
    }

    lemma KeptNonEmpty(candidates: set<PackageId>, kept: set<PackageId>)
      requires candidates != {} && Covers(universe, candidates, kept)
      ensures kept != {} && |kept| > 0
    {
      var p :| p in candidates;
      assert HasEquivalentIn(universe, p, kept);
    }
  }

  lemma PushCheck(check: seq<PackageId>, x: PackageId, musts0: set<PackageId>, musts: set<PackageId>)
    ensures CheckSet(check + [x]) == CheckSet(check) + {x}
    ensures CheckSet(check) == musts - musts0 && x !in musts0 ==> CheckSet(check + [x]) == musts + {x} - musts0
  {
    var check' := check + [x];
    assert check'[|check|] == x;
    forall p | p in CheckSet(check)
      ensures p in check'
    {
      var i :| 0 <= i < |check| && check[i] == p;
      assert check'[i] == p;
    }
  }

  lemma OptionShrinks(keys: set<PackageId>, full: set<PackageId>, musts0: set<PackageId>, musts: set<PackageId>,
                      choice: set<PackageId>, p: PackageId)
    requires musts0 <= musts <= full <= keys && p in choice && choice <= full
    requires musts == musts0 ==> choice !! musts0
    ensures keys - (musts + {p}) < keys - musts0
  {
    Shrinks(keys, musts0, musts + {p});
    assert musts == musts0 ==> p !in musts0;
  }

  lemma PrunedProgress(check: seq<PackageId>, musts: set<PackageId>, musts': set<PackageId>, region: set<PackageId>)
    requires CheckSet(check) == musts' - musts && musts <= musts' && musts' - musts <= region
    ensures CheckSet(check) <= musts' * region
    ensures check == [] <==> musts' == musts
    ensures check == [] ==> CheckSet(check) == {}
  {
    assert check != [] ==> check[0] in CheckSet(check);
    assert musts' == musts + (musts' - musts);
  }

  method SetToSeq(s: set<PackageId>) returns (q: seq<PackageId>)
    ensures CheckSet(q) == s
    ensures s == {} ==> q == []
  {
    q := [];
    var todo := s;
    while todo != {}
      invariant todo <= s && CheckSet(q) == s - todo
      invariant s == {} ==> q == []
    {
      var x :| x in todo;
      PushCheck(q, x, {}, {});
      todo := todo - {x};
      q := q + [x];
    }
  }

  lemma SplitBound(a: set<PackageId>, b: set<PackageId>, full: set<PackageId>, region: set<PackageId>)
    requires a + b <= full * region
    ensures a + b <= full && b <= region && a <= full && a <= region
  {
  }

  lemma RoundBounds(full: set<PackageId>, start0: set<PackageId>, region: set<PackageId>,
                    start1: set<PackageId>, start: set<PackageId>, check1: set<PackageId>, check: set<PackageId>,
                    choices1: set<set<PackageId>>, choices: set<set<PackageId>>)
    requires start1 + check1 <= full * region && ChoicesWithin(choices1, full * region) && start0 <= full
    requires start1 <= start && start - start1 <= start0 * region
    requires check <= check1 + (start - start1)
    requires choices1 <= choices && ChoicesWithin(choices - choices1, start0 * region)
    ensures start + check <= full * region && ChoicesWithin(choices, full * region)
    ensures start - start1 <= region && check <= full * region
  {
    assert start == start1 + (start - start1);
    forall choice | choice in choices
      ensures choice <= full * region && choice != {}
    {
      assert choice in choices1 || choice in choices - choices1;
    }
  }

  lemma NoneLeft(depgroup: set<PackageId>, suite: set<PackageId>, never: set<PackageId>)
    requires depgroup * suite - never == {} && depgroup !! never
    ensures depgroup !! suite
  {
    forall x | x in depgroup
      ensures x !in suite
    {
      assert x in depgroup * suite - never <==> x in suite;
    }
  }

  lemma TakeChoice(choices: set<set<PackageId>>, todo: set<set<PackageId>>, choice: set<PackageId>)
    requires choice in todo && choices !! todo
    ensures choices + ((todo - {choice}) + {choice}) == choices + todo
    ensures choice !in choices && choice !in todo - {choice} && choices !! todo - {choice}
  {
  }

  lemma ChoiceTaken(choices0: set<set<PackageId>>, choices: set<set<PackageId>>, todo: set<set<PackageId>>,
                    choice: set<PackageId>, choices': set<set<PackageId>>)
    requires choice in todo && choices !! todo && choices + todo <= choices0
    requires choices' == choices || choices' == choices + {choice}
    ensures choices' + (todo - {choice}) <= choices0 && choices' !! todo - {choice}
    ensures |todo - {choice}| == |todo| - 1
  {
  }

  lemma CardinalityMonotone<T>(s: set<T>, t: set<T>)
    requires s <= t
    ensures |s| <= |t|
  {
    assert t == s + (t - s);
  }

  /** How many packages of `check` have a clause that `musts` does not meet yet. */
  ghost function UnmetCount(u: Universe, check: seq<PackageId>, musts: set<PackageId>): nat {
    if check == [] then 0
    else
      UnmetCount(u, check[..|check| - 1], musts) + (if Satisfied(u, check[|check| - 1], musts) then 0 else 1)
  }

  lemma {:induction false} UnmetPrefix(u: Universe, check: seq<PackageId>, check': seq<PackageId>, musts: set<PackageId>)
    requires check <= check'
    ensures UnmetCount(u, check, musts) <= UnmetCount(u, check', musts)
    ensures check < check' && !Satisfied(u, check'[|check|], musts) ==>
      UnmetCount(u, check, musts) < UnmetCount(u, check', musts)
  {
    if |check| < |check'| {
      var shorter := check'[..|check'| - 1];
      UnmetPrefix(u, check, shorter, musts);
      if |check| == |shorter| {
        assert check == shorter;
      } else {
        assert shorter[|check|] == check'[|check|];
      }
    } else {
      assert check == check';
    }
  }

  lemma PopCheck(check: seq<PackageId>)
    requires check != []
    ensures CheckSet(check) == CheckSet(check[..|check| - 1]) + {check[|check| - 1]}
  {
    assert check == check[..|check| - 1] + [check[|check| - 1]];
  }

  /** The sets of the loop in CheckLoop after one package has been examined. */
  lemma Pushed(full: set<PackageId>, region: set<PackageId>, start: set<PackageId>,
               musts0: set<PackageId>, musts1: set<PackageId>, musts: set<PackageId>,
               check1: set<PackageId>, cur: PackageId, check0: set<PackageId>, done: set<PackageId>)
    requires musts1 + check1 <= full && check1 <= region && start <= full
    requires musts0 <= musts1 <= musts
    requires musts1 - musts0 <= start * region && musts - musts1 <= start * region
    requires done + (check1 + {cur}) == check0 + (musts1 - musts0)
    ensures var check := check1 + (musts - musts1);
      && musts + check <= full && check <= region && musts - musts0 <= start * region
      && (done + {cur}) + check == check0 + (musts - musts0)
  {
    assert musts - musts0 == (musts1 - musts0) + (musts - musts1);
    assert musts == musts1 + (musts - musts1);
  }

  lemma Shrinks(keys: set<PackageId>, musts: set<PackageId>, musts': set<PackageId>)
    requires musts <= musts' <= keys
    ensures musts' == musts || keys - musts' < keys - musts
  {
    assert keys - musts' <= keys - musts;
    if keys - musts' == keys - musts {
      assert musts' == keys - (keys - musts');
      assert musts == keys - (keys - musts);
    }
  }

  lemma MetGrows(clauses: set<set<PackageId>>, musts: set<PackageId>, choices: set<set<PackageId>>,
                 musts': set<PackageId>, choices': set<set<PackageId>>)
    requires forall clause :: clause in clauses ==> MetOrDeferred(clause, musts, choices)
    requires musts <= musts' && choices <= choices'
    ensures forall clause :: clause in clauses ==> MetOrDeferred(clause, musts', choices')
  {
    forall clause | clause in clauses
      ensures MetOrDeferred(clause, musts', choices')
    {
      assert MetOrDeferred(clause, musts, choices);
    }
  }

  lemma NonEmpty<T>(s: set<T>)
    requires s != {} && |s| != 1
    ensures |s| > 1
  {
    var x :| x in s;
    assert s == {x} + (s - {x});
  }

  lemma Singleton<T>(s: set<T>, x: T)
    requires |s| == 1 && x in s
    ensures s == {x}
  {
    assert |s - {x}| == 0;
  }
}
