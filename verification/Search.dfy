/** What the installability search keeps while it runs, as facts about plain values.

    The search (class InstallabilityTester) is proved in two directions.

    Completeness: a `Model` is an install set closed under equivalence.  `Supports` says that a
    model is still reachable from the current position of the search.  No step that the search
    takes ever cuts off a supported model, so it cannot answer "no" while one exists.

    Soundness: `Processed` and `Consistent` describe the part of `musts` that has been examined.
    When nothing is left to examine they make `musts` an install set.
  */
module Search {
  import opened Universes

  /** An install set of the replayed suite `full`, holding its essential packages of `arch` and,
      within `region`, closed under equivalence. */
  ghost predicate Model(u: Universe, full: set<PackageId>, arch: string, region: set<PackageId>, m: set<PackageId>) {
    && InstallSet(u, full, m)
    && EssentialOf(u, arch) * full <= m
    && Saturated(u, full * region, m)
  }

  /** A part of the universe that no clause leaves. */
  ghost predicate RegionClosed(u: Universe, arch: string, region: set<PackageId>) {
    && (forall p :: p in region ==> u.Knows(p) && p.architecture == arch)
    && (forall p, clause :: p in region && clause in u.DependenciesOf(p) ==> clause <= region)
  }

  ghost predicate CacheBrokenSound(u: Universe, full: set<PackageId>, cacheBroken: set<PackageId>) {
    forall b :: b in cacheBroken ==> !Installable(u, full, b)
  }

  /** What left the suite since it was `start` is in no dependency-closed part of `start`. */
  ghost predicate OnlyUnclosedDropped(u: Universe, start: set<PackageId>, suite: set<PackageId>) {
    forall d :: DependencyClosed(u, d) && d <= start ==> d <= suite
  }

  /** A package whose selection has no consequences: its conflicts are recorded and its clauses hold. */
  predicate Idle(u: Universe, p: PackageId, musts: set<PackageId>, never: set<PackageId>) {
    && u.NegativeDependenciesOf(p) <= never
    && Satisfied(u, p, musts)
    && (u.NegativeDependenciesOf(p) == {} || p !in never)
  }

  ghost predicate Supports(u: Universe, full: set<PackageId>, arch: string, region: set<PackageId>, m: set<PackageId>,
                           check: set<PackageId>, musts: set<PackageId>, never: set<PackageId>, choices: set<set<PackageId>>)
  {
    && Model(u, full, arch, region, m)
    && m !! never
    && (forall choice :: choice in choices ==> Hits(choice, m))
    && (forall p :: p in check ==> p in m || Idle(u, p, musts, never))
    && musts !! u.broken
  }

  /** A clause is met, or deferred as a choice among some of its alternatives. */
  ghost predicate MetOrDeferred(clause: set<PackageId>, musts: set<PackageId>, choices: set<set<PackageId>>) {
    Hits(clause, musts) || exists choice :: choice in choices && choice <= clause
  }

  ghost predicate ClausesMet(u: Universe, p: PackageId, musts: set<PackageId>, choices: set<set<PackageId>>) {
    forall clause :: clause in u.DependenciesOf(p) ==> MetOrDeferred(clause, musts, choices)
  }

  /** `p` is unbroken, its conflicts within the suite are recorded and its clauses are met or deferred. */
  ghost predicate Processed(u: Universe, p: PackageId, suite: set<PackageId>,
                            musts: set<PackageId>, never: set<PackageId>, choices: set<set<PackageId>>)
  {
    && u.Knows(p)
    && p !in u.broken
    && u.NegativeDependenciesOf(p) * suite <= never
    && ClausesMet(u, p, musts, choices)
  }

  /** No two members that are still in the suite conflict. */
  ghost predicate Consistent(u: Universe, suite: set<PackageId>, musts: set<PackageId>) {
    forall p, q :: p in musts && q in musts && p in suite && q in suite ==> q !in u.NegativeDependenciesOf(p)
  }

  ghost predicate ConflictsWith(u: Universe, p: PackageId, musts: set<PackageId>) {
    exists q :: q in musts && p in u.NegativeDependenciesOf(q)
  }

  ghost predicate SomeConflict(u: Universe, musts: set<PackageId>) {
    exists p :: p in musts && ConflictsWith(u, p, musts)
  }

  /** The outcome of examining the packages `done`, starting from the conflicts `never0`. */
  ghost predicate Examined(u: Universe, suite: set<PackageId>, done: set<PackageId>, never0: set<PackageId>,
                           musts: set<PackageId>, never: set<PackageId>, choices: set<set<PackageId>>)
  {
    && (forall p :: p in done ==> Processed(u, p, suite, musts, never, choices))
    && Consistent(u, suite, done)
    && (forall p :: p in done ==> u.NegativeDependenciesOf(p) == {} || p !in never0)
    && never0 <= never
    && (forall p :: p in never && p !in never0 ==> ConflictsWith(u, p, done))
  }

  // ---------------------------------------------------------------------------------------------
  // Completeness: one step at a time
  // ---------------------------------------------------------------------------------------------

  /** A member of a model is a candidate of the suite: the broken cache holds none. */
  lemma ModelInSuite(u: Universe, full: set<PackageId>, suite: set<PackageId>, cacheBroken: set<PackageId>,
                     arch: string, region: set<PackageId>, m: set<PackageId>, p: PackageId)
    requires CacheBrokenSound(u, full, cacheBroken) && suite + cacheBroken == full
    requires Model(u, full, arch, region, m) && p in m && p.architecture == arch
    ensures p in suite
  {
    assert Witness(u, full, p, m);
  }

  /** A package of the suite without candidates for one clause is not installable. */
  lemma NoCandidatesBroken(u: Universe, full: set<PackageId>, suite: set<PackageId>, cacheBroken: set<PackageId>,
                           cur: PackageId, depgroup: set<PackageId>)
    requires ClausesLocal(u)
    requires CacheBrokenSound(u, full, cacheBroken) && suite + cacheBroken == full
    requires depgroup in u.DependenciesOf(cur) && depgroup !! suite
    ensures !Installable(u, full, cur)
  {
    forall m | Witness(u, full, cur, m)
      ensures false
    {
      assert Hits(depgroup, m);
      var d :| d in depgroup && d in m;
      assert Witness(u, full, d, m);
    }
  }

  lemma NoCandidatesUnclosed(u: Universe, start: set<PackageId>, suite: set<PackageId>, cur: PackageId, depgroup: set<PackageId>)
    requires OnlyUnclosedDropped(u, start, suite)
    requires depgroup in u.DependenciesOf(cur) && depgroup !! suite
    ensures OnlyUnclosedDropped(u, start, suite - {cur})
  {
    forall d | DependencyClosed(u, d) && d <= start
      ensures d <= suite - {cur}
    {
      assert d <= suite;
      assert cur in d ==> Hits(depgroup, d);
    }
  }

  /** Recording the conflicts of the package under examination loses no model. */
  lemma RecordConflicts(u: Universe, full: set<PackageId>, arch: string, region: set<PackageId>, m: set<PackageId>,
                        check: set<PackageId>, cur: PackageId, musts: set<PackageId>, never: set<PackageId>,
                        choices: set<set<PackageId>>, suite: set<PackageId>)
    requires WellFormed(u)
    requires Supports(u, full, arch, region, m, check, musts, never, choices) && cur in check
    ensures u.NegativeDependenciesOf(cur) == {} || cur !in never
    ensures Supports(u, full, arch, region, m, check, musts, never + u.NegativeDependenciesOf(cur) * suite, choices)
  {
    var never' := never + u.NegativeDependenciesOf(cur) * suite;
    if cur in m {
      assert m !! never';
      BrokenInNoClosedSet(u, m, cur);
      forall p | p in check && p !in m
        ensures Idle(u, p, musts, never')
      {
        assert Idle(u, p, musts, never);
        IdleUnbroken(u, p, musts, never);
        assert u.NegativeDependenciesOf(p) != {} ==> u.Knows(p);
        assert p in u.NegativeDependenciesOf(cur) && u.Knows(p) ==> cur in u.NegativeDependenciesOf(p);
      }
    } else {
      assert never' == never;
    }
  }

  lemma IdleUnbroken(u: Universe, p: PackageId, musts: set<PackageId>, never: set<PackageId>)
    requires BrokenNulled(u) && Idle(u, p, musts, never)
    ensures p !in u.broken
  {
    assert !Hits({}, musts);
  }

  /** Where a clause is not met yet, a model meets it among the candidates that were kept. */
  lemma PickedHit(u: Universe, full: set<PackageId>, suite: set<PackageId>, cacheBroken: set<PackageId>,
                  arch: string, region: set<PackageId>, m: set<PackageId>,
                  check: set<PackageId>, cur: PackageId, musts: set<PackageId>, never: set<PackageId>,
                  choices: set<set<PackageId>>, depgroup: set<PackageId>, picked: set<PackageId>)
    requires RegionClosed(u, arch, region)
    requires CacheBrokenSound(u, full, cacheBroken) && suite + cacheBroken == full
    requires Supports(u, full, arch, region, m, check, musts, never, choices)
    requires cur in check && cur in region
    requires depgroup in u.DependenciesOf(cur) && depgroup !! musts
    requires picked <= depgroup * suite && Covers(u, depgroup * suite - never, picked)
    ensures cur in m && Hits(picked, m)
  {
    assert !Hits(depgroup, musts);
    assert cur in m;
    var i := ClauseMember(u, m, cur, depgroup);
    assert depgroup <= region;
    assert i in region && i.architecture == arch;
    ModelInSuite(u, full, suite, cacheBroken, arch, region, m, i);
    assert i in depgroup * suite - never;
    EquivalentPicked(u, full * region, m, i, picked);
  }

  lemma ClauseMember(u: Universe, m: set<PackageId>, cur: PackageId, clause: set<PackageId>) returns (i: PackageId)
    requires Satisfied(u, cur, m) && clause in u.DependenciesOf(cur)
    ensures i in m && i in clause
  {
    assert Hits(clause, m);
    i :| i in clause && i in m;
  }

  lemma EquivalentPicked(u: Universe, suite: set<PackageId>, m: set<PackageId>, i: PackageId, picked: set<PackageId>)
    requires Saturated(u, suite, m) && i in m
    requires picked <= suite && HasEquivalentIn(u, i, picked)
    ensures Hits(picked, m)
  {
    var r :| r in picked && u.AreEquivalent(i, r);
    assert r in m;
  }

  /** What became of one unmet clause: a forced alternative or a deferred choice. */
  ghost predicate ClauseStep(depgroup: set<PackageId>, picked: set<PackageId>,
                             check: set<PackageId>, musts: set<PackageId>, choices: set<set<PackageId>>,
                             check': set<PackageId>, musts': set<PackageId>, choices': set<set<PackageId>>)
  {
    && picked <= depgroup
    && (|| (exists x :: picked == {x} && musts' == musts + {x} && check' == check + {x} && choices' == choices)
        || (musts' == musts && check' == check && choices' == choices + {picked}))
  }

  lemma ClauseStepSupports(u: Universe, full: set<PackageId>, suite: set<PackageId>, cacheBroken: set<PackageId>,
                           arch: string, region: set<PackageId>, m: set<PackageId>, cur: PackageId,
                           depgroup: set<PackageId>, picked: set<PackageId>,
                           check: set<PackageId>, musts: set<PackageId>, never: set<PackageId>, choices: set<set<PackageId>>,
                           check': set<PackageId>, musts': set<PackageId>, choices': set<set<PackageId>>)
    requires ClausesLocal(u) && RegionClosed(u, arch, region)
    requires CacheBrokenSound(u, full, cacheBroken) && suite + cacheBroken == full
    requires Supports(u, full, arch, region, m, check + {cur}, musts, never, choices)
    requires cur in region && depgroup in u.DependenciesOf(cur) && depgroup !! musts
    requires picked <= depgroup * suite && Covers(u, depgroup * suite - never, picked)
    requires ClauseStep(depgroup, picked, check, musts, choices, check', musts', choices')
    ensures Supports(u, full, arch, region, m, check' + {cur}, musts', never, choices') && musts' - musts <= m
  {
    PickedHit(u, full, suite, cacheBroken, arch, region, m, check + {cur}, cur, musts, never, choices, depgroup, picked);
    if choices' == choices + {picked} && musts' == musts && check' == check {
      CommitOrDefer(u, full, arch, region, m, check + {cur}, musts, never, choices, cur, picked);
    } else {
      var x :| picked == {x} && musts' == musts + {x} && check' == check + {x} && choices' == choices;
      CommitOrDefer(u, full, arch, region, m, check + {cur}, musts, never, choices, x, picked);
      assert check' + {cur} == check + {cur} + {x};
    }
  }

  /** Committing to a forced alternative, or deferring a choice among several, loses no model. */
  lemma CommitOrDefer(u: Universe, full: set<PackageId>, arch: string, region: set<PackageId>, m: set<PackageId>,
                      check: set<PackageId>, musts: set<PackageId>, never: set<PackageId>, choices: set<set<PackageId>>,
                      x: PackageId, choice: set<PackageId>)
    requires Supports(u, full, arch, region, m, check, musts, never, choices)
    ensures x in m && x !in u.broken ==> Supports(u, full, arch, region, m, check + {x}, musts + {x}, never, choices)
    ensures Hits(choice, m) ==> Supports(u, full, arch, region, m, check, musts, never, choices + {choice})
  {
    forall p | Idle(u, p, musts, never)
      ensures Idle(u, p, musts + {x}, never)
    {
    }
  }

  // ---------------------------------------------------------------------------------------------
  // Soundness: what has been examined stays examined
  // ---------------------------------------------------------------------------------------------

  /** Every choice is met by now or narrowed to one of `choices'`. */
  ghost predicate ChoicesCarried(choices: set<set<PackageId>>, musts': set<PackageId>, choices': set<set<PackageId>>) {
    forall choice :: choice in choices ==> MetOrDeferred(choice, musts', choices')
  }

  lemma ProcessedCarried(u: Universe, p: PackageId, suite: set<PackageId>, musts: set<PackageId>, never: set<PackageId>,
                         choices: set<set<PackageId>>, suite': set<PackageId>, musts': set<PackageId>,
                         never': set<PackageId>, choices': set<set<PackageId>>)
    requires Processed(u, p, suite, musts, never, choices)
    requires suite' <= suite && musts <= musts' && never <= never' && ChoicesCarried(choices, musts', choices')
    ensures Processed(u, p, suite', musts', never', choices')
  {
    forall clause | clause in u.DependenciesOf(p)
      ensures MetOrDeferred(clause, musts', choices')
    {
      assert MetOrDeferred(clause, musts, choices);
      if !Hits(clause, musts) {
        var choice :| choice in choices && choice <= clause;
        assert MetOrDeferred(choice, musts', choices');
        assert Hits(choice, musts') ==> Hits(clause, musts');
      }
    }
  }

  lemma SubsetCarried(choices: set<set<PackageId>>, musts': set<PackageId>, choices': set<set<PackageId>>)
    requires choices <= choices'
    ensures ChoicesCarried(choices, musts', choices')
  {
  }

  lemma ProcessedMonotone(u: Universe, p: PackageId, suite: set<PackageId>, musts: set<PackageId>, never: set<PackageId>,
                          choices: set<set<PackageId>>, suite': set<PackageId>, musts': set<PackageId>,
                          never': set<PackageId>, choices': set<set<PackageId>>)
    requires Processed(u, p, suite, musts, never, choices)
    requires suite' <= suite && musts <= musts' && never <= never' && choices <= choices'
    ensures Processed(u, p, suite', musts', never', choices')
  {
    SubsetCarried(choices, musts', choices');
    ProcessedCarried(u, p, suite, musts, never, choices, suite', musts', never', choices');
  }

  /** Recording the conflicts of a package that is not ruled out itself. */
  lemma ExaminedConflicts(u: Universe, suite: set<PackageId>, done: set<PackageId>, never0: set<PackageId>,
                          musts: set<PackageId>, never: set<PackageId>, choices: set<set<PackageId>>, cur: PackageId)
    requires WellFormed(u) && Examined(u, suite, done, never0, musts, never, choices)
    requires u.Knows(cur) && (u.NegativeDependenciesOf(cur) == {} || cur !in never)
    ensures var never' := never + u.NegativeDependenciesOf(cur) * suite;
      && (forall p :: p in done ==> Processed(u, p, suite, musts, never', choices))
      && (forall p :: p in never' && p !in never0 ==> ConflictsWith(u, p, done + {cur}))
      && (cur !in u.broken ==> Consistent(u, suite, done + {cur}))
  {
    var never' := never + u.NegativeDependenciesOf(cur) * suite;
    forall p | p in done {
      ProcessedMonotone(u, p, suite, musts, never, choices, suite, musts, never', choices);
    }
    forall p | p in never' && p !in never0
      ensures ConflictsWith(u, p, done + {cur})
    {
      if p in never {
        assert ConflictsWith(u, p, done);
      } else {
        assert p in u.NegativeDependenciesOf(cur) && cur in done + {cur};
      }
    }
    forall p, q | cur !in u.broken && p in done + {cur} && q in done + {cur} && p in suite && q in suite
      ensures q !in u.NegativeDependenciesOf(p)
    {
      assert p in done ==> Processed(u, p, suite, musts, never, choices);
      assert q in done ==> Processed(u, q, suite, musts, never, choices);
      assert q in u.NegativeDependenciesOf(p) ==> p in u.NegativeDependenciesOf(q);
    }
  }

  /** The package itself, once all its clauses are met or deferred. */
  lemma ExaminedStep(u: Universe, suite: set<PackageId>, done: set<PackageId>, never0: set<PackageId>,
                     musts: set<PackageId>, never: set<PackageId>, choices: set<set<PackageId>>, cur: PackageId)
    requires WellFormed(u) && u.Knows(cur) && never0 <= never
    requires forall p :: p in done ==> Processed(u, p, suite, musts, never, choices)
    requires forall p :: p in done ==> u.NegativeDependenciesOf(p) == {} || p !in never0
    requires forall p :: p in never && p !in never0 ==> ConflictsWith(u, p, done + {cur})
    requires cur !in u.broken ==> Consistent(u, suite, done + {cur})
    requires u.NegativeDependenciesOf(cur) == {} || cur !in never0
    requires u.NegativeDependenciesOf(cur) * suite <= never
    requires ClausesMet(u, cur, musts, choices) && {} !in choices
    ensures Examined(u, suite, done + {cur}, never0, musts, never, choices)
  {
    assert cur in u.broken ==> MetOrDeferred({}, musts, choices);
    assert !Hits({}, musts);
    forall choice | choice in choices
      ensures !(choice <= {})
    {
      assert choice <= {} ==> choice == {};
    }
  }

  /** A closed search position is an install set exactly when it has no conflicting pair. */
  lemma ClosedPosition(u: Universe, start: set<PackageId>, suite: set<PackageId>, musts: set<PackageId>, never: set<PackageId>)
    requires OnlyUnclosedDropped(u, start, suite) && musts <= start
    requires forall p :: p in musts ==> Processed(u, p, suite, musts, never, {})
    ensures DependencyClosed(u, musts) && musts <= suite
    ensures Consistent(u, suite, musts) ==> InstallSet(u, suite, musts)
    ensures SomeConflict(u, musts) ==> !InstallSet(u, suite, musts)
  {
    forall p | p in musts
      ensures Satisfied(u, p, musts)
    {
      assert Processed(u, p, suite, musts, never, {});
      forall clause | clause in u.DependenciesOf(p)
        ensures Hits(clause, musts)
      {
        assert MetOrDeferred(clause, musts, {});
      }
    }
  }

  /** Where the search stands with respect to soundness.  `clean` records whether any shortcut was
      taken that added a package in conflict with one of `musts`. */
  ghost predicate SoundSoFar(u: Universe, start: set<PackageId>, suite: set<PackageId>, musts: set<PackageId>,
                             check: set<PackageId>, never: set<PackageId>, choices: set<set<PackageId>>, clean: bool)
  {
    && musts <= start
    && (forall choice :: choice in choices ==> choice <= start && choice != {})
    && (forall p :: p in musts && p !in check ==> Processed(u, p, suite, musts, never, choices))
    && (clean ==> Consistent(u, suite, musts - check))
    && (!clean ==> SomeConflict(u, musts))
  }

  lemma SomeConflictGrows(u: Universe, musts: set<PackageId>, musts': set<PackageId>)
    requires SomeConflict(u, musts) && musts <= musts'
    ensures SomeConflict(u, musts')
  {
    var p :| p in musts && ConflictsWith(u, p, musts);
    assert ConflictsWith(u, p, musts');
  }

  /** Moving on without examining anything new. */
  lemma SoundCarried(u: Universe, start: set<PackageId>, suite: set<PackageId>, musts: set<PackageId>, check: set<PackageId>,
                     never: set<PackageId>, choices: set<set<PackageId>>, clean: bool,
                     suite': set<PackageId>, musts': set<PackageId>, check': set<PackageId>,
                     never': set<PackageId>, choices': set<set<PackageId>>)
    requires SoundSoFar(u, start, suite, musts, check, never, choices, clean)
    requires suite' <= suite && musts <= musts' <= start && musts' - check' <= musts - check
    requires never <= never' && ChoicesCarried(choices, musts', choices')
    requires forall choice :: choice in choices' ==> choice <= start && choice != {}
    ensures SoundSoFar(u, start, suite', musts', check', never', choices', clean)
  {
    forall p | p in musts' && p !in check'
      ensures Processed(u, p, suite', musts', never', choices')
    {
      assert p in musts - check;
      ProcessedCarried(u, p, suite, musts, never, choices, suite', musts', never', choices');
    }
    if !clean {
      SomeConflictGrows(u, musts, musts');
    }
  }

  ghost predicate NoConflictBetween(u: Universe, suite: set<PackageId>, a: set<PackageId>, b: set<PackageId>) {
    forall p, q :: p in a && q in b && p in suite && q in suite ==> q !in u.NegativeDependenciesOf(p)
  }

  /** Joining what was examined before with a group that has been examined just now. */
  lemma SoundJoin(u: Universe, start: set<PackageId>, suite: set<PackageId>, musts: set<PackageId>, check: set<PackageId>,
                  never: set<PackageId>, choices: set<set<PackageId>>, clean: bool,
                  suite': set<PackageId>, done: set<PackageId>, never1: set<PackageId>, never2: set<PackageId>,
                  choices2: set<set<PackageId>>, musts': set<PackageId>,
                  never': set<PackageId>, choices': set<set<PackageId>>, clean': bool)
    requires WellFormed(u)
    requires SoundSoFar(u, start, suite, musts, check, never, choices, clean)
    requires suite' <= suite && musts <= musts' <= start && musts' - (musts - check) <= done <= musts'
    requires Examined(u, suite', done, never1, musts', never2, choices2)
    requires never <= never' && never2 <= never' && choices2 <= choices' && ChoicesCarried(choices, musts', choices')
    requires forall choice :: choice in choices' ==> choice <= start && choice != {}
    requires clean' ==> clean && NoConflictBetween(u, suite', musts - check, done)
    requires !clean' ==> SomeConflict(u, musts')
    ensures SoundSoFar(u, start, suite', musts', {}, never', choices', clean')
  {
    forall p | p in musts'
      ensures Processed(u, p, suite', musts', never', choices')
    {
      if p in done {
        ProcessedMonotone(u, p, suite', musts', never2, choices2, suite', musts', never', choices');
      } else {
        assert p in musts - check;
        ProcessedCarried(u, p, suite, musts, never, choices, suite', musts', never', choices');
      }
    }
    if clean' {
      forall p, q | p in musts' && q in musts' && p in suite' && q in suite'
        ensures q !in u.NegativeDependenciesOf(p)
      {
        JoinPair(u, suite', musts - check, done, p, q);
      }
    }
  }

  lemma JoinPair(u: Universe, suite: set<PackageId>, old': set<PackageId>, done: set<PackageId>, p: PackageId, q: PackageId)
    requires ConflictsSymmetric(u)
    requires Consistent(u, suite, old') && Consistent(u, suite, done) && NoConflictBetween(u, suite, old', done)
    requires p in suite && q in suite
    requires p in old' || p in done
    requires q in old' || q in done
    requires u.Knows(p) && p !in u.broken && u.Knows(q) && q !in u.broken
    ensures q !in u.NegativeDependenciesOf(p)
  {
    assert q in u.NegativeDependenciesOf(p) ==> p in u.NegativeDependenciesOf(q);
  }

  /** A group that passed the test against `never` does not conflict with what is recorded there. */
  lemma RecordedKeepsApart(u: Universe, suite: set<PackageId>, suite': set<PackageId>, old': set<PackageId>,
                           musts: set<PackageId>, never: set<PackageId>, choices: set<set<PackageId>>,
                           done: set<PackageId>, musts': set<PackageId>, never': set<PackageId>, choices': set<set<PackageId>>)
    requires WellFormed(u) && suite' <= suite
    requires forall p :: p in old' ==> Processed(u, p, suite, musts, never, choices)
    requires Examined(u, suite', done, never, musts', never', choices')
    ensures NoConflictBetween(u, suite', old', done)
  {
    forall p, q | p in old' && q in done && p in suite' && q in suite'
      ensures q !in u.NegativeDependenciesOf(p)
    {
      assert Processed(u, p, suite, musts, never, choices);
      assert Processed(u, q, suite', musts', never', choices');
      assert q in u.NegativeDependenciesOf(p) ==> p in u.NegativeDependenciesOf(q);
    }
  }

  /** Examined from no recorded conflicts, a group conflicts with `musts` exactly when the conflicts
      it recorded meet `musts`. */
  lemma FreshConflicts(u: Universe, suite: set<PackageId>, old': set<PackageId>,
                       done: set<PackageId>, musts': set<PackageId>, never': set<PackageId>, choices': set<set<PackageId>>)
    requires WellFormed(u) && Examined(u, suite, done, {}, musts', never', choices')
    requires forall p :: p in old' ==> u.Knows(p) && p !in u.broken
    ensures old' !! never' ==> NoConflictBetween(u, suite, old', done)
    ensures !(old' !! never') && old' + done <= musts' ==> SomeConflict(u, musts')
  {
    forall p, q | old' !! never' && p in old' && q in done && p in suite && q in suite
      ensures q !in u.NegativeDependenciesOf(p)
    {
      assert Processed(u, q, suite, musts', never', choices');
      assert q in u.NegativeDependenciesOf(p) ==> p in u.NegativeDependenciesOf(q);
    }
    if !(old' !! never') && old' + done <= musts' {
      var p :| p in old' && p in never';
      assert ConflictsWith(u, p, done);
      var q :| q in done && p in u.NegativeDependenciesOf(q);
      assert ConflictsWith(u, p, musts');
    }
  }

  /** The conflicts that the unbroken packages of `done` have within the suite are in `never`. */
  ghost predicate ConflictsRecorded(u: Universe, suite: set<PackageId>, done: set<PackageId>, never: set<PackageId>) {
    forall p :: p in done && p !in u.broken ==> u.NegativeDependenciesOf(p) * suite <= never
  }

  lemma RecordedAfterExamining(u: Universe, suite: set<PackageId>, old': set<PackageId>, never: set<PackageId>,
                               suite': set<PackageId>, done: set<PackageId>, never1: set<PackageId>,
                               musts2: set<PackageId>, never2: set<PackageId>, choices2: set<set<PackageId>>,
                               musts': set<PackageId>, never': set<PackageId>)
    requires ConflictsRecorded(u, suite, old', never) && suite' <= suite
    requires Examined(u, suite', done, never1, musts2, never2, choices2)
    requires never <= never' && never2 <= never' && musts' <= old' + done
    ensures ConflictsRecorded(u, suite', musts', never')
  {
    forall p | p in musts' && p !in u.broken
      ensures u.NegativeDependenciesOf(p) * suite' <= never'
    {
      if p in done {
        assert Processed(u, p, suite', musts2, never2, choices2);
      } else {
        assert p in old';
      }
    }
  }

  /** Were a supported model to hold `done`, it could not meet the conflicts that `done` recorded. */
  lemma NoGoAvoided(u: Universe, full: set<PackageId>, suite: set<PackageId>, cacheBroken: set<PackageId>,
                    arch: string, region: set<PackageId>, m: set<PackageId>,
                    musts: set<PackageId>, never: set<PackageId>, choices: set<set<PackageId>>,
                    done: set<PackageId>, musts': set<PackageId>, never': set<PackageId>, choices': set<set<PackageId>>)
    requires WellFormed(u) && CacheBrokenSound(u, full, cacheBroken) && suite + cacheBroken == full
    requires forall p :: p in musts ==> u.Knows(p)
    requires forall p :: p in done ==> p.architecture == arch
    requires Supports(u, full, arch, region, m, {}, musts, never, choices)
    requires ConflictsRecorded(u, suite, musts, never)
    requires Examined(u, suite, done, {}, musts', never', choices')
    requires done <= m
    ensures musts !! never'
  {
    forall p | p in musts
      ensures !ConflictsWith(u, p, done)
    {
      forall x | x in done
        ensures p !in u.NegativeDependenciesOf(x)
      {
        ModelInSuite(u, full, suite, cacheBroken, arch, region, m, x);
        assert p in u.NegativeDependenciesOf(x) ==> x in u.NegativeDependenciesOf(p) * suite;
      }
    }
  }

  /** The options that remain of a choice still meet a supported model. */
  lemma RemainHit(u: Universe, full: set<PackageId>, cacheBroken: set<PackageId>,
                  arch: string, region: set<PackageId>, m: set<PackageId>,
                  choice: set<PackageId>, musts: set<PackageId>, never: set<PackageId>, choices: set<set<PackageId>>)
    requires CacheBrokenSound(u, full, cacheBroken) && RegionClosed(u, arch, region)
    requires Supports(u, full, arch, region, m, {}, musts, never, choices)
    requires choice in choices && choice <= region
    ensures Hits(choice - never - cacheBroken, m)
  {
    var i :| i in choice && i in m;
    assert Witness(u, full, i, m);
  }

  /** Committing to the last option that remains, or keeping the narrowed choice. */
  lemma RemainSupports(u: Universe, full: set<PackageId>, arch: string, region: set<PackageId>, m: set<PackageId>,
                       check: set<PackageId>, musts: set<PackageId>, never: set<PackageId>, rebuild: set<set<PackageId>>,
                       remain: set<PackageId>)
    requires WellFormed(u) && Supports(u, full, arch, region, m, check, musts, never, rebuild)
    requires Hits(remain, m)
    ensures forall x :: remain == {x} ==> Supports(u, full, arch, region, m, check + {x}, musts + {x}, never, rebuild)
    ensures Supports(u, full, arch, region, m, check, musts, never, rebuild + {remain})
  {
    forall x | remain == {x}
      ensures Supports(u, full, arch, region, m, check + {x}, musts + {x}, never, rebuild)
    {
      BrokenInNoClosedSet(u, m, x);
      CommitOrDefer(u, full, arch, region, m, check, musts, never, rebuild, x, remain);
    }
  }

  /** The choices `done` have been pruned: `musts` took the forced options, `rebuild` has the rest. */
  ghost predicate Pruned(choices: set<set<PackageId>>, done: set<set<PackageId>>, musts0: set<PackageId>,
                         musts: set<PackageId>, rebuild: set<set<PackageId>>)
  {
    && musts0 <= musts
    && (forall choice :: choice in rebuild ==> |choice| > 1 && exists c :: c in choices && choice <= c)
    && (forall p :: p in musts && p !in musts0 ==> exists c :: c in choices && p in c)
    && (musts == musts0 ==> forall choice :: choice in rebuild ==> choice !! musts)
    && ChoicesCarried(done, musts, rebuild)
  }

  lemma PrunedMet(choices: set<set<PackageId>>, done: set<set<PackageId>>, musts0: set<PackageId>,
                  musts: set<PackageId>, rebuild: set<set<PackageId>>, choice: set<PackageId>)
    requires Pruned(choices, done, musts0, musts, rebuild) && Hits(choice, musts)
    ensures Pruned(choices, done + {choice}, musts0, musts, rebuild)
  {
    assert MetOrDeferred(choice, musts, rebuild);
  }

  lemma PrunedCommit(choices: set<set<PackageId>>, done: set<set<PackageId>>, musts0: set<PackageId>,
                     musts: set<PackageId>, rebuild: set<set<PackageId>>, choice: set<PackageId>, x: PackageId)
    requires Pruned(choices, done, musts0, musts, rebuild)
    requires choice in choices && x in choice && x !in musts
    ensures Pruned(choices, done + {choice}, musts0, musts + {x}, rebuild)
  {
    forall c | c in done + {choice}
      ensures MetOrDeferred(c, musts + {x}, rebuild)
    {
      assert c in done ==> MetOrDeferred(c, musts, rebuild);
    }
    assert x in musts + {x};
  }

  lemma PrunedDefer(choices: set<set<PackageId>>, done: set<set<PackageId>>, musts0: set<PackageId>,
                    musts: set<PackageId>, rebuild: set<set<PackageId>>, choice: set<PackageId>, remain: set<PackageId>)
    requires Pruned(choices, done, musts0, musts, rebuild)
    requires choice in choices && remain <= choice && choice !! musts && |remain| > 1
    ensures Pruned(choices, done + {choice}, musts0, musts, rebuild + {remain})
  {
    forall c | c in done + {choice}
      ensures MetOrDeferred(c, musts, rebuild + {remain})
    {
      assert c in done ==> MetOrDeferred(c, musts, rebuild);
    }
  }

  ghost predicate ChoicesWithin(choices: set<set<PackageId>>, s: set<PackageId>) {
    forall choice :: choice in choices ==> choice <= s && choice != {}
  }

  /** A position of the search between two rounds: `check` is what is still to be examined. */
  ghost predicate Position(u: Universe, suite: set<PackageId>, full: set<PackageId>, start: set<PackageId>,
                           region: set<PackageId>, musts: set<PackageId>, check: set<PackageId>, never: set<PackageId>,
                           choices: set<set<PackageId>>, clean: bool)
  {
    && musts <= full
    && ChoicesWithin(choices, region * full)
    && ConflictsRecorded(u, suite, musts - check, never)
    && (u.essential == {} ==> SoundSoFar(u, start, suite, musts, check, never, choices, clean))
  }

  /** What a positive verdict means without essential packages: the final `musts` is closed under
      dependencies, and it is an install set exactly when no shortcut was taken that added a
      package in conflict with what was already selected. */
  ghost predicate Answered(u: Universe, suite: set<PackageId>, found: set<PackageId>, clean: bool) {
    u.essential == {} ==>
      && DependencyClosed(u, found)
      && found <= suite
      && (clean <==> InstallSet(u, suite, found))
  }

  /** The position after a choice was met, narrowed or dropped, possibly with a smaller suite. */
  lemma PositionCarried(u: Universe, suite: set<PackageId>, full: set<PackageId>, start: set<PackageId>,
                        region: set<PackageId>, musts: set<PackageId>, check: set<PackageId>, never: set<PackageId>,
                        choices: set<set<PackageId>>, clean: bool,
                        suite': set<PackageId>, musts': set<PackageId>, check': set<PackageId>,
                        never': set<PackageId>, choices': set<set<PackageId>>)
    requires Position(u, suite, full, start, region, musts, check, never, choices, clean)
    requires suite' <= suite && musts <= musts' <= full && musts' - check' <= musts - check && never <= never'
    requires u.essential == {} ==> musts' <= start
    requires ChoicesWithin(choices', region * full)
    requires u.essential == {} ==> ChoicesWithin(choices', start)
    requires ChoicesCarried(choices, musts', choices')
    ensures Position(u, suite', full, start, region, musts', check', never', choices', clean)
  {
    if u.essential == {} {
      SoundCarried(u, start, suite, musts, check, never, choices, clean, suite', musts', check', never', choices');
    }
  }

  /** The position after examining `check`, which must have passed the test against `never`. */
  lemma PositionExamined(u: Universe, suite: set<PackageId>, full: set<PackageId>, start: set<PackageId>,
                         region: set<PackageId>, musts: set<PackageId>, check: set<PackageId>, never: set<PackageId>,
                         choices: set<set<PackageId>>, clean: bool,
                         suite': set<PackageId>, musts': set<PackageId>, never': set<PackageId>, choices': set<set<PackageId>>)
    requires WellFormed(u) && Position(u, suite, full, start, region, musts, check, never, choices, clean)
    requires check <= musts && suite' <= suite && start <= full
    requires musts <= musts' && musts' - musts <= start
    requires choices <= choices' && ChoicesWithin(choices' - choices, start * region)
    requires Examined(u, suite', check + (musts' - musts), never, musts', never', choices')
    ensures Position(u, suite', full, start, region, musts', {}, never', choices', clean)
  {
    var done := check + (musts' - musts);
    assert musts' == musts + (musts' - musts);
    forall choice | choice in choices'
      ensures choice <= region * full && choice != {}
    {
      assert choice in choices || choice in choices' - choices;
    }
    RecordedAfterExamining(u, suite, musts - check, never, suite', done, never, musts', never', choices', musts', never');
    if u.essential == {} {
      RecordedKeepsApart(u, suite, suite', musts - check, musts, never, choices, done, musts', never', choices');
      SubsetCarried(choices, musts', choices');
      if !clean {
        SomeConflictGrows(u, musts, musts');
      }
      forall choice | choice in choices'
        ensures choice <= start && choice != {}
      {
        assert choice in choices || choice in choices' - choices;
      }
      SoundJoin(u, start, suite, musts, check, never, choices, clean,
                suite', done, never, never', choices', musts', never', choices', clean);
    }
  }

  /** The position after an option `p` of `choice` has been examined on its own, from no recorded
      conflicts, and joined to the selection. */
  lemma PositionJoined(u: Universe, suite: set<PackageId>, full: set<PackageId>, start: set<PackageId>,
                       region: set<PackageId>, musts: set<PackageId>, never: set<PackageId>,
                       choices: set<set<PackageId>>, choice: set<PackageId>, p: PackageId, clean: bool,
                       suite': set<PackageId>, musts': set<PackageId>, never2: set<PackageId>, choices2: set<set<PackageId>>)
    requires WellFormed(u) && Position(u, suite, full, start, region, musts, {}, never, choices + {choice}, clean)
    requires p in choice && suite' <= suite && start <= full
    requires musts + {p} <= musts' && musts' - (musts + {p}) <= start
    requires ChoicesWithin(choices2, start * region)
    requires Examined(u, suite', {p} + (musts' - (musts + {p})), {}, musts', never2, choices2)
    ensures Position(u, suite', full, start, region, musts', {}, never + never2, choices + choices2, clean && musts !! never2)
  {
    var done := {p} + (musts' - (musts + {p}));
    assert choice in choices + {choice};
    assert musts' == musts + done;
    RecordedAfterExamining(u, suite, musts, never, suite', done, {}, musts', never2, choices2, musts', never + never2);
    if u.essential == {} {
      assert Hits(choice, musts');
      forall c | c in choices + {choice}
        ensures MetOrDeferred(c, musts', choices + choices2)
      {
      }
      FreshConflicts(u, suite', musts, done, musts', never2, choices2);
      if !clean {
        SomeConflictGrows(u, musts, musts');
      }
      SoundJoin(u, start, suite, musts, {}, never, choices + {choice}, clean,
                suite', done, {}, never2, choices2, musts', never + never2, choices + choices2, clean && musts !! never2);
    }
  }

  lemma OptionSupported(u: Universe, full: set<PackageId>, arch: string, region: set<PackageId>, m: set<PackageId>,
                        p: PackageId, musts: set<PackageId>, never: set<PackageId>, choices: set<set<PackageId>>)
    requires BrokenNulled(u) && Supports(u, full, arch, region, m, {}, musts, never, choices) && p in m
    ensures Supports(u, full, arch, region, m, {p}, musts + {p}, {}, {})
  {
    BrokenInNoClosedSet(u, m, p);
  }

  /** Nothing was examined: the model need not hold the option that was committed to. */
  lemma CommitSupports(u: Universe, full: set<PackageId>, arch: string, region: set<PackageId>, m: set<PackageId>,
                       musts: set<PackageId>, never: set<PackageId>, choices: set<set<PackageId>>, choice: set<PackageId>,
                       suite: set<PackageId>, done: set<PackageId>, musts': set<PackageId>, never2: set<PackageId>,
                       choices2: set<set<PackageId>>)
    requires Supports(u, full, arch, region, m, {}, musts, never, choices + {choice})
    requires Examined(u, suite, done, {}, musts', never2, choices2) && musts' <= musts + done
    ensures Supports(u, full, arch, region, m, {}, musts', never, choices)
  {
    forall p | p in musts'
      ensures p !in u.broken
    {
      assert p in done ==> Processed(u, p, suite, musts', never2, choices2);
    }
  }

  /** A model that holds the option is supported by the position of the recursive search. */
  lemma RecursionSupports(u: Universe, full: set<PackageId>, arch: string, region: set<PackageId>, m: set<PackageId>,
                          musts: set<PackageId>, never: set<PackageId>, choices: set<set<PackageId>>, p: PackageId,
                          musts': set<PackageId>, never2: set<PackageId>, choices2: set<set<PackageId>>)
    requires Supports(u, full, arch, region, m, {}, musts, never, choices) && p in m
    requires Supports(u, full, arch, region, m, {}, musts', never2, choices2)
    ensures Supports(u, full, arch, region, m, {p}, musts', never2 + never, choices2 + choices)
  {
  }

  /** With all other options excluded a supported model holds the last one. */
  lemma LastOption(u: Universe, full: set<PackageId>, arch: string, region: set<PackageId>, m: set<PackageId>,
                   musts: set<PackageId>, never: set<PackageId>, choices: set<set<PackageId>>, choice: set<PackageId>,
                   last: PackageId)
    requires BrokenNulled(u) && Supports(u, full, arch, region, m, {}, musts, never, choices + {choice})
    requires choice * m <= {last}
    ensures Supports(u, full, arch, region, m, {last}, musts + {last}, never, choices)
  {
    assert choice in choices + {choice};
    var x :| x in choice && x in m;
    assert x in choice * m;
    BrokenInNoClosedSet(u, m, last);
  }

  lemma PrunedWithin(choices: set<set<PackageId>>, done: set<set<PackageId>>, musts0: set<PackageId>,
                     musts: set<PackageId>, rebuild: set<set<PackageId>>, s: set<PackageId>)
    requires Pruned(choices, done, musts0, musts, rebuild) && ChoicesWithin(choices, s)
    ensures ChoicesWithin(rebuild, s) && musts - musts0 <= s
  {
    forall choice | choice in rebuild
      ensures choice <= s && choice != {}
    {
      var c :| c in choices && choice <= c;
      assert |choice| > 1;
    }
    forall p | p in musts - musts0
      ensures p in s
    {
      var c :| c in choices && p in c;
    }
  }

  lemma PositionPruned(u: Universe, suite: set<PackageId>, full: set<PackageId>, start: set<PackageId>,
                       region: set<PackageId>, musts: set<PackageId>, never: set<PackageId>, choices: set<set<PackageId>>,
                       clean: bool, musts': set<PackageId>, rebuild: set<set<PackageId>>)
    requires Position(u, suite, full, start, region, musts, {}, never, choices, clean)
    requires Pruned(choices, choices, musts, musts', rebuild)
    ensures Position(u, suite, full, start, region, musts', musts' - musts, never, rebuild, clean)
    ensures musts' - musts <= region * full
  {
    PrunedWithin(choices, choices, musts, musts', rebuild, region * full);
    if u.essential == {} {
      PrunedWithin(choices, choices, musts, musts', rebuild, start);
    }
    assert musts' == musts + (musts' - musts);
    PositionCarried(u, suite, full, start, region, musts, {}, never, choices, clean,
                    suite, musts', musts' - musts, never, rebuild);
  }

  /** Nothing left to examine or to choose. */
  lemma PositionFinal(u: Universe, suite: set<PackageId>, full: set<PackageId>, start: set<PackageId>,
                      region: set<PackageId>, musts: set<PackageId>, never: set<PackageId>, clean: bool)
    requires OnlyUnclosedDropped(u, start, suite)
    requires Position(u, suite, full, start, region, musts, {}, never, {}, clean)
    ensures Answered(u, suite, musts, clean)
  {
    if u.essential == {} {
      ClosedPosition(u, start, suite, musts, never);
      assert musts - {} == musts;
    }
  }

  /** The last option of a choice is committed to without a test. */
  lemma PositionLast(u: Universe, suite: set<PackageId>, full: set<PackageId>, start: set<PackageId>,
                     region: set<PackageId>, musts: set<PackageId>, never: set<PackageId>, choices: set<set<PackageId>>,
                     choice: set<PackageId>, last: PackageId, clean: bool)
    requires Position(u, suite, full, start, region, musts, {}, never, choices + {choice}, clean)
    requires last in choice
    ensures Position(u, suite, full, start, region, musts + {last}, {last}, never, choices, clean)
    ensures last in region
  {
    var musts' := musts + {last};
    assert choice in choices + {choice};
    forall c | c in choices + {choice}
      ensures MetOrDeferred(c, musts', choices)
    {
      assert c == choice ==> Hits(c, musts');
    }
    PositionCarried(u, suite, full, start, region, musts, {}, never, choices + {choice}, clean,
                    suite, musts', {last}, never, choices);
  }

  /** Giving up on a package outside the model. */
  lemma NeverGrows(u: Universe, full: set<PackageId>, arch: string, region: set<PackageId>, m: set<PackageId>,
                   musts: set<PackageId>, never: set<PackageId>, choices: set<set<PackageId>>, p: PackageId,
                   never': set<PackageId>)
    requires Supports(u, full, arch, region, m, {}, musts, never, choices) && p !in m
    requires never' <= never + {p}
    ensures Supports(u, full, arch, region, m, {}, musts, never', choices)
  {
  }

  /** What one option of a choice turned out to be. */
  datatype Outcome = NoGo | GivenUp | Committed | Solved
}
