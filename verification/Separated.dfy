/** Suites in which no shortcut of the search can go wrong.

    A shortcut goes wrong when the selection meets a package that was given up before.  Only alternatives
    are ever given up, so a suite whose alternatives have no conflicts is safe. */
module SeparatedSuites {
  import opened Universes
  import opened Search
  import opened SearchRuns

  /** `q` is one of several packages of the suite that satisfy a clause of a package of the suite. */
  ghost predicate Alternative(u: Universe, full: set<PackageId>, q: PackageId) {
    exists r, clause :: r in full && clause in u.DependenciesOf(r) && q in clause * full && |clause * full| > 1
  }

  /** No alternative conflicts with a package of the suite. */
  ghost predicate Separated(u: Universe, full: set<PackageId>) {
    forall q :: Alternative(u, full, q) ==> u.NegativeDependenciesOf(q) * full == {}
  }

  // ---------------------------------------------------------------------------------------------
  // What a move may change
  // ---------------------------------------------------------------------------------------------

  ghost predicate Alternatives(u: Universe, full: set<PackageId>, choice: set<PackageId>) {
    forall q :: q in choice ==> q in full && Alternative(u, full, q)
  }

  /** The suite shrinks and the selection grows; conflicts come from the selection, and choices are among
      alternatives. */
  ghost predicate Moved(u: Universe, full: set<PackageId>, s: Spot, t: Spot) {
    && t.suite <= s.suite && s.musts <= t.musts
    && (forall q :: q in t.never ==> q in s.never || ConflictsWith(u, q, t.musts))
    && (forall choice :: choice in t.choices ==> choice in s.choices || Alternatives(u, full, choice))
  }

  /** The selection is in the suite, and what is to be examined is selected. */
  ghost predicate Within(full: set<PackageId>, s: Spot) {
    s.suite <= full && s.musts <= full && forall p :: p in s.check ==> p in s.musts
  }

  lemma MovedTransitive(u: Universe, full: set<PackageId>, s: Spot, mid: Spot, t: Spot)
    requires Moved(u, full, s, mid) && Moved(u, full, mid, t)
    ensures Moved(u, full, s, t)
  {
    forall q | q in mid.never && ConflictsWith(u, q, mid.musts)
      ensures ConflictsWith(u, q, t.musts)
    {
    }
  }

  lemma ClauseMoved(u: Universe, full: set<PackageId>, cur: PackageId, clause: set<PackageId>, s: Spot, t: Spot, ok: bool)
    requires ClauseMove(u, cur, clause, s, t, ok) && clause in u.DependenciesOf(cur) && cur in full && Within(full, s)
    ensures Moved(u, full, s, t) && Within(full, t)
  {
    if !Hits(clause, s.musts) && ok {
      var candidates := clause * s.suite - s.never;
      var kept :| Narrowed(u, candidates, kept) && Chosen(s, kept, t);
      assert kept <= clause * full;
      if |kept| > 1 {
        Larger(kept, clause * full);
        forall q | q in kept
          ensures Alternative(u, full, q)
        {
        }
        assert Alternatives(u, full, kept);
      }
    }
  }

  lemma {:induction false} Larger(a: set<PackageId>, b: set<PackageId>)
    requires a <= b
    ensures |a| <= |b|
  {
    if a != {} {
      var p :| p in a;
      Larger(a - {p}, b - {p});
    }
  }

  lemma {:induction false} ClausesMoved(u: Universe, full: set<PackageId>, cur: PackageId, done: set<set<PackageId>>, s: Spot, t: Spot)
    requires ClausesDone(u, cur, done, s, t) && done <= u.DependenciesOf(cur) && cur in full && Within(full, s)
    ensures Moved(u, full, s, t) && Within(full, t)
    decreases |done|
  {
    if done != {} {
      var clause, mid :| clause in done && ClausesDone(u, cur, done - {clause}, s, mid) && ClauseMove(u, cur, clause, mid, t, true);
      ClausesMoved(u, full, cur, done - {clause}, s, mid);
      ClauseMoved(u, full, cur, clause, mid, t, true);
      MovedTransitive(u, full, s, mid, t);
    }
  }

  lemma ClausesMoveMoved(u: Universe, full: set<PackageId>, cur: PackageId, s: Spot, t: Spot, ok: bool)
    requires ClausesMove(u, cur, s, t, ok) && cur in full && Within(full, s)
    ensures Moved(u, full, s, t) && Within(full, t)
  {
    if ok {
      ClausesMoved(u, full, cur, u.DependenciesOf(cur), s, t);
    } else {
      var done, clause, mid :| done <= u.DependenciesOf(cur) && clause in u.DependenciesOf(cur) - done
        && ClausesDone(u, cur, done, s, mid) && ClauseMove(u, cur, clause, mid, t, false);
      ClausesMoved(u, full, cur, done, s, mid);
      ClauseMoved(u, full, cur, clause, mid, t, false);
      MovedTransitive(u, full, s, mid, t);
    }
  }

  lemma PackageMoved(u: Universe, full: set<PackageId>, s: Spot, t: Spot, ok: bool)
    requires PackageMove(u, s, t, ok) && Within(full, s)
    ensures Moved(u, full, s, t) && Within(full, t)
  {
    var n := |s.check| - 1;
    var cur, popped := s.check[n], s.(check := s.check[..n]);
    if u.NegativeDependenciesOf(cur) == {} || cur !in s.never {
      var noted := popped.(never := s.never + u.NegativeDependenciesOf(cur) * s.suite);
      assert cur in s.musts;
      ClausesMoveMoved(u, full, cur, noted, t, ok);
      MovedTransitive(u, full, s, noted, t);
    }
  }

  lemma {:induction false} PathMoved(u: Universe, full: set<PackageId>, path: seq<Spot>, n: nat)
    requires LoopPath(u, path) && n < |path| && Within(full, path[0])
    ensures Moved(u, full, path[0], path[n]) && Within(full, path[n])
  {
    if n > 0 {
      PathMoved(u, full, path, n - 1);
      assert PathStep(u, path, n - 1);
      PackageMoved(u, full, path[n - 1], path[n], true);
      MovedTransitive(u, full, path[0], path[n - 1], path[n]);
    }
  }

  lemma ReachesMoved(u: Universe, full: set<PackageId>, s: Spot, t: Spot)
    requires Reaches(u, s, t) && Within(full, s)
    ensures Moved(u, full, s, t) && Within(full, t)
  {
    var path :| LoopPath(u, path) && path[0] == s && path[|path| - 1] == t;
    PathMoved(u, full, path, |path| - 1);
  }

  lemma LoopMoved(u: Universe, full: set<PackageId>, s: Spot, t: Spot, ok: bool)
    requires LoopMove(u, s, t, ok) && Within(full, s)
    ensures Moved(u, full, s, t) && Within(full, t)
  {
    if ok {
      ReachesMoved(u, full, s, t);
    } else {
      var mid :| Reaches(u, s, mid) && PackageMove(u, mid, t, false);
      ReachesMoved(u, full, s, mid);
      PackageMoved(u, full, mid, t, false);
      MovedTransitive(u, full, s, mid, t);
    }
  }

  // ---------------------------------------------------------------------------------------------
  // What is ruled out
  // ---------------------------------------------------------------------------------------------

  /** Only conflicts of the selection and alternatives are ruled out, and choices are among alternatives. */
  ghost predicate Blamed(u: Universe, full: set<PackageId>, s: Spot) {
    && Within(full, s)
    && (forall q :: q in s.never ==> ConflictsWith(u, q, s.musts) || Alternative(u, full, q))
    && (forall choice :: choice in s.choices ==> Alternatives(u, full, choice))
  }

  /** The suite only shrinks and the selection only grows. */
  predicate Later(s: Spot, t: Spot) {
    t.suite <= s.suite && s.musts <= t.musts
  }

  lemma StillBlamed(u: Universe, full: set<PackageId>, s: Spot, t: Spot)
    requires Blamed(u, full, s) && Moved(u, full, s, t) && Within(full, t)
    ensures Blamed(u, full, t) && Later(s, t)
  {
    forall q | q in s.never && ConflictsWith(u, q, s.musts)
      ensures ConflictsWith(u, q, t.musts)
    {
    }
  }

  lemma LoopBlamed(u: Universe, full: set<PackageId>, s: Spot, t: Spot, ok: bool)
    requires LoopMove(u, s, t, ok) && Blamed(u, full, s)
    ensures Blamed(u, full, t) && Later(s, t)
  {
    LoopMoved(u, full, s, t, ok);
    StillBlamed(u, full, s, t);
  }

  lemma PruneMoveBlamed(u: Universe, full: set<PackageId>, choice: set<PackageId>, s: Spot, t: Spot, ok: bool)
    requires PruneMove(choice, s, t, ok) && Blamed(u, full, s) && Alternatives(u, full, choice)
    ensures Blamed(u, full, t) && Later(s, t)
  {
    forall q | q in s.never && ConflictsWith(u, q, s.musts)
      ensures ConflictsWith(u, q, t.musts)
    {
    }
  }

  lemma {:induction false} PruneBlamed(u: Universe, full: set<PackageId>, done: set<set<PackageId>>, s: Spot, t: Spot)
    requires PruneDone(done, s, t) && Blamed(u, full, s) && forall choice :: choice in done ==> Alternatives(u, full, choice)
    ensures Blamed(u, full, t) && Later(s, t)
    decreases |done|
  {
    if done != {} {
      var choice, mid :| choice in done && PruneDone(done - {choice}, s, mid) && PruneMove(choice, mid, t, true);
      PruneBlamed(u, full, done - {choice}, s, mid);
      PruneMoveBlamed(u, full, choice, mid, t, true);
    }
  }

  lemma ChoicesBlamed(u: Universe, full: set<PackageId>, s: Spot, t: Spot, ok: bool)
    requires ChoicesMove(s, t, ok) && Blamed(u, full, s)
    ensures Blamed(u, full, t) && Later(s, t)
  {
    var s0 := s.(choices := {});
    if ok {
      PruneBlamed(u, full, s.choices, s0, t);
    } else {
      var done, choice, mid :| done <= s.choices && choice in s.choices - done
        && PruneDone(done, s0, mid) && PruneMove(choice, mid, t, false);
      PruneBlamed(u, full, done, s0, mid);
      PruneMoveBlamed(u, full, choice, mid, t, false);
    }
  }

  // ---------------------------------------------------------------------------------------------
  // Whole runs
  // ---------------------------------------------------------------------------------------------

  /** A shortcut as the search takes it, on the way to the selection `musts` in `suite`. */
  ghost predicate Fair(u: Universe, full: set<PackageId>, t: Try, suite: set<PackageId>, musts: set<PackageId>) {
    && Blamed(u, full, t.before) && t.option in full
    && LoopMove(u, Alone(t.before, t.option), t.looped, true) && WithoutConsequences(t)
    && suite <= t.before.suite && t.before.musts <= musts
  }

  ghost predicate AllFair(u: Universe, full: set<PackageId>, ts: seq<Try>, suite: set<PackageId>, musts: set<PackageId>) {
    forall i {:trigger ts[i]} :: 0 <= i < |ts| ==> Fair(u, full, ts[i], suite, musts)
  }

  lemma AllFairLater(u: Universe, full: set<PackageId>, ts: seq<Try>, suite: set<PackageId>, musts: set<PackageId>,
                     suite': set<PackageId>, musts': set<PackageId>)
    requires AllFair(u, full, ts, suite, musts) && suite' <= suite && musts <= musts'
    ensures AllFair(u, full, ts, suite', musts')
  {
  }

  lemma AllFairConcat(u: Universe, full: set<PackageId>, a: seq<Try>, b: seq<Try>, suite: set<PackageId>, musts: set<PackageId>)
    requires AllFair(u, full, a, suite, musts) && AllFair(u, full, b, suite, musts)
    ensures AllFair(u, full, a + b, suite, musts)
  {
  }

  /** What the examination of an option alone leads to. */
  lemma OptionBlamed(u: Universe, full: set<PackageId>, t: Try)
    requires LoopMove(u, Alone(t.before, t.option), t.looped, t.ok) && Blamed(u, full, t.before) && t.option in full
    ensures Later(t.before, t.looped) && Within(full, t.looped)
    ensures Blamed(u, full, Learnt(t.before, t.looped))
    ensures t.ok ==> Blamed(u, full, Learnt(t.before, t.looped).(musts := t.looped.musts))
    ensures t.ok ==> Blamed(u, full, Deeper(t.before, t.looped, t.option))
  {
    var alone := Alone(t.before, t.option);
    LoopMoved(u, full, alone, t.looped, t.ok);
    forall q | q in t.before.never && ConflictsWith(u, q, t.before.musts)
      ensures ConflictsWith(u, q, t.looped.musts)
    {
    }
    assert t.ok ==> t.looped.check == [];
  }

  lemma {:induction false} TryFair(u: Universe, full: set<PackageId>, t: Try)
    requires TryOk(u, t) && Blamed(u, full, t.before) && t.before.check == [] && t.option in full && Alternative(u, full, t.option)
    ensures t.after.suite <= t.before.suite && t.after.check == []
    ensures !t.effect.Succeeded? ==> Blamed(u, full, t.after) && t.before.musts <= t.after.musts
    ensures !t.effect.Succeeded? ==> AllFair(u, full, ShortcutsOfTry(t), t.after.suite, t.after.musts)
    ensures t.effect.Succeeded? ==> t.before.musts <= FoundBy(t) && AllFair(u, full, ShortcutsOfTry(t), t.after.suite, FoundBy(t))
    decreases t
  {
    OptionBlamed(u, full, t);
    match t.effect
    case Rejected =>
    case Shortcut =>
    case GivenUp(sub) =>
      RunFair(u, full, sub);
    case Succeeded(sub) =>
      RunFair(u, full, sub);
  }

  lemma {:induction false} TriesFair(u: Universe, full: set<PackageId>, tries: seq<Try>, before: Spot, options: set<PackageId>)
    requires TriesOk(u, tries, before, options) && Blamed(u, full, before) && before.check == [] && Alternatives(u, full, options)
    ensures var after := AfterTries(tries, before);
      && after.suite <= before.suite && after.check == []
      && (!Answering(tries) ==>
            && Blamed(u, full, after) && before.musts <= after.musts
            && AllFair(u, full, ShortcutsOfTries(tries), after.suite, after.musts))
      && (Answering(tries) ==>
            before.musts <= FoundIn(tries) && AllFair(u, full, ShortcutsOfTries(tries), after.suite, FoundIn(tries)))
    decreases tries
  {
    if tries != [] {
      var n := |tries| - 1;
      TriesFair(u, full, tries[..n], before, options);
      TryFair(u, full, tries[n]);
    }
  }

  lemma {:induction false} PickFair(u: Universe, full: set<PackageId>, p: Pick)
    requires PickOk(u, p) && Blamed(u, full, p.before)
    ensures p.after.suite <= p.before.suite
    ensures !Answering(p.tries) ==>
      && Blamed(u, full, p.after) && p.before.musts <= p.after.musts
      && AllFair(u, full, ShortcutsOfTries(p.tries), p.after.suite, p.after.musts)
    ensures Answering(p.tries) ==>
      p.before.musts <= FoundIn(p.tries) && AllFair(u, full, ShortcutsOfTries(p.tries), p.after.suite, FoundIn(p.tries))
    decreases p
  {
    var before := p.before.(choices := p.before.choices - {p.choice});
    assert Alternatives(u, full, p.choice);
    TriesFair(u, full, p.tries, before, p.choice - {p.last});
    if !Answering(p.tries) && !TookShortcut(p.tries) {
      var s := AfterTries(p.tries, before);
      forall q | q in s.never && ConflictsWith(u, q, s.musts)
        ensures ConflictsWith(u, q, p.after.musts)
      {
      }
    }
  }

  lemma {:induction false} PicksFair(u: Universe, full: set<PackageId>, picks: seq<Pick>, before: Spot)
    requires PicksOk(u, picks, before) && Blamed(u, full, before)
    ensures var after := AfterPicks(picks, before);
      && after.suite <= before.suite
      && ((picks != [] ==> !Answering(picks[|picks| - 1].tries)) ==>
            && Blamed(u, full, after) && before.musts <= after.musts
            && AllFair(u, full, ShortcutsOfPicks(picks), after.suite, after.musts))
      && (picks != [] && Answering(picks[|picks| - 1].tries) ==>
            && before.musts <= FoundIn(picks[|picks| - 1].tries)
            && AllFair(u, full, ShortcutsOfPicks(picks), after.suite, FoundIn(picks[|picks| - 1].tries)))
    decreases picks
  {
    if picks != [] {
      var n := |picks| - 1;
      var earlier, p := picks[..n], picks[n];
      PicksFair(u, full, earlier, before);
      PickFair(u, full, p);
      var musts := if Answering(p.tries) then FoundIn(p.tries) else p.after.musts;
      AllFairLater(u, full, ShortcutsOfPicks(earlier), p.before.suite, p.before.musts, p.after.suite, musts);
      AllFairConcat(u, full, ShortcutsOfPicks(earlier), ShortcutsOfTries(p.tries), p.after.suite, musts);
    }
  }

  lemma {:induction false} RoundFair(u: Universe, full: set<PackageId>, r: Round)
    requires RoundOk(u, r) && Blamed(u, full, r.before)
    ensures Blamed(u, full, r.after) && Later(r.before, r.after)
    ensures AllFair(u, full, ShortcutsOfPicks(r.picks), r.after.suite, r.after.musts)
    decreases r
  {
    LoopBlamed(u, full, r.before, r.looped, true);
    if r.looped.choices != {} {
      ChoicesBlamed(u, full, r.looped, r.pruned, true);
      if r.pruned.check == [] && r.pruned.choices != {} {
        PicksFair(u, full, r.picks, r.pruned);
      }
    }
  }

  lemma {:induction false} RoundsFair(u: Universe, full: set<PackageId>, rounds: seq<Round>, start: Spot)
    requires RoundsOk(u, rounds, start) && Blamed(u, full, start)
    ensures var after := AfterRounds(rounds, start);
      && Blamed(u, full, after) && Later(start, after)
      && AllFair(u, full, ShortcutsOfRounds(rounds), after.suite, after.musts)
    decreases rounds
  {
    if rounds != [] {
      var n := |rounds| - 1;
      var r := rounds[n];
      RoundsFair(u, full, rounds[..n], start);
      RoundFair(u, full, r);
      AllFairLater(u, full, ShortcutsOfRounds(rounds[..n]), r.before.suite, r.before.musts, r.after.suite, r.after.musts);
      AllFairConcat(u, full, ShortcutsOfRounds(rounds[..n]), ShortcutsOfPicks(r.picks), r.after.suite, r.after.musts);
    }
  }

  lemma {:induction false} RunFair(u: Universe, full: set<PackageId>, run: Run)
    requires RunOk(u, run) && Blamed(u, full, run.start)
    ensures End(run).suite <= run.start.suite
    ensures Verdict(run) ==> run.start.musts <= Found(run) && AllFair(u, full, Shortcuts(run), End(run).suite, Found(run))
    decreases run
  {
    RoundsFair(u, full, run.rounds, run.start);
    var now := AfterRounds(run.rounds, run.start);
    match run.ending
    case Settled =>
      assert Shortcuts(run) == ShortcutsOfRounds(run.rounds);
    case Blocked(looped) =>
      LoopBlamed(u, full, now, looped, false);
    case Unprunable(looped, pruned) =>
      LoopBlamed(u, full, now, looped, true);
      ChoicesBlamed(u, full, looped, pruned, false);
    case Solved(looped, pruned, picks) =>
      LoopBlamed(u, full, now, looped, true);
      ChoicesBlamed(u, full, looped, pruned, true);
      PicksFair(u, full, picks, pruned);
      AllFairLater(u, full, ShortcutsOfRounds(run.rounds), now.suite, now.musts, End(run).suite, Found(run));
      AllFairConcat(u, full, ShortcutsOfRounds(run.rounds), ShortcutsOfPicks(picks), End(run).suite, Found(run));
  }

  /** In a separated suite a shortcut taken from a selection without conflicts is not taken past one. */
  lemma FairTidy(u: Universe, full: set<PackageId>, t: Try, suite: set<PackageId>, found: set<PackageId>)
    requires WellFormed(u) && Separated(u, full) && Fair(u, full, t, suite, found)
    requires Consistent(u, t.before.suite, t.before.musts)
    requires found <= suite && DependencyClosed(u, found)
    ensures Tidy(t)
  {
    LoopMoved(u, full, Alone(t.before, t.option), t.looped, true);
    forall q | q in t.before.musts
      ensures q !in t.looped.never
    {
      BrokenInNoClosedSet(u, found, q);
      assert q in t.looped.never ==> ConflictsWith(u, q, t.looped.musts);
      assert ConflictsWith(u, q, t.looped.musts) ==> u.NegativeDependenciesOf(q) * full != {} by {
        if d :| d in t.looped.musts && q in u.NegativeDependenciesOf(d) {
          assert d in u.NegativeDependenciesOf(q) * full;
        }
      }
      assert !ConflictsWith(u, q, t.before.musts);
    }
  }

  lemma {:induction false} TidyAt(u: Universe, full: set<PackageId>, ts: seq<Try>, n: nat, suite: set<PackageId>, found: set<PackageId>)
    requires WellFormed(u) && Separated(u, full) && AllFair(u, full, ts, suite, found) && Guarded(u, ts) && n < |ts|
    requires found <= suite && DependencyClosed(u, found)
    ensures Tidy(ts[n])
  {
    forall i: nat | i < n
      ensures Tidy(ts[..n][i])
    {
      TidyAt(u, full, ts, i, suite, found);
    }
    assert AllTidy(ts[..n]);
    FairTidy(u, full, ts[n], suite, found);
  }

  /** In a separated suite no shortcut on the way to a positive verdict is taken past a conflict. */
  lemma SeparatedTidy(u: Universe, full: set<PackageId>, run: Run)
    requires WellFormed(u) && Separated(u, full) && RunOk(u, run) && Verdict(run)
    requires Blamed(u, full, run.start) && Guarded(u, Shortcuts(run))
    requires Found(run) <= End(run).suite && DependencyClosed(u, Found(run))
    ensures AllTidy(Shortcuts(run))
  {
    RunFair(u, full, run);
    var ts := Shortcuts(run);
    forall i: nat | i < |ts|
      ensures Tidy(ts[i])
    {
      TidyAt(u, full, ts, i, End(run).suite, Found(run));
    }
  }
}
