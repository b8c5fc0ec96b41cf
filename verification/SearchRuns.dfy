/** What one run of the search does, move by move.

    A `Run` is the record of one activation of the search with all that it tried and all the recursive
    activations below it.  `RunOk` says that every entry of the record is a move that the search may
    make; sets are taken in any order.  The methods of the tester return the record of what they did.
  */
module SearchRuns {
  import opened Universes
  import opened Search

  /** The suite and the broken packages as the search knows them, and its position; `check` is worked
      off from the end. */
  datatype Spot = Spot(
    suite: set<PackageId>,
    broken: set<PackageId>,
    musts: set<PackageId>,
    never: set<PackageId>,
    choices: set<set<PackageId>>,
    check: seq<PackageId>)

  // ---------------------------------------------------------------------------------------------
  // Examining what must be installed
  // ---------------------------------------------------------------------------------------------

  /** Candidates may be left out in favour of equivalent ones. */
  ghost predicate Narrowed(u: Universe, candidates: set<PackageId>, kept: set<PackageId>) {
    && kept <= candidates && Covers(u, candidates, kept)
    && (|set x | x in candidates && x in u.equivalent| <= 1 ==> kept == candidates)
  }

  /** A single option is taken, several are a choice to be made later. */
  ghost predicate Chosen(s: Spot, options: set<PackageId>, t: Spot) {
    || (exists x :: options == {x} && t == s.(musts := s.musts + {x}, check := s.check + [x]))
    || (|options| > 1 && t == s.(choices := s.choices + {options}))
  }

  /** A package without candidates for a clause is broken if nothing was ruled out. */
  function Noted(cur: PackageId, clause: set<PackageId>, s: Spot): Spot {
    if cur !in s.broken && clause !! s.never then s.(suite := s.suite - {cur}, broken := s.broken + {cur}) else s
  }

  /** One clause of `cur`: met already, without candidates, or chosen from. */
  ghost predicate ClauseMove(u: Universe, cur: PackageId, clause: set<PackageId>, s: Spot, t: Spot, ok: bool) {
    if Hits(clause, s.musts) then ok && t == s
    else
      var candidates := clause * s.suite - s.never;
      if candidates == {} then !ok && t == Noted(cur, clause, s)
      else ok && exists kept :: Narrowed(u, candidates, kept) && Chosen(s, kept, t)
  }

  /** The clauses `done` of `cur`, one after the other. */
  ghost predicate ClausesDone(u: Universe, cur: PackageId, done: set<set<PackageId>>, s: Spot, t: Spot)
    decreases |done|
  {
    if done == {} then t == s
    else
      exists clause, mid ::
        && clause in done && ClausesDone(u, cur, done - {clause}, s, mid)
        && ClauseMove(u, cur, clause, mid, t, true)
  }

  lemma ClausesMore(u: Universe, cur: PackageId, done: set<set<PackageId>>, clause: set<PackageId>, s: Spot, mid: Spot, t: Spot)
    requires ClausesDone(u, cur, done, s, mid) && clause !in done && ClauseMove(u, cur, clause, mid, t, true)
    ensures ClausesDone(u, cur, done + {clause}, s, t)
  {
    assert done + {clause} - {clause} == done && clause in done + {clause};
  }

  /** Some clause of `cur` has no candidates. */
  ghost predicate ClausesFailed(u: Universe, cur: PackageId, s: Spot, t: Spot) {
    exists done, clause, mid :: done <= u.DependenciesOf(cur) && clause in u.DependenciesOf(cur) - done
      && ClausesDone(u, cur, done, s, mid) && ClauseMove(u, cur, clause, mid, t, false)
  }

  /** The clauses of a package, all of them or up to one without candidates. */
  ghost predicate ClausesMove(u: Universe, cur: PackageId, s: Spot, t: Spot, ok: bool) {
    if ok then ClausesDone(u, cur, u.DependenciesOf(cur), s, t) else ClausesFailed(u, cur, s, t)
  }

  /** The last package of `check`: ruled out, or its conflicts are recorded and its clauses looked at. */
  ghost predicate PackageMove(u: Universe, s: Spot, t: Spot, ok: bool) {
    && s.check != []
    && var n := |s.check| - 1;
       var cur, popped := s.check[n], s.(check := s.check[..n]);
       if u.NegativeDependenciesOf(cur) != {} && cur in s.never then !ok && t == popped
       else ClausesMove(u, cur, popped.(never := s.never + u.NegativeDependenciesOf(cur) * s.suite), t, ok)
  }

  /** Consecutive spots are one package apart. */
  ghost predicate LoopPath(u: Universe, path: seq<Spot>) {
    path != [] && forall i {:trigger PathStep(u, path, i)} :: 0 <= i < |path| - 1 ==> PathStep(u, path, i)
  }

  ghost predicate PathStep(u: Universe, path: seq<Spot>, i: nat)
    requires i + 1 < |path|
  {
    PackageMove(u, path[i], path[i + 1], true)
  }

  ghost predicate Reaches(u: Universe, s: Spot, t: Spot) {
    exists path :: LoopPath(u, path) && path[0] == s && path[|path| - 1] == t
  }

  lemma ReachesSelf(u: Universe, s: Spot)
    ensures Reaches(u, s, s)
  {
    assert LoopPath(u, [s]);
  }

  lemma ReachesMore(u: Universe, s: Spot, mid: Spot, t: Spot)
    requires Reaches(u, s, mid) && PackageMove(u, mid, t, true)
    ensures Reaches(u, s, t)
  {
    var path :| LoopPath(u, path) && path[0] == s && path[|path| - 1] == mid;
    var path' := path + [t];
    forall i | 0 <= i < |path'| - 1
      ensures PathStep(u, path', i)
    {
      assert i < |path| - 1 ==> PathStep(u, path, i);
    }
    assert LoopPath(u, path') && path'[0] == s && path'[|path'| - 1] == t;
  }

  /** All of `check`, or up to a package that fails. */
  ghost predicate LoopMove(u: Universe, s: Spot, t: Spot, ok: bool) {
    if ok then Reaches(u, s, t) && t.check == [] else exists mid :: Reaches(u, s, mid) && PackageMove(u, mid, t, false)
  }

  // ---------------------------------------------------------------------------------------------
  // Pruning the choices
  // ---------------------------------------------------------------------------------------------

  ghost predicate PruneMove(choice: set<PackageId>, s: Spot, t: Spot, ok: bool) {
    if Hits(choice, s.musts) then ok && t == s
    else
      var remain := choice - s.never - s.broken;
      if remain == {} then !ok && t == s else ok && Chosen(s, remain, t)
  }

  ghost predicate PruneDone(done: set<set<PackageId>>, s: Spot, t: Spot)
    decreases |done|
  {
    if done == {} then t == s
    else exists choice, mid :: choice in done && PruneDone(done - {choice}, s, mid) && PruneMove(choice, mid, t, true)
  }

  lemma PruneMore(done: set<set<PackageId>>, choice: set<PackageId>, s: Spot, mid: Spot, t: Spot)
    requires PruneDone(done, s, mid) && choice !in done && PruneMove(choice, mid, t, true)
    ensures PruneDone(done + {choice}, s, t)
  {
    assert done + {choice} - {choice} == done && choice in done + {choice};
  }

  /** The choices are rebuilt from those that are not met, or one has no options left. */
  ghost predicate ChoicesMove(s: Spot, t: Spot, ok: bool) {
    if ok then PruneDone(s.choices, s.(choices := {}), t)
    else
      exists done, choice, mid ::
        && done <= s.choices && choice in s.choices - done
        && PruneDone(done, s.(choices := {}), mid) && PruneMove(choice, mid, t, false)
  }

  lemma PruneFails(done: set<set<PackageId>>, choice: set<PackageId>, s: Spot, mid: Spot)
    requires PruneDone(done, s.(choices := {}), mid) && done <= s.choices && choice in s.choices - done
    requires !Hits(choice, mid.musts) && choice - mid.never - mid.broken == {}
    ensures ChoicesMove(s, mid, false)
  {
    assert PruneMove(choice, mid, mid, false);
  }

  // ---------------------------------------------------------------------------------------------
  // Whole runs
  // ---------------------------------------------------------------------------------------------

  /** One activation of the search: completed passes of its loop, and how it ended. */
  datatype Run = Run(start: Spot, rounds: seq<Round>, ending: Ending)

  /** A pass: after examining, after pruning, and the choices that were taken up. */
  datatype Round = Round(before: Spot, looped: Spot, pruned: Spot, picks: seq<Pick>, after: Spot)

  datatype Ending =
    | Settled
    | Blocked(looped: Spot)
    | Unprunable(looped: Spot, pruned: Spot)
    | Solved(looped: Spot, pruned: Spot, picks: seq<Pick>)

  /** A choice: the options that were tried, and the last one, which is not. */
  datatype Pick = Pick(before: Spot, choice: set<PackageId>, last: PackageId, tries: seq<Try>, after: Spot)

  /** One option: what examining it alone gave, and what came of it. */
  datatype Try = Try(option: PackageId, before: Spot, looped: Spot, ok: bool, effect: Effect, after: Spot)

  datatype Effect = Rejected | Shortcut | GivenUp(sub: Run) | Succeeded(sub: Run)

  /** The option on its own, from no recorded conflicts. */
  function Alone(s: Spot, p: PackageId): Spot {
    s.(musts := s.musts + {p}, never := {}, choices := {}, check := [p])
  }

  /** Where the recursive search for an option starts. */
  function Deeper(s: Spot, looped: Spot, p: PackageId): Spot {
    looped.(never := looped.never + s.never, choices := looped.choices + s.choices, check := [p])
  }

  /** What the search has found out about the suite holds on. */
  function Learnt(s: Spot, t: Spot): Spot {
    s.(suite := t.suite, broken := t.broken)
  }

  /** Taking the option adds neither conflicts nor choices. */
  predicate WithoutConsequences(t: Try) {
    t.ok && t.looped.never <= t.before.never && t.looped.choices <= t.before.choices
  }

  /** The selection meets none of the conflicts of the option. */
  predicate Tidy(t: Try) {
    t.before.musts !! t.looped.never
  }

  ghost predicate TryOk(u: Universe, t: Try)
    decreases t
  {
    && LoopMove(u, Alone(t.before, t.option), t.looped, t.ok)
    && match t.effect
       case Rejected =>
         (!t.ok || (!WithoutConsequences(t) && !Tidy(t))) && t.after == Learnt(t.before, t.looped)
       case Shortcut =>
         WithoutConsequences(t) && t.after == Learnt(t.before, t.looped).(musts := t.looped.musts)
       case GivenUp(sub) =>
         && t.ok && !WithoutConsequences(t) && Tidy(t)
         && RunOk(u, sub) && sub.start == Deeper(t.before, t.looped, t.option) && !Verdict(sub)
         && t.after == Learnt(t.before, End(sub)).(never := t.before.never + {t.option})
       case Succeeded(sub) =>
         && t.ok && !WithoutConsequences(t) && Tidy(t)
         && RunOk(u, sub) && sub.start == Deeper(t.before, t.looped, t.option) && Verdict(sub)
         && t.after == Learnt(t.before, End(sub))
  }

  /** The tries of a choice follow on each other; only the last one may end them. */
  ghost predicate TriesOk(u: Universe, tries: seq<Try>, before: Spot, options: set<PackageId>)
    decreases tries
  {
    tries == [] ||
      var n := |tries| - 1;
      var earlier, t := tries[..n], tries[n];
      && TriesOk(u, earlier, before, options) && !TookShortcut(earlier) && !Answering(earlier)
      && TryOk(u, t) && t.before == AfterTries(earlier, before)
      && t.option in options - OptionsOf(earlier)
  }

  function OptionsOf(tries: seq<Try>): set<PackageId> {
    set t | t in tries :: t.option
  }

  /** The tries have taken an option without consequences. */
  predicate TookShortcut(tries: seq<Try>) {
    tries != [] && tries[|tries| - 1].effect.Shortcut?
  }

  /** The tries have answered the question. */
  predicate Answering(tries: seq<Try>) {
    tries != [] && tries[|tries| - 1].effect.Succeeded?
  }

  function AfterTries(tries: seq<Try>, before: Spot): Spot {
    if tries == [] then before else tries[|tries| - 1].after
  }

  ghost predicate PickOk(u: Universe, p: Pick)
    decreases p
  {
    && p.choice in p.before.choices && p.last in p.choice && p.before.check == []
    && var before := p.before.(choices := p.before.choices - {p.choice});
       && TriesOk(u, p.tries, before, p.choice - {p.last})
       && if TookShortcut(p.tries) || Answering(p.tries) then p.after == AfterTries(p.tries, before)
          else
            && OptionsOf(p.tries) == p.choice - {p.last}
            && p.after == var s := AfterTries(p.tries, before); s.(musts := s.musts + {p.last}, check := [p.last])
  }

  /** The choices that are taken up follow on each other; each but the last was committed to. */
  ghost predicate PicksOk(u: Universe, picks: seq<Pick>, before: Spot)
    decreases picks
  {
    picks == [] ||
      var n := |picks| - 1;
      var earlier, p := picks[..n], picks[n];
      && PicksOk(u, earlier, before) && (earlier != [] ==> TookShortcut(earlier[n - 1].tries))
      && PickOk(u, p) && p.before == AfterPicks(earlier, before)
  }

  function AfterPicks(picks: seq<Pick>, before: Spot): Spot {
    if picks == [] then before else picks[|picks| - 1].after
  }

  /** A pass that ends neither the search nor the question. */
  ghost predicate RoundOk(u: Universe, r: Round)
    decreases r
  {
    && r.before.check != [] && LoopMove(u, r.before, r.looped, true)
    && if r.looped.choices == {} then r.picks == [] && r.after == r.looped
       else
         && ChoicesMove(r.looped, r.pruned, true)
         && if r.pruned.check != [] || r.pruned.choices == {} then r.picks == [] && r.after == r.pruned
            else
              && r.picks != [] && PicksOk(u, r.picks, r.pruned) && r.after == AfterPicks(r.picks, r.pruned)
              && !Answering(r.picks[|r.picks| - 1].tries)
              && (TookShortcut(r.picks[|r.picks| - 1].tries) ==> r.after.choices == {})
  }

  function AfterRounds(rounds: seq<Round>, start: Spot): Spot {
    if rounds == [] then start else rounds[|rounds| - 1].after
  }

  ghost predicate RoundsOk(u: Universe, rounds: seq<Round>, start: Spot)
    decreases rounds
  {
    rounds == [] ||
      var n := |rounds| - 1;
      var earlier, r := rounds[..n], rounds[n];
      RoundsOk(u, earlier, start) && RoundOk(u, r) && r.before == AfterRounds(earlier, start)
  }

  ghost predicate EndingOk(u: Universe, now: Spot, ending: Ending)
    decreases ending
  {
    match ending
    case Settled => now.check == []
    case Blocked(looped) => now.check != [] && LoopMove(u, now, looped, false)
    case Unprunable(looped, pruned) =>
      now.check != [] && LoopMove(u, now, looped, true) && looped.choices != {} && ChoicesMove(looped, pruned, false)
    case Solved(looped, pruned, picks) =>
      && now.check != [] && LoopMove(u, now, looped, true)
      && looped.choices != {} && ChoicesMove(looped, pruned, true) && pruned.check == []
      && picks != [] && PicksOk(u, picks, pruned) && Answering(picks[|picks| - 1].tries)
  }

  ghost predicate RunOk(u: Universe, run: Run)
    decreases run
  {
    RoundsOk(u, run.rounds, run.start) && EndingOk(u, AfterRounds(run.rounds, run.start), run.ending)
  }

  predicate Verdict(run: Run) {
    run.ending.Settled? || run.ending.Solved?
  }

  /** The last spot of a run. */
  function End(run: Run): Spot {
    match run.ending
    case Settled => AfterRounds(run.rounds, run.start)
    case Blocked(looped) => looped
    case Unprunable(looped, pruned) => pruned
    case Solved(looped, pruned, picks) => AfterPicks(picks, pruned)
  }

  /** The selection that a positive verdict rests on. */
  function Found(run: Run): set<PackageId>
    decreases run
  {
    match run.ending
    case Solved(_, _, picks) => if picks == [] then {} else FoundIn(picks[|picks| - 1].tries)
    case _ => AfterRounds(run.rounds, run.start).musts
  }

  function FoundIn(tries: seq<Try>): set<PackageId>
    decreases tries
  {
    if tries == [] then {} else FoundBy(tries[|tries| - 1])
  }

  function FoundBy(t: Try): set<PackageId>
    decreases t
  {
    match t.effect
    case Succeeded(sub) => Found(sub)
    case _ => {}
  }

  // ---------------------------------------------------------------------------------------------
  // The shortcuts that a verdict rests on
  // ---------------------------------------------------------------------------------------------

  /** The shortcuts on the way through the tries of a choice. */
  function ShortcutsOfTries(tries: seq<Try>): seq<Try>
    decreases tries
  {
    if tries == [] then [] else ShortcutsOfTry(tries[|tries| - 1])
  }

  function ShortcutsOfTry(t: Try): seq<Try>
    decreases t
  {
    match t.effect
    case Shortcut => [t]
    case Succeeded(sub) => Shortcuts(sub)
    case _ => []
  }

  function ShortcutsOfPicks(picks: seq<Pick>): seq<Try>
    decreases picks
  {
    if picks == [] then [] else ShortcutsOfPicks(picks[..|picks| - 1]) + ShortcutsOfTries(picks[|picks| - 1].tries)
  }

  function ShortcutsOfRounds(rounds: seq<Round>): seq<Try>
    decreases rounds
  {
    if rounds == [] then [] else ShortcutsOfRounds(rounds[..|rounds| - 1]) + ShortcutsOfPicks(rounds[|rounds| - 1].picks)
  }

  function ShortcutsOfEnding(ending: Ending): seq<Try>
    decreases ending
  {
    if ending.Solved? then ShortcutsOfPicks(ending.picks) else []
  }

  /** The shortcuts on the way to the verdict, in order. */
  function Shortcuts(run: Run): seq<Try>
    decreases run
  {
    ShortcutsOfRounds(run.rounds) + ShortcutsOfEnding(run.ending)
  }

  /** No shortcut was taken past a conflict. */
  predicate AllTidy(shortcuts: seq<Try>) {
    forall i :: 0 <= i < |shortcuts| ==> Tidy(shortcuts[i])
  }

  lemma AllTidyConcat(a: seq<Try>, b: seq<Try>)
    ensures AllTidy(a + b) <==> AllTidy(a) && AllTidy(b)
  {
    if AllTidy(a + b) {
      assert forall i :: 0 <= i < |a| ==> (a + b)[i] == a[i];
      assert forall i :: 0 <= i < |b| ==> (a + b)[|a| + i] == b[i];
    }
  }

  /** As long as no shortcut was taken past a conflict, the selection before the next one has none. */
  ghost predicate Guarded(u: Universe, shortcuts: seq<Try>) {
    forall i {:trigger shortcuts[i]} :: 0 <= i < |shortcuts| && AllTidy(shortcuts[..i]) ==>
      Consistent(u, shortcuts[i].before.suite, shortcuts[i].before.musts)
  }

  lemma GuardedConcat(u: Universe, a: seq<Try>, b: seq<Try>)
    requires Guarded(u, a) && (AllTidy(a) ==> Guarded(u, b))
    ensures Guarded(u, a + b)
  {
    var ab := a + b;
    forall i | 0 <= i < |ab| && AllTidy(ab[..i])
      ensures Consistent(u, ab[i].before.suite, ab[i].before.musts)
    {
      if i < |a| {
        assert ab[..i] == a[..i];
      } else {
        assert ab[..i] == a + b[..i - |a|];
        AllTidyConcat(a, b[..i - |a|]);
        assert ab[i] == b[i - |a|];
      }
    }
  }

  // Records grow at the end.

  lemma TriesMore(u: Universe, tries: seq<Try>, before: Spot, options: set<PackageId>, t: Try)
    requires TriesOk(u, tries, before, options) && TryOk(u, t) && t.before == AfterTries(tries, before)
    requires !TookShortcut(tries) && !Answering(tries) && t.option in options - OptionsOf(tries)
    ensures TriesOk(u, tries + [t], before, options)
    ensures OptionsOf(tries + [t]) == OptionsOf(tries) + {t.option}
    ensures ShortcutsOfTries(tries + [t]) == ShortcutsOfTry(t) && FoundIn(tries + [t]) == FoundBy(t)
  {
    assert (tries + [t])[..|tries|] == tries;
    assert forall x :: x in tries + [t] <==> x in tries || x == t;
  }

  lemma PicksMore(u: Universe, picks: seq<Pick>, before: Spot, p: Pick)
    requires PicksOk(u, picks, before) && PickOk(u, p) && p.before == AfterPicks(picks, before)
    requires picks != [] ==> TookShortcut(picks[|picks| - 1].tries)
    ensures PicksOk(u, picks + [p], before)
    ensures ShortcutsOfPicks(picks + [p]) == ShortcutsOfPicks(picks) + ShortcutsOfTries(p.tries)
  {
    assert (picks + [p])[..|picks|] == picks;
  }

  lemma RoundsMore(u: Universe, rounds: seq<Round>, start: Spot, r: Round)
    requires RoundsOk(u, rounds, start) && RoundOk(u, r) && r.before == AfterRounds(rounds, start)
    ensures RoundsOk(u, rounds + [r], start)
    ensures ShortcutsOfRounds(rounds + [r]) == ShortcutsOfRounds(rounds) + ShortcutsOfPicks(r.picks)
  {
    assert (rounds + [r])[..|rounds|] == rounds;
  }

  // What is known of the shortcuts so far: `clean` says whether none was taken past a conflict, and
  // without essential packages the selection before the next one is free of conflicts.

  ghost predicate Tracked(u: Universe, clean0: bool, shortcuts: seq<Try>, clean: bool) {
    && clean == (clean0 && AllTidy(shortcuts))
    && (u.essential == {} && clean0 ==> Guarded(u, shortcuts))
  }

  lemma TrackedMore(u: Universe, clean0: bool, a: seq<Try>, clean1: bool, b: seq<Try>, clean: bool)
    requires Tracked(u, clean0, a, clean1) && Tracked(u, clean1, b, clean)
    ensures Tracked(u, clean0, a + b, clean)
  {
    AllTidyConcat(a, b);
    if u.essential == {} && clean0 {
      GuardedConcat(u, a, b);
    }
  }

  /** The choices taken up so far; each was committed to. */
  ghost predicate PickedSoFar(u: Universe, before: Spot, picks: seq<Pick>, now: Spot, clean0: bool, clean: bool) {
    && PicksOk(u, picks, before) && AfterPicks(picks, before) == now
    && (picks != [] ==> TookShortcut(picks[|picks| - 1].tries))
    && Tracked(u, clean0, ShortcutsOfPicks(picks), clean)
  }

  lemma OneMorePick(u: Universe, before: Spot, picks: seq<Pick>, now: Spot, clean0: bool, clean1: bool, p: Pick, clean: bool)
    requires PickedSoFar(u, before, picks, now, clean0, clean1) && PickOk(u, p) && p.before == now
    requires Tracked(u, clean1, ShortcutsOfTries(p.tries), clean)
    ensures PicksOk(u, picks + [p], before) && Tracked(u, clean0, ShortcutsOfPicks(picks + [p]), clean)
    ensures TookShortcut(p.tries) ==> PickedSoFar(u, before, picks + [p], p.after, clean0, clean)
  {
    PicksMore(u, picks, before, p);
    TrackedMore(u, clean0, ShortcutsOfPicks(picks), clean1, ShortcutsOfTries(p.tries), clean);
  }

  /** The passes made so far. */
  ghost predicate PassedSoFar(u: Universe, before: Spot, rounds: seq<Round>, now: Spot, clean0: bool, clean: bool) {
    && RoundsOk(u, rounds, before) && AfterRounds(rounds, before) == now
    && Tracked(u, clean0, ShortcutsOfRounds(rounds), clean)
  }

  lemma OneMorePass(u: Universe, before: Spot, rounds: seq<Round>, now: Spot, clean0: bool, clean1: bool, r: Round, clean: bool)
    requires PassedSoFar(u, before, rounds, now, clean0, clean1) && RoundOk(u, r) && r.before == now
    requires Tracked(u, clean1, ShortcutsOfPicks(r.picks), clean)
    ensures PassedSoFar(u, before, rounds + [r], r.after, clean0, clean)
  {
    RoundsMore(u, rounds, before, r);
    TrackedMore(u, clean0, ShortcutsOfRounds(rounds), clean1, ShortcutsOfPicks(r.picks), clean);
  }

  lemma LastPass(u: Universe, before: Spot, rounds: seq<Round>, now: Spot, clean0: bool, clean1: bool, ending: Ending, clean: bool)
    requires PassedSoFar(u, before, rounds, now, clean0, clean1) && EndingOk(u, now, ending)
    requires Tracked(u, clean1, ShortcutsOfEnding(ending), clean)
    ensures var run := Run(before, rounds, ending); RunOk(u, run) && Tracked(u, clean0, Shortcuts(run), clean)
  {
    TrackedMore(u, clean0, ShortcutsOfRounds(rounds), clean1, ShortcutsOfEnding(ending), clean);
  }

  /** The options tried so far; none of them settled anything, and `rest` is still to be tried. */
  ghost predicate TriedSoFar(u: Universe, before: Spot, options: set<PackageId>, rest: set<PackageId>, tries: seq<Try>, now: Spot) {
    && TriesOk(u, tries, before, options) && AfterTries(tries, before) == now
    && OptionsOf(tries) == options - rest && !TookShortcut(tries) && !Answering(tries)
  }

  lemma OneMoreTry(u: Universe, before: Spot, options: set<PackageId>, rest: set<PackageId>, tries: seq<Try>, now: Spot, t: Try)
    requires TriedSoFar(u, before, options, rest, tries, now) && TryOk(u, t) && t.before == now
    requires t.option in rest && rest <= options
    ensures TriesOk(u, tries + [t], before, options) && AfterTries(tries + [t], before) == t.after
    ensures ShortcutsOfTries(tries + [t]) == ShortcutsOfTry(t) && FoundIn(tries + [t]) == FoundBy(t)
    ensures TookShortcut(tries + [t]) == t.effect.Shortcut? && Answering(tries + [t]) == t.effect.Succeeded?
    ensures t.effect.Rejected? || t.effect.GivenUp? ==> TriedSoFar(u, before, options, rest - {t.option}, tries + [t], t.after)
  {
    TriesMore(u, tries, before, options, t);
  }

  lemma ShortcutTracked(u: Universe, clean0: bool, t: Try)
    requires t.effect.Shortcut?
    requires u.essential == {} && clean0 ==> Consistent(u, t.before.suite, t.before.musts)
    ensures Tracked(u, clean0, ShortcutsOfTry(t), clean0 && Tidy(t))
  {
    assert ShortcutsOfTry(t) == [t] && [t][0] == t;
    assert AllTidy([t]) <==> Tidy(t);
  }

  lemma NothingTracked(u: Universe, clean0: bool, t: Try)
    requires t.effect.Rejected? || t.effect.GivenUp?
    ensures Tracked(u, clean0, ShortcutsOfTry(t), clean0)
  {
    assert ShortcutsOfTry(t) == [];
  }
}
