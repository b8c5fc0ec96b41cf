/** The shortcut of the search that commits to an option "without consequences" does not test the
    option against the packages selected so far.  A concrete universe where that goes wrong.

      t needs (x | q), (p1 | p2) and (z | y);  y needs q;  p1 needs a;  p2 needs b;  z needs w;
      q conflicts with a and b;  w conflicts with t.

    The search tries q for (x | q) first and gives up on it, goes for x, and then tries y for (z | y).
    That brings q back into the selection while q stays recorded as a package to avoid, so p1
    appears to add no new conflict although a and q conflict: the answer for t is a wrong "yes". */
module ShortcutCounterexample {
  import opened Universes
  import opened Search
  import opened SearchRuns
  import opened Caches
  import opened InstallabilityTesters
  import opened Builder

  function Pkg(name: string): PackageId {
    PackageId(name, "1", "amd64")
  }

  const T := Pkg("t")
  const X := Pkg("x")
  const Q := Pkg("q")
  const P1 := Pkg("p1")
  const P2 := Pkg("p2")
  const Z := Pkg("z")
  const Y := Pkg("y")
  const A := Pkg("a")
  const B := Pkg("b")
  const W := Pkg("w")

  lemma Distinct()
    ensures T != X && T != Q && T != P1 && T != P2 && T != Z && T != Y && T != A && T != B && T != W
    ensures X != Q && X != P1 && X != P2 && X != Z && X != Y && X != A && X != B && X != W
    ensures Q != P1 && Q != P2 && Q != Z && Q != Y && Q != A && Q != B && Q != W
    ensures P1 != P2 && P1 != Z && P1 != Y && P1 != A && P1 != B && P1 != W
    ensures P2 != Z && P2 != Y && P2 != A && P2 != B && P2 != W
    ensures Z != Y && Z != A && Z != B && Z != W
    ensures Y != A && Y != B && Y != W
    ensures A != B && A != W && B != W
  {
    assert T.packageName[0] == 't' && X.packageName[0] == 'x' && Q.packageName[0] == 'q';
    assert P1.packageName[0] == 'p' && P1.packageName[1] == '1';
    assert P2.packageName[0] == 'p' && P2.packageName[1] == '2';
    assert Z.packageName[0] == 'z' && Y.packageName[0] == 'y';
    assert A.packageName[0] == 'a' && B.packageName[0] == 'b' && W.packageName[0] == 'w';
  }

  const ALL := {T, X, Q, P1, P2, Z, Y, A, B, W}

  function Needs(p: PackageId): set<set<PackageId>> {
    if p == T then {{X, Q}, {P1, P2}, {Z, Y}}
    else if p == P1 then {{A}}
    else if p == P2 then {{B}}
    else if p == Z then {{W}}
    else if p == Y then {{Q}}
    else {}
  }

  function Breaks(p: PackageId): set<PackageId> {
    if p == Q then {A, B} else if p == W then {T} else {}
  }

  function ExampleDeclarations(): Declarations {
    map p | p in ALL :: Declared(Needs(p), Breaks(p))
  }

  /** The universe that the builder makes of these declarations. */
  function Example(): Universe {
    Built(ExampleDeclarations(), {})
  }

  lemma NoneBroken()
    ensures Broken(ExampleDeclarations()) == {}
  {
    assert {} !in {{X, Q}, {P1, P2}, {Z, Y}} by {
      assert X in {X, Q} && P1 in {P1, P2} && Z in {Z, Y};
    }
    assert {} != {A} && {} != {B} && {} != {W} && {} != {Q} by {
      assert A in {A} && B in {B} && W in {W} && Q in {Q};
    }
  }

  /** The conflicts in both directions. */
  function Clashes(p: PackageId): set<PackageId> {
    if p == T then {W} else if p == W then {T} else if p == Q then {A, B} else if p == A || p == B then {Q} else {}
  }

  ghost predicate LooksRight(u: Universe, p: PackageId) {
    p in ALL ==>
      u.DependenciesOf(p) == Needs(p) && u.NegativeDependenciesOf(p) == Clashes(p) && u.AreEquivalent(p, p)
  }

  /** What the search sees of the example. */
  ghost predicate IsExample(u: Universe) {
    && u.essential == {} && u.broken == {}
    && u.relations.Keys == ALL
    && forall p :: LooksRight(u, p)
  }

  lemma ClashesMeaning(p: PackageId, q: PackageId)
    requires p in ALL
    ensures q in Clashes(p) <==> q in Breaks(p) || (q in ALL && p in Breaks(q))
  {
    Distinct();
  }

  lemma ExampleConflicts(decl: Declarations, p: PackageId)
    requires decl == ExampleDeclarations() && p in ALL
    ensures BreaksOf(decl, p) + ReverseBreaks(decl, p) == Clashes(p)
  {
    forall q
      ensures q in BreaksOf(decl, p) + ReverseBreaks(decl, p) <==> q in Clashes(p)
    {
      ClashesMeaning(p, q);
    }
  }

  lemma ExampleRelations(decl: Declarations, u: Universe, p: PackageId)
    requires decl == ExampleDeclarations() && u == Built(decl, {}) && Broken(decl) == {}
    ensures u.essential == {} && u.broken == {} && u.relations.Keys == ALL
    ensures p in ALL ==> u.DependenciesOf(p) == Needs(p) && u.NegativeDependenciesOf(p) == Clashes(p)
  {
    assert decl.Keys == ALL;
    BuiltUnbroken(decl, u, p);
    if p in ALL {
      ExampleConflicts(decl, p);
    }
  }

  lemma Reflexive(u: Universe, p: PackageId)
    requires WellFormed(u) && u.Knows(p)
    ensures u.AreEquivalent(p, p)
  {
  }

  lemma ExampleIs(decl: Declarations, u: Universe)
    requires decl == ExampleDeclarations() && u == Built(decl, {}) && Broken(decl) == {} && WellFormed(u)
    ensures IsExample(u)
  {
    forall p
      ensures u.essential == {} && u.broken == {} && u.relations.Keys == ALL && LooksRight(u, p)
    {
      ExampleRelations(decl, u, p);
      if p in ALL {
        Reflexive(u, p);
      }
    }
  }

  /** Nothing but the search itself is to blame. */
  lemma ExampleWellFormed()
    ensures WellFormed(Example())
  {
    var decl := ExampleDeclarations();
    Distinct();
    forall p, clause, d | clause in ClausesOf(decl, p) && d in clause
      ensures d in ALL && d.architecture == "amd64" && p in ALL
    {
    }
    forall p | p in ALL
      ensures p.architecture == "amd64" && p !in Breaks(p) && Breaks(p) <= ALL
    {
    }
    BuildWellFormed(decl, {});
  }

  // ---------------------------------------------------------------------------------------------
  // Moves
  // ---------------------------------------------------------------------------------------------

  const XQ := {X, Q}
  const PP := {P1, P2}
  const ZY := {Z, Y}

  /** Nothing is ever found broken. */
  function At(musts: set<PackageId>, never: set<PackageId>, choices: set<set<PackageId>>, check: seq<PackageId>): Spot {
    Spot(ALL, {}, musts, never, choices, check)
  }

  /** A choice among several packages that are neither selected nor ruled out. */
  predicate Open(choice: set<PackageId>, s: Spot) {
    choice <= s.suite && |choice| > 1 && !Hits(choice, s.musts) && choice !! s.never && choice !! s.broken
  }

  lemma AllKept(u: Universe, candidates: set<PackageId>)
    requires forall p :: p in candidates ==> u.AreEquivalent(p, p)
    ensures Narrowed(u, candidates, candidates)
  {
    forall p | p in candidates
      ensures HasEquivalentIn(u, p, candidates)
    {
    }
  }

  lemma OpenClause(u: Universe, cur: PackageId, clause: set<PackageId>, s: Spot)
    requires Open(clause, s) && forall p :: p in clause ==> u.AreEquivalent(p, p)
    ensures ClauseMove(u, cur, clause, s, s.(choices := s.choices + {clause}), true)
  {
    assert clause * s.suite - s.never == clause;
    AllKept(u, clause);
    assert Chosen(s, clause, s.(choices := s.choices + {clause}));
  }

  lemma {:induction false} OpenClauses(u: Universe, cur: PackageId, done: set<set<PackageId>>, s: Spot)
    requires forall p :: p in s.suite ==> u.AreEquivalent(p, p)
    requires forall clause :: clause in done ==> Open(clause, s)
    ensures ClausesDone(u, cur, done, s, s.(choices := s.choices + done))
    decreases |done|
  {
    if done == {} {
      assert s.choices + done == s.choices;
    } else {
      var clause :| clause in done;
      var mid := s.(choices := s.choices + (done - {clause}));
      OpenClauses(u, cur, done - {clause}, s);
      assert Open(clause, mid);
      OpenClause(u, cur, clause, mid);
      Rejoined(s.choices, done, clause);
      ClausesMore(u, cur, done - {clause}, clause, s, mid, s.(choices := s.choices + done));
    }
  }

  lemma Rejoined<E>(base: set<E>, done: set<E>, x: E)
    requires x in done
    ensures base + (done - {x}) + {x} == base + done && done - {x} + {x} == done && x !in done - {x}
  {
    assert base + (done - {x}) + {x} == base + done;
  }

  lemma OpenChoice(choice: set<PackageId>, s: Spot)
    requires Open(choice, s)
    ensures PruneMove(choice, s, s.(choices := s.choices + {choice}), true)
  {
    assert choice - s.never - s.broken == choice;
  }

  lemma {:induction false} OpenChoices(done: set<set<PackageId>>, s: Spot)
    requires forall choice :: choice in done ==> Open(choice, s)
    ensures PruneDone(done, s, s.(choices := s.choices + done))
    decreases |done|
  {
    if done == {} {
      assert s.choices + done == s.choices;
    } else {
      var choice :| choice in done;
      var mid := s.(choices := s.choices + (done - {choice}));
      OpenChoices(done - {choice}, s);
      assert Open(choice, mid);
      OpenChoice(choice, mid);
      Rejoined(s.choices, done, choice);
      PruneMore(done - {choice}, choice, s, mid, s.(choices := s.choices + done));
    }
  }

  /** Pruning leaves open choices alone. */
  lemma NothingPruned(s: Spot)
    requires forall choice :: choice in s.choices ==> Open(choice, s)
    ensures ChoicesMove(s, s, true)
  {
    var s0 := s.(choices := {});
    assert forall choice :: choice in s.choices ==> Open(choice, s0);
    OpenChoices(s.choices, s0);
    assert {} + s.choices == s.choices;
  }

  lemma Unpruned(s: Spot)
    requires s.suite == ALL && s.broken == {} && s.choices <= {XQ, PP, ZY}
    requires XQ in s.choices ==> X !in s.musts && Q !in s.musts && X !in s.never && Q !in s.never
    requires PP in s.choices ==> P1 !in s.musts && P2 !in s.musts && P1 !in s.never && P2 !in s.never
    requires ZY in s.choices ==> Z !in s.musts && Y !in s.musts && Z !in s.never && Y !in s.never
    ensures ChoicesMove(s, s, true)
  {
    Distinct();
    assert |XQ| == 2 && |PP| == 2 && |ZY| == 2;
    forall choice | choice in s.choices
      ensures Open(choice, s)
    {
    }
    NothingPruned(s);
  }

  /** A package that adds only its conflicts. */
  lemma Plain(u: Universe, s: Spot, p: PackageId)
    requires s.check == [p] && (p in s.never ==> u.NegativeDependenciesOf(p) == {})
    requires u.NegativeDependenciesOf(p) <= s.suite
    requires forall clause :: clause in u.DependenciesOf(p) ==> Hits(clause, s.musts)
    ensures LoopMove(u, s, s.(never := s.never + u.NegativeDependenciesOf(p), check := []), true)
  {
    var t := s.(never := s.never + u.NegativeDependenciesOf(p), check := []);
    AllHit(u, p, u.DependenciesOf(p), t);
    PlainMove(u, s, t, p);
    ReachesSelf(u, s);
    ReachesMore(u, s, s, t);
  }

  lemma PlainMove(u: Universe, s: Spot, t: Spot, p: PackageId)
    requires s.check == [p] && (p in s.never ==> u.NegativeDependenciesOf(p) == {})
    requires u.NegativeDependenciesOf(p) <= s.suite
    requires ClausesDone(u, p, u.DependenciesOf(p), s.(never := s.never + u.NegativeDependenciesOf(p), check := []), t)
    ensures PackageMove(u, s, t, true)
  {
    assert [p][..0] == [];
    assert u.NegativeDependenciesOf(p) * s.suite == u.NegativeDependenciesOf(p);
  }

  lemma {:induction false} AllHit(u: Universe, cur: PackageId, done: set<set<PackageId>>, s: Spot)
    requires forall clause :: clause in done ==> Hits(clause, s.musts)
    ensures ClausesDone(u, cur, done, s, s)
    decreases |done|
  {
    if done != {} {
      var clause :| clause in done;
      AllHit(u, cur, done - {clause}, s);
      assert ClauseMove(u, cur, clause, s, s, true);
    }
  }

  /** An option that needs just one package, which adds only its conflicts. */
  lemma Brings(u: Universe, s: Spot, p: PackageId, d: PackageId)
    requires s.check == [p] && s.never == {} && s.choices == {} && d in s.suite && d !in s.musts && u.AreEquivalent(d, d)
    requires u.DependenciesOf(p) == {{d}} && u.NegativeDependenciesOf(p) == {}
    requires u.DependenciesOf(d) == {} && u.NegativeDependenciesOf(d) <= s.suite
    ensures LoopMove(u, s, s.(musts := s.musts + {d}, never := u.NegativeDependenciesOf(d), check := []), true)
  {
    var popped, mid := s.(check := []), s.(musts := s.musts + {d}, check := [d]);
    var t := mid.(never := u.NegativeDependenciesOf(d), check := []);
    assert {d} * s.suite - s.never == {d};
    AllKept(u, {d});
    assert [] + [d] == [d];
    assert Chosen(popped, {d}, mid);
    assert ClauseMove(u, p, {d}, popped, mid, true);
    assert {} + {{d}} == {{d}};
    ClausesMore(u, p, {}, {d}, popped, popped, mid);
    assert s.never + {} == s.never && s.never + u.NegativeDependenciesOf(d) == u.NegativeDependenciesOf(d);
    PlainMove(u, s, mid, p);
    PlainMove(u, mid, t, d);
    ReachesSelf(u, s);
    ReachesMore(u, s, s, mid);
    ReachesMore(u, s, mid, t);
  }

  /** Package by package. */
  lemma Facts(u: Universe)
    requires IsExample(u)
    ensures u.DependenciesOf(T) == {XQ, PP, ZY} && u.NegativeDependenciesOf(T) == {W}
    ensures u.DependenciesOf(X) == {} && u.NegativeDependenciesOf(X) == {}
    ensures u.DependenciesOf(Q) == {} && u.NegativeDependenciesOf(Q) == {A, B}
    ensures u.DependenciesOf(P1) == {{A}} && u.NegativeDependenciesOf(P1) == {}
    ensures u.DependenciesOf(P2) == {{B}} && u.NegativeDependenciesOf(P2) == {}
    ensures u.DependenciesOf(Y) == {{Q}} && u.NegativeDependenciesOf(Y) == {}
    ensures u.DependenciesOf(A) == {} && u.NegativeDependenciesOf(A) == {Q}
    ensures u.AreEquivalent(A, A) && u.AreEquivalent(Q, Q)
    ensures u.DependenciesOf(Z) == {{W}} && u.NegativeDependenciesOf(W) == {T}
  {
    Distinct();
    assert LooksRight(u, T) && LooksRight(u, X) && LooksRight(u, Q) && LooksRight(u, P1) && LooksRight(u, P2);
    assert LooksRight(u, Y) && LooksRight(u, A) && LooksRight(u, Z) && LooksRight(u, W);
  }

  // ---------------------------------------------------------------------------------------------
  // The run, from the inside out
  // ---------------------------------------------------------------------------------------------

  /** The recursive search for q goes for p2, which needs a package that conflicts with q. */
  function BeforeP1(): Spot {
    At({T, Q}, {A, B, W}, {ZY}, [])
  }

  function RejectP1(): Try {
    Try(P1, BeforeP1(), At({T, Q, P1, A}, {Q}, {}, []), true, Rejected, BeforeP1())
  }

  function GoForP2(): Pick {
    Pick(At({T, Q}, {A, B, W}, {PP, ZY}, []), PP, P2, [RejectP1()], At({T, Q, P2}, {A, B, W}, {ZY}, [P2]))
  }

  function StartOfQ(): Spot {
    At({T, Q}, {A, B, W}, {PP, ZY}, [Q])
  }

  function SearchForQ(): Run {
    Run(StartOfQ(), [PassOf(StartOfQ(), GoForP2())], Blocked(At({T, Q, P2}, {A, B, W}, {ZY}, [])))
  }

  lemma RejectP1Ok(u: Universe)
    requires IsExample(u)
    ensures TryOk(u, RejectP1())
  {
    Distinct();
    Facts(u);
    var t := RejectP1();
    Brings(u, Alone(t.before, P1), P1, A);
    assert {T, Q} + {P1} + {A} == {T, Q, P1, A};
    assert Q in {Q} && Q !in {A, B, W} && Q in {T, Q};
  }

  lemma OneTry(u: Universe, t: Try, before: Spot, options: set<PackageId>)
    requires TryOk(u, t) && t.before == before && t.option in options
    ensures TriesOk(u, [t], before, options) && OptionsOf([t]) == {t.option}
    ensures ShortcutsOfTries([t]) == ShortcutsOfTry(t) && AfterTries([t], before) == t.after
  {
    assert OptionsOf([]) == {} && TriesOk(u, [], before, options);
    TriesMore(u, [], before, options, t);
    assert [] + [t] == [t];
  }

  lemma OnePick(u: Universe, p: Pick)
    requires PickOk(u, p)
    ensures PicksOk(u, [p], p.before) && ShortcutsOfPicks([p]) == ShortcutsOfTries(p.tries)
  {
    PicksMore(u, [], p.before, p);
    assert [] + [p] == [p];
  }

  lemma OneRound(u: Universe, r: Round)
    requires RoundOk(u, r)
    ensures RoundsOk(u, [r], r.before) && ShortcutsOfRounds([r]) == ShortcutsOfPicks(r.picks)
  {
    RoundsMore(u, [], r.before, r);
    assert [] + [r] == [r];
  }

  lemma GoForP2Ok(u: Universe)
    requires IsExample(u)
    ensures PickOk(u, GoForP2()) && ShortcutsOfTries(GoForP2().tries) == []
  {
    Distinct();
    RejectP1Ok(u);
    var p := GoForP2();
    OneTry(u, RejectP1(), BeforeP1(), {P1});
    assert {PP, ZY} - {PP} == {ZY};
    assert PP - {P2} == {P1};
    assert {T, Q} + {P2} == {T, Q, P2};
  }

  /** p2 fails: the package that it needs is ruled out. */
  lemma P2Fails(u: Universe)
    requires IsExample(u)
    ensures LoopMove(u, GoForP2().after, At({T, Q, P2}, {A, B, W}, {ZY}, []), false)
  {
    Distinct();
    var s, t := GoForP2().after, At({T, Q, P2}, {A, B, W}, {ZY}, []);
    Facts(u);
    assert [P2][..0] == [];
    assert {B} * ALL - {A, B, W} == {} && B in {B};
    assert ClauseMove(u, P2, {B}, t, t, false);
    assert ClausesDone(u, P2, {}, t, t) && {B} in u.DependenciesOf(P2) - {};
    assert {A, B, W} + {} == {A, B, W};
    assert PackageMove(u, s, t, false);
    ReachesSelf(u, s);
  }

  /** A pass in which nothing is pruned and one choice is taken up. */
  function PassOf(before: Spot, p: Pick): Round {
    Round(before, p.before, p.before, [p], p.after)
  }

  lemma PassOfOk(u: Universe, before: Spot, p: Pick)
    requires before.check != [] && LoopMove(u, before, p.before, true) && ChoicesMove(p.before, p.before, true)
    requires PickOk(u, p) && !Answering(p.tries) && (TookShortcut(p.tries) ==> p.after.choices == {})
    ensures RoundOk(u, PassOf(before, p))
  {
    OnePick(u, p);
  }

  /** A run of one such pass. */
  lemma OnePass(u: Universe, before: Spot, p: Pick, ending: Ending)
    requires RoundOk(u, PassOf(before, p)) && PickOk(u, p) && EndingOk(u, p.after, ending)
    ensures RunOk(u, Run(before, [PassOf(before, p)], ending))
    ensures Shortcuts(Run(before, [PassOf(before, p)], ending)) == ShortcutsOfTries(p.tries) + ShortcutsOfEnding(ending)
  {
    OnePick(u, p);
    OneRound(u, PassOf(before, p));
  }

  lemma QExamined(u: Universe)
    requires IsExample(u)
    ensures LoopMove(u, StartOfQ(), GoForP2().before, true)
  {
    Distinct();
    Facts(u);
    Plain(u, StartOfQ(), Q);
    assert {A, B, W} + {A, B} == {A, B, W};
  }

  lemma QPruned()
    ensures ChoicesMove(GoForP2().before, GoForP2().before, true)
  {
    Distinct();
    Unpruned(GoForP2().before);
  }

  lemma SearchForQOk(u: Universe)
    requires IsExample(u)
    ensures RunOk(u, SearchForQ()) && Shortcuts(SearchForQ()) == []
  {
    QExamined(u);
    QPruned();
    GoForP2Ok(u);
    PassOfOk(u, StartOfQ(), GoForP2());
    P2Fails(u);
    OnePass(u, StartOfQ(), GoForP2(), SearchForQ().ending);
  }

  // The first pass: q is given up, and the search goes for x.

  function BeforeQ(): Spot {
    At({T}, {W}, {PP, ZY}, [])
  }

  function GiveUpQ(): Try {
    Try(Q, BeforeQ(), At({T, Q}, {A, B}, {}, []), true, Effect.GivenUp(SearchForQ()), At({T}, {W, Q}, {PP, ZY}, []))
  }

  function GoForX(): Pick {
    Pick(At({T}, {W}, {XQ, PP, ZY}, []), XQ, X, [GiveUpQ()], At({T, X}, {W, Q}, {PP, ZY}, [X]))
  }

  function Start(): Spot {
    At({T}, {}, {}, [T])
  }

  lemma QAlone(u: Universe)
    requires IsExample(u)
    ensures LoopMove(u, Alone(BeforeQ(), Q), GiveUpQ().looped, true)
  {
    Distinct();
    Facts(u);
    Plain(u, Alone(BeforeQ(), Q), Q);
    assert {T} + {Q} == {T, Q} && {} + {A, B} == {A, B};
  }

  lemma QDeeper()
    ensures StartOfQ() == Deeper(BeforeQ(), GiveUpQ().looped, Q) && !WithoutConsequences(GiveUpQ()) && Tidy(GiveUpQ())
  {
    Distinct();
    assert {A, B} + {W} == {A, B, W} && {} + {PP, ZY} == {PP, ZY};
    assert A in {A, B} && A !in {W};
  }

  lemma GiveUpQOk(u: Universe)
    requires IsExample(u)
    ensures TryOk(u, GiveUpQ())
  {
    SearchForQOk(u);
    QAlone(u);
    QDeeper();
    assert {W} + {Q} == {W, Q};
  }

  lemma XTaken()
    ensures {XQ, PP, ZY} - {XQ} == {PP, ZY} && XQ - {X} == {Q} && {T} + {X} == {T, X}
  {
    Distinct();
    assert X in XQ && X !in PP && X !in ZY;
  }

  lemma GoForXOk(u: Universe)
    requires IsExample(u)
    ensures PickOk(u, GoForX()) && ShortcutsOfTries(GoForX().tries) == []
  {
    GiveUpQOk(u);
    OneTry(u, GiveUpQ(), BeforeQ(), {Q});
    XTaken();
  }

  lemma TClauses(u: Universe)
    requires IsExample(u)
    ensures ClausesDone(u, T, {XQ, PP, ZY}, BeforeQ().(choices := {}), GoForX().before)
  {
    Distinct();
    var s := BeforeQ().(choices := {});
    assert |XQ| == 2 && |PP| == 2 && |ZY| == 2;
    forall p | p in ALL
      ensures u.AreEquivalent(p, p)
    {
      assert LooksRight(u, p);
    }
    assert forall clause :: clause in {XQ, PP, ZY} ==> Open(clause, s);
    OpenClauses(u, T, {XQ, PP, ZY}, s);
    assert {} + {XQ, PP, ZY} == {XQ, PP, ZY};
  }

  lemma TExamined(u: Universe)
    requires IsExample(u)
    ensures LoopMove(u, Start(), GoForX().before, true)
  {
    var t := GoForX().before;
    Facts(u);
    TClauses(u);
    assert {} + {W} == {W};
    PlainMove(u, Start(), t, T);
    ReachesSelf(u, Start());
    ReachesMore(u, Start(), Start(), t);
  }

  lemma TPruned()
    ensures ChoicesMove(GoForX().before, GoForX().before, true)
  {
    Distinct();
    Unpruned(GoForX().before);
  }

  lemma FirstPass(u: Universe)
    requires IsExample(u)
    ensures RoundOk(u, PassOf(Start(), GoForX()))
  {
    TExamined(u);
    TPruned();
    GoForXOk(u);
    PassOfOk(u, Start(), GoForX());
  }

  // The second pass: y brings q back, and p1 appears to be without consequences.

  function AfterP1(): Spot {
    At({T, X, Y, Q, P1, A}, {A, B, W, Q}, {}, [])
  }

  function TakeP1(): Try {
    Try(P1, At({T, X, Y, Q}, {A, B, W, Q}, {}, []), At({T, X, Y, Q, P1, A}, {Q}, {}, []), true, Effect.Shortcut, AfterP1())
  }

  function SettleP1(): Pick {
    Pick(At({T, X, Y, Q}, {A, B, W, Q}, {PP}, []), PP, P2, [TakeP1()], AfterP1())
  }

  function StartOfY(): Spot {
    At({T, X, Y, Q}, {A, B, W, Q}, {PP}, [Y])
  }

  function SearchForY(): Run {
    Run(StartOfY(), [PassOf(StartOfY(), SettleP1())], Settled)
  }

  function TakeY(): Try {
    Try(Y, At({T, X}, {W, Q}, {PP}, []), At({T, X, Y, Q}, {A, B}, {}, []), true, Succeeded(SearchForY()),
        At({T, X}, {W, Q}, {PP}, []))
  }

  function SettleY(): Pick {
    Pick(At({T, X}, {W, Q}, {PP, ZY}, []), ZY, Z, [TakeY()], TakeY().after)
  }

  /** The search for t. */
  function SearchForT(): Run {
    Run(Start(), [PassOf(Start(), GoForX())], SolvedBy(SettleY()))
  }

  lemma TakeP1Ok(u: Universe)
    requires IsExample(u)
    ensures TryOk(u, TakeP1()) && !Tidy(TakeP1())
  {
    Distinct();
    Facts(u);
    var t := TakeP1();
    Brings(u, Alone(t.before, P1), P1, A);
    assert {T, X, Y, Q} + {P1} + {A} == {T, X, Y, Q, P1, A};
    assert Q in t.before.musts && Q in t.looped.never;
  }

  lemma SettleP1Ok(u: Universe)
    requires IsExample(u)
    ensures PickOk(u, SettleP1()) && ShortcutsOfTries(SettleP1().tries) == [TakeP1()] && TookShortcut(SettleP1().tries)
  {
    Distinct();
    TakeP1Ok(u);
    OneTry(u, TakeP1(), TakeP1().before, {P1});
    assert {PP} - {PP} == {} && PP - {P2} == {P1};
  }

  lemma YExamined(u: Universe)
    requires IsExample(u)
    ensures LoopMove(u, StartOfY(), SettleP1().before, true)
  {
    Distinct();
    Facts(u);
    assert Q in {Q} && Q in StartOfY().musts;
    Plain(u, StartOfY(), Y);
    assert {A, B, W, Q} + {} == {A, B, W, Q};
  }

  lemma YPruned()
    ensures ChoicesMove(SettleP1().before, SettleP1().before, true)
  {
    Distinct();
    assert PP in {XQ, PP, ZY} && P1 in PP && P1 !in XQ && P1 !in ZY;
    Unpruned(SettleP1().before);
  }

  lemma SearchForYOk(u: Universe)
    requires IsExample(u)
    ensures RunOk(u, SearchForY()) && Shortcuts(SearchForY()) == [TakeP1()]
  {
    YExamined(u);
    YPruned();
    SettleP1Ok(u);
    PassOfOk(u, StartOfY(), SettleP1());
    OnePass(u, StartOfY(), SettleP1(), Settled);
  }

  lemma YAlone(u: Universe)
    requires IsExample(u)
    ensures LoopMove(u, Alone(TakeY().before, Y), TakeY().looped, true)
  {
    Distinct();
    Facts(u);
    Brings(u, Alone(TakeY().before, Y), Y, Q);
    assert {T, X} + {Y} + {Q} == {T, X, Y, Q};
  }

  lemma YDeeper()
    ensures StartOfY() == Deeper(TakeY().before, TakeY().looped, Y) && !WithoutConsequences(TakeY()) && Tidy(TakeY())
  {
    Distinct();
    assert {A, B} + {W, Q} == {A, B, W, Q} && {} + {PP} == {PP};
    assert A in {A, B} && A !in {W, Q};
  }

  lemma TakeYOk(u: Universe)
    requires IsExample(u)
    ensures TryOk(u, TakeY()) && ShortcutsOfTry(TakeY()) == [TakeP1()]
  {
    SearchForYOk(u);
    YAlone(u);
    YDeeper();
  }

  lemma YTaken()
    ensures {PP, ZY} - {ZY} == {PP} && ZY - {Z} == {Y}
  {
    Distinct();
    assert Z in ZY && Z !in PP;
  }

  lemma SettleYOk(u: Universe)
    requires IsExample(u)
    ensures PickOk(u, SettleY()) && ShortcutsOfTries(SettleY().tries) == [TakeP1()]
  {
    TakeYOk(u);
    OneTry(u, TakeY(), TakeY().before, {Y});
    YTaken();
  }

  lemma XExamined(u: Universe)
    requires IsExample(u)
    ensures LoopMove(u, GoForX().after, SettleY().before, true)
  {
    Distinct();
    Facts(u);
    Plain(u, GoForX().after, X);
    assert {W, Q} + {} == {W, Q};
  }

  lemma XPruned()
    ensures ChoicesMove(SettleY().before, SettleY().before, true)
  {
    Distinct();
    Unpruned(SettleY().before);
  }

  /** A last pass in which nothing is pruned and one choice answers the question. */
  function SolvedBy(p: Pick): Ending {
    Ending.Solved(p.before, p.before, [p])
  }

  lemma SolvedByOk(u: Universe, now: Spot, p: Pick)
    requires now.check != [] && LoopMove(u, now, p.before, true) && ChoicesMove(p.before, p.before, true)
    requires PickOk(u, p) && Answering(p.tries)
    ensures EndingOk(u, now, SolvedBy(p)) && ShortcutsOfEnding(SolvedBy(p)) == ShortcutsOfTries(p.tries)
  {
    OnePick(u, p);
  }

  lemma SearchForTOk(u: Universe)
    requires IsExample(u)
    ensures RunOk(u, SearchForT()) && Shortcuts(SearchForT()) == [TakeP1()]
  {
    FirstPass(u);
    GoForXOk(u);
    XExamined(u);
    XPruned();
    SettleYOk(u);
    SolvedByOk(u, GoForX().after, SettleY());
    OnePass(u, Start(), GoForX(), SolvedBy(SettleY()));
  }

  /** No install set holds t. */
  lemma NotInstallable(u: Universe, suite: set<PackageId>, m: set<PackageId>)
    requires IsExample(u) && InstallSet(u, suite, m)
    ensures T !in m
  {
    Facts(u);
    assert T in m ==> Satisfied(u, T, m) && Hits(PP, m) && Hits(ZY, m);
    assert Z in m ==> Satisfied(u, Z, m) && Hits({W}, m);
    assert Y in m ==> Satisfied(u, Y, m) && Hits({Q}, m);
    assert P1 in m ==> Satisfied(u, P1, m) && Hits({A}, m);
    assert P2 in m ==> Satisfied(u, P2, m) && Hits({B}, m);
    assert T in m ==> W !in m;
    assert Q in m ==> A !in m && B !in m;
  }

  lemma NothingEssential(u: Universe, closure: set<PackageId>)
    requires u.essential == {}
    ensures PseudoEssentialSound(u, ALL, "amd64", RegionOf(closure, "amd64"), PseudoEssential({}, {}, {}))
  {
  }

  /** The run is a search for t that the tester may make. */
  lemma SearchIsForT(u: Universe, closure: set<PackageId>)
    requires IsExample(u)
    ensures RunFor(u, closure, ALL, T, ALL, SearchForT())
  {
    SearchForTOk(u);
    NothingEssential(u, closure);
    assert {T} + {} == {T};
    assert StartsFrom(Start(), T, PseudoEssential({}, {}, {}));
  }

  /** q and a are both selected. */
  lemma FoundConflict(u: Universe)
    requires IsExample(u)
    ensures WrongYes(u, T, Found(SearchForT()))
  {
    Distinct();
    Facts(u);
    var found := {T, X, Y, Q, P1, A};
    assert Found(SearchForT()) == found;
    assert Q in found && A in found && Q in u.NegativeDependenciesOf(A);
    assert X in found * XQ && P1 in found * PP && Y in found * ZY && A in found * {A} && Q in found * {Q};
    forall p | p in found
      ensures Satisfied(u, p, found)
    {
    }
  }

  lemma SearchUntidy(u: Universe)
    requires IsExample(u)
    ensures Verdict(SearchForT()) && !TidyRuns([SearchForT()])
  {
    SearchForTOk(u);
    TakeP1Ok(u);
    var run := SearchForT();
    assert [run][0] == run && !Tidy(Shortcuts(run)[0]);
  }

  lemma NeverInstallable(u: Universe)
    requires IsExample(u)
    ensures !Installable(u, ALL, T)
  {
    forall m
      ensures !Witness(u, ALL, T, m)
    {
      if InstallSet(u, ALL, m) {
        NotInstallable(u, ALL, m);
      }
    }
  }

  lemma ExampleBuilt() returns (u: Universe)
    ensures WellFormed(u) && IsExample(u)
  {
    u := Example();
    ExampleWellFormed();
    NoneBroken();
    ExampleIs(ExampleDeclarations(), u);
  }

  /** A search of the tester that answers "yes" for a package that is not installable. */
  lemma WrongYesExists() returns (u: Universe, run: Run)
    ensures WellFormed(u) && u.essential == {} && u.relations.Keys == ALL
    ensures forall closure :: RunFor(u, closure, ALL, T, ALL, run)
    ensures Verdict(run) && WrongYes(u, T, Found(run)) && !TidyRuns([run])
    ensures !Installable(u, ALL, T)
  {
    u := ExampleBuilt();
    run := SearchForT();
    forall closure
      ensures RunFor(u, closure, ALL, T, ALL, run)
    {
      SearchIsForT(u, closure);
    }
    FoundConflict(u);
    SearchUntidy(u);
    NeverInstallable(u);
  }
}
