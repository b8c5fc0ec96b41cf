/** Builds the universe from declared relations. */
module Builder {
  import opened Universes

  // ---------------------------------------------------------------------------------------------
  // Declared relations
  // ---------------------------------------------------------------------------------------------

  /** What is declared about a package: its dependency clauses and the packages it breaks. */
  datatype Declared = Declared(clauses: set<set<PackageId>>, breaks: set<PackageId>)

  type Declarations = map<PackageId, Declared>

  const NOTHING := Declared({}, {})

  function ClausesOf(decl: Declarations, p: PackageId): set<set<PackageId>> {
    if p in decl then decl[p].clauses else {}
  }

  function BreaksOf(decl: Declarations, p: PackageId): set<PackageId> {
    if p in decl then decl[p].breaks else {}
  }

  /** An install set read off the declarations themselves. */
  ghost predicate DeclaredInstallSet(decl: Declarations, suite: set<PackageId>, m: set<PackageId>) {
    && m <= suite
    && (forall p :: p in m ==> p in decl)
    && (forall p, clause :: p in m && clause in ClausesOf(decl, p) ==> Hits(clause, m))
    && (forall p, q :: p in m && q in m ==> q !in BreaksOf(decl, p))
  }

  /** What callers declare: clauses on one architecture, and no package that breaks itself (a package
      satisfying its own conflict uses section 7.6.2 of the Debian Policy Manual). */
  ghost predicate DeclarationsLocal(decl: Declarations) {
    && (forall p, clause, d :: clause in ClausesOf(decl, p) && d in clause ==> d.architecture == p.architecture)
    && (forall p :: p !in BreaksOf(decl, p))
  }

  /** Every package that a relation mentions has been added. */
  ghost predicate AllAdded(decl: Declarations) {
    && (forall p, clause, d :: clause in ClausesOf(decl, p) && d in clause ==> d in decl)
    && (forall p, d :: d in BreaksOf(decl, p) ==> d in decl)
  }

  // The reverse relations.

  function ReverseDeps(decl: Declarations, d: PackageId): set<PackageId> {
    set p, clause | p in decl && clause in decl[p].clauses && d in clause :: p
  }

  function ReverseBreaks(decl: Declarations, d: PackageId): set<PackageId> {
    set p | p in decl && d in decl[p].breaks
  }

  function ReverseClauses(decl: Declarations, d: PackageId): set<set<PackageId>> {
    set p, clause | p in decl && clause in decl[p].clauses && d in clause :: clause
  }

  // ---------------------------------------------------------------------------------------------
  // The universe that the declarations describe
  // ---------------------------------------------------------------------------------------------

  function Broken(decl: Declarations): set<PackageId> {
    set p | p in decl && {} in decl[p].clauses
  }

  function Stripped(clauses: set<set<PackageId>>, broken: set<PackageId>): set<set<PackageId>> {
    set clause | clause in clauses :: clause - broken
  }

  /** Only packages that depend on a broken one lose their relations with the broken. */
  predicate Strips(decl: Declarations, p: PackageId) {
    exists b :: b in Broken(decl) && p in ReverseDeps(decl, b)
  }

  function BuiltDeps(decl: Declarations, p: PackageId): set<set<PackageId>> {
    if p in Broken(decl) then {{}}
    else if Strips(decl, p) then Stripped(ClausesOf(decl, p), Broken(decl))
    else ClausesOf(decl, p)
  }

  function BuiltConflicts(decl: Declarations, p: PackageId): set<PackageId> {
    var all := BreaksOf(decl, p) + ReverseBreaks(decl, p);
    if p in Broken(decl) then {}
    else if Strips(decl, p) then all - Broken(decl)
    else all
  }

  /** Packages are put into a class when something depends on them. */
  predicate Classed(decl: Declarations, p: PackageId) {
    p in decl && p !in Broken(decl) && ReverseClauses(decl, p) != {}
  }

  predicate SameSignature(decl: Declarations, p: PackageId, q: PackageId) {
    && BuiltDeps(decl, p) == BuiltDeps(decl, q)
    && BuiltConflicts(decl, p) == BuiltConflicts(decl, q)
    && ReverseClauses(decl, p) == ReverseClauses(decl, q)
  }

  function BuiltClass(decl: Declarations, p: PackageId): set<PackageId> {
    if Classed(decl, p) then set q | q in decl && Classed(decl, q) && SameSignature(decl, p, q)
    else {p}
  }

  function BuiltRelation(decl: Declarations, p: PackageId): Relation {
    Relation(BuiltClass(decl, p), BuiltDeps(decl, p), BuiltConflicts(decl, p),
             if p in Broken(decl) then {} else ReverseDeps(decl, p))
  }

  function Built(decl: Declarations, essentials: set<PackageId>): Universe {
    Universe(map p | p in decl :: BuiltRelation(decl, p), essentials, Broken(decl),
             set p | p in decl && BuiltClass(decl, p) != {p})
  }

  // ---------------------------------------------------------------------------------------------
  // Building preserves meaning
  // ---------------------------------------------------------------------------------------------

  lemma BuiltDepsOf(decl: Declarations, p: PackageId)
    requires p in decl && p !in Broken(decl)
    ensures BuiltDeps(decl, p) == Stripped(ClausesOf(decl, p), Broken(decl))
  {
    if !Strips(decl, p) {
      forall clause | clause in ClausesOf(decl, p)
        ensures clause - Broken(decl) == clause
      {
        forall d | d in clause
          ensures d !in Broken(decl)
        {
          assert p in ReverseDeps(decl, d);
        }
      }
    }
  }

  lemma BuiltSatisfied(decl: Declarations, u: Universe, p: PackageId, m: set<PackageId>)
    requires u == Built(decl, u.essential) && p in decl && p !in Broken(decl) && m !! Broken(decl)
    ensures Satisfied(u, p, m) <==> forall clause :: clause in ClausesOf(decl, p) ==> Hits(clause, m)
  {
    BuiltDepsOf(decl, p);
    if Satisfied(u, p, m) {
      forall clause | clause in ClausesOf(decl, p)
        ensures Hits(clause, m)
      {
        assert clause - Broken(decl) in u.DependenciesOf(p);
        assert Hits(clause - Broken(decl), m);
      }
    }
    if forall clause :: clause in ClausesOf(decl, p) ==> Hits(clause, m) {
      forall clause' | clause' in u.DependenciesOf(p)
        ensures Hits(clause', m)
      {
        var clause :| clause in ClausesOf(decl, p) && clause' == clause - Broken(decl);
        var d :| d in clause && d in m;
        assert d in clause';
      }
    }
  }

  lemma BuiltConflictsOf(decl: Declarations, p: PackageId, q: PackageId)
    requires p in decl && q in decl && p !in Broken(decl) && q !in Broken(decl)
    ensures q in BuiltConflicts(decl, p) <==> q in BreaksOf(decl, p) || p in BreaksOf(decl, q)
  {
  }

  lemma NoBrokenMember(decl: Declarations, u: Universe, m: set<PackageId>)
    requires u == Built(decl, u.essential) && forall p :: p in m ==> p in decl
    requires (forall p, clause :: p in m && clause in ClausesOf(decl, p) ==> Hits(clause, m))
      || (forall p :: p in m ==> Satisfied(u, p, m))
    ensures m !! Broken(decl)
  {
    forall p | p in m
      ensures p !in Broken(decl)
    {
      assert !Hits({}, m);
      assert p in Broken(decl) ==> {} in ClausesOf(decl, p) && {} in u.DependenciesOf(p);
    }
  }

  /** A set can be installed according to the declarations exactly when it can in the built universe. */
  lemma BuildPreservesInstallSets(decl: Declarations, essentials: set<PackageId>, suite: set<PackageId>, m: set<PackageId>)
    ensures DeclaredInstallSet(decl, suite, m) <==> InstallSet(Built(decl, essentials), suite, m)
  {
    var u := Built(decl, essentials);
    if DeclaredInstallSet(decl, suite, m) || InstallSet(u, suite, m) {
      assert forall p :: u.Knows(p) <==> p in decl;
      NoBrokenMember(decl, u, m);
      forall p | p in m
        ensures Satisfied(u, p, m) <==> forall clause :: clause in ClausesOf(decl, p) ==> Hits(clause, m)
      {
        BuiltSatisfied(decl, u, p, m);
      }
      forall p, q | p in m && q in m
        ensures q in u.NegativeDependenciesOf(p) <==> q in BreaksOf(decl, p) || p in BreaksOf(decl, q)
      {
        BuiltConflictsOf(decl, p, q);
      }
    }
  }

  /** What it means for a package to be installable according to the declarations. */
  ghost predicate DeclaredInstallable(decl: Declarations, essentials: set<PackageId>, suite: set<PackageId>, p: PackageId) {
    exists m :: DeclaredWitness(decl, essentials, suite, p, m)
  }

  ghost predicate DeclaredWitness(decl: Declarations, essentials: set<PackageId>, suite: set<PackageId>, p: PackageId,
                                  m: set<PackageId>) {
    && DeclaredInstallSet(decl, suite, m) && p in m
    && forall e :: e in essentials && e.architecture == p.architecture && e in suite ==> e in m
  }

  /** A package is installable in the built universe exactly when the declarations and the essential packages say so. */
  lemma BuildPreservesInstallability(decl: Declarations, essentials: set<PackageId>, suite: set<PackageId>, p: PackageId)
    ensures DeclaredInstallable(decl, essentials, suite, p) <==> Installable(Built(decl, essentials), suite, p)
  {
    var u := Built(decl, essentials);
    forall m
      ensures DeclaredInstallSet(decl, suite, m) <==> InstallSet(u, suite, m)
    {
      BuildPreservesInstallSets(decl, essentials, suite, m);
    }
    if m :| DeclaredWitness(decl, essentials, suite, p, m) {
      assert Witness(u, suite, p, m);
    }
    if m :| Witness(u, suite, p, m) {
      forall e | e in essentials && e.architecture == p.architecture && e in suite
        ensures e in m
      {
        assert e in EssentialOf(u, p.architecture) * suite;
      }
      assert DeclaredWitness(decl, essentials, suite, p, m);
    }
  }

  // ---------------------------------------------------------------------------------------------
  // The built universe is well-formed
  // ---------------------------------------------------------------------------------------------

  /** A stripped clause holds the unbroken members of a declared one. */
  lemma ClauseOrigin(decl: Declarations, u: Universe, p: PackageId, clause: set<PackageId>) returns (original: set<PackageId>)
    requires u == Built(decl, u.essential) && clause in u.DependenciesOf(p) && clause != {}
    ensures p in decl && p !in Broken(decl)
    ensures original in ClausesOf(decl, p) && clause == original - Broken(decl)
  {
    assert p in decl && p !in Broken(decl);
    BuiltDepsOf(decl, p);
    original :| original in ClausesOf(decl, p) && clause == original - Broken(decl);
  }

  lemma BuiltClausesLocal(decl: Declarations, essentials: set<PackageId>)
    requires DeclarationsLocal(decl) && AllAdded(decl)
    ensures ClausesLocal(Built(decl, essentials))
  {
    var u := Built(decl, essentials);
    forall p, clause, d | clause in u.DependenciesOf(p) && d in clause
      ensures u.Knows(d) && d !in u.broken && d.architecture == p.architecture
    {
      var original := ClauseOrigin(decl, u, p, clause);
    }
  }

  lemma BuiltConflictsSymmetric(decl: Declarations, essentials: set<PackageId>)
    requires DeclarationsLocal(decl) && AllAdded(decl)
    ensures ConflictsSymmetric(Built(decl, essentials))
  {
    var u := Built(decl, essentials);
    forall p, q | u.Knows(q) && q !in u.broken && q in u.NegativeDependenciesOf(p)
      ensures p in u.NegativeDependenciesOf(q)
    {
      BuiltConflictsOf(decl, p, q);
      BuiltConflictsOf(decl, q, p);
    }
  }

  lemma BuiltReverseInverts(decl: Declarations, essentials: set<PackageId>)
    ensures ReverseInverts(Built(decl, essentials))
  {
    var u := Built(decl, essentials);
    forall p, d | u.Knows(p) && p !in u.broken && u.Knows(d) && d !in u.broken
      ensures p in u.ReverseDependenciesOf(d) <==> exists clause :: clause in u.DependenciesOf(p) && d in clause
    {
      BuiltDepsOf(decl, p);
      if p in u.ReverseDependenciesOf(d) {
        var clause :| clause in decl[p].clauses && d in clause;
        assert clause - Broken(decl) in u.DependenciesOf(p);
      }
      if clause :| clause in u.DependenciesOf(p) && d in clause {
        var original := ClauseOrigin(decl, u, p, clause);
      }
    }
  }

  /** The reverse clauses of a package determine its reverse dependencies. */
  lemma ReverseDepsFromClauses(decl: Declarations, p: PackageId, q: PackageId)
    requires ReverseClauses(decl, p) == ReverseClauses(decl, q)
    ensures ReverseDeps(decl, p) == ReverseDeps(decl, q)
  {
    forall r
      ensures r in ReverseDeps(decl, p) <==> r in ReverseDeps(decl, q)
    {
      if r in ReverseDeps(decl, p) {
        ReverseDepsHalf(decl, p, q, r);
      }
      if r in ReverseDeps(decl, q) {
        ReverseDepsHalf(decl, q, p, r);
      }
    }
  }

  lemma ReverseDepsHalf(decl: Declarations, p: PackageId, q: PackageId, r: PackageId)
    requires ReverseClauses(decl, p) == ReverseClauses(decl, q) && r in ReverseDeps(decl, p)
    ensures r in ReverseDeps(decl, q)
  {
    var clause :| r in decl && clause in decl[r].clauses && p in clause;
    assert clause in ReverseClauses(decl, p);
    assert clause in ReverseClauses(decl, q);
  }

  lemma ClassMates(decl: Declarations, essentials: set<PackageId>, p: PackageId, q: PackageId)
    requires DeclarationsLocal(decl) && Classed(decl, p) && Classed(decl, q) && SameSignature(decl, p, q)
    ensures Interchangeable(Built(decl, essentials), p, q)
  {
    var u := Built(decl, essentials);
    ReverseDepsFromClauses(decl, p, q);
    SameClass(decl, p, q);
    var clause :| clause in ReverseClauses(decl, p);
    assert clause in ReverseClauses(decl, q);
    assert p in clause && q in clause;
    var r :| r in decl && clause in decl[r].clauses;
    assert clause in ClausesOf(decl, r);
    assert p.architecture == r.architecture == q.architecture;
    ClausesCannotTell(decl, u, p, q);
  }

  lemma SameClass(decl: Declarations, p: PackageId, q: PackageId)
    requires Classed(decl, p) && Classed(decl, q) && SameSignature(decl, p, q)
    ensures BuiltClass(decl, p) == BuiltClass(decl, q)
  {
    forall r
      ensures r in BuiltClass(decl, p) <==> r in BuiltClass(decl, q)
    {
    }
  }

  lemma ClausesCannotTell(decl: Declarations, u: Universe, p: PackageId, q: PackageId)
    requires u == Built(decl, u.essential) && p in decl && q in decl && p !in Broken(decl) && q !in Broken(decl)
    requires ReverseClauses(decl, p) == ReverseClauses(decl, q)
    ensures SameReverseClauses(u, p, q)
  {
    forall r, clause | clause in u.DependenciesOf(r)
      ensures p in clause <==> q in clause
    {
      if clause != {} {
        var original := ClauseOrigin(decl, u, r, clause);
        assert p in original <==> original in ReverseClauses(decl, p);
        assert q in original <==> original in ReverseClauses(decl, q);
      }
    }
  }

  lemma BuiltEquivalencesSound(decl: Declarations, essentials: set<PackageId>)
    requires DeclarationsLocal(decl)
    ensures EquivalencesSound(Built(decl, essentials))
  {
    var u := Built(decl, essentials);
    forall p | u.Knows(p)
      ensures u.AreEquivalent(p, p)
      ensures p in u.equivalent <==> u.EquivalentTo(p) != {p}
    {
    }
    forall p, q | u.AreEquivalent(p, q)
      ensures Interchangeable(u, p, q)
    {
      if Classed(decl, p) {
        ClassMates(decl, essentials, p, q);
      } else {
        assert q == p;
      }
    }
  }

  lemma BuildWellFormed(decl: Declarations, essentials: set<PackageId>)
    requires DeclarationsLocal(decl) && AllAdded(decl) && essentials <= decl.Keys
    ensures WellFormed(Built(decl, essentials))
  {
    BuiltClausesLocal(decl, essentials);
    BuiltConflictsSymmetric(decl, essentials);
    BuiltReverseInverts(decl, essentials);
    BuiltEquivalencesSound(decl, essentials);
  }

  // Without broken packages the relations are as declared.

  lemma UnbrokenRelations(decl: Declarations, p: PackageId)
    requires Broken(decl) == {}
    ensures BuiltDeps(decl, p) == ClausesOf(decl, p)
    ensures BuiltConflicts(decl, p) == BreaksOf(decl, p) + ReverseBreaks(decl, p)
  {
    assert !Strips(decl, p);
  }

  lemma BuiltUnbroken(decl: Declarations, u: Universe, p: PackageId)
    requires u == Built(decl, u.essential) && Broken(decl) == {}
    ensures u.broken == {} && u.relations.Keys == decl.Keys
    ensures p in decl ==>
      && u.DependenciesOf(p) == ClausesOf(decl, p)
      && u.NegativeDependenciesOf(p) == BreaksOf(decl, p) + ReverseBreaks(decl, p)
      && u.ReverseDependenciesOf(p) == ReverseDeps(decl, p)
      && u.EquivalentTo(p) == BuiltClass(decl, p)
  {
    UnbrokenRelations(decl, p);
  }

  // ---------------------------------------------------------------------------------------------
  // The builder
  // ---------------------------------------------------------------------------------------------

  /** The reverse relations of a package, collected while relations are declared. */
  datatype Reverse = Reverse(deps: set<PackageId>, breaks: set<PackageId>, clauses: set<set<PackageId>>)

  type ReverseTable = map<PackageId, Reverse>

  function ReverseOf(table: ReverseTable, d: PackageId): Reverse {
    if d in table then table[d] else Reverse({}, {}, {})
  }

  /** The table holds the reverse relations of all that is mentioned, and nothing else. */
  ghost predicate Inverts(table: ReverseTable, decl: Declarations) {
    && (forall d {:trigger ReverseOf(table, d)} :: ReverseOf(table, d) == AllReverse(decl, d))
    && (forall d {:trigger d in table} :: d in table <==> AllReverse(decl, d).deps != {} || AllReverse(decl, d).breaks != {})
  }

  datatype BuildResult = ReferencedButNotAdded(p: PackageId) | Tester(universe: Universe, testing: set<PackageId>)

  class InstallabilityTesterBuilder {
    var packageTable: Declarations
    var reverseTable: ReverseTable
    var essentials: set<PackageId>
    var testing: set<PackageId>
    var broken: set<PackageId>

    constructor ()
      ensures Valid() && packageTable == map[] && essentials == {} && testing == {}
    {
      packageTable, reverseTable := map[], map[];
      essentials, testing, broken := {}, {}, {};
    }

    ghost predicate Valid()
      reads this
    {
      && Inverts(reverseTable, packageTable)
      && broken == Broken(packageTable)
      && essentials <= packageTable.Keys
    }

    /** Add a binary; adding it again only updates its flags. */
    method AddBinary(p: PackageId, isEssential: bool, inTesting: bool) returns (isNew: bool)
      requires Valid()
      modifies this
      ensures Valid()
      ensures isNew <==> p !in old(packageTable)
      ensures packageTable == if isNew then old(packageTable)[p := NOTHING] else old(packageTable)
      ensures essentials == old(essentials) + if isEssential then {p} else {}
      ensures testing == old(testing) + if inTesting then {p} else {}
    {
      if inTesting {
        testing := testing + {p};
      }
      if isEssential {
        essentials := essentials + {p};
      }
      isNew := p !in packageTable;
      if isNew {
        NothingDeclared(packageTable, p);
        packageTable := packageTable[p := NOTHING];
      }
    }

    /** Declare the relations of a package.  The reverse relations add up over the declarations, so they
        stay right as long as no declaration takes a relation of an earlier one back. */
    method SetRelations(p: PackageId, clauses: set<set<PackageId>>, breaks: set<PackageId>)
      modifies this
      ensures packageTable == old(packageTable)[p := Declared(clauses, breaks)]
      ensures RecordedAll(old(reverseTable), reverseTable, p, Declared(clauses, breaks))
      ensures broken == old(broken) + if {} in clauses then {p} else {}
      ensures essentials == old(essentials) && testing == old(testing)
      ensures old(Valid()) && TakesNothingBack(old(packageTable), p, Declared(clauses, breaks)) ==> Valid()
    {
      ghost var before, table := packageTable, reverseTable;
      var satisfiable := RecordClauses(p, clauses);
      if !satisfiable {
        broken := broken + {p};
      }
      RecordBreaks(p, breaks);
      packageTable := packageTable[p := Declared(clauses, breaks)];
      if old(Valid()) && TakesNothingBack(before, p, Declared(clauses, breaks)) {
        StillInverts(table, before, p, Declared(clauses, breaks), reverseTable);
      }
    }

    method RecordClauses(p: PackageId, clauses: set<set<PackageId>>) returns (satisfiable: bool)
      modifies this`reverseTable
      ensures satisfiable <==> {} !in clauses
      ensures Recorded(old(reverseTable), reverseTable, p, clauses)
    {
      satisfiable := true;
      var rest := clauses;
      ghost var done: set<set<PackageId>> := {};
      while rest != {}
        invariant rest + done == clauses && done !! rest
        invariant satisfiable <==> {} !in done
        invariant Recorded(old(reverseTable), reverseTable, p, done)
      {
        var clause :| clause in rest;
        rest := rest - {clause};
        if clause == {} {
          satisfiable := false;
        }
        ghost var table := reverseTable;
        RecordClause(p, clause);
        RecordedMore(old(reverseTable), table, reverseTable, p, done, clause);
        done := done + {clause};
      }
    }

    method RecordClause(p: PackageId, clause: set<PackageId>)
      modifies this`reverseTable
      ensures Recorded(old(reverseTable), reverseTable, p, {clause})
    {
      var rest := clause;
      while rest != {}
        invariant rest <= clause
        invariant forall d :: (
          ReverseOf(reverseTable, d) == WithClauses(old(ReverseOf(reverseTable, d)), p, d, if d in rest then {} else {clause}))
        invariant forall d :: d in reverseTable <==> d in old(reverseTable) || d in clause - rest
      {
        var d :| d in rest;
        rest := rest - {d};
        var reverse := ReverseOf(reverseTable, d);
        reverseTable := reverseTable[d := reverse.(deps := reverse.deps + {p}, clauses := reverse.clauses + {clause})];
      }
      ContainingMore({}, clause);
    }

    method RecordBreaks(p: PackageId, breaks: set<PackageId>)
      modifies this`reverseTable
      ensures forall d :: ReverseOf(reverseTable, d) == WithBreaks(old(ReverseOf(reverseTable, d)), p, d, breaks)
      ensures forall d :: d in reverseTable <==> d in old(reverseTable) || d in breaks
    {
      var rest := breaks;
      while rest != {}
        invariant rest <= breaks
        invariant forall d :: ReverseOf(reverseTable, d) == WithBreaks(old(ReverseOf(reverseTable, d)), p, d, breaks - rest)
        invariant forall d :: d in reverseTable <==> d in old(reverseTable) || d in breaks - rest
      {
        var d :| d in rest;
        rest := rest - {d};
        var reverse := ReverseOf(reverseTable, d);
        reverseTable := reverseTable[d := reverse.(breaks := reverse.breaks + {p})];
      }
    }

    /** Compile the declarations into a universe.  Fails when something is referenced but was not added. */
    method Build() returns (result: BuildResult)
      requires Valid()
      modifies this
      ensures AllAdded(old(packageTable)) ==>
        result == Tester(Built(old(packageTable), old(essentials)), old(testing))
      ensures !AllAdded(old(packageTable)) ==>
        result.ReferencedButNotAdded? && result.p !in old(packageTable)
    {
      ghost var decl := packageTable;
      MentionedIsAdded(reverseTable, decl);
      var ok, missing;
      ok, missing, packageTable := MergeConflicts(packageTable, reverseTable);
      if !ok {
        return ReferencedButNotAdded(missing);
      }
      var stillBroken := ExpandBroken(broken);
      packageTable := StripBroken(packageTable, reverseTable, stillBroken, decl);
      ghost var reverse := reverseTable;
      packageTable, reverseTable := NullBroken(packageTable, reverseTable, stillBroken);
      CompiledTable(decl, reverse, packageTable);
      var relations, eqvSet := BuildRelations(packageTable, reverseTable, decl, reverse);
      result := Tester(Universe(relations, essentials, stillBroken, eqvSet), testing);
    }
  }

  function Containing(clauses: set<set<PackageId>>, d: PackageId): set<set<PackageId>> {
    set clause | clause in clauses && d in clause
  }

  function WithClauses(r: Reverse, p: PackageId, d: PackageId, clauses: set<set<PackageId>>): Reverse {
    var mine := Containing(clauses, d);
    r.(deps := r.deps + (if mine == {} then {} else {p}), clauses := r.clauses + mine)
  }

  function WithBreaks(r: Reverse, p: PackageId, d: PackageId, breaks: set<PackageId>): Reverse {
    r.(breaks := r.breaks + if d in breaks then {p} else {})
  }

  function AllReverse(decl: Declarations, d: PackageId): Reverse {
    Reverse(ReverseDeps(decl, d), ReverseBreaks(decl, d), ReverseClauses(decl, d))
  }

  /** What was declared of the package before is declared again. */
  predicate TakesNothingBack(decl: Declarations, p: PackageId, declared: Declared) {
    p in decl ==> decl[p].clauses <= declared.clauses && decl[p].breaks <= declared.breaks
  }

  /** Declaring relations anew, with what was declared before, adds exactly their own reverse relations. */
  lemma DeclaredAt(decl: Declarations, p: PackageId, declared: Declared, d: PackageId)
    requires TakesNothingBack(decl, p, declared)
    ensures AllReverse(decl[p := declared], d) ==
            WithBreaks(WithClauses(AllReverse(decl, d), p, d, declared.clauses), p, d, declared.breaks)
  {
    var decl' := decl[p := declared];
    var mine := Containing(declared.clauses, d);
    assert forall q :: q != p ==> (q in decl' <==> q in decl) && (q in decl ==> decl'[q] == decl[q]);
    forall q
      ensures q in ReverseDeps(decl', d) <==> q in ReverseDeps(decl, d) || (q == p && mine != {})
    {
      if q == p && mine != {} {
        var clause :| clause in mine;
        assert clause in decl'[p].clauses;
      }
      if q in ReverseDeps(decl', d) {
        var clause :| q in decl' && clause in decl'[q].clauses && d in clause;
        if q == p {
          assert clause in mine;
        } else {
          assert clause in decl[q].clauses;
        }
      }
      if q in ReverseDeps(decl, d) {
        var clause :| q in decl && clause in decl[q].clauses && d in clause;
        assert clause in decl'[q].clauses;
      }
    }
    assert ReverseDeps(decl', d) == ReverseDeps(decl, d) + if mine == {} then {} else {p};
    assert ReverseClauses(decl', d) == ReverseClauses(decl, d) + mine by {
      forall clause | clause in mine
        ensures clause in ReverseClauses(decl', d)
      {
        assert p in decl' && clause in decl'[p].clauses;
      }
    }
    assert ReverseBreaks(decl', d) == ReverseBreaks(decl, d) + if d in declared.breaks then {p} else {};
  }

  lemma DeclaredOnce(decl: Declarations, p: PackageId, declared: Declared)
    requires TakesNothingBack(decl, p, declared)
    ensures Broken(decl[p := declared]) == Broken(decl) + if {} in declared.clauses then {p} else {}
    ensures forall d {:trigger AllReverse(decl[p := declared], d)} {:trigger AllReverse(decl, d)} ::
      AllReverse(decl[p := declared], d) ==
      WithBreaks(WithClauses(AllReverse(decl, d), p, d, declared.clauses), p, d, declared.breaks)
  {
    forall d
      ensures AllReverse(decl[p := declared], d) ==
        WithBreaks(WithClauses(AllReverse(decl, d), p, d, declared.clauses), p, d, declared.breaks)
    {
      DeclaredAt(decl, p, declared, d);
    }
  }

  /** Table `t` is `t0` with package `p` recorded under all members of the clauses. */
  ghost predicate Recorded(t0: ReverseTable, t: ReverseTable, p: PackageId, clauses: set<set<PackageId>>) {
    && (forall d {:trigger ReverseOf(t, d)} :: ReverseOf(t, d) == WithClauses(ReverseOf(t0, d), p, d, clauses))
    && (forall d {:trigger d in t} :: d in t <==> d in t0 || Containing(clauses, d) != {})
  }

  lemma RecordedMore(t0: ReverseTable, t1: ReverseTable, t2: ReverseTable, p: PackageId, done: set<set<PackageId>>,
                     clause: set<PackageId>)
    requires Recorded(t0, t1, p, done) && Recorded(t1, t2, p, {clause})
    ensures Recorded(t0, t2, p, done + {clause})
  {
    forall d
      ensures ReverseOf(t2, d) == WithClauses(ReverseOf(t0, d), p, d, done + {clause})
      ensures d in t2 <==> d in t0 || Containing(done + {clause}, d) != {}
    {
      assert Containing(done + {clause}, d) == Containing(done, d) + Containing({clause}, d);
      assert ReverseOf(t1, d) == WithClauses(ReverseOf(t0, d), p, d, done);
    }
  }

  lemma ContainingMore(done: set<set<PackageId>>, clause: set<PackageId>)
    ensures forall d :: Containing(done + {clause}, d) == Containing(done, d) + if d in clause then {clause} else {}
    ensures forall d :: Containing({clause}, d) == if d in clause then {clause} else {}
  {
  }

  /** Table `t` is `t0` with package `p` recorded under everything that it declares. */
  ghost predicate RecordedAll(t0: ReverseTable, t: ReverseTable, p: PackageId, declared: Declared) {
    && (forall d {:trigger ReverseOf(t, d)} ::
          ReverseOf(t, d) == WithBreaks(WithClauses(ReverseOf(t0, d), p, d, declared.clauses), p, d, declared.breaks))
    && (forall d {:trigger d in t} :: d in t <==> d in t0 || d in declared.breaks || Containing(declared.clauses, d) != {})
  }

  lemma StillInverts(table: ReverseTable, decl: Declarations, p: PackageId, declared: Declared, table': ReverseTable)
    requires TakesNothingBack(decl, p, declared) && Inverts(table, decl) && RecordedAll(table, table', p, declared)
    ensures Inverts(table', decl[p := declared])
    ensures Broken(decl[p := declared]) == Broken(decl) + if {} in declared.clauses then {p} else {}
  {
    DeclaredOnce(decl, p, declared);
    forall d
      ensures d in table' <==> AllReverse(decl[p := declared], d).deps != {} || AllReverse(decl[p := declared], d).breaks != {}
    {
      assert ReverseOf(table, d) == AllReverse(decl, d);
    }
  }

  lemma NothingDeclared(decl: Declarations, p: PackageId)
    requires p !in decl
    ensures Broken(decl[p := NOTHING]) == Broken(decl)
    ensures forall d {:trigger AllReverse(decl[p := NOTHING], d)} :: AllReverse(decl[p := NOTHING], d) == AllReverse(decl, d)
  {
    DeclaredOnce(decl, p, NOTHING);
  }

  // ---------------------------------------------------------------------------------------------
  // The passes of the build
  // ---------------------------------------------------------------------------------------------

  lemma MentionedIsAdded(table: ReverseTable, decl: Declarations)
    requires Inverts(table, decl)
    ensures AllAdded(decl) <==> table.Keys <= decl.Keys
  {
    forall p, clause, d | clause in ClausesOf(decl, p) && d in clause
      ensures d in table
    {
      assert p in decl && clause in decl[p].clauses;
      assert p in AllReverse(decl, d).deps;
    }
    forall p, d | d in BreaksOf(decl, p)
      ensures d in table
    {
      assert p in decl && d in decl[p].breaks;
      assert p in AllReverse(decl, d).breaks;
    }
    if AllAdded(decl) {
      forall d | d in table
        ensures d in decl
      {
        MentionedBy(decl, d);
      }
    }
  }

  lemma MentionedBy(decl: Declarations, d: PackageId)
    requires AllAdded(decl) && (ReverseDeps(decl, d) != {} || ReverseBreaks(decl, d) != {})
    ensures d in decl
  {
    if p :| p in ReverseDeps(decl, d) {
      var clause :| p in decl && clause in decl[p].clauses && d in clause;
      assert clause in ClausesOf(decl, p);
    } else {
      var p :| p in ReverseBreaks(decl, d);
      assert d in BreaksOf(decl, p);
    }
  }

  /** A declaration with the conflicts of both directions. */
  function Merged(declared: Declared, reverse: Reverse): Declared {
    declared.(breaks := declared.breaks + reverse.breaks)
  }

  /** Merge reverse conflicts into the conflicts. */
  method MergeConflicts(table0: Declarations, reverse: ReverseTable) returns (ok: bool, missing: PackageId, table: Declarations)
    ensures ok <==> reverse.Keys <= table0.Keys
    ensures !ok ==> missing in reverse && missing !in table0
    ensures ok ==> table == map p | p in table0 :: Merged(table0[p], ReverseOf(reverse, p))
  {
    table, missing := table0, PackageId("", "", "");
    var rest := reverse.Keys;
    while rest != {}
      invariant rest <= reverse.Keys && table.Keys == table0.Keys
      invariant forall p :: p in reverse && p !in rest ==> p in table0
      invariant forall p :: p in table ==>
        table[p] == if p in reverse && p !in rest then Merged(table0[p], reverse[p]) else table0[p]
    {
      var p :| p in rest;
      rest := rest - {p};
      if p !in table {
        return false, p, table;
      }
      if reverse[p].breaks != {} {
        table := table[p := table[p].(breaks := table[p].breaks + reverse[p].breaks)];
      }
      assert Merged(table0[p], reverse[p]) == table[p];
    }
    ok := true;
    forall p | p in table
      ensures table[p] == Merged(table0[p], ReverseOf(reverse, p))
    {
      assert p !in reverse ==> table0[p].breaks + {} == table0[p].breaks;
    }
  }

  /** Look for more broken packages.  The worklist starts with the broken packages, and those already
      known to be broken are skipped: nothing is ever found. */
  method ExpandBroken(broken: set<PackageId>) returns (all: set<PackageId>)
    ensures all == broken
  {
    all := broken;
    var check := broken;
    while check != {}
      invariant check <= all == broken
    {
      var t :| t in check;
      check := check - {t};
      assert t in all;
    }
  }

  function StrippedOf(declared: Declared, broken: set<PackageId>): Declared {
    Declared(Stripped(declared.clauses, broken), declared.breaks - broken)
  }

  /** Drop the relations with broken packages from whatever depends on one. */
  method StripBroken(table0: Declarations, reverse: ReverseTable, broken: set<PackageId>, ghost decl: Declarations)
    returns (table: Declarations)
    requires Inverts(reverse, decl) && table0.Keys == decl.Keys && broken == Broken(decl)
    ensures table == map p | p in table0 ::
      if p !in broken && Strips(decl, p) then StrippedOf(table0[p], broken) else table0[p]
  {
    table := table0;
    var seen: set<PackageId> := {};
    var rest := broken;
    while rest != {}
      invariant rest <= broken && table.Keys == table0.Keys
      invariant forall p :: p in seen <==> p !in broken && exists b :: b in broken - rest && p in ReverseDeps(decl, b)
      invariant forall p :: p in table ==> table[p] == if p in seen then StrippedOf(table0[p], broken) else table0[p]
    {
      var b :| b in rest;
      rest := rest - {b};
      assert ReverseOf(reverse, b) == AllReverse(decl, b);
      ghost var before := seen;
      table, seen := StripDependents(table0, table, ReverseOf(reverse, b).deps, broken, seen);
      SeenMore(decl, broken, rest, b, before, seen);
    }
  }

  lemma SeenMore(decl: Declarations, broken: set<PackageId>, rest: set<PackageId>, b: PackageId, before: set<PackageId>,
                 seen: set<PackageId>)
    requires b in broken && b !in rest && seen == before + (ReverseDeps(decl, b) - broken)
    requires forall p :: p in before <==> p !in broken && exists c :: c in broken - (rest + {b}) && p in ReverseDeps(decl, c)
    ensures forall p :: p in seen <==> p !in broken && exists c :: c in broken - rest && p in ReverseDeps(decl, c)
  {
    forall p
      ensures p in seen <==> p !in broken && exists c :: c in broken - rest && p in ReverseDeps(decl, c)
    {
      if p in before {
        var c :| c in broken - (rest + {b}) && p in ReverseDeps(decl, c);
        assert c in broken - rest;
      }
      if p !in broken && exists c :: c in broken - rest && p in ReverseDeps(decl, c) {
        var c :| c in broken - rest && p in ReverseDeps(decl, c);
        assert c != b ==> c in broken - (rest + {b});
      }
    }
  }

  method StripDependents(table0: Declarations, table1: Declarations, rdeps: set<PackageId>, broken: set<PackageId>,
                         seen0: set<PackageId>)
    returns (table: Declarations, seen: set<PackageId>)
    requires rdeps <= table0.Keys == table1.Keys
    requires forall p :: p in table1 ==> table1[p] == if p in seen0 then StrippedOf(table0[p], broken) else table0[p]
    ensures seen == seen0 + (rdeps - broken) && table.Keys == table0.Keys
    ensures forall p :: p in table ==> table[p] == if p in seen then StrippedOf(table0[p], broken) else table0[p]
  {
    table, seen := table1, seen0;
    var rest := rdeps;
    while rest != {}
      invariant rest <= rdeps && table.Keys == table0.Keys
      invariant seen == seen0 + ((rdeps - rest) - broken)
      invariant forall p :: p in table ==> table[p] == if p in seen then StrippedOf(table0[p], broken) else table0[p]
    {
      var p :| p in rest;
      rest := rest - {p};
      if p !in broken && p !in seen {
        var clauses := set clause | clause in table[p].clauses :: clause - broken;
        table := table[p := Declared(clauses, table[p].breaks - broken)];
        seen := seen + {p};
      }
    }
  }

  const NULLED := Declared({{}}, {})

  /** Null the relations of the broken packages. */
  method NullBroken(table0: Declarations, reverse0: ReverseTable, broken: set<PackageId>)
    returns (table: Declarations, reverse: ReverseTable)
    requires broken <= table0.Keys
    ensures table == map p | p in table0 :: if p in broken then NULLED else table0[p]
    ensures reverse == reverse0 - broken
  {
    table, reverse := table0, reverse0;
    var rest := broken;
    while rest != {}
      invariant rest <= broken && table.Keys == table0.Keys
      invariant forall p :: p in table ==> table[p] == if p in broken && p !in rest then NULLED else table0[p]
      invariant reverse == reverse0 - (broken - rest)
    {
      var b :| b in rest;
      rest := rest - {b};
      table := table[b := NULLED];
      reverse := reverse - {b};
    }
    assert broken - rest == broken;
  }

  /** The table that the passes arrive at. */
  function BuiltTable(decl: Declarations): Declarations {
    map p | p in decl :: Declared(BuiltDeps(decl, p), BuiltConflicts(decl, p))
  }

  function CompiledEntry(decl: Declarations, reverse: ReverseTable, p: PackageId): Declared
    requires p in decl
  {
    var merged := Merged(decl[p], ReverseOf(reverse, p));
    if p in Broken(decl) then NULLED else if Strips(decl, p) then StrippedOf(merged, Broken(decl)) else merged
  }

  lemma CompiledTable(decl: Declarations, reverse: ReverseTable, table: Declarations)
    requires Inverts(reverse, decl) && table.Keys == decl.Keys
    requires forall p :: p in table ==> table[p] == CompiledEntry(decl, reverse, p)
    ensures table == BuiltTable(decl)
  {
    forall p | p in table
      ensures table[p] == BuiltTable(decl)[p]
    {
      assert ReverseOf(reverse, p) == AllReverse(decl, p);
    }
  }

  /** What the members of a class have in common. */
  datatype Signature = Signature(deps: set<set<PackageId>>, conflicts: set<PackageId>, clauses: set<set<PackageId>>)

  function SignatureOf(table: Declarations, reverse: ReverseTable, p: PackageId): Signature
    requires p in table
  {
    Signature(table[p].clauses, table[p].breaks, ReverseOf(reverse, p).clauses)
  }

  /** Of the packages `done`, those with reverse clauses are grouped by signature. */
  ghost predicate Grouped(table: Declarations, reverse: ReverseTable, done: set<PackageId>, groups: map<Signature, set<PackageId>>)
    requires reverse.Keys <= table.Keys
  {
    && (forall p :: p in done && p in reverse && reverse[p].clauses != {} ==>
          SignatureOf(table, reverse, p) in groups && p in groups[SignatureOf(table, reverse, p)])
    && (forall key, p :: key in groups && p in groups[key] ==>
          p in done && p in reverse && reverse[p].clauses != {} && SignatureOf(table, reverse, p) == key)
    && (forall key :: key in groups ==> groups[key] != {})
  }

  method Group(table: Declarations, reverse: ReverseTable) returns (groups: map<Signature, set<PackageId>>)
    requires reverse.Keys <= table.Keys
    ensures Grouped(table, reverse, reverse.Keys, groups)
  {
    groups := map[];
    var rest := reverse.Keys;
    while rest != {}
      invariant rest <= reverse.Keys && Grouped(table, reverse, reverse.Keys - rest, groups)
    {
      var p :| p in rest;
      rest := rest - {p};
      // things without rdeps are not worth it
      if reverse[p].clauses != {} {
        var key := SignatureOf(table, reverse, p);
        groups := groups[key := (if key in groups then groups[key] else {}) + {p}];
      }
    }
    assert reverse.Keys - rest == reverse.Keys;
  }

  /** The tables that the last pass starts from. */
  ghost predicate Compiled(decl: Declarations, table: Declarations, reverse: ReverseTable) {
    && table == BuiltTable(decl) && reverse.Keys <= table.Keys
    && (forall p {:trigger Classed(decl, p)} :: Classed(decl, p) <==> p in reverse && reverse[p].clauses != {})
    && (forall p :: p in reverse ==> reverse[p] == AllReverse(decl, p))
  }

  lemma TablesCompiled(decl: Declarations, reverse0: ReverseTable, table: Declarations, reverse: ReverseTable)
    requires AllAdded(decl) && table == BuiltTable(decl) && Inverts(reverse0, decl) && reverse == reverse0 - Broken(decl)
    ensures Compiled(decl, table, reverse)
  {
    MentionedIsAdded(reverse0, decl);
    forall p
      ensures p in reverse ==> reverse[p] == AllReverse(decl, p)
      ensures Classed(decl, p) <==> p in reverse && reverse[p].clauses != {}
    {
      assert ReverseOf(reverse0, p) == AllReverse(decl, p);
      if Classed(decl, p) {
        var clause :| clause in ReverseClauses(decl, p);
        var q :| q in decl && clause in decl[q].clauses && p in clause;
        assert q in ReverseDeps(decl, p);
      }
    }
  }

  /** Equal signatures are equal classes. */
  lemma SameGroup(decl: Declarations, table: Declarations, reverse: ReverseTable, p: PackageId, q: PackageId)
    requires Compiled(decl, table, reverse) && Classed(decl, p) && Classed(decl, q)
    ensures SameSignature(decl, p, q) <==> SignatureOf(table, reverse, p) == SignatureOf(table, reverse, q)
  {
  }

  lemma GroupIsClass(decl: Declarations, table: Declarations, reverse: ReverseTable, groups: map<Signature, set<PackageId>>,
                     key: Signature, p: PackageId)
    requires Compiled(decl, table, reverse) && Grouped(table, reverse, reverse.Keys, groups)
    requires key in groups && p in groups[key]
    ensures Classed(decl, p) && SignatureOf(table, reverse, p) == key && groups[key] == BuiltClass(decl, p)
  {
    assert Classed(decl, p);
    forall q
      ensures q in groups[key] <==> q in BuiltClass(decl, p)
    {
      assert Classed(decl, q) <==> q in reverse && reverse[q].clauses != {};
      if Classed(decl, q) {
        SameGroup(decl, table, reverse, p, q);
      }
    }
  }

  /** All members of a group have the relation of the group. */
  lemma SharedRelation(decl: Declarations, table: Declarations, reverse: ReverseTable,
                       groups: map<Signature, set<PackageId>>, key: Signature, first: PackageId, p: PackageId)
    requires Compiled(decl, table, reverse) && Grouped(table, reverse, reverse.Keys, groups)
    requires key in groups && first in groups[key] && p in groups[key]
    ensures Relation(groups[key], key.deps, key.conflicts, reverse[first].deps) == BuiltRelation(decl, p)
  {
    GroupIsClass(decl, table, reverse, groups, key, p);
    GroupIsClass(decl, table, reverse, groups, key, first);
    SameGroup(decl, table, reverse, first, p);
    ReverseDepsFromClauses(decl, first, p);
  }

  /** Package `p` has its relation if it is classed and its signature is not in `keys`. */
  ghost predicate RelatedAt(decl: Declarations, table: Declarations, reverse: ReverseTable, keys: set<Signature>,
                            relations: map<PackageId, Relation>, eqvSet: set<PackageId>, p: PackageId)
    requires Classed(decl, p) ==> p in table
  {
    && (p in relations <==> Classed(decl, p) && SignatureOf(table, reverse, p) !in keys)
    && (p in relations ==> relations[p] == BuiltRelation(decl, p))
    && (p in eqvSet <==> p in relations && BuiltClass(decl, p) != {p})
  }

  ghost predicate Related(decl: Declarations, table: Declarations, reverse: ReverseTable, keys: set<Signature>,
                          relations: map<PackageId, Relation>, eqvSet: set<PackageId>)
    requires forall p :: Classed(decl, p) ==> p in table
  {
    forall p {:trigger RelatedAt(decl, table, reverse, keys, relations, eqvSet, p)} ::
      RelatedAt(decl, table, reverse, keys, relations, eqvSet, p)
  }

  /** The relations of all packages, those of a class shared, and the packages that have equivalents. */
  method BuildRelations(table: Declarations, reverse: ReverseTable, ghost decl: Declarations, ghost reverse0: ReverseTable)
    returns (relations: map<PackageId, Relation>, eqvSet: set<PackageId>)
    requires AllAdded(decl) && table == BuiltTable(decl) && Inverts(reverse0, decl) && reverse == reverse0 - Broken(decl)
    ensures relations == (map p | p in decl :: BuiltRelation(decl, p))
    ensures eqvSet == set p | p in decl && BuiltClass(decl, p) != {p}
  {
    TablesCompiled(decl, reverse0, table, reverse);
    var groups := Group(table, reverse);
    relations, eqvSet := AddClasses(table, reverse, groups, decl);
    ClassesAdded(decl, table, reverse, relations, eqvSet);
    relations := AddOthers(table, relations, decl);
  }

  method AddClasses(table: Declarations, reverse: ReverseTable, groups: map<Signature, set<PackageId>>, ghost decl: Declarations)
    returns (relations: map<PackageId, Relation>, eqvSet: set<PackageId>)
    requires Compiled(decl, table, reverse) && Grouped(table, reverse, reverse.Keys, groups)
    ensures Related(decl, table, reverse, {}, relations, eqvSet)
  {
    relations, eqvSet := map[], {};
    var keys := groups.Keys;
    AllGrouped(decl, table, reverse, groups);
    while keys != {}
      invariant keys <= groups.Keys && Related(decl, table, reverse, keys, relations, eqvSet)
    {
      var key :| key in keys;
      var members := groups[key];
      var first :| first in members;
      var rel := Relation(members, key.deps, key.conflicts, reverse[first].deps);
      RelatedMore(decl, table, reverse, groups, keys, key, first, relations, eqvSet);
      relations := relations + map p | p in members :: rel;
      if members != {first} {
        eqvSet := eqvSet + members;
      }
      keys := keys - {key};
    }
  }

  lemma AllGrouped(decl: Declarations, table: Declarations, reverse: ReverseTable, groups: map<Signature, set<PackageId>>)
    requires Compiled(decl, table, reverse) && Grouped(table, reverse, reverse.Keys, groups)
    ensures Related(decl, table, reverse, groups.Keys, map[], {})
  {
    forall p
      ensures RelatedAt(decl, table, reverse, groups.Keys, map[], {}, p)
    {
    }
  }

  lemma ClassesAdded(decl: Declarations, table: Declarations, reverse: ReverseTable, relations: map<PackageId, Relation>,
                     eqvSet: set<PackageId>)
    requires Compiled(decl, table, reverse) && Related(decl, table, reverse, {}, relations, eqvSet)
    ensures forall p :: p in relations <==> Classed(decl, p)
    ensures forall p :: p in relations ==> relations[p] == BuiltRelation(decl, p)
    ensures eqvSet == set p | p in decl && BuiltClass(decl, p) != {p}
  {
    forall p
      ensures p in relations <==> Classed(decl, p)
      ensures p in relations ==> relations[p] == BuiltRelation(decl, p)
      ensures p in eqvSet <==> p in decl && BuiltClass(decl, p) != {p}
    {
      assert RelatedAt(decl, table, reverse, {}, relations, eqvSet, p);
    }
  }

  lemma RelatedMore(decl: Declarations, table: Declarations, reverse: ReverseTable, groups: map<Signature, set<PackageId>>,
                    keys: set<Signature>, key: Signature, first: PackageId,
                    relations: map<PackageId, Relation>, eqvSet: set<PackageId>)
    requires Compiled(decl, table, reverse) && Grouped(table, reverse, reverse.Keys, groups)
    requires keys <= groups.Keys && key in keys && first in groups[key]
    requires Related(decl, table, reverse, keys, relations, eqvSet)
    ensures var rel := Relation(groups[key], key.deps, key.conflicts, reverse[first].deps);
      var relations', eqvSet' := relations + (map p | p in groups[key] :: rel),
                                 if groups[key] != {first} then eqvSet + groups[key] else eqvSet;
      Related(decl, table, reverse, keys - {key}, relations', eqvSet')
  {
    var members := groups[key];
    var rel := Relation(members, key.deps, key.conflicts, reverse[first].deps);
    var relations', eqvSet' := relations + (map p | p in members :: rel), if members != {first} then eqvSet + members else eqvSet;
    forall p
      ensures RelatedAt(decl, table, reverse, keys - {key}, relations', eqvSet', p)
    {
      assert RelatedAt(decl, table, reverse, keys, relations, eqvSet, p);
      if p in members {
        GroupIsClass(decl, table, reverse, groups, key, p);
        SharedRelation(decl, table, reverse, groups, key, first, p);
      } else {
        NotInGroup(decl, table, reverse, groups, key, p);
      }
    }
  }

  lemma NotInGroup(decl: Declarations, table: Declarations, reverse: ReverseTable, groups: map<Signature, set<PackageId>>,
                   key: Signature, p: PackageId)
    requires Compiled(decl, table, reverse) && Grouped(table, reverse, reverse.Keys, groups)
    requires key in groups && p !in groups[key]
    ensures Classed(decl, p) ==> SignatureOf(table, reverse, p) != key
  {
  }

  method AddOthers(table: Declarations, relations0: map<PackageId, Relation>, ghost decl: Declarations)
    returns (relations: map<PackageId, Relation>)
    requires table == BuiltTable(decl)
    requires forall p :: p in relations0 <==> Classed(decl, p)
    requires forall p :: p in relations0 ==> relations0[p] == BuiltRelation(decl, p)
    ensures relations == map p | p in decl :: BuiltRelation(decl, p)
  {
    relations := relations0;
    var rest := table.Keys;
    while rest != {}
      invariant rest <= table.Keys
      invariant forall p :: p in relations <==> p in relations0 || (p in table && p !in rest)
      invariant forall p :: p in relations ==> relations[p] == BuiltRelation(decl, p)
    {
      var p :| p in rest;
      rest := rest - {p};
      if p !in relations {
        SingleRelation(decl, p);
        relations := relations[p := Relation({p}, table[p].clauses, table[p].breaks, {})];
      }
    }
  }

  lemma SingleRelation(decl: Declarations, p: PackageId)
    requires p in decl && !Classed(decl, p)
    ensures BuiltRelation(decl, p) == Relation({p}, BuiltDeps(decl, p), BuiltConflicts(decl, p), {})
  {
    forall r, clause | r in decl && clause in decl[r].clauses && p in clause
      ensures clause in ReverseClauses(decl, p)
    {
    }
  }
}
