/** Binary packages, their relations, and what it means to be installable.

    Every other module is stated over two definitions made here: `InstallSet`, a set of packages
    that can be installed together, and `WellFormed`, the shape of a universe that the builder
    produces (module Builder proves that it does).
  */
module Universes {

  /** (pkg_name, pkg_version, pkg_arch); arch:all packages are re-mapped to a real architecture. */
  datatype PackageId = PackageId(packageName: string, version: string, architecture: string)

  datatype Relation = Relation(
    pkgIds: set<PackageId>,
    dependencies: set<set<PackageId>>,
    negativeDependencies: set<PackageId>,
    reverseDependencies: set<PackageId>)

  /** Read-only relations of all binaries.  Dependencies are in conjunctive normal form: every
      clause of a package must contain an installed package.  The lookups are total, an unknown
      package has no relations; callers that must fail on one check `Knows` first. */
  datatype Universe = Universe(
    relations: map<PackageId, Relation>,
    essential: set<PackageId>,
    broken: set<PackageId>,
    equivalent: set<PackageId>)
  {
    predicate Knows(p: PackageId) {
      p in relations
    }

    function DependenciesOf(p: PackageId): set<set<PackageId>> {
      if p in relations then relations[p].dependencies else {}
    }

    function NegativeDependenciesOf(p: PackageId): set<PackageId> {
      if p in relations then relations[p].negativeDependencies else {}
    }

    function ReverseDependenciesOf(p: PackageId): set<PackageId> {
      if p in relations then relations[p].reverseDependencies else {}
    }

    function EquivalentTo(p: PackageId): set<PackageId> {
      if p in relations then relations[p].pkgIds else {}
    }

    predicate AreEquivalent(p: PackageId, q: PackageId) {
      q in EquivalentTo(p)
    }
  }

  // ---------------------------------------------------------------------------------------------
  // Installability
  // ---------------------------------------------------------------------------------------------

  predicate Hits(clause: set<PackageId>, m: set<PackageId>) {
    !(clause !! m)
  }

  /** Every clause of `p` has an alternative in `m`. */
  predicate Satisfied(u: Universe, p: PackageId, m: set<PackageId>) {
    forall clause :: clause in u.DependenciesOf(p) ==> Hits(clause, m)
  }

  /** Closed under dependencies, conflicts ignored. */
  predicate DependencyClosed(u: Universe, m: set<PackageId>) {
    && (forall p :: p in m ==> u.Knows(p))
    && (forall p :: p in m ==> Satisfied(u, p, m))
  }

  predicate ConflictFree(u: Universe, m: set<PackageId>) {
    forall p, q :: p in m && q in m ==> q !in u.NegativeDependenciesOf(p)
  }

  /** A set of packages of `suite` that can be installed together (Debian Policy Manual, sections
      7.2, 7.3 and 7.4). */
  predicate InstallSet(u: Universe, suite: set<PackageId>, m: set<PackageId>) {
    && m <= suite
    && DependencyClosed(u, m)
    && ConflictFree(u, m)
  }

  /** The essential packages of one architecture. */
  function EssentialOf(u: Universe, arch: string): set<PackageId> {
    set p | p in u.essential && p.architecture == arch
  }

  /** `m` shows that `p` is installable in `suite` next to the essential packages of the suite. */
  ghost predicate Witness(u: Universe, suite: set<PackageId>, p: PackageId, m: set<PackageId>) {
    && InstallSet(u, suite, m)
    && p in m
    && EssentialOf(u, p.architecture) * suite <= m
  }

  ghost predicate Installable(u: Universe, suite: set<PackageId>, p: PackageId) {
    exists m :: Witness(u, suite, p, m)
  }

  // ---------------------------------------------------------------------------------------------
  // Well-formed universes
  // ---------------------------------------------------------------------------------------------

  /** Broken packages have been nulled: an empty clause and no conflicts. */
  ghost predicate BrokenNulled(u: Universe) {
    forall p :: p in u.broken ==>
      && u.Knows(p)
      && {} in u.DependenciesOf(p)
      && u.NegativeDependenciesOf(p) == {}
      && u.EquivalentTo(p) == {p}
  }

  /** Clauses mention known, unbroken packages of the package's own architecture. */
  ghost predicate ClausesLocal(u: Universe) {
    forall p, clause, d :: clause in u.DependenciesOf(p) && d in clause ==>
      u.Knows(d) && d !in u.broken && d.architecture == p.architecture
  }

  /** Conflicts have no direction between unbroken packages, and none is with the package itself. */
  ghost predicate ConflictsSymmetric(u: Universe) {
    && (forall p :: p !in u.NegativeDependenciesOf(p))
    && (forall p, q :: u.Knows(q) && q !in u.broken && q in u.NegativeDependenciesOf(p) ==>
          p in u.NegativeDependenciesOf(q))
  }

  /** Reverse dependencies invert the clauses among unbroken packages. */
  ghost predicate ReverseInverts(u: Universe) {
    forall p, d :: u.Knows(p) && p !in u.broken && u.Knows(d) && d !in u.broken ==>
      (p in u.ReverseDependenciesOf(d) <==>
       exists clause :: clause in u.DependenciesOf(p) && d in clause)
  }

  /** No clause tells `p` and `q` apart. */
  ghost predicate SameReverseClauses(u: Universe, p: PackageId, q: PackageId) {
    forall r, clause :: clause in u.DependenciesOf(r) ==> (p in clause <==> q in clause)
  }

  /** What an equivalence class promises about two of its members. */
  ghost predicate Interchangeable(u: Universe, p: PackageId, q: PackageId) {
    && u.Knows(p) && u.Knows(q)
    && u.EquivalentTo(q) == u.EquivalentTo(p)
    && u.DependenciesOf(q) == u.DependenciesOf(p)
    && u.NegativeDependenciesOf(q) == u.NegativeDependenciesOf(p)
    && u.ReverseDependenciesOf(q) == u.ReverseDependenciesOf(p)
    && q.architecture == p.architecture
    && SameReverseClauses(u, p, q)
  }

  ghost predicate EquivalencesSound(u: Universe) {
    && (forall p {:trigger u.AreEquivalent(p, p)} :: u.Knows(p) ==> u.AreEquivalent(p, p))
    && (forall p {:trigger p in u.equivalent} :: u.Knows(p) ==> (p in u.equivalent <==> u.EquivalentTo(p) != {p}))
    && (forall p, q {:trigger u.AreEquivalent(p, q)} :: u.AreEquivalent(p, q) ==> Interchangeable(u, p, q))
  }

  ghost predicate WellFormed(u: Universe) {
    && (forall p :: p in u.essential ==> u.Knows(p))
    && BrokenNulled(u)
    && ClausesLocal(u)
    && ConflictsSymmetric(u)
    && ReverseInverts(u)
    && EquivalencesSound(u)
  }

  lemma BrokenInNoClosedSet(u: Universe, m: set<PackageId>, p: PackageId)
    requires BrokenNulled(u) && DependencyClosed(u, m) && p in m
    ensures p !in u.broken
  {
    assert !Hits({}, m);
  }

  // ---------------------------------------------------------------------------------------------
  // Equivalent packages substitute for each other
  // ---------------------------------------------------------------------------------------------

  ghost predicate HasEquivalentIn(u: Universe, p: PackageId, n: set<PackageId>) {
    exists q :: q in n && u.AreEquivalent(p, q)
  }

  /** Every member of `m` has an equivalent in `n`. */
  ghost predicate Covers(u: Universe, m: set<PackageId>, n: set<PackageId>) {
    forall p {:trigger HasEquivalentIn(u, p, n)} :: p in m ==> HasEquivalentIn(u, p, n)
  }

  lemma EquivalentSatisfied(u: Universe, m: set<PackageId>, p: PackageId, q: PackageId, n: set<PackageId>)
    requires EquivalencesSound(u) && Satisfied(u, p, m) && u.AreEquivalent(p, q)
    requires Covers(u, m, n)
    ensures Satisfied(u, q, n)
  {
    forall clause | clause in u.DependenciesOf(q)
      ensures Hits(clause, n)
    {
      assert Interchangeable(u, p, q);
      assert Hits(clause, m);
      var i :| i in clause && i in m;
      assert HasEquivalentIn(u, i, n);
      var j :| j in n && u.AreEquivalent(i, j);
      assert Interchangeable(u, i, j) && SameReverseClauses(u, i, j);
      assert j in clause;
    }
  }

  /** Two members of a closed set whose equivalents conflict do conflict themselves. */
  lemma EquivalentConflict(u: Universe, m: set<PackageId>, p: PackageId, a: PackageId, q: PackageId, b: PackageId)
    requires WellFormed(u) && DependencyClosed(u, m) && p in m && q in m
    requires u.AreEquivalent(p, a) && u.AreEquivalent(q, b)
    requires b in u.NegativeDependenciesOf(a)
    ensures q in u.NegativeDependenciesOf(p)
  {
    BrokenInNoClosedSet(u, m, p);
    BrokenInNoClosedSet(u, m, q);
    assert Interchangeable(u, p, a) && Interchangeable(u, q, b);
    assert b in u.NegativeDependenciesOf(p);
    assert b in u.EquivalentTo(b);
    assert b in u.broken ==> u.EquivalentTo(b) == {b};
    assert p in u.NegativeDependenciesOf(b);
    assert p in u.NegativeDependenciesOf(q);
  }

  /** The packages of an install set may be exchanged for equivalent ones, any number at once, and
      equivalents may be added or dropped: the result is an install set of any suite holding it. */
  lemma EquivalentImage(u: Universe, suite: set<PackageId>, m: set<PackageId>,
                        suite': set<PackageId>, n: set<PackageId>)
    requires WellFormed(u) && InstallSet(u, suite, m)
    requires Covers(u, m, n) && Covers(u, n, m) && n <= suite'
    ensures InstallSet(u, suite', n)
  {
    forall q | q in n
      ensures u.Knows(q) && Satisfied(u, q, n)
    {
      var p := EquivalentMember(u, q, m, n);
      EquivalentSatisfied(u, m, p, q, n);
    }
    forall a, b | a in n && b in n
      ensures b !in u.NegativeDependenciesOf(a)
    {
      var p := EquivalentMember(u, a, m, n);
      var q := EquivalentMember(u, b, m, n);
      if b in u.NegativeDependenciesOf(a) {
        EquivalentConflict(u, m, p, a, q, b);
      }
    }
  }

  lemma EquivalentMember(u: Universe, q: PackageId, m: set<PackageId>, n: set<PackageId>) returns (p: PackageId)
    requires EquivalencesSound(u) && Covers(u, n, m) && q in n
    ensures p in m && u.AreEquivalent(p, q) && u.Knows(q)
  {
    assert HasEquivalentIn(u, q, m);
    p :| p in m && u.AreEquivalent(q, p);
    EquivalentSymmetric(u, q, p);
  }

  lemma EquivalentSymmetric(u: Universe, p: PackageId, q: PackageId)
    requires EquivalencesSound(u) && u.AreEquivalent(p, q)
    ensures u.AreEquivalent(q, p) && u.Knows(p) && u.Knows(q)
  {
    assert Interchangeable(u, p, q);
    assert u.AreEquivalent(p, p);
  }

  /** Exchange the keys of `swap` for their values. */
  function Exchange(m: set<PackageId>, swap: map<PackageId, PackageId>): set<PackageId> {
    (m - swap.Keys) + swap.Values
  }

  lemma ExchangeKeepsInstallSet(u: Universe, suite: set<PackageId>, m: set<PackageId>,
                                swap: map<PackageId, PackageId>, suite': set<PackageId>)
    requires WellFormed(u) && InstallSet(u, suite, m)
    requires swap.Keys <= m
    requires forall p :: p in swap ==> u.AreEquivalent(p, swap[p])
    requires Exchange(m, swap) <= suite'
    ensures InstallSet(u, suite', Exchange(m, swap))
  {
    var n := Exchange(m, swap);
    forall p | p in m
      ensures HasEquivalentIn(u, p, n)
    {
      var q := if p in swap then swap[p] else p;
      assert q in n && u.AreEquivalent(p, p) && u.AreEquivalent(p, q);
    }
    forall q | q in n
      ensures HasEquivalentIn(u, q, m)
    {
      if q in swap.Values {
        var p :| p in swap && swap[p] == q;
        EquivalentSymmetric(u, p, q);
      } else {
        assert u.AreEquivalent(q, q);
      }
    }
    EquivalentImage(u, suite, m, suite', n);
  }

  /** `m` and everything in `suite` equivalent to a member of `m`. */
  ghost function Saturate(u: Universe, suite: set<PackageId>, m: set<PackageId>): set<PackageId> {
    set q | q in suite && HasEquivalentIn(u, q, m)
  }

  ghost predicate Saturated(u: Universe, suite: set<PackageId>, m: set<PackageId>) {
    forall p, q {:trigger u.AreEquivalent(p, q)} :: p in m && u.AreEquivalent(p, q) && q in suite ==> q in m
  }

  lemma EquivalentTransitive(u: Universe, p: PackageId, q: PackageId, r: PackageId)
    requires EquivalencesSound(u) && u.AreEquivalent(p, q) && u.AreEquivalent(q, r)
    ensures u.AreEquivalent(p, r)
  {
    assert Interchangeable(u, p, q);
  }

  lemma CoversSuperset(u: Universe, m: set<PackageId>, n: set<PackageId>)
    requires EquivalencesSound(u) && m <= n && forall p :: p in m ==> u.Knows(p)
    ensures Covers(u, m, n)
  {
    forall p | p in m
      ensures HasEquivalentIn(u, p, n)
    {
      assert u.AreEquivalent(p, p);
    }
  }

  lemma SaturateContains(u: Universe, suite: set<PackageId>, m: set<PackageId>)
    requires EquivalencesSound(u) && m <= suite && forall p :: p in m ==> u.Knows(p)
    ensures m <= Saturate(u, suite, m)
  {
    forall p | p in m
      ensures p in Saturate(u, suite, m)
    {
      assert u.AreEquivalent(p, p);
      assert HasEquivalentIn(u, p, m);
    }
  }

  lemma SaturateCovered(u: Universe, suite: set<PackageId>, m: set<PackageId>)
    ensures Covers(u, Saturate(u, suite, m), m)
  {
  }

  lemma SaturateIsSaturated(u: Universe, suite: set<PackageId>, m: set<PackageId>)
    requires EquivalencesSound(u)
    ensures Saturated(u, suite, Saturate(u, suite, m))
  {
    var n := Saturate(u, suite, m);
    forall p, q | p in n && u.AreEquivalent(p, q) && q in suite
      ensures q in n
    {
      var i :| i in m && u.AreEquivalent(p, i);
      EquivalentSymmetric(u, p, q);
      EquivalentTransitive(u, q, p, i);
      assert HasEquivalentIn(u, q, m);
    }
  }

  lemma SaturateKeepsInstallSet(u: Universe, suite: set<PackageId>, m: set<PackageId>)
    requires WellFormed(u) && InstallSet(u, suite, m)
    ensures m <= Saturate(u, suite, m)
    ensures InstallSet(u, suite, Saturate(u, suite, m))
    ensures Saturated(u, suite, Saturate(u, suite, m))
  {
    SaturateContains(u, suite, m);
    SaturateCovered(u, suite, m);
    CoversSuperset(u, m, Saturate(u, suite, m));
    SaturateIsSaturated(u, suite, m);
    EquivalentImage(u, suite, m, suite, Saturate(u, suite, m));
  }

  /** Equivalent packages of the suite are installable together or not at all. */
  lemma EquivalentInstallable(u: Universe, suite: set<PackageId>, p: PackageId, q: PackageId)
    requires WellFormed(u) && u.AreEquivalent(p, q) && q in suite
    requires Installable(u, suite, p)
    ensures Installable(u, suite, q)
  {
    var m :| Witness(u, suite, p, m);
    SaturateKeepsInstallSet(u, suite, m);
    assert Interchangeable(u, p, q);
    assert Witness(u, suite, q, Saturate(u, suite, m));
  }

  lemma EquivalentsAgree(u: Universe, suite: set<PackageId>, p: PackageId, q: PackageId)
    requires WellFormed(u) && u.AreEquivalent(p, q) && p in suite && q in suite
    ensures Installable(u, suite, p) <==> Installable(u, suite, q)
  {
    EquivalentSymmetric(u, p, q);
    if Installable(u, suite, p) {
      EquivalentInstallable(u, suite, p, q);
    }
    if Installable(u, suite, q) {
      EquivalentInstallable(u, suite, q, p);
    }
  }
}
