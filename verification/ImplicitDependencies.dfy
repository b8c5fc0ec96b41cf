/** The implicit-dependency policy: would an upgrade break a package that is left behind? */
module ImplicitDependencies {
  import opened Universes
  import opened Transactions

  /** Whether `d` can satisfy a clause of `p` once `old` has given way to `inSource`. */
  predicate Remains(u: Universe, inTarget: PackageId, inSource: Option<PackageId>, p: PackageId, d: PackageId) {
    && d !in u.NegativeDependenciesOf(p)
    && (d.packageName != inTarget.packageName || Some(d) == inSource)
  }

  /** Some clause that `inTarget` satisfies is left without an alternative. */
  predicate Breaks(u: Universe, inTarget: PackageId, inSource: Option<PackageId>, p: PackageId) {
    exists clause :: clause in u.DependenciesOf(p) && inTarget in clause && NoneRemains(u, inTarget, inSource, p, clause)
  }

  predicate NoneRemains(u: Universe, inTarget: PackageId, inSource: Option<PackageId>, p: PackageId, clause: set<PackageId>) {
    forall d :: d in clause ==> !Remains(u, inTarget, inSource, p, d)
  }

  /** In the suite after the upgrade, only `inSource` goes by the name of `inTarget`. */
  ghost predicate OnlyVersion(suite: set<PackageId>, inTarget: PackageId, inSource: Option<PackageId>, arch: string) {
    forall q :: q in suite && q.packageName == inTarget.packageName && q.architecture == arch ==> Some(q) == inSource
  }

  /** There are no false alarms: a package said to break is in no install set after the upgrade. */
  lemma BreakIsReal(u: Universe, suite: set<PackageId>, inTarget: PackageId, inSource: Option<PackageId>, p: PackageId,
                    m: set<PackageId>)
    requires ClausesLocal(u) && Breaks(u, inTarget, inSource, p)
    requires OnlyVersion(suite, inTarget, inSource, p.architecture) && InstallSet(u, suite, m)
    ensures p !in m
  {
    var clause :| clause in u.DependenciesOf(p) && inTarget in clause && NoneRemains(u, inTarget, inSource, p, clause);
    forall d | d in clause && p in m
      ensures d !in m
    {
      assert !Remains(u, inTarget, inSource, p, d);
    }
    assert p in m ==> Hits(clause, m);
  }

  /** Every alternative conflicts with the package or cannot be in a suite after the upgrade. */
  ghost predicate Hopeless(u: Universe, inTarget: PackageId, inSource: Option<PackageId>, p: PackageId, clause: set<PackageId>) {
    forall d :: d in clause ==> d in u.NegativeDependenciesOf(p) || !OnlyVersion({d}, inTarget, inSource, p.architecture)
  }

  /** A break is exactly a clause with `inTarget` all of whose alternatives conflict with the package or cannot
      be there after the upgrade. */
  lemma BreaksExactly(u: Universe, inTarget: PackageId, inSource: Option<PackageId>, p: PackageId)
    requires ClausesLocal(u)
    ensures Breaks(u, inTarget, inSource, p) <==>
      exists clause :: clause in u.DependenciesOf(p) && inTarget in clause && Hopeless(u, inTarget, inSource, p, clause)
  {
    forall clause, d | clause in u.DependenciesOf(p) && d in clause
      ensures Remains(u, inTarget, inSource, p, d) <==>
        d !in u.NegativeDependenciesOf(p) && OnlyVersion({d}, inTarget, inSource, p.architecture)
    {
      assert d.architecture == p.architecture && d in {d};
    }
    if Breaks(u, inTarget, inSource, p) {
      var clause :| clause in u.DependenciesOf(p) && inTarget in clause && NoneRemains(u, inTarget, inSource, p, clause);
    }
    if clause :| clause in u.DependenciesOf(p) && inTarget in clause && Hopeless(u, inTarget, inSource, p, clause) {
      assert NoneRemains(u, inTarget, inSource, p, clause);
    }
  }

  /** Without a break each clause that `inTarget` satisfies keeps an alternative. */
  lemma AlternativeRemains(u: Universe, inTarget: PackageId, inSource: Option<PackageId>, p: PackageId, clause: set<PackageId>)
    returns (d: PackageId)
    requires ClausesLocal(u) && !Breaks(u, inTarget, inSource, p) && clause in u.DependenciesOf(p) && inTarget in clause
    ensures d in clause && d !in u.NegativeDependenciesOf(p) && OnlyVersion({d}, inTarget, inSource, p.architecture)
  {
    BreaksExactly(u, inTarget, inSource, p);
    d :| d in clause && d !in u.NegativeDependenciesOf(p) && OnlyVersion({d}, inTarget, inSource, p.architecture);
  }

  /** Check if upgrading `inTarget` to `inSource`, or removing it, breaks the installability of `p`. */
  method BreaksInstallability(u: Universe, inTarget: PackageId, inSource: Option<PackageId>, p: PackageId) returns (breaks: bool)
    ensures breaks <==> Breaks(u, inTarget, inSource, p)
  {
    var rest := u.DependenciesOf(p);
    while rest != {}
      invariant rest <= u.DependenciesOf(p)
      invariant forall clause :: clause in u.DependenciesOf(p) && clause !in rest && inTarget in clause ==>
        !NoneRemains(u, inTarget, inSource, p, clause)
    {
      var clause :| clause in rest;
      rest := rest - {clause};
      if inTarget in clause {
        var foundAlternative := FindAlternative(u, inTarget, inSource, p, clause);
        if !foundAlternative {
          return true;
        }
      }
    }
    breaks := false;
  }

  method FindAlternative(u: Universe, inTarget: PackageId, inSource: Option<PackageId>, p: PackageId, clause: set<PackageId>)
    returns (found: bool)
    ensures found <==> !NoneRemains(u, inTarget, inSource, p, clause)
  {
    found := false;
    var rest := clause;
    while rest != {}
      invariant rest <= clause
      invariant found <==> exists d :: d in clause && d !in rest && Remains(u, inTarget, inSource, p, d)
    {
      var d :| d in rest;
      rest := rest - {d};
      if d in u.NegativeDependenciesOf(p) {
        // it conflicts with the package and cannot satisfy the dependency
        continue;
      }
      if d.packageName != inTarget.packageName {
        found := true;
        break;
      }
      if Some(d) != inSource {
        // another version that will not be there
        continue;
      }
      found := true;
    }
  }
}
