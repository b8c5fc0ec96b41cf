/** Which removed binaries are kept because something that is kept needs them. */
module SmoothUpdates {
  import opened Universes

  predicate Needed(u: Universe, kept: set<PackageId>, p: PackageId) {
    !(u.ReverseDependenciesOf(p) !! kept)
  }

  /** A candidate with a reverse dependency among the kept is kept, too. */
  ghost predicate NeededKept(u: Universe, candidates: set<PackageId>, kept: set<PackageId>) {
    forall p :: p in candidates && Needed(u, kept, p) ==> p in kept
  }

  ghost predicate WithinNeeded(u: Universe, candidates: set<PackageId>, start: set<PackageId>, kept: set<PackageId>) {
    forall k {:trigger NeededKept(u, candidates, k)} :: start <= k && NeededKept(u, candidates, k) ==> kept <= k
  }

  /** The least set that holds `start` and keeps what it needs. */
  ghost predicate LeastKept(u: Universe, candidates: set<PackageId>, start: set<PackageId>, kept: set<PackageId>) {
    && start <= kept <= start + candidates
    && NeededKept(u, candidates, kept)
    && WithinNeeded(u, candidates, start, kept)
  }

  /** The result does not depend on the order in which candidates are looked at. */
  lemma LeastKeptUnique(u: Universe, candidates: set<PackageId>, start: set<PackageId>, k: set<PackageId>, l: set<PackageId>)
    requires LeastKept(u, candidates, start, k) && LeastKept(u, candidates, start, l)
    ensures k == l
  {
    assert k <= l;
    assert l <= k;
  }

  /** Keep candidates until no further one is needed by what is kept. */
  method ExtendSmoothBinaries(u: Universe, candidates: set<PackageId>, start: set<PackageId>) returns (kept: set<PackageId>)
    ensures LeastKept(u, candidates, start, kept)
  {
    kept := start;
    var check := candidates;
    while true
      invariant start <= kept <= start + candidates && check <= candidates
      invariant forall p :: p in candidates && p !in check ==> p in kept
      invariant WithinNeeded(u, candidates, start, kept)
      decreases |check|
    {
      var foundAny := false;
      var rest := check;
      ghost var before := kept;
      while rest != {}
        invariant rest <= check && before <= kept <= start + candidates
        invariant WithinNeeded(u, candidates, start, kept)
        invariant !foundAny ==> kept == before && forall p :: p in check && p !in rest ==> !Needed(u, kept, p)
        invariant foundAny ==> exists p :: p in check && p in kept
      {
        var p :| p in rest;
        rest := rest - {p};
        if Needed(u, kept, p) {
          kept := kept + {p};
          foundAny := true;
        }
      }
      if !foundAny {
        break;
      }
      var left := set p | p in check && p !in kept;
      Fewer(left, check, kept);
      check := left;
    }
  }

  lemma Fewer(left: set<PackageId>, check: set<PackageId>, kept: set<PackageId>)
    requires left == check - kept && exists p :: p in check && p in kept
    ensures |left| < |check|
  {
    var p :| p in check && p in kept;
    assert check == left + (check * kept);
    assert p in check * kept;
  }
}
