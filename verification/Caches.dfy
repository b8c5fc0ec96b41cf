/** What the caches of the installability tester promise, and why the promises survive changes to
    the suite. */
module Caches {
  import opened Universes
  import opened Search

  /** Per-architecture cache of the essential packages and what always follows from them. */
  datatype PseudoEssential = PseudoEssential(
    start: set<PackageId>,
    never: set<PackageId>,
    choices: set<set<PackageId>>)

  /** The part of the universe that clauses reach from the essential packages. */
  ghost predicate EssentialClosure(u: Universe, closure: set<PackageId>) {
    && u.essential <= closure
    && (forall p :: p in closure ==> u.Knows(p))
    && (forall p, clause :: p in closure && clause in u.DependenciesOf(p) ==> clause <= closure)
  }

  ghost function RegionOf(s: set<PackageId>, arch: string): set<PackageId> {
    set p | p in s && p.architecture == arch
  }

  lemma RegionOfClosed(u: Universe, arch: string, s: set<PackageId>)
    requires ClausesLocal(u)
    requires forall p :: p in s ==> u.Knows(p)
    requires forall p, clause :: p in s && clause in u.DependenciesOf(p) ==> clause <= s
    ensures RegionClosed(u, arch, RegionOf(s, arch))
  {
    var region := RegionOf(s, arch);
    forall p, clause | p in region && clause in u.DependenciesOf(p)
      ensures clause <= region
    {
      assert clause <= s;
    }
  }

  /** The essential packages of the suite are in `start`, except those that are not installable; with one of
      these nothing of the architecture is. */
  ghost predicate EssentialsStarted(u: Universe, full: set<PackageId>, arch: string, start: set<PackageId>) {
    forall p :: p in EssentialOf(u, arch) && p in full && Installable(u, full, p) ==> p in start
  }

  /** A selection for `t` holds the essential packages of its architecture, and none of them conflicts with it. */
  ghost predicate EssentialsHeld(u: Universe, full: set<PackageId>, t: PackageId, found: set<PackageId>) {
    forall p :: p in EssentialOf(u, t.architecture) && p in full && Installable(u, full, p) ==>
      p in found && t !in u.NegativeDependenciesOf(p) && p !in u.NegativeDependenciesOf(t)
  }

  lemma StartedHeld(u: Universe, full: set<PackageId>, e: PseudoEssential, t: PackageId, found: set<PackageId>)
    requires WellFormed(u) && EssentialsStarted(u, full, t.architecture, e.start) && e.start <= found && t !in e.never
    requires forall p :: p in e.start ==> u.NegativeDependenciesOf(p) <= e.never
    ensures EssentialsHeld(u, full, t, found)
  {
    forall p | p in EssentialOf(u, t.architecture) && p in full && Installable(u, full, p)
      ensures p in found && t !in u.NegativeDependenciesOf(p) && p !in u.NegativeDependenciesOf(t)
    {
      var m :| Witness(u, full, p, m);
      BrokenInNoClosedSet(u, m, p);
    }
  }

  /** If an essential package of the suite is not installable, nothing of its architecture is. */
  lemma AllOrNothing(u: Universe, full: set<PackageId>, p: PackageId, q: PackageId)
    requires p in EssentialOf(u, q.architecture) && p in full && Installable(u, full, q)
    ensures Installable(u, full, p)
  {
    var m :| Witness(u, full, q, m);
    assert p in EssentialOf(u, q.architecture) * full;
    assert Witness(u, full, p, m);
  }

  /** The cached triple holds for every model: `start` is in it, `never` conflicts with it and
      `choices` are met by it. */
  ghost predicate PseudoEssentialSound(u: Universe, full: set<PackageId>, arch: string, region: set<PackageId>,
                                       e: PseudoEssential)
  {
    && e.start <= full * region
    && ChoicesWithin(e.choices, full * region)
    && (forall p :: p in e.start ==> u.NegativeDependenciesOf(p) <= e.never)
    && EssentialsStarted(u, full, arch, e.start)
    && (u.essential == {} ==> e == PseudoEssential({}, {}, {}))
    && (forall m :: Model(u, full, arch, region, m) ==> Follows(u, region, e, m))
  }

  ghost predicate Follows(u: Universe, region: set<PackageId>, e: PseudoEssential, m: set<PackageId>) {
    && e.start <= m
    && (forall choice :: choice in e.choices ==> Hits(choice, m))
    && (forall p :: p in e.never ==> ConflictsWith(u, p, m * region))
  }

  lemma FollowsExcludes(u: Universe, region: set<PackageId>, e: PseudoEssential, m: set<PackageId>, p: PackageId)
    requires Follows(u, region, e, m) && ConflictFree(u, m) && p in e.never
    ensures p !in m
  {
    assert ConflictsWith(u, p, m * region);
  }

  /** The cached triple depends on the suite only within the region. */
  lemma PseudoEssentialStable(u: Universe, full: set<PackageId>, full': set<PackageId>, arch: string,
                              region: set<PackageId>, e: PseudoEssential)
    requires RegionClosed(u, arch, region) && EssentialOf(u, arch) <= region
    requires full * region == full' * region
    requires PseudoEssentialSound(u, full, arch, region, e)
    ensures PseudoEssentialSound(u, full', arch, region, e)
  {
    forall m | Model(u, full', arch, region, m)
      ensures Follows(u, region, e, m)
    {
      RestrictModel(u, full, full', arch, region, m);
      assert Follows(u, region, e, m * region);
      forall choice | choice in e.choices
        ensures Hits(choice, m)
      {
        assert Hits(choice, m * region);
      }
      assert (m * region) * region == m * region;
    }
    forall p | p in EssentialOf(u, arch) && p in full' && Installable(u, full', p)
      ensures p in e.start
    {
      assert p in full' * region;
      RestrictInstallable(u, full, full', arch, region, p);
    }
  }

  lemma RestrictInstallable(u: Universe, full: set<PackageId>, full': set<PackageId>, arch: string, region: set<PackageId>,
                            p: PackageId)
    requires RegionClosed(u, arch, region) && EssentialOf(u, arch) <= region
    requires full * region == full' * region
    requires p in EssentialOf(u, arch) && Installable(u, full', p)
    ensures Installable(u, full, p)
  {
    var m :| Witness(u, full', p, m);
    var n := m * region;
    forall q | q in n
      ensures Satisfied(u, q, n) && q in full
    {
      assert q in full' * region;
      forall clause | clause in u.DependenciesOf(q)
        ensures Hits(clause, n)
      {
        assert clause <= region;
        var d := ClauseMember(u, m, q, clause);
        assert d in n;
      }
    }
    forall q | q in EssentialOf(u, arch) * full
      ensures q in n
    {
      assert q in full * region;
    }
    assert Witness(u, full, p, n);
  }

  lemma RestrictModel(u: Universe, full: set<PackageId>, full': set<PackageId>, arch: string,
                      region: set<PackageId>, m: set<PackageId>)
    requires RegionClosed(u, arch, region) && EssentialOf(u, arch) <= region
    requires full * region == full' * region
    requires Model(u, full', arch, region, m)
    ensures Model(u, full, arch, region, m * region)
  {
    var n := m * region;
    forall p | p in n
      ensures Satisfied(u, p, n)
    {
      forall clause | clause in u.DependenciesOf(p)
        ensures Hits(clause, n)
      {
        assert clause <= region;
        var d := ClauseMember(u, m, p, clause);
        assert d in n;
      }
    }
    forall p | p in n
      ensures p in full
    {
      assert p in full' * region;
    }
    forall p | p in EssentialOf(u, arch) * full
      ensures p in n
    {
      assert p in full * region;
    }
  }

  /** A broken package in the suite changes nothing for the models. */
  lemma PseudoEssentialBroken(u: Universe, full: set<PackageId>, q: PackageId, arch: string, region: set<PackageId>,
                              e: PseudoEssential)
    requires BrokenNulled(u) && q in u.broken
    requires PseudoEssentialSound(u, full, arch, region, e)
    ensures PseudoEssentialSound(u, full + {q}, arch, region, e)
  {
    forall m | Model(u, full + {q}, arch, region, m)
      ensures Follows(u, region, e, m)
    {
      NotInClosed(u, m, q);
      assert Model(u, full, arch, region, m);
    }
    assert full * region <= (full + {q}) * region;
    forall p | p in EssentialOf(u, arch) && p in full + {q} && Installable(u, full + {q}, p)
      ensures p in e.start
    {
      var m :| Witness(u, full + {q}, p, m);
      NotInClosed(u, m, q);
      assert Witness(u, full, p, m);
    }
  }

  lemma NotInClosed(u: Universe, m: set<PackageId>, q: PackageId)
    requires BrokenNulled(u) && DependencyClosed(u, m) && q in u.broken
    ensures q !in m
  {
    if q in m {
      BrokenInNoClosedSet(u, m, q);
    }
  }

  // ---------------------------------------------------------------------------------------------
  // Packages known to be broken
  // ---------------------------------------------------------------------------------------------

  lemma CacheBrokenAddBroken(u: Universe, full: set<PackageId>, cacheBroken: set<PackageId>, q: PackageId)
    requires BrokenNulled(u) && CacheBrokenSound(u, full, cacheBroken) && q in u.broken
    ensures CacheBrokenSound(u, full + {q}, cacheBroken)
  {
    forall b | b in cacheBroken
      ensures !Installable(u, full + {q}, b)
    {
      forall m | Witness(u, full + {q}, b, m)
        ensures Witness(u, full, b, m)
      {
        NotInClosed(u, m, q);
      }
      assert !Installable(u, full, b);
    }
  }

  lemma CacheBrokenRemove(u: Universe, full: set<PackageId>, cacheBroken: set<PackageId>, x: PackageId)
    requires CacheBrokenSound(u, full, cacheBroken) && x !in u.essential
    ensures CacheBrokenSound(u, full - {x}, cacheBroken - {x})
  {
    forall b | b in cacheBroken - {x}
      ensures !Installable(u, full - {x}, b)
    {
      forall m | Witness(u, full - {x}, b, m)
        ensures Witness(u, full, b, m)
      {
      }
      assert !Installable(u, full, b);
    }
  }

  // ---------------------------------------------------------------------------------------------
  // Packages known to be installable
  // ---------------------------------------------------------------------------------------------

  /** `p` is in an install set that lies within `known`. */
  ghost predicate WitnessedWithin(u: Universe, known: set<PackageId>, p: PackageId) {
    exists m :: InstallSet(u, known, m) && p in m
  }

  ghost predicate CacheInstSound(u: Universe, suite: set<PackageId>, cacheInst: set<PackageId>) {
    && cacheInst !! u.broken
    && (forall p :: p in cacheInst && p in suite ==> WitnessedWithin(u, cacheInst * suite, p))
  }

  lemma WitnessedGrows(u: Universe, known: set<PackageId>, known': set<PackageId>, p: PackageId)
    requires WitnessedWithin(u, known, p) && known <= known'
    ensures WitnessedWithin(u, known', p)
  {
    var m :| InstallSet(u, known, m) && p in m;
    assert InstallSet(u, known', m);
  }

  /** The search only drops packages that no cached witness holds, and adds whole install sets. */
  lemma CacheInstSearched(u: Universe, suite: set<PackageId>, cacheInst: set<PackageId>,
                          suite': set<PackageId>, found: set<PackageId>)
    requires BrokenNulled(u)
    requires CacheInstSound(u, suite, cacheInst) && suite' <= suite && OnlyUnclosedDropped(u, suite, suite')
    requires InstallSet(u, suite', found)
    ensures CacheInstSound(u, suite', cacheInst + found)
  {
    forall p | p in found
      ensures p !in u.broken && WitnessedWithin(u, (cacheInst + found) * suite', p)
    {
      BrokenInNoClosedSet(u, found, p);
      assert InstallSet(u, (cacheInst + found) * suite', found);
    }
    forall p | p in cacheInst && p in suite'
      ensures WitnessedWithin(u, (cacheInst + found) * suite', p)
    {
      assert WitnessedWithin(u, cacheInst * suite, p);
      var m :| InstallSet(u, cacheInst * suite, m) && p in m;
      assert m <= suite;
      assert InstallSet(u, (cacheInst + found) * suite', m);
    }
  }

  /** Equivalents of a cached package that are in the suite may be cached with it. */
  lemma CacheInstEquivalents(u: Universe, suite: set<PackageId>, cacheInst: set<PackageId>, t: PackageId, eqv: set<PackageId>)
    requires WellFormed(u) && CacheInstSound(u, suite, cacheInst)
    requires t in cacheInst && t in suite && eqv <= suite
    requires forall q :: q in eqv ==> u.AreEquivalent(t, q)
    ensures CacheInstSound(u, suite, cacheInst + eqv)
  {
    var m :| InstallSet(u, cacheInst * suite, m) && t in m;
    var n := m + eqv;
    AddEquivalents(u, cacheInst * suite, m, t, eqv, (cacheInst + eqv) * suite);
    forall p | p in eqv
      ensures p !in u.broken && WitnessedWithin(u, (cacheInst + eqv) * suite, p)
    {
      BrokenInNoClosedSet(u, n, p);
      assert InstallSet(u, (cacheInst + eqv) * suite, n) && p in n;
    }
    forall p | p in cacheInst && p in suite
      ensures WitnessedWithin(u, (cacheInst + eqv) * suite, p)
    {
      WitnessedGrows(u, cacheInst * suite, (cacheInst + eqv) * suite, p);
    }
  }

  lemma AddEquivalents(u: Universe, suite: set<PackageId>, m: set<PackageId>, t: PackageId, eqv: set<PackageId>, suite': set<PackageId>)
    requires WellFormed(u) && InstallSet(u, suite, m) && t in m
    requires forall q :: q in eqv ==> u.AreEquivalent(t, q)
    requires m + eqv <= suite'
    ensures InstallSet(u, suite', m + eqv)
  {
    CoversSuperset(u, m, m + eqv);
    CoveredByOne(u, m, t, eqv);
    EquivalentImage(u, suite, m, suite', m + eqv);
  }

  lemma CoveredByOne(u: Universe, m: set<PackageId>, t: PackageId, eqv: set<PackageId>)
    requires EquivalencesSound(u) && t in m && forall p :: p in m ==> u.Knows(p)
    requires forall q :: q in eqv ==> u.AreEquivalent(t, q)
    ensures Covers(u, m + eqv, m)
  {
    CoversSuperset(u, m, m);
    forall q | q in m + eqv
      ensures HasEquivalentIn(u, q, m)
    {
      if q in eqv {
        EquivalentSymmetric(u, t, q);
      }
    }
  }

  /** Dropping packages that are in no install set of the suite. */
  lemma CacheInstDropBroken(u: Universe, suite: set<PackageId>, cacheInst: set<PackageId>, drop: set<PackageId>)
    requires CacheInstSound(u, suite, cacheInst)
    requires forall p, m :: p in drop && InstallSet(u, suite, m) ==> p !in m
    ensures CacheInstSound(u, suite - drop, cacheInst)
  {
    forall p | p in cacheInst && p in suite - drop
      ensures WitnessedWithin(u, cacheInst * (suite - drop), p)
    {
      var m :| InstallSet(u, cacheInst * suite, m) && p in m;
      assert InstallSet(u, suite, m);
      assert InstallSet(u, cacheInst * (suite - drop), m);
    }
  }

  lemma CacheInstAddBroken(u: Universe, suite: set<PackageId>, cacheInst: set<PackageId>, q: PackageId)
    requires CacheInstSound(u, suite, cacheInst) && q in u.broken
    ensures CacheInstSound(u, suite + {q}, cacheInst)
  {
    forall p | p in cacheInst && p in suite + {q}
      ensures WitnessedWithin(u, cacheInst * (suite + {q}), p)
    {
      WitnessedGrows(u, cacheInst * suite, cacheInst * (suite + {q}), p);
    }
  }

  /** Removing a package that nothing needs, or that no cached witness holds, keeps the cache. */
  lemma CacheInstRemove(u: Universe, suite: set<PackageId>, cacheInst: set<PackageId>, x: PackageId)
    requires WellFormed(u) && CacheInstSound(u, suite, cacheInst)
    requires u.ReverseDependenciesOf(x) == {} || x !in cacheInst || x !in suite
    ensures CacheInstSound(u, suite - {x}, cacheInst)
  {
    forall p | p in cacheInst && p in suite - {x}
      ensures WitnessedWithin(u, cacheInst * (suite - {x}), p)
    {
      var m :| InstallSet(u, cacheInst * suite, m) && p in m;
      WithoutUnneeded(u, cacheInst * suite, m, x);
      assert InstallSet(u, cacheInst * (suite - {x}), m - {x});
    }
  }

  lemma WithoutUnneeded(u: Universe, suite: set<PackageId>, m: set<PackageId>, x: PackageId)
    requires WellFormed(u) && InstallSet(u, suite, m)
    requires u.ReverseDependenciesOf(x) == {} || x !in m
    ensures InstallSet(u, suite - {x}, m - {x})
  {
    if x in m {
      var n := m - {x};
      BrokenInNoClosedSet(u, m, x);
      forall p | p in n
        ensures Satisfied(u, p, n)
      {
        BrokenInNoClosedSet(u, m, p);
        forall clause | clause in u.DependenciesOf(p)
          ensures Hits(clause, n)
        {
          var d := ClauseMember(u, m, p, clause);
          assert p !in u.ReverseDependenciesOf(x);
          assert x !in clause;
          assert d in n;
        }
      }
    } else {
      assert m - {x} == m;
    }
  }

  // ---------------------------------------------------------------------------------------------
  // All caches together
  // ---------------------------------------------------------------------------------------------

  ghost predicate EssentialCacheSound(u: Universe, closure: set<PackageId>, full: set<PackageId>,
                                      cacheEss: map<string, PseudoEssential>)
  {
    forall arch :: arch in cacheEss ==> PseudoEssentialSound(u, full, arch, RegionOf(closure, arch), cacheEss[arch])
  }

  /** The state between two calls.  `full` is the suite that the calls to AddBinary and RemoveBinary
      describe; the tester keeps part of it in `broken`.  Without essential packages, and as long as
      no shortcut was taken against a recorded conflict, `inst` holds its own witnesses. */
  ghost predicate CoherentState(u: Universe, closure: set<PackageId>, full: set<PackageId>, suite: set<PackageId>,
                                broken: set<PackageId>, inst: set<PackageId>, ess: map<string, PseudoEssential>, clean: bool)
  {
    && WellFormed(u)
    && EssentialClosure(u, closure)
    && (forall p :: p in full ==> u.Knows(p))
    && suite + broken == full
    && CacheBrokenSound(u, full, broken)
    && EssentialCacheSound(u, closure, full, ess)
    && (u.essential == {} && clean ==> CacheInstSound(u, suite, inst))
  }

  lemma EssentialRegionKept(u: Universe, closure: set<PackageId>, full: set<PackageId>, full': set<PackageId>,
                            arch: string, e: PseudoEssential)
    requires ClausesLocal(u) && EssentialClosure(u, closure)
    requires full * RegionOf(closure, arch) == full' * RegionOf(closure, arch)
    requires PseudoEssentialSound(u, full, arch, RegionOf(closure, arch), e)
    ensures PseudoEssentialSound(u, full', arch, RegionOf(closure, arch), e)
  {
    RegionOfClosed(u, arch, closure);
    PseudoEssentialStable(u, full, full', arch, RegionOf(closure, arch), e);
  }

  /** Adding a broken package drops no cache. */
  lemma AddBrokenCoherent(u: Universe, closure: set<PackageId>, full: set<PackageId>, suite: set<PackageId>,
                          broken: set<PackageId>, inst: set<PackageId>, ess: map<string, PseudoEssential>, clean: bool,
                          q: PackageId)
    requires CoherentState(u, closure, full, suite, broken, inst, ess, clean) && q in u.broken
    ensures CoherentState(u, closure, full + {q}, suite + {q}, broken, inst, ess, clean)
  {
    CacheBrokenAddBroken(u, full, broken, q);
    forall arch | arch in ess
      ensures PseudoEssentialSound(u, full + {q}, arch, RegionOf(closure, arch), ess[arch])
    {
      PseudoEssentialBroken(u, full, q, arch, RegionOf(closure, arch), ess[arch]);
    }
    if u.essential == {} && clean {
      CacheInstAddBroken(u, suite, inst, q);
    }
  }

  /** Adding another package puts the known-broken ones back and drops what may have changed. */
  lemma AddNewCoherent(u: Universe, closure: set<PackageId>, full: set<PackageId>, suite: set<PackageId>,
                       broken: set<PackageId>, inst: set<PackageId>, ess: map<string, PseudoEssential>, clean: bool,
                       q: PackageId, ess': map<string, PseudoEssential>)
    requires CoherentState(u, closure, full, suite, broken, inst, ess, clean) && u.Knows(q)
    requires forall arch :: arch in ess' ==> arch in ess && ess'[arch] == ess[arch]
    requires q in closure ==> q.architecture !in ess'
    ensures CoherentState(u, closure, full + {q}, suite + {q} + broken, {}, {}, ess', clean)
  {
    assert suite + {q} + broken + {} == full + {q};
    forall arch | arch in ess'
      ensures PseudoEssentialSound(u, full + {q}, arch, RegionOf(closure, arch), ess'[arch])
    {
      assert q !in RegionOf(closure, arch);
      assert full * RegionOf(closure, arch) == (full + {q}) * RegionOf(closure, arch);
      EssentialRegionKept(u, closure, full, full + {q}, arch, ess[arch]);
    }
  }

  /** Removing a package that does not belong to what follows from the essential packages. */
  lemma RemoveCoherent(u: Universe, closure: set<PackageId>, full: set<PackageId>, suite: set<PackageId>,
                       broken: set<PackageId>, inst: set<PackageId>, ess: map<string, PseudoEssential>, clean: bool,
                       x: PackageId, inst': set<PackageId>, ess': map<string, PseudoEssential>)
    requires CoherentState(u, closure, full, suite, broken, inst, ess, clean) && x !in closure
    requires inst' == {} || (inst' == inst && (u.ReverseDependenciesOf(x) == {} || x !in inst || x !in suite || x in u.broken))
    requires forall arch :: arch in ess' ==> arch in ess && ess'[arch] == ess[arch]
    ensures CoherentState(u, closure, full - {x}, suite - {x}, broken - {x}, inst', ess', clean)
  {
    CacheBrokenRemove(u, full, broken, x);
    assert suite - {x} + (broken - {x}) == full - {x};
    forall arch | arch in ess'
      ensures PseudoEssentialSound(u, full - {x}, arch, RegionOf(closure, arch), ess'[arch])
    {
      assert x !in RegionOf(closure, arch);
      assert full * RegionOf(closure, arch) == (full - {x}) * RegionOf(closure, arch);
      EssentialRegionKept(u, closure, full, full - {x}, arch, ess[arch]);
    }
    if u.essential == {} && clean && inst' == inst {
      CacheInstRemove(u, suite, inst, x);
    }
  }
}
