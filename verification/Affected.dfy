/** Which packages a change affects, and why the others keep their installability. */
module Affected {
  import opened Universes
  import opened Transactions
  import opened Changes

  // ---------------------------------------------------------------------------------------------
  // The affected packages
  // ---------------------------------------------------------------------------------------------

  /** The keys whose binary is replaced by an equivalent one. */
  function EqvKeys(u: Universe, updates: set<PackageId>, rms: set<PackageId>): set<BinaryKey> {
    set p, q | p in updates && q in rms && KeyOf(q) == KeyOf(p) && u.AreEquivalent(p, q) :: KeyOf(p)
  }

  function RemovalAffects(u: Universe, eqv: set<BinaryKey>, p: PackageId): set<PackageId> {
    if KeyOf(p) in eqv then {} else u.ReverseDependenciesOf(p) + u.NegativeDependenciesOf(p)
  }

  function RemovalsAffect(u: Universe, eqv: set<BinaryKey>, rms: set<PackageId>): set<PackageId> {
    set p, x | p in rms && x in RemovalAffects(u, eqv, p) :: x
  }

  /** The reverse dependencies of what the enclosing transaction already removed under the same key. */
  function EarlierAffects(u: Universe, enclosing: seq<LogEntry>, k: BinaryKey): set<PackageId> {
    set i, x | 0 <= i < |enclosing| && k in enclosing[i].undo.binaries
      && x in u.ReverseDependenciesOf(enclosing[i].undo.binaries[k]) :: x
  }

  /** `binaries` are those of the suite when the update is applied. */
  function UpdateAffects(u: Universe, binaries: map<BinaryKey, PackageId>, enclosing: seq<LogEntry>,
                         eqv: set<BinaryKey>, p: PackageId): set<PackageId> {
    var k := KeyOf(p);
    (if k in eqv then {} else {p} + u.NegativeDependenciesOf(p)) +
    (if k in binaries then if k in eqv then {} else u.ReverseDependenciesOf(binaries[k])
     else EarlierAffects(u, enclosing, k))
  }

  function UpdatesAffect(u: Universe, binaries: map<BinaryKey, PackageId>, enclosing: seq<LogEntry>,
                         eqv: set<BinaryKey>, updates: set<PackageId>): set<PackageId> {
    set p, x | p in updates && x in UpdateAffects(u, binaries, enclosing, eqv, p) :: x
  }

  /** All that a change affects before reverse dependencies are followed. */
  function DirectlyAffected(u: Universe, binaries: map<BinaryKey, PackageId>, enclosing: seq<LogEntry>, c: Change)
    : set<PackageId> {
    var eqv := EqvKeys(u, c.updates, c.rms);
    RemovalsAffect(u, eqv, c.rms) + UpdatesAffect(u, BinariesWithout(binaries, c.rms), enclosing, eqv, c.updates)
  }

  /** What the enclosing transaction has removed still counts when its name comes back: everything that needed
      the old binary is affected by the new one. */
  lemma EarlierRemoved(u: Universe, binaries: map<BinaryKey, PackageId>, enclosing: seq<LogEntry>, c: Change, i: nat,
                       p: PackageId, x: PackageId)
    requires p in c.updates && i < |enclosing| && KeyOf(p) in enclosing[i].undo.binaries
    requires KeyOf(p) in binaries ==> binaries[KeyOf(p)] in c.rms
    requires x in u.ReverseDependenciesOf(enclosing[i].undo.binaries[KeyOf(p)])
    ensures x in DirectlyAffected(u, binaries, enclosing, c)
  {
    assert KeyOf(p) !in BinariesWithout(binaries, c.rms);
    assert x in EarlierAffects(u, enclosing, KeyOf(p));
    assert x in UpdateAffects(u, BinariesWithout(binaries, c.rms), enclosing, EqvKeys(u, c.updates, c.rms), p);
  }

  ghost predicate ReverseClosed(u: Universe, a: set<PackageId>) {
    forall x, y {:trigger y in u.ReverseDependenciesOf(x)} :: x in a && y in u.ReverseDependenciesOf(x) ==> y in a
  }

  /** `a` is the least set with `start` in it that is closed under reverse dependencies. */
  ghost predicate IsReverseTree(u: Universe, start: set<PackageId>, a: set<PackageId>) {
    && start <= a
    && ReverseClosed(u, a)
    && InEveryClosed(u, start, a)
  }

  ghost predicate InEveryClosed(u: Universe, start: set<PackageId>, a: set<PackageId>) {
    forall b {:trigger ReverseClosed(u, b)} :: start <= b && ReverseClosed(u, b) ==> a <= b
  }

  /** `x` depends, directly or not, on something in `start`, or is in it. */
  ghost predicate InTree(u: Universe, start: set<PackageId>, x: PackageId) {
    forall b {:trigger ReverseClosed(u, b)} :: start <= b && ReverseClosed(u, b) ==> x in b
  }

  lemma TreeMembers(u: Universe, start: set<PackageId>, a: set<PackageId>)
    requires IsReverseTree(u, start, a)
    ensures forall x :: x in a <==> InTree(u, start, x)
  {
  }

  /** Follow reverse dependencies until nothing new turns up. */
  method ComputeReverseTree(u: Universe, start: set<PackageId>) returns (affected: set<PackageId>)
    ensures IsReverseTree(u, start, affected)
  {
    affected := start;
    var remain := start;
    ghost var bound := start + set x, y | x in u.relations && y in u.ReverseDependenciesOf(x) :: y;
    while remain != {}
      invariant start <= affected <= bound && remain <= affected
      invariant forall x, y {:trigger y in u.ReverseDependenciesOf(x)} ::
        x in affected && x !in remain && y in u.ReverseDependenciesOf(x) ==> y in affected
      invariant InEveryClosed(u, start, affected)
      decreases |bound - affected|, |remain|
    {
      var p :| p in remain;
      var found := u.ReverseDependenciesOf(p) - affected;
      StillInEveryClosed(u, start, affected, p);
      ghost var before := affected;
      remain := (remain - {p}) + found;
      affected := affected + found;
      if found != {} {
        GrowsWithin(bound, before, found);
      } else {
        assert affected == before;
      }
    }
  }

  lemma StillInEveryClosed(u: Universe, start: set<PackageId>, a: set<PackageId>, p: PackageId)
    requires InEveryClosed(u, start, a) && p in a
    ensures InEveryClosed(u, start, a + (u.ReverseDependenciesOf(p) - a))
  {
  }

  lemma GrowsWithin(bound: set<PackageId>, before: set<PackageId>, more: set<PackageId>)
    requires more <= bound && more !! before && more != {}
    ensures |bound - (before + more)| < |bound - before|
  {
    assert bound - before == (bound - (before + more)) + more;
  }

  /** The keys under which `updates` holds an equivalent of what `rms` holds. */
  method ComputeEqvSet(u: Universe, updates: set<PackageId>, rms: set<PackageId>) returns (eqvSet: set<BinaryKey>)
    requires DistinctKeys(rms)
    ensures eqvSet == EqvKeys(u, updates, rms)
  {
    eqvSet := {};
    if rms != {} && updates != {} {
      var eqvTable := ByKey(rms);
      var rest := updates;
      while rest != {}
        invariant rest <= updates
        invariant eqvSet == EqvKeys(u, updates - rest, rms)
      {
        var p :| p in rest;
        var key := KeyOf(p);
        EqvStep(u, updates - rest, rms, p, eqvTable);
        assert updates - (rest - {p}) == updates - rest + {p};
        rest := rest - {p};
        if key in eqvTable && u.AreEquivalent(p, eqvTable[key]) {
          eqvSet := eqvSet + {key};
        }
      }
      assert updates - rest == updates;
    }
  }

  lemma EqvStep(u: Universe, done: set<PackageId>, rms: set<PackageId>, p: PackageId, table: map<BinaryKey, PackageId>)
    requires DistinctKeys(rms) && table == ByKey(rms)
    ensures EqvKeys(u, done + {p}, rms) ==
            EqvKeys(u, done, rms) + if KeyOf(p) in table && u.AreEquivalent(p, table[KeyOf(p)]) then {KeyOf(p)} else {}
  {
    ByKeyAt(rms);
  }

  // ---------------------------------------------------------------------------------------------
  // The unaffected packages
  // ---------------------------------------------------------------------------------------------

  /** A change of `binaries` and a set of affected packages. */
  ghost predicate Affecting(u: Universe, binaries: map<BinaryKey, PackageId>, c: Change, a: set<PackageId>) {
    && WellFormed(u)
    && (forall k :: k in binaries ==> KeyOf(binaries[k]) == k && u.Knows(binaries[k]))
    && (forall p :: p in c.updates ==> u.Knows(p))
    && c.rms <= binaries.Values && DistinctKeys(c.updates)
    && Fresh(u, c) <= a
    && DependentsClosed(u, a)
    && (forall p :: p in Lost(u, binaries, c) && Usable(u, p) ==> Dependents(u, p) <= a)
  }

  ghost predicate DependentsClosed(u: Universe, a: set<PackageId>) {
    forall p :: p in a && Usable(u, p) ==> Dependents(u, p) <= a
  }

  predicate Usable(u: Universe, p: PackageId) {
    u.Knows(p) && p !in u.broken
  }

  /** The reverse dependencies that could be installed. */
  function Dependents(u: Universe, p: PackageId): set<PackageId> {
    set x | x in u.ReverseDependenciesOf(p) && Usable(u, x)
  }

  /** Added binaries that are not equivalent to what they replace. */
  function Fresh(u: Universe, c: Change): set<PackageId> {
    set p | p in c.updates && KeyOf(p) !in EqvKeys(u, c.updates, c.rms)
  }

  /** Binaries that leave without an equivalent replacement. */
  function Lost(u: Universe, binaries: map<BinaryKey, PackageId>, c: Change): set<PackageId> {
    set k | k in LostBinaries(binaries, c) && k !in EqvKeys(u, c.updates, c.rms) :: binaries[k]
  }

  lemma ReverseTreeAffects(u: Universe, binaries: map<BinaryKey, PackageId>, enclosing: seq<LogEntry>, c: Change,
                           a: set<PackageId>)
    requires WellFormed(u)
    requires forall k :: k in binaries ==> KeyOf(binaries[k]) == k && u.Knows(binaries[k])
    requires forall p :: p in c.updates ==> u.Knows(p)
    requires c.rms <= binaries.Values && DistinctKeys(c.updates)
    requires DirectlyAffected(u, binaries, enclosing, c) <= a && ReverseClosed(u, a)
    ensures Affecting(u, binaries, c, a)
  {
    var eqv, left := EqvKeys(u, c.updates, c.rms), BinariesWithout(binaries, c.rms);
    var direct := DirectlyAffected(u, binaries, enclosing, c);
    forall p | p in Fresh(u, c)
      ensures p in direct
    {
      assert p in UpdateAffects(u, left, enclosing, eqv, p);
    }
    forall p | p in Lost(u, binaries, c)
      ensures u.ReverseDependenciesOf(p) <= direct
    {
      var k :| k in LostBinaries(binaries, c) && k !in eqv && binaries[k] == p;
      forall x | x in u.ReverseDependenciesOf(p)
        ensures x in direct
      {
        if p in c.rms {
          assert x in RemovalAffects(u, eqv, p);
        } else {
          var q :| q in c.updates && KeyOf(q) == k;
          assert x in UpdateAffects(u, left, enclosing, eqv, q);
        }
      }
    }
  }

  /** Some equivalent of `p` is not affected. */
  ghost predicate Spared(u: Universe, a: set<PackageId>, p: PackageId) {
    exists q :: u.AreEquivalent(p, q) && q !in a
  }

  lemma SparedEquivalent(u: Universe, a: set<PackageId>, p: PackageId, q: PackageId)
    requires EquivalencesSound(u) && u.AreEquivalent(p, q) && Spared(u, a, p)
    ensures Spared(u, a, q)
  {
    var r :| u.AreEquivalent(p, r) && r !in a;
    assert Interchangeable(u, p, q);
    assert u.AreEquivalent(q, r);
  }

  /** Whoever depends on something whose reverse dependencies are affected is affected with all its equivalents. */
  lemma NotSpared(u: Universe, a: set<PackageId>, x: PackageId, clause: set<PackageId>, y: PackageId)
    requires WellFormed(u) && Usable(u, x) && Usable(u, y)
    requires clause in u.DependenciesOf(x) && y in clause && Dependents(u, y) <= a
    ensures !Spared(u, a, x)
  {
    forall z | u.AreEquivalent(x, z)
      ensures z in a
    {
      assert Interchangeable(u, x, z);
      assert u.AreEquivalent(x, x);
      assert z in u.broken ==> u.EquivalentTo(z) == {z};
      assert z in Dependents(u, y);
    }
  }

  /** A part of an install set that needs nothing outside the part is an install set. */
  lemma ClosedPart(u: Universe, suite: set<PackageId>, m: set<PackageId>, n: set<PackageId>)
    requires InstallSet(u, suite, m) && n <= m
    requires forall x, clause, y :: x in n && clause in u.DependenciesOf(x) && y in clause && y in m ==> y in n
    ensures InstallSet(u, n, n)
  {
    forall x | x in n
      ensures Satisfied(u, x, n)
    {
      forall clause | clause in u.DependenciesOf(x)
        ensures Hits(clause, n)
      {
        assert Hits(clause, m);
        var y :| y in clause && y in m;
        assert y in n;
      }
    }
  }

  /** The members of an install set that the change does not reach. */
  ghost function Unreached(u: Universe, c: Change, lost: set<PackageId>, a: set<PackageId>, m: set<PackageId>)
    : set<PackageId> {
    set x | x in m && x !in lost && x !in Fresh(u, c) && Spared(u, a, x)
  }

  lemma UnreachedInstallSet(u: Universe, binaries: map<BinaryKey, PackageId>, c: Change, lost: set<PackageId>,
                            a: set<PackageId>, suite: set<PackageId>, m: set<PackageId>)
    requires Affecting(u, binaries, c, a) && InstallSet(u, suite, m) && lost <= Lost(u, binaries, c)
    ensures var n := Unreached(u, c, lost, a, m); InstallSet(u, n, n)
  {
    var n := Unreached(u, c, lost, a, m);
    forall x, clause, y | x in n && clause in u.DependenciesOf(x) && y in clause && y in m
      ensures y in n
    {
      BrokenInNoClosedSet(u, m, x);
      BrokenInNoClosedSet(u, m, y);
      assert u.AreEquivalent(y, y);
      if y !in n {
        assert Dependents(u, y) <= a;
        NotSpared(u, a, x, clause, y);
      }
    }
    ClosedPart(u, suite, m, n);
  }

  /** A binary that is not fresh stands in for the one that had its key before. */
  lemma Predecessor(u: Universe, binaries: map<BinaryKey, PackageId>, c: Change, a: set<PackageId>, k: BinaryKey)
    requires Affecting(u, binaries, c, a)
    requires k in BinariesAfter(binaries, c) && BinariesAfter(binaries, c)[k] !in Fresh(u, c)
    ensures k in binaries && u.AreEquivalent(binaries[k], BinariesAfter(binaries, c)[k])
    ensures binaries[k] !in Lost(u, binaries, c) && binaries[k] !in Fresh(u, c)
    ensures binaries[k] != BinariesAfter(binaries, c)[k] ==> k in EqvKeys(u, c.updates, c.rms)
  {
    var q := BinariesAfter(binaries, c)[k];
    if q in c.updates {
      EqvPartner(u, binaries, c, q);
    } else {
      assert q == binaries[k] && k !in LostBinaries(binaries, c);
      assert u.AreEquivalent(q, q);
    }
  }

  lemma EqvPartner(u: Universe, binaries: map<BinaryKey, PackageId>, c: Change, q: PackageId)
    requires EquivalencesSound(u) && DistinctKeys(c.updates) && c.rms <= binaries.Values
    requires forall k :: k in binaries ==> KeyOf(binaries[k]) == k
    requires q in c.updates && KeyOf(q) in EqvKeys(u, c.updates, c.rms)
    ensures KeyOf(q) in binaries && binaries[KeyOf(q)] in c.rms
    ensures u.AreEquivalent(q, binaries[KeyOf(q)]) && u.AreEquivalent(binaries[KeyOf(q)], q)
  {
    var p, r :| p in c.updates && r in c.rms && KeyOf(r) == KeyOf(p) && u.AreEquivalent(p, r) && KeyOf(p) == KeyOf(q);
    assert SameKey(p, q);
    var j :| j in binaries && binaries[j] == r;
    EquivalentSymmetric(u, q, r);
  }

  /** A member of the old suite that is neither lost nor kept has an equivalent successor. */
  lemma Successor(u: Universe, binaries: map<BinaryKey, PackageId>, c: Change, a: set<PackageId>, x: PackageId)
    requires Affecting(u, binaries, c, a)
    requires x in binaries.Values && x !in Lost(u, binaries, c) && x !in BinariesAfter(binaries, c).Values
    ensures KeyOf(x) in BinariesAfter(binaries, c) && u.AreEquivalent(x, BinariesAfter(binaries, c)[KeyOf(x)])
  {
    var after, k := BinariesAfter(binaries, c), KeyOf(x);
    assert binaries[k] == x;
    assert k !in LostBinaries(binaries, c) ==> k in after && x in after.Values;
    var p :| p in c.updates && KeyOf(p) == k;
    EqvPartner(u, binaries, c, p);
    ByKeyAt(c.updates);
    assert after[k] == p;
  }

  /** `n` with members exchanged for equivalents of another suite shows that `q` is installable there. */
  lemma ExchangedWitness(u: Universe, n: set<PackageId>, swap: map<PackageId, PackageId>, suite: set<PackageId>,
                         p: PackageId, q: PackageId)
    requires WellFormed(u) && u.essential == {} && InstallSet(u, n, n) && swap.Keys <= n
    requires forall x :: x in swap ==> u.AreEquivalent(x, swap[x])
    requires forall x :: x in n ==> (if x in swap then swap[x] else x) in suite
    requires p in n && q == if p in swap then swap[p] else p
    ensures Installable(u, suite, q)
  {
    ExchangeKeepsInstallSet(u, n, n, swap, suite);
    assert Witness(u, suite, q, Exchange(n, swap));
  }

  /** Forward: a witness in the old suite yields one in the new suite. */
  lemma StaysInstallable(u: Universe, binaries: map<BinaryKey, PackageId>, c: Change, a: set<PackageId>, k: BinaryKey)
    requires u.essential == {} && Affecting(u, binaries, c, a) && k in BinariesAfter(binaries, c)
    requires BinariesAfter(binaries, c)[k] !in Fresh(u, c) && Spared(u, a, BinariesAfter(binaries, c)[k])
    requires k in binaries && Installable(u, binaries.Values, binaries[k])
    ensures Installable(u, BinariesAfter(binaries, c).Values, BinariesAfter(binaries, c)[k])
  {
    var after, p := BinariesAfter(binaries, c), binaries[k];
    Predecessor(u, binaries, c, a, k);
    EquivalentSymmetric(u, p, after[k]);
    SparedEquivalent(u, a, after[k], p);
    var m :| Witness(u, binaries.Values, p, m);
    var n := Unreached(u, c, Lost(u, binaries, c), a, m);
    UnreachedInstallSet(u, binaries, c, Lost(u, binaries, c), a, binaries.Values, m);
    var swap := Successors(u, binaries, c, a, n);
    ExchangedWitness(u, n, swap, after.Values, p, after[k]);
  }

  lemma Successors(u: Universe, binaries: map<BinaryKey, PackageId>, c: Change, a: set<PackageId>, n: set<PackageId>)
    returns (swap: map<PackageId, PackageId>)
    requires Affecting(u, binaries, c, a)
    requires n <= binaries.Values && forall x :: x in n ==> x !in Lost(u, binaries, c)
    ensures swap.Keys <= n && forall x :: x in swap ==> u.AreEquivalent(x, swap[x])
    ensures var after := BinariesAfter(binaries, c);
      && (forall x :: x in n ==> (if x in swap then swap[x] else x) in after.Values)
      && (forall k :: k in binaries && k in after && binaries[k] in n ==>
            after[k] == if binaries[k] in swap then swap[binaries[k]] else binaries[k])
  {
    var after := BinariesAfter(binaries, c);
    forall x | x in n && x !in after.Values
      ensures KeyOf(x) in after && u.AreEquivalent(x, after[KeyOf(x)])
    {
      Successor(u, binaries, c, a, x);
    }
    swap := map x | x in n && x !in after.Values :: after[KeyOf(x)];
    BinariesRecorded(binaries, c);
  }

  /** Backward: a witness in the new suite yields one in the old suite. */
  lemma WasInstallable(u: Universe, binaries: map<BinaryKey, PackageId>, c: Change, a: set<PackageId>, k: BinaryKey)
    requires u.essential == {} && Affecting(u, binaries, c, a) && k in BinariesAfter(binaries, c)
    requires BinariesAfter(binaries, c)[k] !in Fresh(u, c) && Spared(u, a, BinariesAfter(binaries, c)[k])
    requires Installable(u, BinariesAfter(binaries, c).Values, BinariesAfter(binaries, c)[k])
    ensures k in binaries && Installable(u, binaries.Values, binaries[k])
  {
    var after := BinariesAfter(binaries, c);
    Predecessor(u, binaries, c, a, k);
    var m :| Witness(u, after.Values, after[k], m);
    var n := Unreached(u, c, {}, a, m);
    UnreachedInstallSet(u, binaries, c, {}, a, after.Values, m);
    var swap := Predecessors(u, binaries, c, a, n);
    ExchangedWitness(u, n, swap, binaries.Values, after[k], binaries[k]);
  }

  lemma Predecessors(u: Universe, binaries: map<BinaryKey, PackageId>, c: Change, a: set<PackageId>, n: set<PackageId>)
    returns (swap: map<PackageId, PackageId>)
    requires Affecting(u, binaries, c, a)
    requires n <= BinariesAfter(binaries, c).Values && forall x :: x in n ==> x !in Fresh(u, c)
    ensures swap.Keys == n && forall x :: x in swap ==> u.AreEquivalent(x, swap[x]) && swap[x] in binaries.Values
    ensures var after := BinariesAfter(binaries, c);
      forall k :: k in binaries && k in after && after[k] in n ==> swap[after[k]] == binaries[k]
  {
    var after := BinariesAfter(binaries, c);
    BinariesRecorded(binaries, c);
    forall x | x in n
      ensures KeyOf(x) in binaries && u.AreEquivalent(x, binaries[KeyOf(x)])
    {
      var j :| j in after && after[j] == x;
      Predecessor(u, binaries, c, a, j);
      EquivalentSymmetric(u, binaries[j], x);
    }
    swap := map x | x in n :: binaries[KeyOf(x)];
  }

  /** A binary that is neither fresh nor affected together with all its equivalents is as installable
      as the one that had its key before the change. */
  lemma UnaffectedAgree(u: Universe, binaries: map<BinaryKey, PackageId>, c: Change, a: set<PackageId>, k: BinaryKey)
    requires u.essential == {} && Affecting(u, binaries, c, a) && k in BinariesAfter(binaries, c)
    requires BinariesAfter(binaries, c)[k] !in Fresh(u, c) && Spared(u, a, BinariesAfter(binaries, c)[k])
    ensures k in binaries && u.AreEquivalent(binaries[k], BinariesAfter(binaries, c)[k])
    ensures Installable(u, binaries.Values, binaries[k]) <==>
            Installable(u, BinariesAfter(binaries, c).Values, BinariesAfter(binaries, c)[k])
  {
    Predecessor(u, binaries, c, a, k);
    if Installable(u, binaries.Values, binaries[k]) {
      StaysInstallable(u, binaries, c, a, k);
    }
    if Installable(u, BinariesAfter(binaries, c).Values, BinariesAfter(binaries, c)[k]) {
      WasInstallable(u, binaries, c, a, k);
    }
  }
}
