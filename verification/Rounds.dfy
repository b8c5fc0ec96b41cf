/** The order in which a run tries its components. */
module RunRounds {
  import opened Graphs
  import opened InstallabilitySolver
  import opened ItemMigration
  import opened UpgradeLoop

  // ---------------------------------------------------------------------------------------------
  // The worklist of a round
  // ---------------------------------------------------------------------------------------------

  /** Some attempt was on the component as a whole. */
  predicate WholeTried(attempts: seq<Attempt>, comp: seq<Item>) {
    exists a :: a in attempts && a.comp == comp
  }

  predicate WholeRejected(attempts: seq<Attempt>, comp: seq<Item>) {
    exists a :: a in attempts && a.comp == comp && !a.accepted
  }

  /** A removal of cruft that was queued, or an item split off from the batch before number `k`, which was rejected. */
  predicate Loose(batches: seq<seq<Item>>, k: nat, attempts: seq<Attempt>, item: Item) {
    || item in QueuedIn(attempts)
    || (0 < k <= |batches| && item in batches[k - 1] && WholeRejected(attempts, batches[k - 1]))
  }

  predicate IsLoose(batches: seq<seq<Item>>, k: nat, attempts: seq<Attempt>, comp: seq<Item>) {
    |comp| == 1 && Loose(batches, k, attempts, comp[0])
  }

  /** The first `k` batches have been tried; above the others the worklist has single loose items. */
  predicate Stacked(batches: seq<seq<Item>>, attempts: seq<Attempt>, worklist: seq<seq<Item>>, k: nat, loose: seq<seq<Item>>) {
    && k <= |batches| && worklist == Reversed(batches[k..]) + loose
    && (forall j :: 0 <= j < k ==> WholeTried(attempts, batches[j]))
    && (forall comp :: comp in loose ==> IsLoose(batches, k, attempts, comp))
  }

  lemma {:induction false} ReversedFirst(batches: seq<seq<Item>>)
    requires batches != []
    ensures Reversed(batches) == Reversed(batches[1..]) + [batches[0]]
  {
    var n := |batches| - 1;
    if n > 0 {
      ReversedFirst(batches[..n]);
      assert batches[..n][1..] == batches[1..][..n - 1];
    } else {
      assert batches[..0] == [] && batches[1..] == [];
    }
  }

  lemma AttemptsGrow(batches: seq<seq<Item>>, k: nat, attempts: seq<Attempt>, a: Attempt)
    ensures forall comp :: WholeTried(attempts, comp) ==> WholeTried(attempts + [a], comp)
    ensures WholeTried(attempts + [a], a.comp) && (!a.accepted ==> WholeRejected(attempts + [a], a.comp))
    ensures QueuedIn(attempts + [a]) == QueuedIn(attempts) + a.queued
    ensures forall comp :: IsLoose(batches, k, attempts, comp) ==> IsLoose(batches, k, attempts + [a], comp)
  {
    var all := attempts + [a];
    assert all[..|attempts|] == attempts;
    assert a in all && forall b :: b in attempts ==> b in all;
  }

  lemma NextBatch(batches: seq<seq<Item>>, k: nat, worklist: seq<seq<Item>>)
    requires k <= |batches| && worklist == Reversed(batches[k..]) + [] && worklist != []
    ensures k < |batches| && worklist[|worklist| - 1] == batches[k]
    ensures worklist[..|worklist| - 1] == Reversed(batches[k + 1..])
  {
    assert Reversed(batches[k..]) + [] == Reversed(batches[k..]);
    assert k < |batches|;
    ReversedFirst(batches[k..]);
    assert batches[k..][1..] == batches[k + 1..];
  }

  /** What the worklist ends with is loose, or it is the next batch. */
  lemma TakeTop(batches: seq<seq<Item>>, attempts: seq<Attempt>, worklist: seq<seq<Item>>, k: nat, loose: seq<seq<Item>>)
    returns (k': nat, front: seq<seq<Item>>)
    requires Stacked(batches, attempts, worklist, k, loose) && worklist != []
    ensures k' <= |batches| && worklist[..|worklist| - 1] == Reversed(batches[k'..]) + front
    ensures var top := worklist[|worklist| - 1];
      || (k' == k && top in loose && forall comp :: comp in front ==> comp in loose)
      || (k' == k + 1 && top == batches[k] && front == [])
  {
    if loose != [] {
      k', front := k, loose[..|loose| - 1];
    } else {
      NextBatch(batches, k, worklist);
      k', front := k + 1, [];
      assert Reversed(batches[k'..]) + [] == Reversed(batches[k'..]);
    }
  }

  /** One attempt takes the last component from the worklist and may add single items. */
  lemma StackedNext(batches: seq<seq<Item>>, attempts: seq<Attempt>, lists: Lists, k: nat, loose: seq<seq<Item>>, a: Attempt)
    returns (k': nat, loose': seq<seq<Item>>)
    requires Stacked(batches, attempts, lists.worklist, k, loose)
    requires lists.worklist != [] && a.comp != [] && a.comp == LastOf(lists)
    ensures Stacked(batches, attempts + [a], Settled(lists, a.comp, a.accepted, a.queued).worklist, k', loose')
  {
    var added := if a.accepted then Singles(a.queued) else if |a.comp| > 1 then Singles(a.comp) else [];
    var front;
    k', front := TakeTop(batches, attempts, lists.worklist, k, loose);
    loose' := front + added;
    AttemptsGrow(batches, k, attempts, a);
    AddedLoose(batches, k', attempts, a, added);
    SettledStack(lists, a, Reversed(batches[k'..]), front, added);
  }

  lemma SettledStack(lists: Lists, a: Attempt, stack: seq<seq<Item>>, front: seq<seq<Item>>, added: seq<seq<Item>>)
    requires lists.worklist != [] && a.comp != [] && lists.worklist[..|lists.worklist| - 1] == stack + front
    requires added == if a.accepted then Singles(a.queued) else if |a.comp| > 1 then Singles(a.comp) else []
    ensures Settled(lists, a.comp, a.accepted, a.queued).worklist == stack + (front + added)
  {
    assert (stack + front) + added == stack + (front + added);
    assert stack + front + [] == stack + front;
  }

  lemma AddedLoose(batches: seq<seq<Item>>, k: nat, attempts: seq<Attempt>, a: Attempt, added: seq<seq<Item>>)
    requires added == if a.accepted then Singles(a.queued) else if |a.comp| > 1 then Singles(a.comp) else []
    requires |a.comp| > 1 ==> 0 < k <= |batches| && a.comp == batches[k - 1]
    ensures forall comp :: comp in added ==> IsLoose(batches, k, attempts + [a], comp)
  {
    AttemptsGrow(batches, k, attempts, a);
    forall i | 0 <= i < |added|
      ensures IsLoose(batches, k, attempts + [a], added[i])
    {
      if a.accepted {
        assert a.queued[i] in a.queued && added[i] == [a.queued[i]];
      } else {
        assert a.comp[i] in a.comp && added[i] == [a.comp[i]];
      }
    }
  }

  /** The worklist of a round at any time. */
  lemma {:induction false} RoundStacked(r: Round, attempts: seq<Attempt>) returns (k: nat, loose: seq<seq<Item>>)
    requires InTurn(Begun(r), attempts)
    ensures Stacked(r.batches, attempts, Worked(Begun(r), attempts).worklist, k, loose)
    decreases |attempts|
  {
    if attempts == [] {
      k, loose := 0, [];
      assert r.batches[0..] == r.batches && Reversed(r.batches) + [] == Reversed(r.batches);
    } else {
      var n := |attempts| - 1;
      k, loose := RoundStacked(r, attempts[..n]);
      k, loose := StackedNext(r.batches, attempts[..n], Worked(Begun(r), attempts[..n]), k, loose, attempts[n]);
      assert attempts[..n] + [attempts[n]] == attempts;
    }
  }

  lemma {:induction false} InTurnAt(lists0: Lists, attempts: seq<Attempt>, i: nat)
    requires InTurn(lists0, attempts) && i < |attempts|
    ensures InTurn(lists0, attempts[..i])
    ensures var lists := Worked(lists0, attempts[..i]);
      lists.worklist != [] && attempts[i].comp != [] && attempts[i].comp == LastOf(lists)
    decreases |attempts|
  {
    var n := |attempts| - 1;
    if i < n {
      InTurnAt(lists0, attempts[..n], i);
      assert attempts[..n][..i] == attempts[..i] && attempts[..n][i] == attempts[i];
    }
  }

  /** An attempt is on the next batch, or on a single item that was split off from the batch before it or is
      queued cruft; all batches before have been tried. */
  predicate NextInOrder(batches: seq<seq<Item>>, attempts: seq<Attempt>, comp: seq<Item>, k: nat) {
    && k <= |batches|
    && (forall j :: 0 <= j < k ==> WholeTried(attempts, batches[j]))
    && ((k < |batches| && comp == batches[k]) || IsLoose(batches, k, attempts, comp))
  }

  /** Every attempt of a round comes in order. */
  lemma InOrder(r: Round, i: nat) returns (k: nat)
    requires InTurn(Begun(r), r.attempts) && i < |r.attempts|
    ensures NextInOrder(r.batches, r.attempts[..i], r.attempts[i].comp, k)
  {
    InTurnAt(Begun(r), r.attempts, i);
    var loose;
    k, loose := RoundStacked(r, r.attempts[..i]);
    if loose == [] {
      assert Reversed(r.batches[k..]) + [] == Reversed(r.batches[k..]);
      ReversedFirst(r.batches[k..]);
    } else {
      assert r.attempts[i].comp == loose[|loose| - 1] && r.attempts[i].comp in loose;
    }
  }

  lemma NothingReversed(batches: seq<seq<Item>>)
    ensures Reversed(batches) == [] ==> batches == []
  {
  }

  /** A round that is over has tried every batch as a whole. */
  lemma RoundComplete(r: Round)
    requires InTurn(Begun(r), r.attempts) && Worked(Begun(r), r.attempts).worklist == []
    ensures forall j :: 0 <= j < |r.batches| ==> WholeTried(r.attempts, r.batches[j])
  {
    var k, loose := RoundStacked(r, r.attempts);
    NothingReversed(r.batches[k..]);
    assert r.batches[k..] == [];
  }

  // ---------------------------------------------------------------------------------------------
  // The ordering
  // ---------------------------------------------------------------------------------------------

  lemma KeyInBatch(batches: seq<seq<Item>>, j: nat, item: Item)
    requires j < |batches| && item in batches[j]
    ensures item.name in KeysOfBatches(batches)[j]
  {
    var i :| 0 <= i < |batches[j]| && batches[j][i] == item;
    assert NamesIn(batches[j])[i] == item.name;
  }

  lemma NotAfter(env: Environment, past: int, items: seq<Item>, batches: seq<seq<Item>>, j: nat, x: Item, k: nat, y: Item)
    requires IsSchedule(env, past, items, batches) && Reach(OrderOf(env, past, items), x.name, y.name)
    requires j < |batches| && x in batches[j] && k < |batches| && y in batches[k]
    ensures j <= k
  {
    KeyInBatch(batches, j, x);
    KeyInBatch(batches, k, y);
  }

  lemma BatchOf(batches: seq<seq<Item>>, earlier: seq<Attempt>, a: Attempt, k0: nat, y: Item) returns (k: nat)
    requires NextInOrder(batches, earlier, a.comp, k0) && y in a.comp && y !in QueuedIn(earlier)
    ensures k < |batches| && y in batches[k]
    ensures forall j :: 0 <= j <= k ==> WholeTried(earlier + [a], batches[j])
  {
    AttemptsGrow(batches, k0, earlier, a);
    k := if k0 < |batches| && a.comp == batches[k0] then k0 else k0 - 1;
  }

  /** When an item is tried, its batch and all before it have been. */
  lemma BatchesBefore(r: Round, i: nat, y: Item) returns (k: nat)
    requires InTurn(Begun(r), r.attempts)
    requires i < |r.attempts| && y in r.attempts[i].comp && y !in QueuedIn(r.attempts[..i])
    ensures k < |r.batches| && y in r.batches[k]
    ensures forall j :: 0 <= j <= k ==> WholeTried(r.attempts[..i + 1], r.batches[j])
  {
    var k0 := InOrder(r, i);
    k := BatchOf(r.batches, r.attempts[..i], r.attempts[i], k0, y);
    Upto(r.attempts, i);
  }

  lemma Upto(attempts: seq<Attempt>, i: nat)
    requires i < |attempts|
    ensures attempts[..i + 1] == attempts[..i] + [attempts[i]]
  {
  }

  /** Whatever must go before an item has been tried with its whole component by the time the item is tried. */
  lemma TriedInOrder(env: Environment, r: Round, i: nat, x: Item, y: Item, j: nat)
    requires IsSchedule(env, r.past, r.before.rescheduled, r.batches) && InTurn(Begun(r), r.attempts)
    requires i < |r.attempts| && y in r.attempts[i].comp && y !in QueuedIn(r.attempts[..i])
    requires j < |r.batches| && x in r.batches[j] && Reach(OrderOf(env, r.past, r.before.rescheduled), x.name, y.name)
    ensures WholeTried(r.attempts[..i + 1], r.batches[j])
  {
    var k := BatchesBefore(r, i, y);
    NotAfter(env, r.past, r.before.rescheduled, r.batches, j, x, k, y);
  }

  /** `comp` is the whole strongly connected component of `x`. */
  ghost predicate IsWholeComponent(g: Order, items: seq<Item>, comp: seq<Item>, x: Item) {
    forall y :: y in comp <==> y in items && SameComponent(g, x.name, y.name)
  }

  lemma BatchIsComponent(env: Environment, past: int, items: seq<Item>, batches: seq<seq<Item>>, x: Item) returns (j: nat)
    requires IsSchedule(env, past, items, batches) && DistinctNames(Elements(items)) && x in items
    ensures j < |batches| && x in batches[j] && IsWholeComponent(OrderOf(env, past, items), items, batches[j], x)
  {
    var g, keys := OrderOf(env, past, items), KeysOfBatches(batches);
    assert x.name in g && InSome(keys, x.name);
    j :| 0 <= j < |keys| && x.name in keys[j];
    assert IsComponent(g, keys[j]) && IsClassOf(g, keys[j], x.name);
    forall y
      ensures y in batches[j] <==> y in items && SameComponent(g, x.name, y.name)
    {
      if y in batches[j] {
        KeyInBatch(batches, j, y);
      }
      if y in items && SameComponent(g, x.name, y.name) {
        var i :| 0 <= i < |keys[j]| && keys[j][i] == y.name;
        assert batches[j][i] in batches[j] && batches[j][i] in Elements(items) && y in Elements(items);
      }
    }
    ReachSelf(g, x.name);
  }

  /** Items that depend on each other are tried together: a round that is over has tried the whole strongly
      connected component of each of its items, and no part of it before, other than queued cruft. */
  lemma TriedTogether(env: Environment, r: Round, x: Item) returns (comp: seq<Item>)
    requires IsSchedule(env, r.past, r.before.rescheduled, r.batches) && InTurn(Begun(r), r.attempts)
    requires Worked(Begun(r), r.attempts).worklist == []
    requires DistinctNames(Elements(r.before.rescheduled)) && x in r.before.rescheduled
    ensures IsWholeComponent(OrderOf(env, r.past, r.before.rescheduled), r.before.rescheduled, comp, x)
    ensures WholeTried(r.attempts, comp)
    ensures forall i :: 0 <= i < |r.attempts| && x in r.attempts[i].comp && x !in QueuedIn(r.attempts[..i]) ==>
      WholeTried(r.attempts[..i + 1], comp)
  {
    var j := BatchIsComponent(env, r.past, r.before.rescheduled, r.batches, x);
    comp := r.batches[j];
    RoundComplete(r);
    ReachSelf(OrderOf(env, r.past, r.before.rescheduled), x.name);
    forall i | 0 <= i < |r.attempts| && x in r.attempts[i].comp && x !in QueuedIn(r.attempts[..i])
      ensures WholeTried(r.attempts[..i + 1], comp)
    {
      TriedInOrder(env, r, i, x, x, j);
    }
  }

  /** All rounds of a run are made this way, and all but the last one are over. */
  lemma {:induction false} RoundAt(env: Environment, lists0: Lists, rounds: seq<Round>, lists: Lists, i: nat)
    requires Chronicle(env, lists0, rounds, lists) && i < |rounds|
    ensures IsSchedule(env, rounds[i].past, rounds[i].before.rescheduled, rounds[i].batches)
    ensures InTurn(Begun(rounds[i]), rounds[i].attempts)
    ensures i < |rounds| - 1 || lists.worklist == [] ==> Worked(Begun(rounds[i]), rounds[i].attempts).worklist == []
    decreases |rounds|
  {
    var n := |rounds| - 1;
    if i < n {
      RoundAt(env, lists0, rounds[..n], rounds[n].before, i);
      assert rounds[..n][i] == rounds[i];
    }
  }
}
