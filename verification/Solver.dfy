/** The scheduler: orders migration items, condenses the ordering into components and emits the
    components in batches. */
module InstallabilitySolver {
  import opened Graphs
  import opened StronglyConnectedComponents

  // ---------------------------------------------------------------------------------------------
  // Ordering constraints
  // ---------------------------------------------------------------------------------------------

  /** A request to schedule `other` before `key`, or after it when inverted. */
  datatype Constraint = Constraint(key: Key, other: Key, invert: bool)

  /** Somebody asked for `n` to be scheduled before `m`. */
  predicate Requested(constraints: seq<Constraint>, n: Key, m: Key) {
    n != m && (Constraint(n, m, true) in constraints || Constraint(m, n, false) in constraints)
  }

  /** The graph of all requests. */
  function Ordering(keys: set<Key>, constraints: seq<Constraint>): Order {
    map n | n in keys :: OrderNode(set m | m in keys && Requested(constraints, n, m),
                                   set m | m in keys && Requested(constraints, m, n))
  }

  function WithBefore(order: Order, n: Key, m: Key): Order
    requires n in order
  {
    order[n := order[n].(before := order[n].before + {m})]
  }

  function WithAfter(order: Order, n: Key, m: Key): Order
    requires n in order
  {
    order[n := order[n].(after := order[n].after + {m})]
  }

  /** Record one constraint at both of its ends; self-relations are ignored. */
  method ApplyOrder(key: Key, other: Key, order0: Order, invert: bool) returns (order: Order)
    requires InverseEdges(order0) && key in order0 && other in order0
    ensures InverseEdges(order) && order.Keys == order0.Keys
    ensures forall n, m :: Edge(order, n, m) <==>
      Edge(order0, n, m) || (key != other && (if invert then n == key && m == other else n == other && m == key))
  {
    order := order0;
    if other == key {
      return;
    }
    if invert {
      order := WithAfter(order, other, key);
      order := WithBefore(order, key, other);
    } else {
      order := WithBefore(order, other, key);
      order := WithAfter(order, key, other);
    }
  }

  /** One node per item, then all the constraints. */
  method ComputeGroupOrder(keys: set<Key>, constraints: seq<Constraint>) returns (order: Order)
    requires forall c :: c in constraints ==> c.key in keys && c.other in keys
    ensures InverseEdges(order) && order == Ordering(keys, constraints)
  {
    order := map k | k in keys :: OrderNode({}, {});
    for i := 0 to |constraints|
      invariant InverseEdges(order) && order.Keys == keys
      invariant forall n, m {:trigger Edge(order, n, m)} :: Edge(order, n, m) <==> Requested(constraints[..i], n, m)
    {
      var c := constraints[i];
      assert c in constraints;
      assert constraints[..i + 1] == constraints[..i] + [c];
      order := ApplyOrder(c.key, c.other, order, c.invert);
    }
    assert constraints[..|constraints|] == constraints;
    EdgesDetermine(keys, constraints, order);
  }

  lemma EdgesDetermine(keys: set<Key>, constraints: seq<Constraint>, order: Order)
    requires InverseEdges(order) && order.Keys == keys
    requires forall n, m {:trigger Edge(order, n, m)} :: Edge(order, n, m) <==> Requested(constraints, n, m)
    ensures order == Ordering(keys, constraints)
  {
    forall n | n in keys
      ensures order[n] == Ordering(keys, constraints)[n]
    {
      forall m
        ensures m in order[n].before <==> m in keys && Requested(constraints, n, m)
        ensures m in order[n].after <==> m in keys && Requested(constraints, m, n)
      {
        assert Edge(order, n, m) <==> m in order[n].before;
        assert m in order[n].after <==> Edge(order, m, n);
      }
    }
  }

  // ---------------------------------------------------------------------------------------------
  // Condensation
  // ---------------------------------------------------------------------------------------------

  /** `rep` chooses one member of every component to stand for it. */
  ghost predicate IsChoice(g: Order, rep: map<Key, Key>) {
    && rep.Keys == g.Keys
    && (forall n :: n in g ==> rep[n] in g && rep[rep[n]] == rep[n])
    && (forall n :: n in g ==> SameComponent(g, n, rep[n]))
    && (forall n, m {:trigger SameComponent(g, n, m)} :: n in g && m in g && SameComponent(g, n, m) ==> rep[n] == rep[m])
  }

  /** `com` lists the items standing behind its own head. */
  ghost predicate Lists(rep: map<Key, Key>, com: seq<Key>) {
    && com != []
    && (forall n :: n in com <==> n in rep && rep[n] == com[0])
  }

  /** `comps` has exactly one list for every head. */
  ghost predicate ListsAll(rep: map<Key, Key>, comps: seq<seq<Key>>) {
    && (forall i {:trigger Lists(rep, comps[i])} :: 0 <= i < |comps| ==> Lists(rep, comps[i]))
    && (forall i, j :: 0 <= i < j < |comps| ==> comps[i] != [] && comps[j] != [] && comps[i][0] != comps[j][0])
    && (forall n :: n in rep ==> InHeads(comps, |comps|, rep[n]))
  }

  /** `h` is the head of one of the first `i` components. */
  ghost predicate InHeads(comps: seq<seq<Key>>, i: nat, h: Key)
    requires i <= |comps|
  {
    exists k :: 0 <= k < i && comps[k] != [] && comps[k][0] == h
  }

  /** The union of the edges of the items behind head `h`. */
  function Pooled(g: Order, rep: map<Key, Key>, h: Key): OrderNode {
    OrderNode(set n, m | n in g && n in rep && rep[n] == h && m in g[n].before :: m,
              set n, m | n in g && n in rep && rep[n] == h && m in g[n].after :: m)
  }

  /** The node of head `h` in the condensed graph: edges to other heads only. */
  function Condensed(g: Order, rep: map<Key, Key>, h: Key): OrderNode {
    OrderNode((set m | m in Pooled(g, rep, h).before && m in rep :: rep[m]) - {h},
              (set m | m in Pooled(g, rep, h).after && m in rep :: rep[m]) - {h})
  }

  /** Merge the nodes of one component into its first node and delete the others. */
  method MergeComponent(g: Order, ghost rep: map<Key, Key>, com: seq<Key>, order0: Order, merged0: map<Key, Key>)
    returns (order: Order, merged: map<Key, Key>)
    requires rep.Keys == g.Keys && Lists(rep, com) && NoRepeats(com) && com[0] in com
    requires forall n :: n in com ==> n in order0 && order0[n] == g[n]
    ensures forall n :: n in order <==> n in order0 && (n !in com || n == com[0])
    ensures forall n :: n in order && n != com[0] ==> order[n] == order0[n]
    ensures com[0] in order && order[com[0]] == Pooled(g, rep, com[0])
    ensures forall n :: n in merged <==> n in merged0 || n in com
    ensures forall n :: n in merged ==> merged[n] == if n in com then com[0] else merged0[n]
  {
    var sccId := com[0];
    order, merged := order0, merged0[sccId := sccId];
    for j := 1 to |com|
      invariant forall n :: n in order <==> n in order0 && (n !in com[..j] || n == sccId)
      invariant forall n :: n in order && n != sccId ==> order[n] == order0[n]
      invariant Gathered(g, com, j, order[sccId])
      invariant forall n :: n in merged <==> n in merged0 || n in com[..j]
      invariant forall n :: n in merged ==> merged[n] == if n in com[..j] then sccId else merged0[n]
    {
      var n := com[j];
      assert com[..j + 1] == com[..j] + [n];
      assert n in com && n !in com[..j] && order[n] == g[n];
      GatherMore(g, com, j, order[sccId]);
      order := order[sccId := OrderNode(order[sccId].before + order[n].before, order[sccId].after + order[n].after)];
      merged := merged[n := sccId];
      order := order - {n};
    }
    assert com[..|com|] == com;
    PooledOf(g, rep, com, order[sccId]);
  }

  /** `node` has the edges of the first `j` nodes of the component. */
  ghost predicate Gathered(g: Order, com: seq<Key>, j: nat, node: OrderNode)
    requires j <= |com| && forall n :: n in com ==> n in g
  {
    && (forall m :: m in node.before <==> exists k :: 0 <= k < j && m in g[com[k]].before)
    && (forall m :: m in node.after <==> exists k :: 0 <= k < j && m in g[com[k]].after)
  }

  lemma GatherMore(g: Order, com: seq<Key>, j: nat, node: OrderNode)
    requires j < |com| && (forall n :: n in com ==> n in g) && Gathered(g, com, j, node)
    ensures Gathered(g, com, j + 1, OrderNode(node.before + g[com[j]].before, node.after + g[com[j]].after))
  {
  }

  ghost predicate NoRepeats(com: seq<Key>) {
    forall i, j :: 0 <= i < j < |com| ==> com[i] != com[j]
  }

  lemma PooledOf(g: Order, rep: map<Key, Key>, com: seq<Key>, node: OrderNode)
    requires rep.Keys == g.Keys && Lists(rep, com) && Gathered(g, com, |com|, node)
    ensures node == Pooled(g, rep, com[0])
  {
    var pooled := Pooled(g, rep, com[0]);
    forall m
      ensures m in node.before <==> m in pooled.before
      ensures m in node.after <==> m in pooled.after
    {
      if m in node.before {
        var k :| 0 <= k < |com| && m in g[com[k]].before;
        assert com[k] in com;
      }
      if m in node.after {
        var k :| 0 <= k < |com| && m in g[com[k]].after;
        assert com[k] in com;
      }
      if m in pooled.before {
        var n :| n in g && n in rep && rep[n] == com[0] && m in g[n].before;
        assert n in com;
      }
      if m in pooled.after {
        var n :| n in g && n in rep && rep[n] == com[0] && m in g[n].after;
        assert n in com;
      }
    }
    assert node.before == pooled.before && node.after == pooled.after;
  }

  /** The graph while the components are being merged: those of the heads in `done` are, the others are not. */
  ghost predicate PartlyMerged(g: Order, rep: map<Key, Key>, done: set<Key>, order: Order) {
    && (forall h :: h in done ==> h in rep && rep[h] == h)
    && (forall n :: n in order <==> n in rep && (rep[n] == n || rep[n] !in done))
    && (forall n :: n in order ==> n in g && order[n] == if n in done then Pooled(g, rep, n) else g[n])
  }

  /** The maps built while the components are being merged. */
  ghost predicate PartlyMapped(rep: map<Key, Key>, comps: seq<seq<Key>>, done: set<Key>, merged: map<Key, Key>,
                               scc: map<Key, seq<Key>>) {
    && (forall n :: n in merged <==> n in rep && rep[n] in done)
    && (forall n :: n in merged ==> merged[n] == rep[n])
    && scc.Keys == done
    && (forall h :: h in scc ==> scc[h] in comps && scc[h] != [] && scc[h][0] == h)
  }

  /** The graph while the edges are being redirected to the heads. */
  ghost predicate PartlyCondensed(g: Order, rep: map<Key, Key>, done: set<Key>, order: Order) {
    && (forall n :: n in order <==> n in rep && rep[n] == n)
    && (forall n :: n in order ==> order[n] == if n in done then Condensed(g, rep, n) else Pooled(g, rep, n))
  }

  /** The graph of the heads. */
  ghost predicate IsCondensed(g: Order, rep: map<Key, Key>, order: Order) {
    && (forall n :: n in order <==> n in rep && rep[n] == n)
    && (forall n :: n in order ==> order[n] == Condensed(g, rep, n))
  }

  /** Condense the graph to one node for every component. */
  method MergeItemsIntoComponents(comps: seq<seq<Key>>, g: Order, ghost rep: map<Key, Key>)
    returns (scc: map<Key, seq<Key>>, order: Order)
    requires InverseEdges(g) && rep.Keys == g.Keys && ListsAll(rep, comps)
    requires forall n :: n in g ==> rep[n] in g && rep[rep[n]] == rep[n]
    requires forall com :: com in comps ==> NoRepeats(com)
    ensures IsCondensed(g, rep, order) && InverseEdges(order)
    ensures scc.Keys == order.Keys && forall h :: h in scc ==> scc[h] in comps && scc[h] != [] && scc[h][0] == h
  {
    var merged;
    scc, order, merged := MergeAll(comps, g, rep);
    order := Redirect(comps, g, rep, merged, order);
    CondensedInverse(g, rep, order);
    forall com | com in comps
      ensures com != [] && com[0] in order
    {
      var i :| 0 <= i < |comps| && comps[i] == com;
      assert Lists(rep, comps[i]) && com[0] in com;
    }
    order := MirrorEdges(comps, order);
  }

  /** First pass: merge every component into its head. */
  method MergeAll(comps: seq<seq<Key>>, g: Order, ghost rep: map<Key, Key>)
    returns (scc: map<Key, seq<Key>>, order: Order, merged: map<Key, Key>)
    requires rep.Keys == g.Keys && ListsAll(rep, comps)
    requires forall n :: n in g ==> rep[n] in g && rep[rep[n]] == rep[n]
    requires forall com :: com in comps ==> NoRepeats(com)
    ensures PartlyCondensed(g, rep, {}, order)
    ensures merged == rep
    ensures scc.Keys == order.Keys && forall h :: h in scc ==> scc[h] in comps && scc[h] != [] && scc[h][0] == h
  {
    order, scc, merged := g, map[], map[];
    ghost var done: set<Key> := {};
    for i := 0 to |comps|
      invariant forall h :: h in done <==> InHeads(comps, i, h)
      invariant PartlyMerged(g, rep, done, order)
      invariant PartlyMapped(rep, comps, done, merged, scc)
    {
      var com := comps[i];
      assert com in comps;
      NextHead(rep, comps, i, done);
      Untouched(g, rep, com, done, order);
      ghost var order0, merged0, scc0 := order, merged, scc;
      scc := scc[com[0] := com];
      order, merged := MergeComponent(g, rep, com, order, merged);
      MergedStep(g, rep, com, done, order0, order);
      MappedStep(rep, comps, com, done, merged0, scc0, merged, scc);
      done := done + {com[0]};
    }
    AllMerged(g, rep, comps, done, order, merged, scc);
  }

  lemma Untouched(g: Order, rep: map<Key, Key>, com: seq<Key>, done: set<Key>, order: Order)
    requires PartlyMerged(g, rep, done, order) && Lists(rep, com) && com[0] !in done && rep.Keys == g.Keys
    ensures forall n :: n in com ==> n in order && order[n] == g[n]
  {
    forall n | n in com
      ensures n in order && order[n] == g[n]
    {
      assert rep[n] == com[0];
    }
  }

  lemma AllMerged(g: Order, rep: map<Key, Key>, comps: seq<seq<Key>>, done: set<Key>, order: Order,
                  merged: map<Key, Key>, scc: map<Key, seq<Key>>)
    requires ListsAll(rep, comps) && PartlyMerged(g, rep, done, order)
    requires PartlyMapped(rep, comps, done, merged, scc)
    requires forall n :: n in rep ==> rep[n] in rep && rep[rep[n]] == rep[n]
    requires forall h :: h in done <==> InHeads(comps, |comps|, h)
    ensures PartlyCondensed(g, rep, {}, order) && merged == rep && done == order.Keys
  {
    assert forall n :: n in rep ==> InHeads(comps, |comps|, rep[n]);
    forall h
      ensures h in done <==> h in order
    {
      if h in done {
        var k :| 0 <= k < |comps| && comps[k] != [] && comps[k][0] == h;
        assert Lists(rep, comps[k]) && comps[k][0] in comps[k];
      }
    }
  }

  /** The next head is new, and it is the head of what it stands for. */
  lemma NextHead(rep: map<Key, Key>, comps: seq<seq<Key>>, i: nat, done: set<Key>)
    requires ListsAll(rep, comps) && i < |comps|
    requires forall h :: h in done <==> InHeads(comps, i, h)
    ensures Lists(rep, comps[i]) && comps[i][0] in comps[i] && comps[i][0] !in done
    ensures forall h :: h in done + {comps[i][0]} <==> InHeads(comps, i + 1, h)
  {
    assert Lists(rep, comps[i]);
    forall h | h in done + {comps[i][0]}
      ensures InHeads(comps, i + 1, h)
    {
      if h in done {
        assert InHeads(comps, i, h);
      } else {
        assert comps[i][0] == h;
      }
    }
  }

  lemma MergedStep(g: Order, rep: map<Key, Key>, com: seq<Key>, done: set<Key>, order: Order, order': Order)
    requires rep.Keys == g.Keys && Lists(rep, com) && com[0] in com && com[0] !in done
    requires PartlyMerged(g, rep, done, order)
    requires forall n :: n in order' <==> n in order && (n !in com || n == com[0])
    requires forall n :: n in order' && n != com[0] ==> order'[n] == order[n]
    requires com[0] in order' && order'[com[0]] == Pooled(g, rep, com[0])
    ensures PartlyMerged(g, rep, done + {com[0]}, order')
  {
  }

  lemma MappedStep(rep: map<Key, Key>, comps: seq<seq<Key>>, com: seq<Key>, done: set<Key>, merged: map<Key, Key>,
                   scc: map<Key, seq<Key>>, merged': map<Key, Key>, scc': map<Key, seq<Key>>)
    requires Lists(rep, com) && com in comps && PartlyMapped(rep, comps, done, merged, scc)
    requires scc' == scc[com[0] := com]
    requires forall n :: n in merged' <==> n in merged || n in com
    requires forall n :: n in merged' ==> merged'[n] == if n in com then com[0] else merged[n]
    ensures PartlyMapped(rep, comps, done + {com[0]}, merged', scc')
  {
  }

  /** Second pass: redirect the edges to the heads and drop self-relations. */
  method Redirect(comps: seq<seq<Key>>, g: Order, ghost rep: map<Key, Key>, merged: map<Key, Key>, order0: Order)
    returns (order: Order)
    requires rep.Keys == g.Keys && ListsAll(rep, comps) && merged == rep
    requires forall n :: n in g ==> rep[n] in g && rep[rep[n]] == rep[n]
    requires PartlyCondensed(g, rep, {}, order0)
    ensures IsCondensed(g, rep, order)
  {
    order := order0;
    ghost var done: set<Key> := {};
    for i := 0 to |comps|
      invariant forall h :: h in done <==> InHeads(comps, i, h)
      invariant PartlyCondensed(g, rep, done, order)
    {
      NextHead(rep, comps, i, done);
      var node := comps[i][0];
      var nbefore := set b | b in order[node].before && b in merged :: merged[b];
      var nafter := set b | b in order[node].after && b in merged :: merged[b];
      Redirected(g, rep, done, order, node);
      order := order[node := OrderNode(nbefore - {node}, nafter - {node})];
      done := done + {node};
    }
    assert forall n :: n in rep ==> InHeads(comps, |comps|, rep[n]);
  }

  lemma Redirected(g: Order, rep: map<Key, Key>, done: set<Key>, order: Order, node: Key)
    requires rep.Keys == g.Keys && PartlyCondensed(g, rep, done, order) && node in rep && rep[node] == node && node !in done
    ensures node in order
    ensures PartlyCondensed(g, rep, done + {node}, order[node := OrderNode(
      (set b | b in order[node].before && b in rep :: rep[b]) - {node},
      (set b | b in order[node].after && b in rep :: rep[b]) - {node})])
  {
  }

  /** Third pass: add the inverse of every edge. Nothing is missing by now. */
  method MirrorEdges(comps: seq<seq<Key>>, order0: Order) returns (order: Order)
    requires InverseEdges(order0)
    requires forall com :: com in comps ==> com != [] && com[0] in order0
    ensures order == order0
  {
    order := order0;
    for i := 0 to |comps|
      invariant order == order0
    {
      assert comps[i] in comps;
      var sccId := comps[i][0];
      var others := order[sccId].before;
      while others != {}
        invariant others <= order0[sccId].before && order == order0
      {
        var other :| other in others;
        others := others - {other};
        order := WithAfter(order, other, sccId);
        assert order[other].after == order0[other].after;
      }
      others := order[sccId].after;
      while others != {}
        invariant others <= order0[sccId].after && order == order0
      {
        var other :| other in others;
        others := others - {other};
        order := WithBefore(order, other, sccId);
        assert order[other].before == order0[other].before;
      }
    }
  }

  // ---------------------------------------------------------------------------------------------
  // What the condensed graph means
  // ---------------------------------------------------------------------------------------------

  /** Some edge leads from the component of `h` to that of `k`. */
  ghost predicate Crosses(g: Order, rep: map<Key, Key>, h: Key, k: Key) {
    exists n, m :: Edge(g, n, m) && n in rep && m in rep && rep[n] == h && rep[m] == k
  }

  lemma CondensedNode(g: Order, rep: map<Key, Key>, h: Key, k: Key)
    requires InverseEdges(g) && rep.Keys == g.Keys
    ensures k in Condensed(g, rep, h).before <==> h != k && Crosses(g, rep, h, k)
    ensures k in Condensed(g, rep, h).after <==> h != k && Crosses(g, rep, k, h)
  {
    var pooled := Pooled(g, rep, h);
    if k in Condensed(g, rep, h).before {
      var m :| m in pooled.before && m in rep && rep[m] == k;
      var n :| n in g && rep[n] == h && m in g[n].before;
      assert Edge(g, n, m);
    }
    if h != k && Crosses(g, rep, h, k) {
      var n, m :| Edge(g, n, m) && n in rep && m in rep && rep[n] == h && rep[m] == k;
      assert m in pooled.before;
    }
    if k in Condensed(g, rep, h).after {
      var m :| m in pooled.after && m in rep && rep[m] == k;
      var n :| n in g && rep[n] == h && m in g[n].after;
      assert Edge(g, m, n);
    }
    if h != k && Crosses(g, rep, k, h) {
      var n, m :| Edge(g, n, m) && n in rep && m in rep && rep[n] == k && rep[m] == h;
      assert n in pooled.after;
    }
  }

  lemma CondensedInverse(g: Order, rep: map<Key, Key>, order: Order)
    requires InverseEdges(g) && rep.Keys == g.Keys && IsCondensed(g, rep, order)
    requires forall n :: n in g ==> rep[n] in g && rep[rep[n]] == rep[n]
    ensures InverseEdges(order)
    ensures forall h, k :: Edge(order, h, k) <==> h != k && Crosses(g, rep, h, k)
  {
    forall h, k
      ensures h in order && k in order[h].before <==> h != k && Crosses(g, rep, h, k)
      ensures h in order && k in order[h].after <==> h != k && Crosses(g, rep, k, h)
      ensures Crosses(g, rep, h, k) ==> h in order && k in order
    {
      CondensedNode(g, rep, h, k);
    }
  }

  /** Walking from head to head is walking in the graph itself. */
  lemma {:induction false} CondensedWalk(g: Order, rep: map<Key, Key>, order: Order, h: Key, k: Key, w: seq<Key>)
    requires InverseEdges(g) && IsChoice(g, rep) && IsCondensed(g, rep, order) && WalkFrom(order, h, k, w)
    ensures Reach(g, h, k)
    decreases |w|
  {
    if |w| == 1 {
      ReachSelf(g, h);
    } else {
      CondensedInverse(g, rep, order);
      assert Step(order, w, 0);
      CondensedStep(g, rep, h, w[1]);
      TailWalk(order, w);
      CondensedWalk(g, rep, order, w[1], k, w[1..]);
      ReachTransitive(g, h, w[1], k);
    }
  }

  lemma TailWalk(order: Order, w: seq<Key>)
    requires |w| > 1 && WalkFrom(order, w[0], w[|w| - 1], w)
    ensures WalkFrom(order, w[1], w[|w| - 1], w[1..])
  {
    var tail := w[1..];
    forall i | 0 <= i < |tail| - 1
      ensures Step(order, tail, i)
    {
      assert Step(order, w, i + 1);
    }
  }

  lemma CondensedStep(g: Order, rep: map<Key, Key>, h: Key, k: Key)
    requires InverseEdges(g) && IsChoice(g, rep) && Crosses(g, rep, h, k)
    ensures Reach(g, h, k)
  {
    var n, m :| Edge(g, n, m) && n in rep && m in rep && rep[n] == h && rep[m] == k;
    assert SameComponent(g, n, rep[n]) && SameComponent(g, m, rep[m]);
    ReachEdge(g, n, m);
    ReachTransitive(g, h, n, m);
    ReachTransitive(g, h, m, k);
  }

  /** The condensed graph has no cycle. */
  lemma CondensedAcyclic(g: Order, rep: map<Key, Key>, order: Order, h: Key, k: Key)
    requires InverseEdges(g) && IsChoice(g, rep) && IsCondensed(g, rep, order)
    requires h in order && k in order && SameComponent(order, h, k)
    ensures h == k
  {
    var v :| WalkFrom(order, h, k, v);
    var w :| WalkFrom(order, k, h, w);
    CondensedWalk(g, rep, order, h, k, v);
    CondensedWalk(g, rep, order, k, h, w);
    assert SameComponent(g, h, k);
  }

  // ---------------------------------------------------------------------------------------------
  // Linearisation
  // ---------------------------------------------------------------------------------------------

  ghost predicate Acyclic(order: Order) {
    && (forall n :: n in order ==> n !in order[n].before)
    && (forall n, m {:trigger SameComponent(order, n, m)} :: SameComponent(order, n, m) ==> n == m)
  }

  /** In an acyclic graph some member of every non-empty set waits for no other member. */
  lemma {:induction false} SomeReady(order: Order, waiting: set<Key>) returns (n: Key)
    requires InverseEdges(order) && Acyclic(order) && waiting <= order.Keys && waiting != {}
    ensures n in waiting && forall p :: p in order[n].after ==> p !in waiting
    decreases |waiting|
  {
    n :| n in waiting;
    if exists p :: p in order[n].after && p in waiting {
      var top := n;
      var earlier := set m | m in waiting && m != top && Reach(order, m, top);
      var p :| p in order[top].after && p in waiting;
      ReachEdge(order, p, top);
      assert p in earlier;
      SmallerSet(earlier, waiting, top);
      n := SomeReady(order, earlier);
      forall q | q in order[n].after && q in waiting
        ensures q != top && Reach(order, q, top)
      {
        StillEarlier(order, q, n, top);
      }
    }
  }

  lemma StillEarlier(order: Order, q: Key, n: Key, top: Key)
    requires InverseEdges(order) && Acyclic(order)
    requires n in order && q in order[n].after && n != top && Reach(order, n, top)
    ensures q != top && Reach(order, q, top)
  {
    ReachEdge(order, q, n);
    ReachTransitive(order, q, n, top);
    assert q == top ==> SameComponent(order, n, top);
  }

  lemma SmallerSet(a: set<Key>, b: set<Key>, n: Key)
    requires a <= b - {n} && n in b
    ensures |a| < |b|
  {
    var rest := (b - {n}) - a;
    assert b == a + rest + {n};
  }

  /** The keys of a set, shortest first. */
  method SortedByLength(keys: set<Key>) returns (sorted: seq<Key>)
    ensures forall n :: n in sorted <==> n in keys
    ensures forall i, j :: 0 <= i < j < |sorted| ==> |sorted[i]| <= |sorted[j]| && sorted[i] != sorted[j]
  {
    sorted := [];
    var rest := keys;
    while rest != {}
      invariant rest <= keys
      invariant forall n :: n in sorted <==> n in keys && n !in rest
      invariant forall i, m :: 0 <= i < |sorted| && m in rest ==> |sorted[i]| <= |m|
      invariant forall i, j :: 0 <= i < j < |sorted| ==> |sorted[i]| <= |sorted[j]| && sorted[i] != sorted[j]
    {
      ghost var shortest := ShortestExists(rest);
      var n :| n in rest && forall m :: m in rest ==> |n| <= |m|;
      assert n !in sorted;
      rest := rest - {n};
      sorted := sorted + [n];
    }
  }

  lemma {:induction false} ShortestExists(keys: set<Key>) returns (n: Key)
    requires keys != {}
    ensures n in keys && forall m :: m in keys ==> |n| <= |m|
    decreases |keys|
  {
    n :| n in keys;
    if keys - {n} != {} {
      var k := ShortestExists(keys - {n});
      n := if |n| <= |k| then n else k;
    }
  }

  function Range(s: seq<Key>): set<Key> {
    set n | n in s
  }

  /** Every emitted key comes after all its predecessors. */
  ghost predicate Linear(order: Order, emitted: seq<Key>) {
    && NoRepeats(emitted)
    && (forall i :: 0 <= i < |emitted| ==> emitted[i] in order)
    && (forall i, p :: 0 <= i < |emitted| && p in order[emitted[i]].after ==> p in emitted[..i])
  }

  /** Whatever is ready and not emitted is queued. */
  ghost predicate ReadyQueued(order: Order, emitted: seq<Key>, queue: seq<Key>) {
    && (forall n :: n in queue ==> n in order)
    && (forall n :: n in order && n !in emitted && order[n].after <= Range(emitted) ==> n in queue)
  }

  /** Emit the nodes in an order that respects the edges. */
  method Linearise(order: Order) returns (emitted: seq<Key>)
    requires InverseEdges(order) && Acyclic(order)
    ensures Linear(order, emitted) && Range(emitted) == order.Keys
  {
    var queue := SortedByLength(set n | n in order && order[n].after == {});
    emitted := [];
    while queue != []
      invariant Linear(order, emitted) && ReadyQueued(order, emitted, queue)
      decreases |order.Keys - Range(emitted)|, |queue|
    {
      emitted, queue := EmitNext(order, emitted, queue);
    }
    NothingStranded(order, emitted);
  }

  /** Emit the first node of the queue if it is ready; otherwise drop it, it will be queued again. */
  method EmitNext(order: Order, emitted0: seq<Key>, queue0: seq<Key>) returns (emitted: seq<Key>, queue: seq<Key>)
    requires InverseEdges(order) && queue0 != []
    requires Linear(order, emitted0) && ReadyQueued(order, emitted0, queue0)
    ensures Linear(order, emitted) && ReadyQueued(order, emitted, queue)
    ensures if emitted == emitted0 then |queue| < |queue0|
            else |order.Keys - Range(emitted)| < |order.Keys - Range(emitted0)|
  {
    var cur := queue0[0];
    assert cur in queue0;
    emitted, queue := emitted0, queue0[1..];
    if order[cur].after <= Range(emitted) && cur !in emitted {
      var next := SortedByLength(order[cur].before - Range(emitted));
      emitted := emitted + [cur];
      queue := queue + next;
      LinearStep(order, emitted0, cur);
      ReadyStep(order, emitted0, queue0, cur, next);
      SmallerSet(order.Keys - Range(emitted), order.Keys - Range(emitted0), cur);
    } else {
      NotReadyStep(order, emitted, queue0);
    }
  }

  lemma LinearStep(order: Order, emitted: seq<Key>, cur: Key)
    requires Linear(order, emitted) && cur in order && cur !in emitted && order[cur].after <= Range(emitted)
    ensures Linear(order, emitted + [cur])
  {
    var emitted' := emitted + [cur];
    forall i, p | 0 <= i < |emitted'| && p in order[emitted'[i]].after
      ensures p in emitted'[..i]
    {
      if i < |emitted| {
        assert emitted'[..i] == emitted[..i];
      } else {
        assert emitted'[..i] == emitted;
      }
    }
  }

  lemma ReadyStep(order: Order, emitted: seq<Key>, queue: seq<Key>, cur: Key, next: seq<Key>)
    requires InverseEdges(order) && ReadyQueued(order, emitted, queue) && queue != [] && queue[0] == cur
    requires cur in order && forall n :: n in next <==> n in order[cur].before - Range(emitted)
    ensures ReadyQueued(order, emitted + [cur], queue[1..] + next)
  {
    var emitted' := emitted + [cur];
    var queue' := queue[1..] + next;
    assert queue == [cur] + queue[1..];
    forall n | n in order && n !in emitted' && order[n].after <= Range(emitted')
      ensures n in queue'
    {
      if cur in order[n].after {
        assert n in order[cur].before;
        assert n in next;
      } else {
        assert order[n].after <= Range(emitted);
        assert n in queue;
      }
    }
  }

  lemma NotReadyStep(order: Order, emitted: seq<Key>, queue: seq<Key>)
    requires ReadyQueued(order, emitted, queue) && queue != []
    requires !(order[queue[0]].after <= Range(emitted) && queue[0] !in emitted)
    ensures ReadyQueued(order, emitted, queue[1..])
  {
    assert queue == [queue[0]] + queue[1..];
  }

  lemma NothingStranded(order: Order, emitted: seq<Key>)
    requires InverseEdges(order) && Acyclic(order) && Linear(order, emitted) && ReadyQueued(order, emitted, [])
    ensures Range(emitted) == order.Keys
  {
    var waiting := order.Keys - Range(emitted);
    assert Range(emitted) <= order.Keys;
    forall n | n in waiting
      ensures exists p :: p in order[n].after && p in waiting
    {
      assert n !in [] && !(order[n].after <= Range(emitted));
      var p :| p in order[n].after && p !in Range(emitted);
    }
    if waiting != {} {
      var n := SomeReady(order, waiting);
    }
  }

  // ---------------------------------------------------------------------------------------------
  // All together
  // ---------------------------------------------------------------------------------------------

  /** No item is scheduled in a batch before one of the items it must wait for. */
  ghost predicate Respects(g: Order, result: seq<seq<Key>>) {
    forall i, j, n, m {:trigger n in result[i], m in result[j], Reach(g, n, m)} ::
      0 <= i < |result| && 0 <= j < |result| && n in result[i] && m in result[j] && Reach(g, n, m) ==> i <= j
  }

  /** The batches: one for every strongly connected component of the ordering, in an order that respects it. */
  method SolveGroups(keys: set<Key>, constraints: seq<Constraint>) returns (result: seq<seq<Key>>)
    requires forall c :: c in constraints ==> c.key in keys && c.other in keys
    ensures ComponentsOf(Ordering(keys, constraints), result)
    ensures Respects(Ordering(keys, constraints), result)
  {
    var order := ComputeGroupOrder(keys, constraints);
    ghost var g := order;
    var comps := ComputeScc(order);
    ghost var rep := Choose(g, comps);
    var scc;
    scc, order := MergeItemsIntoComponents(comps, order, rep);
    CondensedHasNoCycle(g, rep, order);
    var emitted := Linearise(order);
    result := seq(|emitted|, i requires 0 <= i < |emitted| => scc[emitted[i]]);
    BatchesOf(rep, comps, emitted, scc, result);
    BatchesComplete(g, rep, comps, emitted, result);
    BatchesOrdered(g, rep, order, emitted, result);
  }

  lemma CondensedHasNoCycle(g: Order, rep: map<Key, Key>, order: Order)
    requires InverseEdges(g) && IsChoice(g, rep) && IsCondensed(g, rep, order)
    ensures InverseEdges(order) && Acyclic(order)
  {
    CondensedInverse(g, rep, order);
    forall h, k | SameComponent(order, h, k)
      ensures h == k
    {
      if h != k {
        var next, last := ReachEnds(order, h, k);
        CondensedAcyclic(g, rep, order, h, k);
      }
    }
  }

  // A list of components determines a choice of heads.

  ghost function Head(g: Order, comps: seq<seq<Key>>, n: Key): Key
    requires ComponentsOf(g, comps) && n in g
  {
    assert InSome(comps, n);
    var i :| 0 <= i < |comps| && n in comps[i];
    assert IsComponent(g, comps[i]);
    comps[i][0]
  }

  lemma HeadAt(g: Order, comps: seq<seq<Key>>, i: nat, n: Key)
    requires ComponentsOf(g, comps) && i < |comps| && n in comps[i]
    ensures n in g && Head(g, comps, n) == comps[i][0] && comps[i][0] in comps[i]
  {
    assert InSome(comps, n);
    var k :| 0 <= k < |comps| && n in comps[k] && Head(g, comps, n) == comps[k][0];
  }

  lemma ComponentAt(g: Order, comps: seq<seq<Key>>, n: Key) returns (i: nat)
    requires ComponentsOf(g, comps) && n in g
    ensures i < |comps| && n in comps[i] && IsClassOf(g, comps[i], n)
  {
    assert InSome(comps, n);
    i :| 0 <= i < |comps| && n in comps[i];
    assert IsComponent(g, comps[i]);
  }

  lemma ChosenHead(g: Order, comps: seq<seq<Key>>, n: Key)
    requires ComponentsOf(g, comps) && n in g
    ensures var h := Head(g, comps, n); h in g && Head(g, comps, h) == h && SameComponent(g, n, h)
  {
    var i := ComponentAt(g, comps, n);
    HeadAt(g, comps, i, n);
    HeadAt(g, comps, i, comps[i][0]);
  }

  lemma SameHead(g: Order, comps: seq<seq<Key>>, n: Key, m: Key)
    requires ComponentsOf(g, comps) && n in g && m in g && SameComponent(g, n, m)
    ensures Head(g, comps, n) == Head(g, comps, m)
  {
    var i := ComponentAt(g, comps, n);
    HeadAt(g, comps, i, n);
    HeadAt(g, comps, i, m);
  }

  lemma HeadLists(g: Order, comps: seq<seq<Key>>, i: nat, n: Key)
    requires ComponentsOf(g, comps) && i < |comps| && comps[i] != []
    ensures n in comps[i] <==> n in g && Head(g, comps, n) == comps[i][0]
  {
    if n in comps[i] {
      HeadAt(g, comps, i, n);
    } else if n in g {
      var k := ComponentAt(g, comps, n);
      HeadAt(g, comps, k, n);
      HeadAt(g, comps, i, comps[i][0]);
    }
  }

  lemma Choose(g: Order, comps: seq<seq<Key>>) returns (rep: map<Key, Key>)
    requires ComponentsOf(g, comps)
    ensures IsChoice(g, rep) && ListsAll(rep, comps)
    ensures forall com :: com in comps ==> NoRepeats(com)
  {
    rep := map n | n in g :: Head(g, comps, n);
    HeadsAreChoice(g, comps, rep);
    ChoiceLists(g, comps, rep);
    ListsDistinct(g, comps);
  }

  lemma HeadsAreChoice(g: Order, comps: seq<seq<Key>>, rep: map<Key, Key>)
    requires ComponentsOf(g, comps)
    requires rep == map n | n in g :: Head(g, comps, n)
    ensures IsChoice(g, rep)
  {
    forall n | n in g
      ensures rep[n] in g && rep[rep[n]] == rep[n] && SameComponent(g, n, rep[n])
    {
      ChosenHead(g, comps, n);
    }
    forall n, m | n in g && m in g && SameComponent(g, n, m)
      ensures rep[n] == rep[m]
    {
      SameHead(g, comps, n, m);
    }
  }

  lemma ListsDistinct(g: Order, comps: seq<seq<Key>>)
    requires ComponentsOf(g, comps)
    ensures forall com :: com in comps ==> NoRepeats(com)
  {
    forall com | com in comps
      ensures NoRepeats(com)
    {
      assert IsComponent(g, com);
    }
  }

  lemma ChoiceLists(g: Order, comps: seq<seq<Key>>, rep: map<Key, Key>)
    requires ComponentsOf(g, comps)
    requires rep == map n | n in g :: Head(g, comps, n)
    ensures ListsAll(rep, comps)
  {
    forall i | 0 <= i < |comps|
      ensures comps[i] != [] && Lists(rep, comps[i])
    {
      assert IsComponent(g, comps[i]);
      forall n
        ensures n in comps[i] <==> n in rep && rep[n] == comps[i][0]
      {
        HeadLists(g, comps, i, n);
      }
    }
    forall i, j | 0 <= i < j < |comps|
      ensures comps[i][0] != comps[j][0]
    {
      assert comps[i][0] in comps[i] && comps[j][0] in comps[j];
    }
    forall n | n in rep
      ensures InHeads(comps, |comps|, rep[n])
    {
      var i := ComponentAt(g, comps, n);
      HeadAt(g, comps, i, n);
    }
  }

  // The batches are the components, in an order that respects the graph.

  /** Batch `i` holds the items whose head was emitted as number `i`. */
  ghost predicate Batched(rep: map<Key, Key>, emitted: seq<Key>, result: seq<seq<Key>>) {
    && |result| == |emitted|
    && (forall i, n {:trigger n in result[i]} :: 0 <= i < |result| ==> (n in result[i] <==> n in rep && rep[n] == emitted[i]))
  }

  lemma BatchesOf(rep: map<Key, Key>, comps: seq<seq<Key>>, emitted: seq<Key>, scc: map<Key, seq<Key>>,
                  result: seq<seq<Key>>)
    requires ListsAll(rep, comps) && |result| == |emitted|
    requires forall h :: h in scc ==> scc[h] in comps && scc[h] != [] && scc[h][0] == h
    requires forall i :: 0 <= i < |result| ==> emitted[i] in scc && result[i] == scc[emitted[i]]
    ensures Batched(rep, emitted, result)
    ensures forall batch :: batch in result ==> batch in comps
  {
    forall i, n | 0 <= i < |result|
      ensures n in result[i] <==> n in rep && rep[n] == emitted[i]
    {
      var k :| 0 <= k < |comps| && comps[k] == result[i];
      assert Lists(rep, comps[k]);
    }
  }

  lemma BatchesComplete(g: Order, rep: map<Key, Key>, comps: seq<seq<Key>>, emitted: seq<Key>, result: seq<seq<Key>>)
    requires ComponentsOf(g, comps) && IsChoice(g, rep) && Batched(rep, emitted, result) && NoRepeats(emitted)
    requires forall batch :: batch in result ==> batch in comps
    requires forall n :: n in rep ==> rep[n] in emitted
    ensures ComponentsOf(g, result)
  {
    forall n
      ensures n in g <==> InSome(result, n)
    {
      if n in g {
        var i :| 0 <= i < |emitted| && emitted[i] == rep[n];
        assert n in result[i];
      }
    }
  }

  lemma EdgeRespected(g: Order, rep: map<Key, Key>, order: Order, emitted: seq<Key>, n: Key, m: Key, i: nat, j: nat)
    requires InverseEdges(g) && rep.Keys == g.Keys && IsCondensed(g, rep, order) && Linear(order, emitted)
    requires forall v :: v in g ==> rep[v] in g && rep[rep[v]] == rep[v]
    requires Edge(g, n, m) && i < |emitted| && j < |emitted| && rep[n] == emitted[i] && rep[m] == emitted[j]
    ensures i <= j
  {
    if rep[n] != rep[m] {
      CondensedNode(g, rep, rep[m], rep[n]);
      assert Crosses(g, rep, rep[n], rep[m]);
      assert emitted[i] in order[emitted[j]].after;
      var k :| 0 <= k < j && emitted[k] == emitted[i];
    }
  }

  lemma {:induction false} WalkRespected(g: Order, rep: map<Key, Key>, order: Order, emitted: seq<Key>, n: Key, m: Key,
                                         w: seq<Key>, i: nat, j: nat)
    requires InverseEdges(g) && rep.Keys == g.Keys && IsCondensed(g, rep, order) && Linear(order, emitted)
    requires forall v :: v in g ==> rep[v] in g && rep[rep[v]] == rep[v]
    requires Range(emitted) == order.Keys && WalkFrom(g, n, m, w) && n in g && m in g
    requires i < |emitted| && j < |emitted| && rep[n] == emitted[i] && rep[m] == emitted[j]
    ensures i <= j
    decreases |w|
  {
    if |w| > 1 {
      assert Step(g, w, 0);
      assert rep[w[1]] in Range(emitted);
      var k :| 0 <= k < |emitted| && emitted[k] == rep[w[1]];
      EdgeRespected(g, rep, order, emitted, n, w[1], i, k);
      TailWalk(g, w);
      WalkRespected(g, rep, order, emitted, w[1], m, w[1..], k, j);
    }
  }

  lemma BatchesOrdered(g: Order, rep: map<Key, Key>, order: Order, emitted: seq<Key>, result: seq<seq<Key>>)
    requires InverseEdges(g) && IsChoice(g, rep) && IsCondensed(g, rep, order) && Linear(order, emitted)
    requires Range(emitted) == order.Keys && Batched(rep, emitted, result)
    ensures Respects(g, result)
  {
    forall i, j, n, m | 0 <= i < |result| && 0 <= j < |result| && n in result[i] && m in result[j] && Reach(g, n, m)
      ensures i <= j
    {
      var w :| WalkFrom(g, n, m, w);
      WalkRespected(g, rep, order, emitted, n, m, w, i, j);
    }
  }
}
