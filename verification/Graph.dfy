/** Ordering graphs and reachability in them. */
module Graphs {

  /** Identifies a migration item in the ordering. */
  type Key = string

  /** `before` are the items that come after this one, `after` those that must come first: the
      item is before the former and after the latter. */
  datatype OrderNode = OrderNode(before: set<Key>, after: set<Key>)

  type Order = map<Key, OrderNode>

  /** `before` and `after` are inverse to each other and stay within the graph. */
  ghost predicate InverseEdges(g: Order) {
    && (forall n, m {:trigger m in g[n].before} :: n in g && m in g[n].before ==> m in g && n in g[m].after)
    && (forall n, m {:trigger m in g[n].after} :: n in g && m in g[n].after ==> m in g && n in g[m].before)
  }

  predicate Edge(g: Order, n: Key, m: Key) {
    n in g && m in g[n].before
  }

  predicate Step(g: Order, w: seq<Key>, i: nat)
    requires i + 1 < |w|
  {
    Edge(g, w[i], w[i + 1])
  }

  /** A walk along `before` edges. */
  ghost predicate WalkFrom(g: Order, n: Key, m: Key, w: seq<Key>) {
    && w != []
    && w[0] == n && w[|w| - 1] == m
    && (forall i {:trigger Step(g, w, i)} :: 0 <= i < |w| - 1 ==> Step(g, w, i))
  }

  ghost predicate Reach(g: Order, n: Key, m: Key) {
    exists w :: WalkFrom(g, n, m, w)
  }

  ghost predicate SameComponent(g: Order, n: Key, m: Key) {
    Reach(g, n, m) && Reach(g, m, n)
  }

  lemma ReachSelf(g: Order, n: Key)
    ensures Reach(g, n, n)
  {
    assert WalkFrom(g, n, n, [n]);
  }

  lemma ReachEdge(g: Order, n: Key, m: Key)
    requires Edge(g, n, m)
    ensures Reach(g, n, m)
  {
    assert WalkFrom(g, n, m, [n, m]);
  }

  lemma ReachTransitive(g: Order, n: Key, m: Key, k: Key)
    requires Reach(g, n, m) && Reach(g, m, k)
    ensures Reach(g, n, k)
  {
    var v :| WalkFrom(g, n, m, v);
    var w :| WalkFrom(g, m, k, w);
    var vw := v + w[1..];
    forall i | 0 <= i < |vw| - 1
      ensures Step(g, vw, i)
    {
      if i < |v| - 1 {
        assert Step(g, v, i);
      } else {
        assert Step(g, w, i - (|v| - 1));
      }
    }
    assert WalkFrom(g, n, k, vw);
  }

  /** Reaching another node takes an edge out of the source and an edge into the target. */
  lemma ReachEnds(g: Order, n: Key, m: Key) returns (next: Key, last: Key)
    requires Reach(g, n, m) && n != m
    ensures Edge(g, n, next) && Reach(g, next, m)
    ensures Edge(g, last, m)
  {
    var w :| WalkFrom(g, n, m, w);
    next, last := w[1], w[|w| - 2];
    var tail := w[1..];
    assert Step(g, w, 0) && Step(g, w, |w| - 2);
    forall i | 0 <= i < |tail| - 1
      ensures Step(g, tail, i)
    {
      assert Step(g, w, i + 1);
    }
    assert WalkFrom(g, w[1], m, tail);
  }

  lemma SameComponentTransitive(g: Order, n: Key, m: Key, k: Key)
    requires SameComponent(g, n, m) && SameComponent(g, m, k)
    ensures SameComponent(g, n, k)
  {
    ReachTransitive(g, n, m, k);
    ReachTransitive(g, k, m, n);
  }

  /** A node without edges in one direction is a component of its own. */
  lemma IsolatedComponent(g: Order, n: Key, m: Key)
    requires InverseEdges(g) && n in g && (g[n].before == {} || g[n].after == {})
    requires SameComponent(g, n, m)
    ensures m == n
  {
    if m != n {
      var next, last := ReachEnds(g, n, m);
      next, last := ReachEnds(g, m, n);
    }
  }

  ghost predicate IsClassOf(g: Order, component: seq<Key>, n: Key) {
    forall m :: m in component <==> m in g && SameComponent(g, n, m)
  }

  /** `component` lists, without repetition, exactly one class of mutually reachable nodes. */
  ghost predicate IsComponent(g: Order, component: seq<Key>) {
    && component != []
    && (forall i, j :: 0 <= i < j < |component| ==> component[i] != component[j])
    && (forall n {:trigger IsClassOf(g, component, n)} :: n in component ==> IsClassOf(g, component, n))
  }

  /** The components of `result` have no node in common. */
  ghost predicate Disjoint(result: seq<seq<Key>>) {
    forall i, j, n :: 0 <= i < j < |result| && n in result[i] ==> n !in result[j]
  }

  ghost predicate InSome(result: seq<seq<Key>>, n: Key) {
    exists i :: 0 <= i < |result| && n in result[i]
  }

  lemma InSomeAppend(result: seq<seq<Key>>, component: seq<Key>, n: Key)
    ensures InSome(result + [component], n) <==> InSome(result, n) || n in component
  {
    var result' := result + [component];
    if InSome(result, n) {
      var i :| 0 <= i < |result| && n in result[i];
      assert n in result'[i];
    }
    if n in component {
      assert n in result'[|result|];
    }
  }

  /** A list of the strongly connected components with every node in exactly one of them. */
  ghost predicate ComponentsOf(g: Order, result: seq<seq<Key>>) {
    && (forall c {:trigger IsComponent(g, c)} :: c in result ==> IsComponent(g, c))
    && Disjoint(result)
    && (forall n :: n in g <==> InSome(result, n))
  }
}
