/** Strongly connected components: an iterative variant of Tarjan's algorithm.

    The variant has no "is on the stack" test.  Instead, `low` is overwritten with a number above
    all others when a component is emitted, and the successors of a node are scanned again from the
    start whenever the work on it resumes. */
module StronglyConnectedComponents {
  import opened Graphs

  /** An entry of the work stack: a node, its position on the node stack and its original number. */
  datatype Frame = Frame(node: Key, stackIdx: nat, origNum: nat)

  /** The state of the search.  `num` holds the number each node on the stack was first given. */
  datatype State = State(low: map<Key, nat>, stack: seq<Key>, frames: seq<Frame>, num: map<Key, nat>)
  {
    function Low(n: Key): nat {
      if n in low then low[n] else 0
    }

    function Num(n: Key): nat {
      if n in num then num[n] else 0
    }

    /** Where the part of the stack that belongs to frame `k` ends. */
    function SegmentEnd(k: nat): nat {
      if k + 1 < |frames| then frames[k + 1].stackIdx else |stack|
    }

    ghost predicate BeingWorkedOn(i: nat) {
      exists k :: 0 <= k < |frames| && frames[k].stackIdx == i
    }

    function Top(): Frame
      requires frames != []
    {
      frames[|frames| - 1]
    }
  }

  /** The number that replaces `low` when a component is emitted. */
  function Emitted(g: Order): nat {
    |g| + 1
  }

  ghost predicate IsEmitted(g: Order, s: State, n: Key) {
    n in s.low && s.low[n] == Emitted(g)
  }

  /** Every node that has been seen is either emitted or on the stack. */
  ghost predicate SeenOk(g: Order, s: State) {
    && s.low.Keys <= g.Keys
    && (forall n :: n in s.low && s.low[n] != Emitted(g) ==> n in s.stack)
  }

  /** Numbers grow along the stack and stay below the number of nodes seen. */
  ghost predicate NumbersOk(s: State) {
    && (forall i :: 0 <= i < |s.stack| ==> s.stack[i] in s.low && s.Low(s.stack[i]) <= s.Num(s.stack[i]) < |s.low|)
    && (forall i, j {:trigger NumberedBefore(s, i, j)} :: 0 <= i < j < |s.stack| ==> NumberedBefore(s, i, j))
  }

  ghost predicate NumberedBefore(s: State, i: nat, j: nat) {
    i < |s.stack| && j < |s.stack| && s.Num(s.stack[i]) < s.Num(s.stack[j])
  }

  ghost predicate LowWitness(g: Order, s: State, i: nat) {
    exists j :: 0 <= j <= i < |s.stack| && s.Low(s.stack[i]) == s.Num(s.stack[j]) && Reach(g, s.stack[i], s.stack[j])
  }

  /** `low` of a node on the stack is the number of a stack node that it reaches. */
  ghost predicate LowReached(g: Order, s: State) {
    forall i {:trigger LowWitness(g, s, i)} :: 0 <= i < |s.stack| ==> LowWitness(g, s, i)
  }

  ghost predicate FramesOk(s: State) {
    && (s.frames == [] <==> s.stack == [])
    && (forall k :: 0 <= k < |s.frames| ==>
          s.frames[k].stackIdx < |s.stack| && s.stack[s.frames[k].stackIdx] == s.frames[k].node
          && s.frames[k].origNum == s.Num(s.frames[k].node))
    && (forall k, l {:trigger FrameBelow(s, k, l)} :: 0 <= k < l < |s.frames| ==> FrameBelow(s, k, l))
    && (s.frames != [] ==> s.frames[0].stackIdx == 0)
  }

  ghost predicate FrameBelow(s: State, k: nat, l: nat) {
    k < |s.frames| && l < |s.frames| && s.frames[k].stackIdx < s.frames[l].stackIdx
  }

  /** A node being worked on reaches everything above it on the stack. */
  ghost predicate FramesReach(g: Order, s: State) {
    forall k, i {:trigger Reach(g, s.frames[k].node, s.stack[i])} ::
      0 <= k < |s.frames| && s.frames[k].stackIdx <= i < |s.stack| ==> Reach(g, s.frames[k].node, s.stack[i])
  }

  /** It has the least `low` of its part of the stack. */
  ghost predicate SegmentsLow(s: State) {
    forall k, i {:trigger s.SegmentEnd(k), s.stack[i]} ::
      0 <= k < |s.frames| && s.frames[k].stackIdx <= i < s.SegmentEnd(k) && i < |s.stack| ==>
        s.Low(s.frames[k].node) <= s.Low(s.stack[i])
  }

  /** All successors of `n` have been seen, and `low` accounts for those on the stack. */
  ghost predicate Scanned(g: Order, s: State, n: Key) {
    forall m :: Edge(g, n, m) ==> m in s.low && (IsEmitted(g, s, m) || s.Low(n) <= s.Num(m))
  }

  ghost predicate Finished(g: Order, s: State, i: nat) {
    i < |s.stack| && s.Low(s.stack[i]) < s.Num(s.stack[i]) && Scanned(g, s, s.stack[i])
  }

  /** A node on the stack that is finished belongs to a component with a node below it. */
  ghost predicate FinishedOk(g: Order, s: State) {
    forall i {:trigger Finished(g, s, i)} :: 0 <= i < |s.stack| && !s.BeingWorkedOn(i) ==> Finished(g, s, i)
  }

  ghost predicate ResultOk(g: Order, s: State, result: seq<seq<Key>>) {
    && (forall c {:trigger IsComponent(g, c)} :: c in result ==> IsComponent(g, c))
    && Disjoint(result)
    && (forall n {:trigger InSome(result, n)} :: IsEmitted(g, s, n) <==> InSome(result, n))
  }

  ghost predicate Inv(g: Order, s: State, result: seq<seq<Key>>) {
    && SeenOk(g, s)
    && NumbersOk(s)
    && LowReached(g, s)
    && FramesOk(s)
    && FramesReach(g, s)
    && SegmentsLow(s)
    && FinishedOk(g, s)
    && ResultOk(g, s, result)
  }

  // ---------------------------------------------------------------------------------------------
  // Facts used by several steps
  // ---------------------------------------------------------------------------------------------

  lemma StackNotEmitted(g: Order, s: State, i: nat)
    requires SeenOk(g, s) && NumbersOk(s) && i < |s.stack|
    ensures !IsEmitted(g, s, s.stack[i]) && s.Num(s.stack[i]) < |g|
  {
    CardinalityOfKeys(s.low, g);
  }

  lemma CardinalityOfKeys<A, B, C>(m: map<A, B>, n: map<A, C>)
    requires m.Keys <= n.Keys
    ensures |m| <= |n|
  {
    assert n.Keys == m.Keys + (n.Keys - m.Keys);
    assert |m.Keys| <= |n.Keys|;
  }

  lemma StackPosition(s: State, i: nat, j: nat)
    requires NumbersOk(s) && i < |s.stack| && j < |s.stack|
    ensures s.Num(s.stack[i]) <= s.Num(s.stack[j]) ==> i <= j
  {
    assert j < i ==> NumberedBefore(s, j, i);
  }

  lemma WitnessAt(g: Order, s: State, i: nat) returns (j: nat)
    requires LowWitness(g, s, i)
    ensures j <= i < |s.stack| && s.Low(s.stack[i]) == s.Num(s.stack[j]) && Reach(g, s.stack[i], s.stack[j])
  {
    j :| 0 <= j <= i < |s.stack| && s.Low(s.stack[i]) == s.Num(s.stack[j]) && Reach(g, s.stack[i], s.stack[j]);
  }

  lemma ResultGrows(g: Order, s: State, result: seq<seq<Key>>, s': State, component: seq<Key>)
    requires ResultOk(g, s, result) && IsComponent(g, component)
    requires forall n :: n in component ==> !IsEmitted(g, s, n)
    requires forall n :: IsEmitted(g, s', n) <==> IsEmitted(g, s, n) || n in component
    ensures ResultOk(g, s', result + [component])
  {
    var result' := result + [component];
    forall n
      ensures InSome(result', n) <==> InSome(result, n) || n in component
    {
      InSomeAppend(result, component, n);
    }
    forall i, j, n | 0 <= i < j < |result'| && n in result'[i]
      ensures n !in result'[j]
    {
      assert result'[i] == result[i];
      if j == |result| {
        assert InSome(result, n);
      }
    }
  }

  // ---------------------------------------------------------------------------------------------
  // An isolated node
  // ---------------------------------------------------------------------------------------------

  function Isolate(g: Order, s: State, n: Key): State {
    s.(low := s.low[n := Emitted(g)])
  }

  lemma IsolateInv(g: Order, s: State, result: seq<seq<Key>>, n: Key)
    requires InverseEdges(g) && Inv(g, s, result)
    requires n in g && n !in s.low && (g[n].before == {} || g[n].after == {})
    ensures Inv(g, Isolate(g, s, n), result + [[n]])
  {
    var s' := Isolate(g, s, n);
    IsolateSeen(g, s, n);
    IsolateSame(g, s, n);
    NumbersKept(s, s');
    FramesKept(g, s, s');
    LowKept(g, s, s');
    SegmentsKept(s, s');
    IsolateFinished(g, s, n);
    IsolateResult(g, s, result, n);
  }

  lemma IsolateSame(g: Order, s: State, n: Key)
    requires NumbersOk(s) && n !in s.low
    ensures SameOnStack(s, Isolate(g, s, n))
    ensures |Isolate(g, s, n).low| == |s.low| + 1 && s.low.Keys <= Isolate(g, s, n).low.Keys
  {
    assert Isolate(g, s, n).low.Keys == s.low.Keys + {n};
  }

  lemma IsolateFinished(g: Order, s: State, n: Key)
    requires FinishedOk(g, s) && SameOnStack(s, Isolate(g, s, n)) && n !in s.low
    ensures FinishedOk(g, Isolate(g, s, n))
  {
    FinishedKept(g, s, Isolate(g, s, n));
  }

  lemma IsolateResult(g: Order, s: State, result: seq<seq<Key>>, n: Key)
    requires InverseEdges(g) && ResultOk(g, s, result)
    requires n in g && n !in s.low && (g[n].before == {} || g[n].after == {})
    ensures ResultOk(g, Isolate(g, s, n), result + [[n]])
  {
    IsolatedIsComponent(g, n);
    ResultGrows(g, s, result, Isolate(g, s, n), [n]);
  }

  lemma IsolateSeen(g: Order, s: State, n: Key)
    requires SeenOk(g, s) && n in g
    ensures SeenOk(g, Isolate(g, s, n))
  {
  }

  lemma NumbersKept(s: State, s': State)
    requires NumbersOk(s) && SameOnStack(s, s') && |s.low| <= |s'.low| && s.low.Keys <= s'.low.Keys
    ensures NumbersOk(s')
  {
    forall i, j | 0 <= i < j < |s'.stack|
      ensures NumberedBefore(s', i, j)
    {
      assert NumberedBefore(s, i, j);
    }
  }

  lemma FramesKept(g: Order, s: State, s': State)
    requires FramesOk(s) && FramesReach(g, s) && s'.stack == s.stack && s'.num == s.num && s'.frames == s.frames
    ensures FramesOk(s') && FramesReach(g, s')
  {
    forall k, l | 0 <= k < l < |s'.frames|
      ensures FrameBelow(s', k, l)
    {
      assert FrameBelow(s, k, l);
    }
    forall k, i | 0 <= k < |s'.frames| && s'.frames[k].stackIdx <= i < |s'.stack|
      ensures Reach(g, s'.frames[k].node, s'.stack[i])
    {
      assert Reach(g, s.frames[k].node, s.stack[i]);
    }
  }

  lemma IsolatedIsComponent(g: Order, n: Key)
    requires InverseEdges(g) && n in g && (g[n].before == {} || g[n].after == {})
    ensures IsComponent(g, [n])
  {
    forall m
      ensures m in [n] <==> m in g && SameComponent(g, n, m)
    {
      ReachSelf(g, n);
      if m in g && SameComponent(g, n, m) {
        IsolatedComponent(g, n, m);
      }
    }
  }

  /** `s'` knows the same about the nodes on the stack. */
  ghost predicate SameOnStack(s: State, s': State) {
    && s'.stack == s.stack && s'.num == s.num
    && (forall i :: 0 <= i < |s.stack| ==> s'.Low(s.stack[i]) == s.Low(s.stack[i]))
  }

  lemma LowKept(g: Order, s: State, s': State)
    requires LowReached(g, s) && SameOnStack(s, s')
    ensures LowReached(g, s')
  {
    forall i | 0 <= i < |s'.stack|
      ensures LowWitness(g, s', i)
    {
      assert LowWitness(g, s, i);
      var j := WitnessAt(g, s, i);
      assert s'.Low(s'.stack[i]) == s'.Num(s'.stack[j]);
    }
  }

  lemma SegmentsKept(s: State, s': State)
    requires FramesOk(s) && SegmentsLow(s) && SameOnStack(s, s') && s'.frames == s.frames
    ensures SegmentsLow(s')
  {
    forall k, i | 0 <= k < |s'.frames| && s'.frames[k].stackIdx <= i < s'.SegmentEnd(k) && i < |s'.stack|
      ensures s'.Low(s'.frames[k].node) <= s'.Low(s'.stack[i])
    {
      assert i < s.SegmentEnd(k);
      assert s.stack[s.frames[k].stackIdx] == s.frames[k].node;
    }
  }

  lemma FinishedKept(g: Order, s: State, s': State)
    requires FinishedOk(g, s) && SameOnStack(s, s') && s'.frames == s.frames
    requires forall n :: n in s.low ==> n in s'.low && (IsEmitted(g, s, n) ==> IsEmitted(g, s', n))
    ensures FinishedOk(g, s')
  {
    forall i | 0 <= i < |s'.stack| && !s'.BeingWorkedOn(i)
      ensures Finished(g, s', i)
    {
      assert !s.BeingWorkedOn(i) && Finished(g, s, i);
    }
  }

  // ---------------------------------------------------------------------------------------------
  // A new node
  // ---------------------------------------------------------------------------------------------

  function Visit(s: State, n: Key): State {
    State(s.low[n := |s.low|], s.stack + [n], s.frames + [Frame(n, |s.stack|, |s.low|)], s.num[n := |s.low|])
  }

  /** On its own, or below the node being worked on. */
  lemma VisitInv(g: Order, s: State, result: seq<seq<Key>>, n: Key)
    requires Inv(g, s, result) && n in g && n !in s.low
    requires s.frames != [] ==> Edge(g, s.Top().node, n)
    ensures Inv(g, Visit(s, n), result)
  {
    VisitSeen(g, s, n);
    VisitNumbers(s, n);
    VisitLow(g, s, n);
    VisitFrames(s, n);
    VisitReach(g, s, n);
    VisitSegments(s, n);
    VisitFinished(g, s, n);
    VisitResult(g, s, result, n);
  }

  lemma VisitSeen(g: Order, s: State, n: Key)
    requires SeenOk(g, s) && n in g
    ensures SeenOk(g, Visit(s, n))
  {
    var s' := Visit(s, n);
    assert s'.stack[|s.stack|] == n;
    forall m | m in s.stack
      ensures m in s'.stack
    {
    }
  }

  lemma VisitNumbers(s: State, n: Key)
    requires NumbersOk(s) && n !in s.low
    ensures NumbersOk(Visit(s, n))
  {
    var s' := Visit(s, n);
    assert s'.low.Keys == s.low.Keys + {n} && |s'.low| == |s.low| + 1;
    forall i, j | 0 <= i < j < |s'.stack|
      ensures NumberedBefore(s', i, j)
    {
      assert j < |s.stack| ==> NumberedBefore(s, i, j);
    }
  }

  lemma VisitLow(g: Order, s: State, n: Key)
    requires NumbersOk(s) && LowReached(g, s) && n !in s.low
    ensures LowReached(g, Visit(s, n))
  {
    var s' := Visit(s, n);
    forall i | 0 <= i < |s'.stack|
      ensures LowWitness(g, s', i)
    {
      if i == |s.stack| {
        ReachSelf(g, n);
        assert s'.Low(s'.stack[i]) == s'.Num(s'.stack[i]);
      } else {
        assert LowWitness(g, s, i);
        var j := WitnessAt(g, s, i);
        assert s'.Low(s'.stack[i]) == s'.Num(s'.stack[j]);
      }
    }
  }

  lemma VisitFrames(s: State, n: Key)
    requires NumbersOk(s) && FramesOk(s) && n !in s.low
    ensures FramesOk(Visit(s, n))
  {
    var s' := Visit(s, n);
    forall k, l | 0 <= k < l < |s'.frames|
      ensures FrameBelow(s', k, l)
    {
      assert l < |s.frames| ==> FrameBelow(s, k, l);
    }
  }

  lemma VisitReach(g: Order, s: State, n: Key)
    requires FramesOk(s) && FramesReach(g, s)
    requires s.frames != [] ==> Edge(g, s.Top().node, n)
    ensures FramesReach(g, Visit(s, n))
  {
    var s' := Visit(s, n);
    forall k, i | 0 <= k < |s'.frames| && s'.frames[k].stackIdx <= i < |s'.stack|
      ensures Reach(g, s'.frames[k].node, s'.stack[i])
    {
      if k == |s.frames| {
        ReachSelf(g, n);
      } else if i == |s.stack| {
        ReachEdge(g, s.Top().node, n);
        assert s.stack[s.Top().stackIdx] == s.Top().node;
        assert k < |s.frames| - 1 ==> FrameBelow(s, k, |s.frames| - 1);
        assert Reach(g, s.frames[k].node, s.stack[s.Top().stackIdx]);
        ReachTransitive(g, s.frames[k].node, s.Top().node, n);
      } else {
        assert s'.stack[i] == s.stack[i] && Reach(g, s.frames[k].node, s.stack[i]);
      }
    }
  }

  lemma VisitSegments(s: State, n: Key)
    requires NumbersOk(s) && FramesOk(s) && SegmentsLow(s) && n !in s.low
    ensures SegmentsLow(Visit(s, n))
  {
    var s' := Visit(s, n);
    forall k, i | 0 <= k < |s'.frames| && s'.frames[k].stackIdx <= i < s'.SegmentEnd(k) && i < |s'.stack|
      ensures s'.Low(s'.frames[k].node) <= s'.Low(s'.stack[i])
    {
      if k < |s.frames| {
        assert i < s.SegmentEnd(k) && s.stack[i] == s'.stack[i];
        assert s.stack[s.frames[k].stackIdx] == s.frames[k].node;
      }
    }
  }

  lemma VisitFinished(g: Order, s: State, n: Key)
    requires NumbersOk(s) && FinishedOk(g, s) && n !in s.low
    ensures FinishedOk(g, Visit(s, n))
  {
    var s' := Visit(s, n);
    forall i | 0 <= i < |s'.stack| && !s'.BeingWorkedOn(i)
      ensures Finished(g, s', i)
    {
      assert s'.frames[|s.frames|].stackIdx == |s.stack|;
      forall k | 0 <= k < |s.frames|
        ensures s.frames[k].stackIdx != i
      {
        assert s'.frames[k].stackIdx != i;
      }
      assert Finished(g, s, i) && s'.stack[i] == s.stack[i];
    }
  }

  lemma VisitResult(g: Order, s: State, result: seq<seq<Key>>, n: Key)
    requires SeenOk(g, s) && ResultOk(g, s, result) && n !in s.low
    ensures ResultOk(g, Visit(s, n), result)
  {
    CardinalityOfKeys(s.low, g);
    forall m
      ensures IsEmitted(g, Visit(s, n), m) <==> IsEmitted(g, s, m)
    {
    }
  }

  // ---------------------------------------------------------------------------------------------
  // A successor with a smaller number
  // ---------------------------------------------------------------------------------------------

  function Lower(s: State, n: Key, v: nat): State {
    s.(low := s.low[n := v])
  }

  /** A node being worked on may take over the smaller `low` of a stack node that it reaches. */
  lemma LowerInv(g: Order, s: State, result: seq<seq<Key>>, f: nat, m: Key, v: nat)
    requires Inv(g, s, result) && f < |s.frames|
    requires m in s.stack && Reach(g, s.frames[f].node, m)
    requires v == s.Low(m) < s.Low(s.frames[f].node)
    ensures Inv(g, Lower(s, s.frames[f].node, v), result)
  {
    var n := s.frames[f].node;
    var i := s.frames[f].stackIdx;
    assert s.stack[i] == n;
    LowerSeen(g, s, n, v, i);
    LowerNumbers(s, n, v, i);
    LowerLow(g, s, n, v, i, m);
    FramesKept(g, s, Lower(s, n, v));
    LowerSegments(s, f, v);
    LowerFinished(g, s, f, v);
    LowerResult(g, s, result, n, v, i);
  }

  lemma LowerSeen(g: Order, s: State, n: Key, v: nat, i: nat)
    requires SeenOk(g, s) && NumbersOk(s) && i < |s.stack| && s.stack[i] == n
    ensures SeenOk(g, Lower(s, n, v))
  {
  }

  lemma LowerNumbers(s: State, n: Key, v: nat, i: nat)
    requires NumbersOk(s) && i < |s.stack| && s.stack[i] == n && v <= s.Low(n)
    ensures NumbersOk(Lower(s, n, v))
  {
    var s' := Lower(s, n, v);
    assert s'.low.Keys == s.low.Keys;
    forall i, j | 0 <= i < j < |s'.stack|
      ensures NumberedBefore(s', i, j)
    {
      assert NumberedBefore(s, i, j);
    }
  }

  lemma LowerLow(g: Order, s: State, n: Key, v: nat, i: nat, m: Key)
    requires NumbersOk(s) && LowReached(g, s) && i < |s.stack| && s.stack[i] == n
    requires m in s.stack && Reach(g, n, m) && v == s.Low(m) < s.Low(n)
    ensures LowReached(g, Lower(s, n, v))
  {
    var s' := Lower(s, n, v);
    forall p | 0 <= p < |s'.stack|
      ensures LowWitness(g, s', p)
    {
      if p == i {
        var q :| 0 <= q < |s.stack| && s.stack[q] == m;
        assert LowWitness(g, s, q);
        var j := WitnessAt(g, s, q);
        ReachTransitive(g, n, m, s.stack[j]);
        StackPosition(s, j, i);
        assert s'.Low(s'.stack[p]) == s'.Num(s'.stack[j]) && Reach(g, s'.stack[p], s'.stack[j]);
      } else {
        assert LowWitness(g, s, p);
        var j := WitnessAt(g, s, p);
        assert s.stack[p] != n by { StackPosition(s, p, i); StackPosition(s, i, p); }
        assert s'.Low(s'.stack[p]) == s'.Num(s'.stack[j]);
      }
    }
  }

  lemma LowerSegments(s: State, f: nat, v: nat)
    requires NumbersOk(s) && FramesOk(s) && SegmentsLow(s) && f < |s.frames| && v <= s.Low(s.frames[f].node)
    ensures SegmentsLow(Lower(s, s.frames[f].node, v))
  {
    var n := s.frames[f].node;
    var s' := Lower(s, n, v);
    assert s.stack[s.frames[f].stackIdx] == n;
    forall k, i | 0 <= k < |s'.frames| && s'.frames[k].stackIdx <= i < s'.SegmentEnd(k) && i < |s'.stack|
      ensures s'.Low(s'.frames[k].node) <= s'.Low(s'.stack[i])
    {
      assert i < s.SegmentEnd(k);
      assert s.stack[s.frames[k].stackIdx] == s.frames[k].node;
      if k != f {
        SegmentsApart(s, k, f, i);
        DistinctOnStack(s, i, s.frames[f].stackIdx);
        DistinctOnStack(s, s.frames[k].stackIdx, s.frames[f].stackIdx);
      }
    }
  }

  lemma SegmentsApart(s: State, k: nat, f: nat, i: nat)
    requires FramesOk(s) && k < |s.frames| && f < |s.frames| && k != f
    requires s.frames[k].stackIdx <= i < s.SegmentEnd(k)
    ensures i != s.frames[f].stackIdx && s.frames[k].stackIdx != s.frames[f].stackIdx
  {
    if k < f {
      assert FrameBelow(s, k, k + 1) && FrameBelow(s, k, f);
      assert k + 1 < f ==> FrameBelow(s, k + 1, f);
    } else {
      assert FrameBelow(s, f, k);
    }
  }

  lemma DistinctOnStack(s: State, i: nat, j: nat)
    requires NumbersOk(s) && i < |s.stack| && j < |s.stack| && i != j
    ensures s.stack[i] != s.stack[j]
  {
    StackPosition(s, i, j);
    StackPosition(s, j, i);
  }

  lemma LowerFinished(g: Order, s: State, f: nat, v: nat)
    requires NumbersOk(s) && FramesOk(s) && FinishedOk(g, s) && SeenOk(g, s)
    requires f < |s.frames| && v <= s.Low(s.frames[f].node)
    ensures FinishedOk(g, Lower(s, s.frames[f].node, v))
  {
    var n := s.frames[f].node;
    var s' := Lower(s, n, v);
    forall i | 0 <= i < |s'.stack| && !s'.BeingWorkedOn(i)
      ensures Finished(g, s', i)
    {
      assert !s.BeingWorkedOn(i) && Finished(g, s, i);
      assert s.frames[f].stackIdx != i;
      DistinctOnStack(s, i, s.frames[f].stackIdx);
      StackNotEmitted(g, s, s.frames[f].stackIdx);
      forall m | Edge(g, s.stack[i], m)
        ensures m in s'.low && (IsEmitted(g, s', m) || s'.Low(s.stack[i]) <= s'.Num(m))
      {
        assert m in s.low && (IsEmitted(g, s, m) || s.Low(s.stack[i]) <= s.Num(m));
      }
    }
  }

  lemma LowerResult(g: Order, s: State, result: seq<seq<Key>>, n: Key, v: nat, i: nat)
    requires SeenOk(g, s) && NumbersOk(s) && ResultOk(g, s, result) && i < |s.stack| && s.stack[i] == n && v <= s.Low(n)
    ensures ResultOk(g, Lower(s, n, v), result)
  {
    StackNotEmitted(g, s, i);
    forall m
      ensures IsEmitted(g, Lower(s, n, v), m) <==> IsEmitted(g, s, m)
    {
      CardinalityOfKeys(s.low, g);
    }
  }

  // ---------------------------------------------------------------------------------------------
  // A finished node that is in a component with a node below it
  // ---------------------------------------------------------------------------------------------

  function PopFrame(s: State): State
    requires s.frames != []
  {
    s.(frames := s.frames[..|s.frames| - 1])
  }

  lemma PopInv(g: Order, s: State, result: seq<seq<Key>>)
    requires Inv(g, s, result) && |s.frames| > 1
    requires Scanned(g, s, s.Top().node)
    requires s.Low(s.frames[|s.frames| - 2].node) <= s.Low(s.Top().node) < s.Num(s.Top().node)
    ensures Inv(g, PopFrame(s), result)
  {
    var s' := PopFrame(s);
    assert SameOnStack(s, s');
    NumbersKept(s, s');
    LowKept(g, s, s');
    PopFrames(g, s);
    PopSegments(s);
    PopFinished(g, s);
    PopResult(g, s, result);
  }

  lemma PopFrames(g: Order, s: State)
    requires FramesOk(s) && FramesReach(g, s) && |s.frames| > 1
    ensures FramesOk(PopFrame(s)) && FramesReach(g, PopFrame(s))
  {
    var s' := PopFrame(s);
    forall k, l | 0 <= k < l < |s'.frames|
      ensures FrameBelow(s', k, l)
    {
      assert FrameBelow(s, k, l);
    }
    forall k, i | 0 <= k < |s'.frames| && s'.frames[k].stackIdx <= i < |s'.stack|
      ensures Reach(g, s'.frames[k].node, s'.stack[i])
    {
      assert Reach(g, s.frames[k].node, s.stack[i]);
    }
  }

  lemma PopSegments(s: State)
    requires FramesOk(s) && SegmentsLow(s) && |s.frames| > 1
    requires s.Low(s.frames[|s.frames| - 2].node) <= s.Low(s.Top().node)
    ensures SegmentsLow(PopFrame(s))
  {
    var s' := PopFrame(s);
    forall k, i | 0 <= k < |s'.frames| && s'.frames[k].stackIdx <= i < s'.SegmentEnd(k) && i < |s'.stack|
      ensures s'.Low(s'.frames[k].node) <= s'.Low(s'.stack[i])
    {
      if k == |s.frames| - 2 && s.Top().stackIdx <= i {
        assert i < s.SegmentEnd(k + 1);
      } else {
        assert i < s.SegmentEnd(k);
      }
    }
  }

  lemma PopFinished(g: Order, s: State)
    requires FramesOk(s) && FinishedOk(g, s) && s.frames != []
    requires Scanned(g, s, s.Top().node) && s.Low(s.Top().node) < s.Num(s.Top().node)
    ensures FinishedOk(g, PopFrame(s))
  {
    var s' := PopFrame(s);
    forall i | 0 <= i < |s'.stack| && !s'.BeingWorkedOn(i)
      ensures Finished(g, s', i)
    {
      if i == s.Top().stackIdx {
        assert s.stack[i] == s.Top().node;
      } else {
        forall k | 0 <= k < |s.frames|
          ensures s.frames[k].stackIdx != i
        {
          assert k < |s'.frames| ==> s'.frames[k].stackIdx != i;
        }
        assert !s.BeingWorkedOn(i) && Finished(g, s, i);
      }
    }
  }

  lemma PopResult(g: Order, s: State, result: seq<seq<Key>>)
    requires ResultOk(g, s, result) && s.frames != []
    ensures ResultOk(g, PopFrame(s), result)
  {
    forall n
      ensures IsEmitted(g, PopFrame(s), n) <==> IsEmitted(g, s, n)
    {
    }
  }

  // ---------------------------------------------------------------------------------------------
  // A finished node that is the lowest of its component
  // ---------------------------------------------------------------------------------------------

  /** The component: everything from the node being worked on upwards. */
  function ComponentOf(s: State): seq<Key>
    requires s.frames != [] && s.Top().stackIdx <= |s.stack|
  {
    s.stack[s.Top().stackIdx..]
  }

  function Renumber(low: map<Key, nat>, component: seq<Key>, v: nat): map<Key, nat> {
    map n | n in low :: if n in component then v else low[n]
  }

  function Emit(g: Order, s: State): State
    requires s.frames != [] && s.Top().stackIdx <= |s.stack|
  {
    State(Renumber(s.low, ComponentOf(s), Emitted(g)), s.stack[..s.Top().stackIdx],
          s.frames[..|s.frames| - 1], s.num)
  }

  lemma EmitInv(g: Order, s: State, result: seq<seq<Key>>)
    requires InverseEdges(g) && Inv(g, s, result) && s.frames != []
    requires Scanned(g, s, s.Top().node) && s.Low(s.Top().node) == s.Num(s.Top().node)
    ensures s.Top().stackIdx <= |s.stack| && Inv(g, Emit(g, s), result + [ComponentOf(s)])
  {
    EmitSame(g, s);
    EmitSeen(g, s);
    EmitNumbers(g, s);
    EmitLow(g, s);
    EmitFrames(g, s);
    EmitSegments(g, s);
    EmitFinished(g, s);
    ComponentIsClass(g, s, result);
    EmitResult(g, s, result);
  }

  lemma EmitSame(g: Order, s: State)
    requires NumbersOk(s) && FramesOk(s) && s.frames != []
    ensures s.Top().stackIdx <= |s.stack|
    ensures forall i :: 0 <= i < s.Top().stackIdx ==>
      Emit(g, s).stack[i] == s.stack[i] && s.stack[i] !in ComponentOf(s) && Emit(g, s).Low(s.stack[i]) == s.Low(s.stack[i])
    ensures Emit(g, s).low.Keys == s.low.Keys
  {
    var t := s.Top().stackIdx;
    forall i | 0 <= i < t
      ensures s.stack[i] !in ComponentOf(s)
    {
      forall j | 0 <= j < |ComponentOf(s)|
        ensures ComponentOf(s)[j] != s.stack[i]
      {
        DistinctOnStack(s, i, t + j);
      }
    }
  }

  lemma EmitSeen(g: Order, s: State)
    requires SeenOk(g, s) && s.frames != [] && s.Top().stackIdx <= |s.stack|
    ensures SeenOk(g, Emit(g, s))
  {
    var s' := Emit(g, s);
    forall n | n in s'.low && s'.low[n] != Emitted(g)
      ensures n in s'.stack
    {
      var i :| 0 <= i < |s.stack| && s.stack[i] == n;
      assert i < s.Top().stackIdx by { EmitKeeps(g, s, i); }
      assert s'.stack[i] == n;
    }
  }

  lemma EmitKeeps(g: Order, s: State, i: nat)
    requires s.frames != [] && s.Top().stackIdx <= |s.stack| && i < |s.stack| && s.stack[i] in s.low
    requires Emit(g, s).low[s.stack[i]] != Emitted(g)
    ensures i < s.Top().stackIdx
  {
    forall j | s.Top().stackIdx <= j < |s.stack|
      ensures s.stack[j] in ComponentOf(s)
    {
      assert ComponentOf(s)[j - s.Top().stackIdx] == s.stack[j];
    }
  }

  lemma EmitNumbers(g: Order, s: State)
    requires NumbersOk(s) && FramesOk(s) && s.frames != []
    ensures NumbersOk(Emit(g, s))
  {
    EmitSame(g, s);
    var s' := Emit(g, s);
    assert |s'.low.Keys| == |s.low.Keys|;
    forall i, j | 0 <= i < j < |s'.stack|
      ensures NumberedBefore(s', i, j)
    {
      assert NumberedBefore(s, i, j);
    }
  }

  lemma EmitLow(g: Order, s: State)
    requires NumbersOk(s) && FramesOk(s) && LowReached(g, s) && s.frames != []
    ensures LowReached(g, Emit(g, s))
  {
    EmitSame(g, s);
    var s' := Emit(g, s);
    forall i | 0 <= i < |s'.stack|
      ensures LowWitness(g, s', i)
    {
      assert LowWitness(g, s, i);
      var j := WitnessAt(g, s, i);
      assert s'.stack[j] == s.stack[j];
      assert s'.Low(s'.stack[i]) == s'.Num(s'.stack[j]);
    }
  }

  lemma EmitFrames(g: Order, s: State)
    requires FramesOk(s) && FramesReach(g, s) && s.frames != []
    ensures FramesOk(Emit(g, s)) && FramesReach(g, Emit(g, s))
  {
    CutFrames(g, s, Emit(g, s).low);
  }

  /** Dropping the top frame with its part of the stack; `low` does not matter. */
  lemma CutFrames(g: Order, s: State, low: map<Key, nat>)
    requires FramesOk(s) && FramesReach(g, s) && s.frames != []
    ensures
      var s' := State(low, s.stack[..s.Top().stackIdx], s.frames[..|s.frames| - 1], s.num);
      FramesOk(s') && FramesReach(g, s')
  {
    var last := |s.frames| - 1;
    var s' := State(low, s.stack[..s.Top().stackIdx], s.frames[..last], s.num);
    assert last > 0 ==> FrameBelow(s, 0, last);
    forall k | 0 <= k < |s'.frames|
      ensures s'.frames[k].stackIdx < |s'.stack|
    {
      assert FrameBelow(s, k, last);
    }
    forall k, l | 0 <= k < l < |s'.frames|
      ensures FrameBelow(s', k, l)
    {
      assert FrameBelow(s, k, l);
    }
    forall k, i | 0 <= k < |s'.frames| && s'.frames[k].stackIdx <= i < |s'.stack|
      ensures Reach(g, s'.frames[k].node, s'.stack[i])
    {
      assert Reach(g, s.frames[k].node, s.stack[i]) && s'.stack[i] == s.stack[i];
    }
  }

  lemma EmitSegments(g: Order, s: State)
    requires NumbersOk(s) && FramesOk(s) && SegmentsLow(s) && s.frames != []
    ensures SegmentsLow(Emit(g, s))
  {
    var s' := Emit(g, s);
    forall k, i | 0 <= k < |s'.frames| && s'.frames[k].stackIdx <= i < s'.SegmentEnd(k) && i < |s'.stack|
      ensures s'.Low(s'.frames[k].node) <= s'.Low(s'.stack[i])
    {
      EmitSegmentAt(g, s, k, i);
    }
  }

  lemma EmitSegmentAt(g: Order, s: State, k: nat, i: nat)
    requires NumbersOk(s) && FramesOk(s) && SegmentsLow(s) && s.frames != []
    requires k < |s.frames| - 1 && i < |Emit(g, s).stack|
    requires s.frames[k].stackIdx <= i < Emit(g, s).SegmentEnd(k)
    ensures Emit(g, s).Low(s.frames[k].node) <= Emit(g, s).Low(s.stack[i])
  {
    EmitSame(g, s);
    assert i < s.SegmentEnd(k);
    assert s.stack[s.frames[k].stackIdx] == s.frames[k].node;
  }

  lemma EmitFinished(g: Order, s: State)
    requires NumbersOk(s) && FramesOk(s) && FinishedOk(g, s) && s.frames != []
    ensures FinishedOk(g, Emit(g, s))
  {
    EmitSame(g, s);
    var s' := Emit(g, s);
    forall i | 0 <= i < |s'.stack| && !s'.BeingWorkedOn(i)
      ensures Finished(g, s', i)
    {
      forall k | 0 <= k < |s.frames|
        ensures s.frames[k].stackIdx != i
      {
        assert k < |s'.frames| ==> s'.frames[k].stackIdx != i;
      }
      assert !s.BeingWorkedOn(i) && Finished(g, s, i);
      forall m | Edge(g, s.stack[i], m)
        ensures m in s'.low && (IsEmitted(g, s', m) || s'.Low(s.stack[i]) <= s'.Num(m))
      {
        assert m in s.low && (IsEmitted(g, s, m) || s.Low(s.stack[i]) <= s.Num(m));
      }
    }
  }

  lemma EmitResult(g: Order, s: State, result: seq<seq<Key>>)
    requires SeenOk(g, s) && NumbersOk(s) && FramesOk(s) && ResultOk(g, s, result) && s.frames != []
    requires IsComponent(g, ComponentOf(s))
    ensures ResultOk(g, Emit(g, s), result + [ComponentOf(s)])
  {
    var component := ComponentOf(s);
    forall n | n in component
      ensures !IsEmitted(g, s, n) && n in s.low
    {
      var j :| 0 <= j < |component| && component[j] == n;
      StackNotEmitted(g, s, s.Top().stackIdx + j);
    }
    ResultGrows(g, s, result, Emit(g, s), component);
  }

  // The component is a class of mutually reachable nodes.

  /** Everything above the node being worked on reaches it. */
  lemma {:induction false} ReachesTop(g: Order, s: State, i: nat)
    requires NumbersOk(s) && LowReached(g, s) && FramesOk(s) && SegmentsLow(s) && FinishedOk(g, s) && s.frames != []
    requires s.Low(s.Top().node) == s.Num(s.Top().node)
    requires s.Top().stackIdx <= i < |s.stack|
    ensures Reach(g, s.stack[i], s.Top().node)
    decreases i
  {
    var t := s.Top().stackIdx;
    assert s.stack[t] == s.Top().node;
    if i == t {
      ReachSelf(g, s.stack[i]);
    } else {
      assert Finished(g, s, i) by {
        forall k | 0 <= k < |s.frames|
          ensures s.frames[k].stackIdx != i
        {
          assert k < |s.frames| - 1 ==> FrameBelow(s, k, |s.frames| - 1);
        }
        assert !s.BeingWorkedOn(i);
      }
      assert LowWitness(g, s, i);
      var j := WitnessAt(g, s, i);
      assert i < s.SegmentEnd(|s.frames| - 1);
      assert s.Num(s.stack[t]) <= s.Num(s.stack[j]) < s.Num(s.stack[i]);
      StackPosition(s, t, j);
      StackPosition(s, i, j);
      ReachesTop(g, s, j);
      ReachTransitive(g, s.stack[i], s.stack[j], s.Top().node);
    }
  }

  /** An edge out of the component to a node that reaches back stays in the component. */
  lemma EdgeStays(g: Order, s: State, result: seq<seq<Key>>, i: nat, m: Key) returns (j: nat)
    requires Inv(g, s, result) && s.frames != []
    requires Scanned(g, s, s.Top().node) && s.Low(s.Top().node) == s.Num(s.Top().node)
    requires s.Top().stackIdx <= i < |s.stack| && Edge(g, s.stack[i], m)
    requires SameComponent(g, m, s.Top().node) && s.Top().node in g
    ensures s.Top().stackIdx <= j < |s.stack| && s.stack[j] == m
  {
    var t := s.Top().stackIdx;
    assert s.stack[t] == s.Top().node;
    assert Scanned(g, s, s.stack[i]) by {
      if i != t {
        forall k | 0 <= k < |s.frames|
          ensures s.frames[k].stackIdx != i
        {
          assert k < |s.frames| - 1 ==> FrameBelow(s, k, |s.frames| - 1);
        }
        assert Finished(g, s, i);
      }
    }
    assert i < s.SegmentEnd(|s.frames| - 1);
    NotEmitted(g, s, result, t, m);
    assert m in s.stack;
    j :| 0 <= j < |s.stack| && s.stack[j] == m;
    assert s.Low(s.stack[i]) <= s.Num(m);
    StackPosition(s, t, j);
  }

  /** A component is emitted as a whole. */
  lemma NotEmitted(g: Order, s: State, result: seq<seq<Key>>, t: nat, m: Key)
    requires SeenOk(g, s) && NumbersOk(s) && ResultOk(g, s, result) && t < |s.stack|
    requires SameComponent(g, m, s.stack[t])
    ensures !IsEmitted(g, s, m)
  {
    StackNotEmitted(g, s, t);
    if IsEmitted(g, s, m) {
      assert InSome(result, m);
      var c :| 0 <= c < |result| && m in result[c];
      assert IsComponent(g, result[c]) && IsClassOf(g, result[c], m);
      assert s.stack[t] in g;
      assert InSome(result, s.stack[t]);
    }
  }

  /** A node of the same component is found along any walk to it. */
  lemma {:induction false} WalkStays(g: Order, s: State, result: seq<seq<Key>>, i: nat, m: Key, w: seq<Key>) returns (j: nat)
    requires Inv(g, s, result) && s.frames != [] && s.Top().node in g
    requires Scanned(g, s, s.Top().node) && s.Low(s.Top().node) == s.Num(s.Top().node)
    requires s.Top().stackIdx <= i < |s.stack| && WalkFrom(g, s.stack[i], m, w)
    requires Reach(g, m, s.Top().node)
    ensures s.Top().stackIdx <= j < |s.stack| && s.stack[j] == m
    decreases |w|
  {
    if |w| == 1 {
      j := i;
    } else {
      var tail := w[1..];
      assert Step(g, w, 0);
      forall k | 0 <= k < |tail| - 1
        ensures Step(g, tail, k)
      {
        assert Step(g, w, k + 1);
      }
      assert WalkFrom(g, w[1], m, tail);
      assert Reach(g, w[1], m);
      ReachTransitive(g, w[1], m, s.Top().node);
      ReachEdge(g, s.stack[i], w[1]);
      ReachTransitive(g, s.Top().node, s.stack[i], w[1]);
      var next := EdgeStays(g, s, result, i, w[1]);
      j := WalkStays(g, s, result, next, m, tail);
    }
  }

  lemma ComponentIsClass(g: Order, s: State, result: seq<seq<Key>>)
    requires InverseEdges(g) && Inv(g, s, result) && s.frames != []
    requires Scanned(g, s, s.Top().node) && s.Low(s.Top().node) == s.Num(s.Top().node)
    ensures s.Top().stackIdx <= |s.stack| && IsComponent(g, ComponentOf(s))
  {
    var t, n, component := s.Top().stackIdx, s.Top().node, ComponentOf(s);
    assert s.stack[t] == n && n in g;
    forall i, j | 0 <= i < j < |component|
      ensures component[i] != component[j]
    {
      DistinctOnStack(s, t + i, t + j);
    }
    forall a | a in component
      ensures IsClassOf(g, component, a)
    {
      ClassMembers(g, s, a);
      forall m
        ensures m in component <==> m in g && SameComponent(g, a, m)
      {
        if m in component {
          ClassMembers(g, s, m);
          SameComponentTransitive(g, a, n, m);
        }
        if SameComponent(g, a, m) {
          SameComponentTransitive(g, n, a, m);
          ClassComplete(g, s, result, m);
        }
      }
    }
  }

  lemma ClassMembers(g: Order, s: State, m: Key)
    requires SeenOk(g, s) && NumbersOk(s) && LowReached(g, s) && FramesOk(s) && FramesReach(g, s) && SegmentsLow(s)
    requires FinishedOk(g, s)
    requires s.frames != [] && s.Low(s.Top().node) == s.Num(s.Top().node)
    requires s.Top().stackIdx <= |s.stack| && m in ComponentOf(s)
    ensures m in g && SameComponent(g, m, s.Top().node) && SameComponent(g, s.Top().node, m)
  {
    var j :| 0 <= j < |ComponentOf(s)| && ComponentOf(s)[j] == m;
    assert s.stack[s.Top().stackIdx + j] == m && m in s.low;
    TopSame(g, s, s.Top().stackIdx + j);
  }

  lemma ClassComplete(g: Order, s: State, result: seq<seq<Key>>, m: Key)
    requires Inv(g, s, result) && s.frames != [] && s.Top().node in g
    requires Scanned(g, s, s.Top().node) && s.Low(s.Top().node) == s.Num(s.Top().node)
    requires s.Top().stackIdx < |s.stack| && s.stack[s.Top().stackIdx] == s.Top().node
    requires SameComponent(g, s.Top().node, m)
    ensures m in ComponentOf(s)
  {
    var w :| WalkFrom(g, s.Top().node, m, w);
    var j := WalkStays(g, s, result, s.Top().stackIdx, m, w);
    assert ComponentOf(s)[j - s.Top().stackIdx] == m;
  }

  lemma TopSame(g: Order, s: State, i: nat)
    requires NumbersOk(s) && LowReached(g, s) && FramesOk(s) && FramesReach(g, s) && SegmentsLow(s) && FinishedOk(g, s)
    requires s.frames != [] && s.Low(s.Top().node) == s.Num(s.Top().node)
    requires s.Top().stackIdx <= i < |s.stack|
    ensures SameComponent(g, s.stack[i], s.Top().node) && SameComponent(g, s.Top().node, s.stack[i])
  {
    ReachesTop(g, s, i);
    assert Reach(g, s.frames[|s.frames| - 1].node, s.stack[i]);
  }

  // ---------------------------------------------------------------------------------------------
  // The algorithm
  // ---------------------------------------------------------------------------------------------

  /** A node without edges in one direction cannot be part of a larger component. */
  predicate CannotBeScc(g: Order, n: Key)
    requires n in g
  {
    g[n].before == {} || g[n].after == {}
  }

  /** The proof state `s` agrees with the variables of the algorithm. */
  predicate Agrees(s: State, low: map<Key, nat>, stack: seq<Key>, work: seq<Frame>) {
    s.low == low && s.stack == stack && s.frames == work
  }

  /** Look for a successor that has not been seen; if there is one, start the work on it.  On the
      way, take over smaller numbers from the successors that have been seen. */
  method HandleSucc(g: Order, low0: map<Key, nat>, stack0: seq<Key>, work0: seq<Frame>, result0: seq<seq<Key>>,
                    ghost s0: State)
    returns (pushed: bool, low: map<Key, nat>, stack: seq<Key>, work: seq<Frame>, result: seq<seq<Key>>,
             ghost s: State)
    requires InverseEdges(g) && work0 != [] && work0[|work0| - 1].node in g
    requires Agrees(s0, low0, stack0, work0) && Inv(g, s0, result0)
    ensures Agrees(s, low, stack, work) && Inv(g, s, result)
    ensures low0.Keys <= low.Keys
    ensures pushed ==> low.Keys != low0.Keys
    ensures !pushed ==> work == work0 && Scanned(g, s, work0[|work0| - 1].node)
  {
    low, stack, work, result, s := low0, stack0, work0, result0, s0;
    var parent := work[|work| - 1].node;
    var remaining := g[parent].before;
    while remaining != {}
      invariant Agrees(s, low, stack, work) && Inv(g, s, result)
      invariant work == work0 && low0.Keys <= low.Keys && remaining <= g[parent].before
      invariant ScannedBut(g, s, parent, remaining)
    {
      var succ :| succ in remaining;
      remaining := remaining - {succ};
      ParentOnStack(s);
      if succ in low {
        SeenSucc(g, s, result, remaining, succ);
        s := AfterSucc(s, succ);
        if low[succ] < low[parent] {
          low := low[parent := low[succ]];
        }
      } else if CannotBeScc(g, succ) {
        IsolateInv(g, s, result, succ);
        ScannedIsolated(g, s, parent, remaining, succ);
        s := Isolate(g, s, succ);
        result := result + [[succ]];
        low := low[succ := |g| + 1];
      } else {
        VisitInv(g, s, result, succ);
        s := Visit(s, succ);
        var succNum := |low|;
        low := low[succ := succNum];
        work := work + [Frame(succ, |stack|, succNum)];
        stack := stack + [succ];
        pushed := true;
        return;
      }
    }
    pushed := false;
  }

  /** The successors of `n` other than `remaining` have been scanned. */
  ghost predicate ScannedBut(g: Order, s: State, n: Key, remaining: set<Key>) {
    forall m :: Edge(g, n, m) && m !in remaining ==> m in s.low && (IsEmitted(g, s, m) || s.Low(n) <= s.Num(m))
  }

  function AfterSucc(s: State, succ: Key): State
    requires s.frames != []
  {
    if s.Low(succ) < s.Low(s.Top().node) then Lower(s, s.Top().node, s.Low(succ)) else s
  }

  lemma SeenSucc(g: Order, s: State, result: seq<seq<Key>>, remaining: set<Key>, succ: Key)
    requires Inv(g, s, result) && s.frames != [] && succ in s.low && Edge(g, s.Top().node, succ)
    requires ScannedBut(g, s, s.Top().node, remaining + {succ})
    ensures Inv(g, AfterSucc(s, succ), result)
    ensures ScannedBut(g, AfterSucc(s, succ), s.Top().node, remaining)
  {
    var n, f := s.Top().node, |s.frames| - 1;
    ParentOnStack(s);
    SuccBound(g, s, succ);
    StackNotEmitted(g, s, s.Top().stackIdx);
    if s.Low(succ) < s.Low(n) {
      SuccOnStack(g, s, succ, s.Top().stackIdx);
      ReachEdge(g, n, succ);
      LowerInv(g, s, result, f, succ, s.Low(succ));
    }
    ScannedSucc(g, s, n, remaining, succ, AfterSucc(s, succ));
  }

  lemma ScannedSucc(g: Order, s: State, n: Key, remaining: set<Key>, succ: Key, s': State)
    requires ScannedBut(g, s, n, remaining + {succ}) && succ in s.low
    requires IsEmitted(g, s, succ) || s.Low(succ) <= s.Num(succ)
    requires n in s.low && s.low[n] != Emitted(g)
    requires s' == if s.Low(succ) < s.Low(n) then Lower(s, n, s.Low(succ)) else s
    ensures ScannedBut(g, s', n, remaining)
  {
  }

  lemma ScannedIsolated(g: Order, s: State, n: Key, remaining: set<Key>, succ: Key)
    requires ScannedBut(g, s, n, remaining + {succ}) && succ !in s.low && n in s.low
    ensures ScannedBut(g, Isolate(g, s, succ), n, remaining)
  {
  }

  lemma ParentOnStack(s: State)
    requires NumbersOk(s) && FramesOk(s) && s.frames != []
    ensures s.Top().stackIdx < |s.stack| && s.stack[s.Top().stackIdx] == s.Top().node && s.Top().node in s.low
  {
  }

  /** What scanning a seen successor tells. */
  lemma SuccBound(g: Order, s: State, succ: Key)
    requires SeenOk(g, s) && NumbersOk(s) && succ in s.low
    ensures IsEmitted(g, s, succ) || (succ in s.stack && s.Low(succ) <= s.Num(succ))
  {
    if !IsEmitted(g, s, succ) {
      var i :| 0 <= i < |s.stack| && s.stack[i] == succ;
    }
  }

  lemma SuccOnStack(g: Order, s: State, succ: Key, i: nat)
    requires SeenOk(g, s) && NumbersOk(s) && succ in s.low && i < |s.stack| && s.Low(succ) < s.Low(s.stack[i])
    ensures succ in s.stack
  {
    StackNotEmitted(g, s, i);
  }

  /** The strongly connected components of any graph whose edges are inverse to each other: every
      node in exactly one of them. */
  method ComputeScc(g: Order) returns (result: seq<seq<Key>>)
    requires InverseEdges(g)
    ensures ComponentsOf(g, result)
  {
    result := [];
    var low: map<Key, nat> := map[];
    var stack: seq<Key>, work: seq<Frame> := [], [];
    ghost var s := State(map[], [], [], map[]);
    var todo := g.Keys;
    while todo != {}
      invariant todo <= g.Keys && work == []
      invariant Agrees(s, low, stack, work) && Inv(g, s, result)
      invariant g.Keys - todo <= low.Keys
    {
      var n :| n in todo;
      todo := todo - {n};
      if n !in low {
        low, stack, work, result, s := SearchFrom(g, n, low, stack, result, s);
      }
    }
    // The node stack is empty whenever the work stack is.
    assert stack == [];
    ResultComplete(g, s, result);
  }

  /** Emit a node that is a component of its own, or search depth-first from it. */
  method SearchFrom(g: Order, n: Key, low0: map<Key, nat>, stack0: seq<Key>, result0: seq<seq<Key>>, ghost s0: State)
    returns (low: map<Key, nat>, stack: seq<Key>, work: seq<Frame>, result: seq<seq<Key>>, ghost s: State)
    requires InverseEdges(g) && n in g && n !in low0
    requires Agrees(s0, low0, stack0, []) && Inv(g, s0, result0)
    ensures Agrees(s, low, stack, work) && Inv(g, s, result)
    ensures work == [] && low0.Keys + {n} <= low.Keys
  {
    low, stack, work, result, s := low0, stack0, [], result0, s0;
    if CannotBeScc(g, n) {
      IsolateInv(g, s, result, n);
      s := Isolate(g, s, n);
      result := result + [[n]];
      low := low[n := |g| + 1];
    } else {
      VisitInv(g, s, result, n);
      s := Visit(s, n);
      var rootNum := |low|;
      low := low[n := rootNum];
      work := [Frame(n, |stack|, rootNum)];
      stack := stack + [n];
      low, stack, work, result, s := Search(g, low, stack, work, result, s);
    }
  }

  /** Depth-first from the nodes on the work stack until it is empty. */
  method Search(g: Order, low0: map<Key, nat>, stack0: seq<Key>, work0: seq<Frame>, result0: seq<seq<Key>>, ghost s0: State)
    returns (low: map<Key, nat>, stack: seq<Key>, work: seq<Frame>, result: seq<seq<Key>>, ghost s: State)
    requires InverseEdges(g) && Agrees(s0, low0, stack0, work0) && Inv(g, s0, result0)
    ensures Agrees(s, low, stack, work) && Inv(g, s, result)
    ensures work == [] && low0.Keys <= low.Keys
  {
    low, stack, work, result, s := low0, stack0, work0, result0, s0;
    while work != []
      invariant Agrees(s, low, stack, work) && Inv(g, s, result)
      invariant low0.Keys <= low.Keys
      decreases g.Keys - low.Keys, |work|
    {
      ghost var keys1 := low.Keys;
      SeenInGraph(g, s);
      var node := work[|work| - 1].node;
      var pushed := false;
      if g[node].before != {} {
        pushed, low, stack, work, result, s := HandleSucc(g, low, stack, work, result, s);
        SeenInGraph(g, s);
        MoreSeen(g.Keys, keys1, low.Keys);
      }
      if !pushed {
        low, stack, work, result, s := FinishNode(g, low, stack, work, result, s);
      }
    }
  }

  lemma MoreSeen(keys: set<Key>, seen: set<Key>, seen': set<Key>)
    requires seen <= seen' <= keys
    ensures seen' == seen || keys - seen' < keys - seen
  {
    if seen' != seen {
      var n :| n in seen' && n !in seen;
      assert n in keys - seen && n !in keys - seen';
    }
  }

  lemma SeenInGraph(g: Order, s: State)
    requires SeenOk(g, s) && NumbersOk(s) && FramesOk(s)
    ensures s.low.Keys <= g.Keys
    ensures s.frames != [] ==> s.Top().node in g
  {
    if s.frames != [] {
      ParentOnStack(s);
    }
  }

  /** The node is out of successors: hand its number to its parent or emit its component. */
  method FinishNode(g: Order, low0: map<Key, nat>, stack0: seq<Key>, work0: seq<Frame>, result0: seq<seq<Key>>, ghost s0: State)
    returns (low: map<Key, nat>, stack: seq<Key>, work: seq<Frame>, result: seq<seq<Key>>, ghost s: State)
    requires InverseEdges(g) && work0 != []
    requires Agrees(s0, low0, stack0, work0) && Inv(g, s0, result0)
    requires Scanned(g, s0, work0[|work0| - 1].node)
    ensures Agrees(s, low, stack, work) && Inv(g, s, result)
    ensures low.Keys == low0.Keys && |work| < |work0|
  {
    low, stack, result, s := low0, stack0, result0, s0;
    ParentOnStack(s);
    LowBelowNum(s);
    var Frame(node, stackIdx, origNum) := work0[|work0| - 1];
    work := work0[..|work0| - 1];
    var nodeNum := low[node];
    if work != [] {
      var parent := work[|work| - 1].node;
      GrandparentOnStack(s);
      var parentNum := low[parent];
      if nodeNum <= parentNum {
        JoinParent(g, s, result);
        s := PopFrame(Lower(s, parent, nodeNum));
        low := low[parent := nodeNum];
        return;
      }
      if nodeNum != origNum {
        PopInv(g, s, result);
        s := PopFrame(s);
        return;
      }
    } else {
      RootIsLowest(g, s);
    }
    EmitInv(g, s, result);
    s := Emit(g, s);
    var component := stack[stackIdx..];
    stack := stack[..stackIdx];
    result := result + [component];
    low := Renumber(low, component, |g| + 1);
  }

  lemma LowBelowNum(s: State)
    requires NumbersOk(s) && FramesOk(s) && s.frames != []
    ensures s.Low(s.Top().node) <= s.Num(s.Top().node) == s.Top().origNum
  {
    ParentOnStack(s);
  }

  lemma GrandparentOnStack(s: State)
    requires NumbersOk(s) && FramesOk(s) && |s.frames| > 1
    ensures var f := s.frames[|s.frames| - 2];
      f.stackIdx < s.Top().stackIdx && s.stack[f.stackIdx] == f.node && f.node in s.low && f.node != s.Top().node
      && s.Low(f.node) < s.Num(s.Top().node)
  {
    var f := s.frames[|s.frames| - 2];
    assert FrameBelow(s, |s.frames| - 2, |s.frames| - 1);
    assert NumberedBefore(s, f.stackIdx, s.Top().stackIdx);
    assert s.stack[s.Top().stackIdx] == s.Top().node;
    DistinctOnStack(s, f.stackIdx, s.Top().stackIdx);
  }

  /** The root of the search reaches nothing below itself. */
  lemma RootIsLowest(g: Order, s: State)
    requires NumbersOk(s) && FramesOk(s) && LowReached(g, s) && |s.frames| == 1
    ensures s.Low(s.Top().node) == s.Num(s.Top().node)
  {
    assert s.stack[0] == s.Top().node;
    assert LowWitness(g, s, 0);
    var j := WitnessAt(g, s, 0);
  }

  lemma JoinParent(g: Order, s: State, result: seq<seq<Key>>)
    requires Inv(g, s, result) && |s.frames| > 1
    requires Scanned(g, s, s.Top().node)
    requires s.Low(s.Top().node) <= s.Low(s.frames[|s.frames| - 2].node)
    ensures Inv(g, PopFrame(Lower(s, s.frames[|s.frames| - 2].node, s.Low(s.Top().node))), result)
  {
    var f, n := |s.frames| - 2, s.Top().node;
    var parent, v := s.frames[f].node, s.Low(n);
    ParentOnStack(s);
    GrandparentOnStack(s);
    if v < s.Low(parent) {
      assert Reach(g, parent, s.stack[s.Top().stackIdx]);
      LowerInv(g, s, result, f, n, v);
      ScannedLower(g, s, f, v);
      PopInv(g, Lower(s, parent, v), result);
    } else {
      assert Lower(s, parent, v) == s by { assert s.low[parent := v] == s.low; }
      PopInv(g, s, result);
    }
  }

  lemma ScannedLower(g: Order, s: State, f: nat, v: nat)
    requires SeenOk(g, s) && NumbersOk(s) && FramesOk(s) && f + 1 < |s.frames| && v <= s.Low(s.frames[f].node)
    requires s.frames[f].node != s.Top().node && Scanned(g, s, s.Top().node)
    ensures Scanned(g, Lower(s, s.frames[f].node, v), s.Top().node)
  {
    StackNotEmitted(g, s, s.frames[f].stackIdx);
  }

  lemma ResultComplete(g: Order, s: State, result: seq<seq<Key>>)
    requires SeenOk(g, s) && ResultOk(g, s, result) && s.stack == [] && g.Keys <= s.low.Keys
    ensures ComponentsOf(g, result)
  {
    forall n
      ensures n in g <==> InSome(result, n)
    {
      assert IsEmitted(g, s, n) <==> InSome(result, n);
    }
  }
}
