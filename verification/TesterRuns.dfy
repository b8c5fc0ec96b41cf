/** Whole runs of the installability tester. */
module TesterRuns {
  import opened Universes
  import opened Search
  import opened SearchRuns
  import opened SeparatedSuites
  import opened Caches
  import opened InstallabilityTesters

  /** One call on the tester. */
  datatype Call =
    | Add(p: PackageId)
    | Remove(p: PackageId)
    | Query(p: PackageId)
    | ComputeAll

  /** The suite that a sequence of calls describes; calls with unknown packages raise and do nothing. */
  function Replay(u: Universe, suite: set<PackageId>, calls: seq<Call>): set<PackageId> {
    if calls == [] then suite
    else
      var before := Replay(u, suite, calls[..|calls| - 1]);
      match calls[|calls| - 1]
      case Add(p) => if u.Knows(p) then before + {p} else before
      case Remove(p) => if u.Knows(p) then before - {p} else before
      case Query(_) => before
      case ComputeAll => before
  }

  /** The searches that a call makes when the suite is `full`. */
  ghost predicate SearchesOf(u: Universe, closure: set<PackageId>, full: set<PackageId>, call: Call, runs: seq<Run>) {
    match call
    case Add(_) => runs == []
    case Remove(_) => runs == []
    case Query(p) => |runs| <= 1 && (runs != [] ==> exists suite :: suite <= full && RunFor(u, closure, full, p, suite, runs[0]))
    case ComputeAll => forall run :: run in runs ==> RunForSome(u, closure, full, run)
  }

  /** None of the searches has taken a shortcut past a conflict. */
  predicate AllTidyRuns(searches: seq<seq<Run>>) {
    forall i :: 0 <= i < |searches| ==> TidyRuns(searches[i])
  }

  /** What a reply to a query must be, judged from scratch on the replayed suite.  A "no" is always
      right.  Without essential packages a "yes" is right if no search so far took a shortcut past a
      conflict; a query whose own search did is answered with "yes" for a selection with a conflict. */
  ghost predicate ReplyRight(u: Universe, suite: set<PackageId>, p: PackageId, reply: Reply, clean0: bool, runs: seq<Run>) {
    && (reply.KeyError? <==> !u.Knows(p))
    && (reply.Reply? && Installable(u, suite, p) ==> reply.value)
    && (reply.Reply? && u.essential == {} && clean0 && TidyRuns(runs) ==> (reply.value <==> Installable(u, suite, p)))
    && (reply == Reply(true) && runs != [] ==> EssentialsHeld(u, suite, p, Found(runs[0])))
    && (u.essential == {} && !TidyRuns(runs) ==>
          reply == Reply(true) && runs != [] && WrongYes(u, p, Found(runs[0])))
  }

  /** What one call does, with the searches it makes. */
  ghost predicate CallRight(u: Universe, closure: set<PackageId>, full: set<PackageId>, call: Call, reply: Reply,
                            clean0: bool, runs: seq<Run>) {
    && SearchesOf(u, closure, full, call, runs)
    && (call.Query? ==> ReplyRight(u, full, call.p, reply, clean0, runs))
    && (u.essential == {} && Separated(u, full) ==> TidyRuns(runs))
  }

  /** Everything about the calls so far. */
  ghost predicate RunRight(u: Universe, closure: set<PackageId>, suite: set<PackageId>, calls: seq<Call>,
                           replies: seq<Reply>, clean0: bool, searches: seq<seq<Run>>) {
    && |replies| == |calls| == |searches|
    && forall i {:trigger replies[i]} :: 0 <= i < |calls| ==>
         CallRight(u, closure, Replay(u, suite, calls[..i]), calls[i], replies[i], clean0 && AllTidyRuns(searches[..i]), searches[i])
  }

  /** Any sequence of calls that removes nothing that follows from the essential packages: the caches
      never make an answer differ from the one computed from scratch. */
  method Run(tester: InstallabilityTester, calls: seq<Call>, ghost suite: set<PackageId>)
    returns (replies: seq<Reply>, ghost searches: seq<seq<Run>>)
    requires tester.Coherent(suite)
    requires forall i :: 0 <= i < |calls| && calls[i].Remove? ==> calls[i].p !in tester.essentialClosure
    modifies tester
    ensures tester.Coherent(Replay(tester.universe, suite, calls))
    ensures RunRight(tester.universe, tester.essentialClosure, suite, calls, replies, old(tester.clean), searches)
    ensures tester.clean == (old(tester.clean) && AllTidyRuns(searches))
  {
    replies, searches := [], [];
    for n := 0 to |calls|
      invariant tester.Coherent(Replay(tester.universe, suite, calls[..n]))
      invariant RunRight(tester.universe, tester.essentialClosure, suite, calls[..n], replies, old(tester.clean), searches)
      invariant tester.clean == (old(tester.clean) && AllTidyRuns(searches))
    {
      ghost var full := Replay(tester.universe, suite, calls[..n]);
      ghost var clean := tester.clean;
      assert calls[..n + 1][..n] == calls[..n] && calls[..n + 1] == calls[..n] + [calls[n]];
      var reply;
      ghost var runs;
      reply, runs := Perform(tester, calls[n], full);
      OneMoreCall(tester.universe, tester.essentialClosure, suite, calls[..n], calls[n], replies, reply, old(tester.clean), searches, runs);
      replies, searches := replies + [reply], searches + [runs];
    }
    assert calls[..|calls|] == calls;
  }

  method Perform(tester: InstallabilityTester, call: Call, ghost full: set<PackageId>) returns (reply: Reply, ghost runs: seq<Run>)
    requires tester.Coherent(full) && (call.Remove? ==> call.p !in tester.essentialClosure)
    modifies tester
    ensures tester.Coherent(Replay(tester.universe, full, [call]))
    ensures CallRight(tester.universe, tester.essentialClosure, full, call, reply, old(tester.clean), runs)
    ensures tester.clean == (old(tester.clean) && TidyRuns(runs))
  {
    runs := [];
    assert [call][..0] == [];
    match call {
      case Add(p) => reply := tester.AddBinary(p, full);
      case Remove(p) => reply := tester.RemoveBinary(p, full);
      case Query(p) => reply, runs := tester.IsInstallable(p, full);
      case ComputeAll =>
        runs := tester.ComputeInstallability(full);
        reply := Reply(true);
    }
  }

  lemma OneMoreCall(u: Universe, closure: set<PackageId>, suite: set<PackageId>, calls: seq<Call>, call: Call,
                    replies: seq<Reply>, reply: Reply, clean0: bool, searches: seq<seq<Run>>, runs: seq<Run>)
    requires RunRight(u, closure, suite, calls, replies, clean0, searches)
    requires CallRight(u, closure, Replay(u, suite, calls), call, reply, clean0 && AllTidyRuns(searches), runs)
    ensures RunRight(u, closure, suite, calls + [call], replies + [reply], clean0, searches + [runs])
    ensures AllTidyRuns(searches + [runs]) <==> AllTidyRuns(searches) && TidyRuns(runs)
    ensures Replay(u, suite, calls + [call]) == Replay(u, Replay(u, suite, calls), [call])
  {
    var n := |calls|;
    var calls', searches' := calls + [call], searches + [runs];
    forall i | 0 <= i < n + 1
      ensures CallRight(u, closure, Replay(u, suite, calls'[..i]), calls'[i], (replies + [reply])[i],
                        clean0 && AllTidyRuns(searches'[..i]), searches'[i])
    {
      if i < n {
        assert calls'[..i] == calls[..i] && searches'[..i] == searches[..i];
        assert (replies + [reply])[i] == replies[i];
      } else {
        assert calls'[..n] == calls && searches'[..n] == searches;
      }
    }
    assert calls'[..n] == calls && [call][..0] == [];
    if AllTidyRuns(searches') {
      assert forall i :: 0 <= i < n ==> searches'[i] == searches[i];
      assert searches'[n] == runs;
    }
  }

  /** As long as no suite on the way has an alternative with a conflict, every answer is right. */
  lemma {:induction false} SeparatedRunTidy(u: Universe, closure: set<PackageId>, suite: set<PackageId>, calls: seq<Call>,
                                            replies: seq<Reply>, clean0: bool, searches: seq<seq<Run>>)
    requires RunRight(u, closure, suite, calls, replies, clean0, searches)
    requires u.essential == {} && clean0
    requires forall i :: 0 <= i < |calls| ==> Separated(u, Replay(u, suite, calls[..i]))
    ensures AllTidyRuns(searches)
    ensures forall i :: 0 <= i < |calls| && calls[i].Query? && replies[i].Reply? ==>
      (replies[i].value <==> Installable(u, Replay(u, suite, calls[..i]), calls[i].p))
  {
    forall i | 0 <= i < |calls|
      ensures TidyRuns(searches[i])
    {
      assert CallRight(u, closure, Replay(u, suite, calls[..i]), calls[i], replies[i], clean0 && AllTidyRuns(searches[..i]), searches[i]);
    }
    forall i | 0 <= i < |calls| && calls[i].Query? && replies[i].Reply?
      ensures replies[i].value <==> Installable(u, Replay(u, suite, calls[..i]), calls[i].p)
    {
      assert AllTidyRuns(searches[..i]);
      assert CallRight(u, closure, Replay(u, suite, calls[..i]), calls[i], replies[i], clean0 && AllTidyRuns(searches[..i]), searches[i]);
    }
  }
}
