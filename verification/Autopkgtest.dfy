/** The record kept of test results, whatever order they arrive in. */
module Autopkgtest {

  datatype Status = Pass | Neutral | Fail | OldPass | OldNeutral | OldFail | NoResult
  {
    function Value(): nat {
      match this
      case Pass => 1
      case Neutral => 2
      case Fail => 3
      case OldPass => 4
      case OldNeutral => 5
      case OldFail => 6
      case NoResult => 7
    }
  }

  /** A test result of one package for one trigger on one architecture. */
  datatype Result = Result(status: Status, version: string, runId: string, timestamp: nat)

  /** What is on record before any result has come in. */
  const DEFAULT := Result(Fail, "", "", 0)

  datatype Cell = Cell(trigger: string, source: string, architecture: string)

  const REF_TRIG := "migration-reference/0"

  /** The part before the first slash and what follows it. */
  predicate SplitsInto(trigger: string, source: string, version: string) {
    trigger == source + "/" + version && '/' !in source
  }

  /** Where the first slash is, or the length if there is none. */
  function FirstSlash(trigger: string): (i: nat)
    ensures i <= |trigger| && (i < |trigger| ==> trigger[i] == '/')
    ensures forall j :: 0 <= j < i ==> trigger[j] != '/'
  {
    if trigger == "" || trigger[0] == '/' then 0 else 1 + FirstSlash(trigger[1..])
  }

  /** `a` replaces `b`: for the reference trigger the later one, otherwise the better one and, of equally
      good ones, the later one. */
  predicate Replaces(reference: bool, a: Result, b: Result) {
    if reference then b.timestamp < a.timestamp
    else a.status.Value() < b.status.Value() || (a.status == b.status && b.timestamp < a.timestamp)
  }

  function Stored(table: map<Cell, Result>, cell: Cell): Result {
    if cell in table then table[cell] else DEFAULT
  }

  /** `best` is on record after the results: it is one of them or the default, and none replaces it. */
  ghost predicate IsBest(reference: bool, results: multiset<Result>, best: Result) {
    && (best in results || best == DEFAULT)
    && (forall r :: r in results ==> !Replaces(reference, r, best))
    && !Replaces(reference, DEFAULT, best)
  }

  /** Results carry positive time stamps of their own. */
  ghost predicate DistinctTimes(results: multiset<Result>) {
    && (forall r :: r in results ==> r.timestamp > 0 && results[r] == 1)
    && (forall r, s :: r in results && s in results && r.timestamp == s.timestamp ==> r == s)
  }

  /** The record is determined by the results alone, not by their order. */
  lemma BestUnique(reference: bool, results: multiset<Result>, a: Result, b: Result)
    requires DistinctTimes(results) && IsBest(reference, results, a) && IsBest(reference, results, b)
    ensures a == b
  {
    assert a.status.Value() == b.status.Value() ==> a.status == b.status;
  }

  lemma BestStep(reference: bool, results: multiset<Result>, best: Result, r: Result)
    requires IsBest(reference, results, best)
    ensures IsBest(reference, results + multiset{r}, if Replaces(reference, r, best) then r else best)
  {
  }

  class AutopkgtestPolicy {
    const baselineIsReference: bool
    /** The order of versions. */
    const older: (string, string) -> bool
    var testResults: map<Cell, Result>

    constructor (baselineIsReference: bool, older: (string, string) -> bool)
      ensures this.baselineIsReference == baselineIsReference && this.older == older && testResults == map[]
    {
      this.baselineIsReference, this.older := baselineIsReference, older;
      testResults := map[];
    }

    predicate IsReference(cell: Cell) {
      baselineIsReference && cell.trigger == REF_TRIG
    }

    /** The trigger names a source and a version, and if the source is the tested one, the run was for that
        version or a later one. */
    ghost predicate NewEnough(cell: Cell, result: Result) {
      exists source, version ::
        SplitsInto(cell.trigger, source, version) && (source == cell.source ==> !older(result.version, version))
    }

    method IsNewEnough(cell: Cell, result: Result) returns (counts: bool)
      ensures counts <==> NewEnough(cell, result)
    {
      var slash := FirstSlash(cell.trigger);
      if slash == |cell.trigger| {
        NoSplit(cell.trigger);
        return false;
      }
      OnlySplit(cell.trigger, slash);
      var source, version := cell.trigger[..slash], cell.trigger[slash + 1..];
      assert SplitsInto(cell.trigger, source, version);
      counts := !(source == cell.source && older(result.version, version));
    }

    /** Record one result unless its trigger is invalid or the run was for an older version than its trigger. */
    method AddTriggerToResults(cell: Cell, result: Result)
      modifies this
      ensures !NewEnough(cell, result) ==> testResults == old(testResults)
      ensures NewEnough(cell, result) ==> testResults.Keys == old(testResults).Keys + {cell}
      ensures forall c :: c != cell ==> Stored(testResults, c) == Stored(old(testResults), c)
      ensures Stored(testResults, cell) ==
        if NewEnough(cell, result) && Replaces(IsReference(cell), result, Stored(old(testResults), cell)) then result
        else Stored(old(testResults), cell)
    {
      var counts := IsNewEnough(cell, result);
      if !counts {
        return;
      }
      var stored := Stored(testResults, cell);
      var update := false;
      if baselineIsReference && cell.trigger == REF_TRIG {
        if stored.timestamp < result.timestamp {
          update := true;
        }
      } else if result.status.Value() < stored.status.Value() {
        update := true;
      } else if result.status == stored.status && stored.timestamp < result.timestamp {
        update := true;
      }
      testResults := testResults[cell := if update then result else stored];
    }

    /** The results that count. */
    ghost function Counting(cell: Cell, results: seq<Result>): multiset<Result> {
      if results == [] then multiset{}
      else
        var n := |results| - 1;
        Counting(cell, results[..n]) + if NewEnough(cell, results[n]) then multiset{results[n]} else multiset{}
    }

    /** Record a list of results for one cell: the record becomes the best of those that count. */
    method AddAll(cell: Cell, results: seq<Result>)
      requires cell !in testResults
      modifies this
      ensures IsBest(IsReference(cell), Counting(cell, results), Stored(testResults, cell))
      ensures forall c :: c != cell ==> Stored(testResults, c) == Stored(old(testResults), c)
    {
      for i := 0 to |results|
        invariant IsBest(IsReference(cell), Counting(cell, results[..i]), Stored(testResults, cell))
        invariant forall c :: c != cell ==> Stored(testResults, c) == Stored(old(testResults), c)
      {
        assert results[..i + 1][..i] == results[..i];
        BestStep(IsReference(cell), Counting(cell, results[..i]), Stored(testResults, cell), results[i]);
        AddTriggerToResults(cell, results[i]);
      }
      assert results[..|results|] == results;
    }

    lemma {:induction false} CountingPermuted(cell: Cell, results: seq<Result>, r: Result)
      ensures Counting(cell, results)[r] == if NewEnough(cell, r) then multiset(results)[r] else 0
    {
      if results != [] {
        var n := |results| - 1;
        CountingPermuted(cell, results[..n], r);
        assert results == results[..n] + [results[n]];
      }
    }

    /** Any permutation of the same results leaves the same record. */
    lemma OrderIrrelevant(cell: Cell, a: seq<Result>, b: seq<Result>, recordA: Result, recordB: Result)
      requires multiset(a) == multiset(b) && DistinctTimes(multiset(a))
      requires IsBest(IsReference(cell), Counting(cell, a), recordA) && IsBest(IsReference(cell), Counting(cell, b), recordB)
      ensures recordA == recordB
    {
      forall r
        ensures Counting(cell, a)[r] == Counting(cell, b)[r] <= multiset(a)[r]
      {
        CountingPermuted(cell, a, r);
        CountingPermuted(cell, b, r);
      }
      assert Counting(cell, a) == Counting(cell, b);
      BestUnique(IsReference(cell), Counting(cell, a), recordA, recordB);
    }
  }

  lemma NoSplit(trigger: string)
    requires '/' !in trigger
    ensures forall source, version :: !SplitsInto(trigger, source, version)
  {
    forall source, version
      ensures !SplitsInto(trigger, source, version)
    {
      assert (source + "/" + version)[|source|] == '/';
    }
  }

  lemma OnlySplit(trigger: string, slash: nat)
    requires slash < |trigger| && trigger[slash] == '/' && forall j :: 0 <= j < slash ==> trigger[j] != '/'
    ensures forall source, version ::
      SplitsInto(trigger, source, version) <==> source == trigger[..slash] && version == trigger[slash + 1..]
  {
    forall source, version
      ensures SplitsInto(trigger, source, version) <==> source == trigger[..slash] && version == trigger[slash + 1..]
    {
      if SplitsInto(trigger, source, version) {
        assert trigger[|source|] == '/';
        assert forall j :: 0 <= j < |source| ==> source[j] == trigger[j];
      }
    }
  }

  /** What is on record is the best status with its latest run, or the latest run for the reference. */
  lemma BestMeaning(reference: bool, results: multiset<Result>, best: Result, r: Result)
    requires IsBest(reference, results, best) && r in results
    ensures reference ==> r.timestamp <= best.timestamp
    ensures !reference ==> best.status.Value() <= r.status.Value()
    ensures !reference && best.status == r.status ==> r.timestamp <= best.timestamp
  {
  }

  /** Apart from the reference, a pass on record survives everything, a neutral result gives way only to a pass, and
      a failure stands only without either. */
  lemma PassWins(results: multiset<Result>, best: Result)
    requires IsBest(false, results, best)
    ensures (exists r :: r in results && r.status.Pass?) <==> best.status.Pass?
    ensures (exists r :: r in results && r.status.Neutral?) && (forall r :: r in results ==> !r.status.Pass?) <==> best.status.Neutral?
    ensures best.status.Fail? ==> forall r :: r in results ==> !r.status.Pass? && !r.status.Neutral?
  {
    assert best.status.Pass? || best.status.Neutral? ==> best in results;
  }
}
