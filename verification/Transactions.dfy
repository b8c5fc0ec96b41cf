/** The target suite as the migration engine changes it, and transactions that can undo the changes. */
module Transactions {
  import opened Universes

  datatype Option<T> = None | Some(value: T)

  /** Binaries and virtual packages are looked up by name and architecture. */
  datatype BinaryKey = BinaryKey(name: string, architecture: string)

  function KeyOf(p: PackageId): BinaryKey {
    BinaryKey(p.packageName, p.architecture)
  }

  function KeysOf(ps: set<PackageId>): set<BinaryKey> {
    set p | p in ps :: KeyOf(p)
  }

  predicate SameKey(p: PackageId, q: PackageId) {
    KeyOf(p) == KeyOf(q)
  }

  predicate DistinctKeys(ps: set<PackageId>) {
    forall p, q {:trigger SameKey(p, q)} :: p in ps && q in ps && SameKey(p, q) ==> p == q
  }

  /** Every binary comes under its own key. */
  predicate Keyed(binaries: map<BinaryKey, PackageId>) {
    forall k :: k in binaries ==> KeyOf(binaries[k]) == k
  }

  /** An entry of the provides table: the providing binary and the version it provides. */
  datatype Provider = Provider(name: string, version: string)

  datatype SourcePackage = SourcePackage(version: string, binaries: set<PackageId>)

  /** A snapshot of the suite; `contents` are the binaries known to the installability tester. */
  datatype SuiteState = SuiteState(
    sources: map<string, SourcePackage>,
    binaries: map<BinaryKey, PackageId>,
    providesTable: map<BinaryKey, set<Provider>>,
    contents: set<PackageId>)

  /** The tester holds exactly the binaries of the suite, each under its own key. */
  ghost predicate Coherent(s: SuiteState) {
    && Keyed(s.binaries)
    && s.contents == s.binaries.Values
  }

  /** What to put back: replaced or removed binaries, sources and virtual packages (none when the
      entry did not exist). */
  datatype Undo = Undo(
    sources: map<string, Option<SourcePackage>>,
    binaries: map<BinaryKey, PackageId>,
    virtual: map<BinaryKey, Option<set<Provider>>>)

  datatype LogEntry = LogEntry(undo: Undo, updated: set<PackageId>)

  function Restored<K, V>(m: map<K, V>, undo: map<K, Option<V>>): map<K, V> {
    map k | k in m.Keys + undo.Keys && (k in undo ==> undo[k].Some?) :: if k in undo then undo[k].value else m[k]
  }

  /** Every entry that `undo` deletes is there to be deleted. */
  predicate Deletable<K, V>(m: map<K, V>, undo: map<K, Option<V>>) {
    forall k :: k in undo && undo[k].None? ==> k in m
  }

  /** `e` records how to get from `t` back to `s`. */
  ghost predicate Records(s: SuiteState, e: LogEntry, t: SuiteState) {
    && Coherent(s) && Coherent(t)
    && Restored(t.sources, e.undo.sources) == s.sources && Deletable(t.sources, e.undo.sources)
    && Restored(t.providesTable, e.undo.virtual) == s.providesTable && Deletable(t.providesTable, e.undo.virtual)
    && (forall k :: k in e.undo.binaries ==> k in s.binaries && s.binaries[k] == e.undo.binaries[k])
    && (forall k :: k in s.binaries && k !in e.undo.binaries ==>
          k !in KeysOf(e.updated) && k in t.binaries && t.binaries[k] == s.binaries[k])
    && (forall k :: k in t.binaries && k !in KeysOf(e.updated) ==> k in s.binaries && s.binaries[k] == t.binaries[k])
    && (forall p :: p in e.updated ==> KeyOf(p) in t.binaries && t.binaries[KeyOf(p)] == p)
  }

  /** `log` was written while the suite went through `states`. */
  ghost predicate Trace(states: seq<SuiteState>, log: seq<LogEntry>) {
    && |states| == |log| + 1
    && Coherent(states[0])
    && (forall i {:trigger RecordsAt(states, log, i)} :: 0 <= i < |log| ==> RecordsAt(states, log, i))
  }

  ghost predicate RecordsAt(states: seq<SuiteState>, log: seq<LogEntry>, i: nat)
    requires i < |log| && i + 1 < |states|
  {
    Records(states[i], log[i], states[i + 1])
  }

  /** The keys of all binaries added in `log`. */
  ghost function UpdatedKeys(log: seq<LogEntry>): set<BinaryKey> {
    set i, p | 0 <= i < |log| && p in log[i].updated :: KeyOf(p)
  }

  /** All binaries removed or replaced in `log`. */
  ghost function Undone(log: seq<LogEntry>): set<PackageId> {
    set i, k | 0 <= i < |log| && k in log[i].undo.binaries :: log[i].undo.binaries[k]
  }

  /** Nothing is removed or replaced that was not there at the start: in particular no binary that an
      earlier item of the transaction added. */
  ghost predicate Reversible(start: SuiteState, log: seq<LogEntry>) {
    Undone(log) <= start.contents
  }

  /** No item removes or replaces a binary that an earlier item of the log added. */
  ghost predicate KeepsAdditions(log: seq<LogEntry>) {
    forall i, j, p {:trigger p in log[i].updated, log[j].undo} :: 0 <= i < j < |log| && p in log[i].updated ==>
      p !in log[j].undo.binaries.Values
  }

  /** A binary was there at the start or was added on the way. */
  lemma {:induction false} Origin(states: seq<SuiteState>, log: seq<LogEntry>, j: nat, k: BinaryKey)
    requires Trace(states, log) && j <= |log| && k in states[j].binaries
    ensures states[j].binaries[k] in states[0].contents
      || exists i :: 0 <= i < j && states[j].binaries[k] in log[i].updated
  {
    if j > 0 {
      assert RecordsAt(states, log, j - 1);
      if k in KeysOf(log[j - 1].updated) {
        assert states[j].binaries[k] in log[j - 1].updated;
      } else {
        Origin(states, log, j - 1, k);
      }
    }
  }

  lemma KeptAdditionsReversible(states: seq<SuiteState>, log: seq<LogEntry>)
    requires Trace(states, log) && KeepsAdditions(log)
    ensures Reversible(states[0], log)
  {
    forall p | p in Undone(log)
      ensures p in states[0].contents
    {
      var j, k :| 0 <= j < |log| && k in log[j].undo.binaries && log[j].undo.binaries[k] == p;
      assert RecordsAt(states, log, j);
      Origin(states, log, j, k);
    }
  }

  /** A transaction that adds a binary and removes it again ends where it started, but what it undoes
      leads elsewhere: the binary would be put back. */
  lemma AddedThenRemoved(s: SuiteState, p: PackageId) returns (states: seq<SuiteState>, log: seq<LogEntry>)
    requires Coherent(s) && KeyOf(p) !in s.binaries
    ensures Trace(states, log) && states[0] == s && states[|log|] == s
    ensures !KeepsAdditions(log) && !Reversible(s, log) && RolledBack(states[|log|], log) != s
  {
    var k := KeyOf(p);
    var t := s.(binaries := s.binaries[k := p], contents := s.contents + {p});
    var add := LogEntry(Undo(map[], map[], map[]), {p});
    var remove := LogEntry(Undo(map[], map[k := p], map[]), {});
    AdditionRecorded(s, t, p);
    states, log := [s, t, s], [add, remove];
    assert RecordsAt(states, log, 0) && RecordsAt(states, log, 1);
    assert k in log[1].undo.binaries && log[1].undo.binaries[k] == p;
    assert p in Undone(log) && p !in s.contents;
    assert p in log[0].updated && p in log[1].undo.binaries.Values;
    RolledBackRight(states, log);
  }

  lemma AdditionRecorded(s: SuiteState, t: SuiteState, p: PackageId)
    requires Coherent(s) && KeyOf(p) !in s.binaries
    requires t == s.(binaries := s.binaries[KeyOf(p) := p], contents := s.contents + {p})
    ensures Records(s, LogEntry(Undo(map[], map[], map[]), {p}), t)
    ensures Records(t, LogEntry(Undo(map[], map[KeyOf(p) := p], map[]), {}), s)
  {
    ValuesWith(s.binaries, KeyOf(p), p);
  }

  lemma TraceAppend(states: seq<SuiteState>, log: seq<LogEntry>, states': seq<SuiteState>, log': seq<LogEntry>)
    requires Trace(states, log) && Trace(states', log') && states[|log|] == states'[0]
    ensures Trace(states + states'[1..], log + log')
  {
    var all, entries := states + states'[1..], log + log';
    forall i | 0 <= i < |entries|
      ensures RecordsAt(all, entries, i)
    {
      if i < |log| {
        assert RecordsAt(states, log, i);
      } else {
        assert RecordsAt(states', log', i - |log|);
      }
    }
  }

  lemma TraceOne(s: SuiteState, e: LogEntry, t: SuiteState)
    requires Records(s, e, t)
    ensures Trace([s, t], [e])
  {
    assert RecordsAt([s, t], [e], 0);
  }

  // ---------------------------------------------------------------------------------------------
  // A rollback
  // ---------------------------------------------------------------------------------------------

  /** A log that a transaction can undo, whatever the suite looks like by now. */
  predicate WellKeyed(log: seq<LogEntry>) {
    forall e :: e in log ==> DistinctKeys(e.updated) && Keyed(e.undo.binaries)
  }

  /** The binaries of the suite, and those that the tester knows. */
  datatype Held = Held(binaries: map<BinaryKey, PackageId>, contents: set<PackageId>)

  /** Step 1: sources, last entry first. */
  function SourcesBack(sources: map<string, SourcePackage>, log: seq<LogEntry>): map<string, SourcePackage>
    decreases |log|
  {
    if log == [] then sources
    else
      var n := |log| - 1;
      SourcesBack(Restored(sources, log[n].undo.sources), log[..n])
  }

  /** Step 2: what an entry added goes, from the tester only if its key was still taken. */
  function DropEntry(h: Held, e: LogEntry): Held {
    Held(h.binaries - KeysOf(e.updated), h.contents - set p | p in e.updated && KeyOf(p) in h.binaries)
  }

  function DropAll(h: Held, log: seq<LogEntry>): Held
    decreases |log|
  {
    if log == [] then h
    else
      var n := |log| - 1;
      DropAll(DropEntry(h, log[n]), log[..n])
  }

  /** Step 3: what an entry removed or replaced comes back. */
  function PutEntry(h: Held, e: LogEntry): Held {
    Held(h.binaries + e.undo.binaries, h.contents + e.undo.binaries.Values)
  }

  function PutAll(h: Held, log: seq<LogEntry>): Held
    decreases |log|
  {
    if log == [] then h
    else
      var n := |log| - 1;
      PutAll(PutEntry(h, log[n]), log[..n])
  }

  /** Step 4: virtual packages. */
  function TableBack(table: map<BinaryKey, set<Provider>>, log: seq<LogEntry>): map<BinaryKey, set<Provider>>
    decreases |log|
  {
    if log == [] then table
    else
      var n := |log| - 1;
      TableBack(Restored(table, log[n].undo.virtual), log[..n])
  }

  /** The suite after a rollback. */
  function RolledBack(s: SuiteState, log: seq<LogEntry>): SuiteState {
    var h := PutAll(DropAll(Held(s.binaries, s.contents), log), log);
    SuiteState(SourcesBack(s.sources, log), h.binaries, TableBack(s.providesTable, log), h.contents)
  }

  lemma {:induction false} DropAllKeyed(h: Held, log: seq<LogEntry>)
    requires Keyed(h.binaries)
    ensures Keyed(DropAll(h, log).binaries)
    decreases |log|
  {
    if log != [] {
      DropAllKeyed(DropEntry(h, log[|log| - 1]), log[..|log| - 1]);
    }
  }

  lemma {:induction false} PutAllKeyed(h: Held, log: seq<LogEntry>)
    requires Keyed(h.binaries) && WellKeyed(log)
    ensures Keyed(PutAll(h, log).binaries)
    decreases |log|
  {
    if log != [] {
      assert log[|log| - 1] in log;
      PutAllKeyed(PutEntry(h, log[|log| - 1]), log[..|log| - 1]);
    }
  }

  /** Whatever is rolled back, every binary stays under its own key. */
  lemma RolledBackKeyed(s: SuiteState, log: seq<LogEntry>)
    requires Keyed(s.binaries) && WellKeyed(log)
    ensures Keyed(RolledBack(s, log).binaries)
  {
    DropAllKeyed(Held(s.binaries, s.contents), log);
    PutAllKeyed(DropAll(Held(s.binaries, s.contents), log), log);
  }

  lemma {:induction false} SourcesBackRight(states: seq<SuiteState>, log: seq<LogEntry>, i: nat)
    requires Trace(states, log) && i <= |log|
    ensures SourcesBack(states[i].sources, log[..i]) == states[0].sources
    ensures TableBack(states[i].providesTable, log[..i]) == states[0].providesTable
  {
    if i > 0 {
      assert RecordsAt(states, log, i - 1);
      assert log[..i][..i - 1] == log[..i - 1];
      SourcesBackRight(states, log, i - 1);
    }
  }

  lemma {:induction false} DropAllRight(states: seq<SuiteState>, log: seq<LogEntry>, i: nat, h: Held)
    requires Trace(states, log) && i <= |log| && Dropped(states, log, i, h.binaries, h.contents)
    ensures var d := DropAll(h, log[..i]); Dropped(states, log, 0, d.binaries, d.contents)
  {
    if i > 0 {
      DropStep(states, log, i - 1, h.binaries, h.contents);
      assert log[..i][..i - 1] == log[..i - 1];
      DropAllRight(states, log, i - 1, DropEntry(h, log[i - 1]));
    }
  }

  lemma {:induction false} PutAllRight(states: seq<SuiteState>, log: seq<LogEntry>, i: nat, kept: set<PackageId>, h: Held)
    requires Trace(states, log) && i <= |log|
    requires PutBack(states, log, i, h.binaries) && PutBackOnly(log, i, kept, h.binaries, h.contents)
    ensures var p := PutAll(h, log[..i]);
      PutBack(states, log, 0, p.binaries) && PutBackOnly(log, 0, kept, p.binaries, p.contents)
  {
    if i > 0 {
      PutBackStep(states, log, i - 1, kept, h.binaries, h.contents);
      assert log[..i][..i - 1] == log[..i - 1];
      PutAllRight(states, log, i - 1, kept, PutEntry(h, log[i - 1]));
    }
  }

  /** A rollback restores sources and provides, and all that the suite held at the start; the whole
      state is the start exactly when the log is reversible. */
  lemma RolledBackRight(states: seq<SuiteState>, log: seq<LogEntry>)
    requires Trace(states, log)
    ensures RestoresStart(states[0], log, RolledBack(states[|log|], log))
  {
    var n := |log|;
    var h := Held(states[n].binaries, states[n].contents);
    assert log[..n] == log;
    SourcesBackRight(states, log, n);
    LastCoherent(states, log);
    DropAllRight(states, log, n, h);
    var d := DropAll(h, log);
    PutBackStart(states, log, d.binaries, d.contents);
    PutAllRight(states, log, n, d.contents, d);
    var p := PutAll(d, log);
    PutBackAll(states, log, d.contents, p.binaries, p.contents);
  }

  ghost predicate RestoresStart(start: SuiteState, log: seq<LogEntry>, s: SuiteState) {
    && s.sources == start.sources && s.providesTable == start.providesTable
    && (forall k :: k in start.binaries ==> k in s.binaries && s.binaries[k] == start.binaries[k])
    && s.contents == start.contents + Undone(log)
    && (s == start <==> Reversible(start, log))
  }

  // ---------------------------------------------------------------------------------------------
  // Steps 2 and 3 of a rollback, on the state after the entries `i` and later have been undone
  // ---------------------------------------------------------------------------------------------

  /** Step 2: the binaries added by the entries `i` and later are gone. */
  ghost predicate Dropped(states: seq<SuiteState>, log: seq<LogEntry>, i: nat, binaries: map<BinaryKey, PackageId>,
                          contents: set<PackageId>)
    requires |states| == |log| + 1 && i <= |log|
  {
    && (forall k :: k in binaries <==> k in states[|log|].binaries && k !in UpdatedKeys(log[i..]))
    && (forall k :: k in binaries ==> binaries[k] == states[|log|].binaries[k])
    && contents == binaries.Values
  }

  /** A binary that survives step 2 was there all the time. */
  lemma {:induction false} SurvivorAt(states: seq<SuiteState>, log: seq<LogEntry>, i: nat, k: BinaryKey)
    requires Trace(states, log) && i <= |log|
    requires k in states[|log|].binaries && k !in UpdatedKeys(log[i..])
    ensures k in states[i].binaries && states[i].binaries[k] == states[|log|].binaries[k]
    decreases |log| - i
  {
    if i < |log| {
      assert RecordsAt(states, log, i);
      UpdatedSplit(log, i);
      SurvivorAt(states, log, i + 1, k);
      assert k !in KeysOf(log[i].updated);
    }
  }

  /** Step 3, what is put back where it belongs: whatever the suite held when entry `i` was written,
      unless an earlier entry had added it. */
  ghost predicate PutBack(states: seq<SuiteState>, log: seq<LogEntry>, i: nat, binaries: map<BinaryKey, PackageId>)
    requires |states| == |log| + 1 && i <= |log|
  {
    forall k :: k in states[i].binaries && k !in UpdatedKeys(log[..i]) ==>
      k in binaries && binaries[k] == states[i].binaries[k]
  }

  /** Step 3, nothing else appears: every binary was put back or has survived step 2. */
  ghost predicate PutBackOnly(log: seq<LogEntry>, i: nat, kept: set<PackageId>, binaries: map<BinaryKey, PackageId>,
                              contents: set<PackageId>)
    requires i <= |log|
  {
    && (forall k :: k in binaries ==> KeyOf(binaries[k]) == k && binaries[k] in contents)
    && contents == kept + Undone(log[i..])
  }

  lemma DropStep(states: seq<SuiteState>, log: seq<LogEntry>, i: nat, binaries: map<BinaryKey, PackageId>,
                 contents: set<PackageId>)
    requires Trace(states, log) && i < |log| && Dropped(states, log, i + 1, binaries, contents)
    ensures var h := DropEntry(Held(binaries, contents), log[i]); Dropped(states, log, i, h.binaries, h.contents)
  {
    assert RecordsAt(states, log, i);
    forall p | p in log[i].updated && KeyOf(p) in binaries
      ensures binaries[KeyOf(p)] == p
    {
      SurvivorAt(states, log, i + 1, KeyOf(p));
    }
    UpdatedSplit(log, i);
    LastCoherent(states, log);
    DroppedValues(binaries, log[i].updated);
  }

  lemma DroppedValues(binaries: map<BinaryKey, PackageId>, updated: set<PackageId>)
    requires Keyed(binaries) && forall p :: p in updated && KeyOf(p) in binaries ==> binaries[KeyOf(p)] == p
    ensures (binaries - KeysOf(updated)).Values == binaries.Values - set p | p in updated && KeyOf(p) in binaries
  {
    var left := binaries - KeysOf(updated);
    forall p
      ensures p in left.Values <==> p in binaries.Values && !(p in updated && KeyOf(p) in binaries)
    {
      if p in left.Values {
        var k :| k in left && left[k] == p;
        assert k == KeyOf(p) && k !in KeysOf(updated);
      }
      if p in binaries.Values && !(p in updated && KeyOf(p) in binaries) {
        var k :| k in binaries && binaries[k] == p;
        assert forall q :: q in updated && KeyOf(q) == k ==> binaries[k] == q;
        assert left[k] == p;
      }
    }
  }

  lemma UpdatedSplit(log: seq<LogEntry>, i: nat)
    requires i < |log|
    ensures UpdatedKeys(log[i..]) == UpdatedKeys(log[i + 1..]) + KeysOf(log[i].updated)
    ensures UpdatedKeys(log[..i + 1]) == UpdatedKeys(log[..i]) + KeysOf(log[i].updated)
    ensures Undone(log[i..]) == Undone(log[i + 1..]) + log[i].undo.binaries.Values
  {
    var tail, rest := log[i..], log[i + 1..];
    assert tail == [log[i]] + rest;
    var upTo, before := log[..i + 1], log[..i];
    assert upTo == before + [log[i]];
    forall k | k in UpdatedKeys(rest)
      ensures k in UpdatedKeys(tail)
    {
      var j, p :| 0 <= j < |rest| && p in rest[j].updated && KeyOf(p) == k;
      assert p in tail[j + 1].updated;
    }
    forall k | k in UpdatedKeys(before)
      ensures k in UpdatedKeys(upTo)
    {
      var j, p :| 0 <= j < |before| && p in before[j].updated && KeyOf(p) == k;
      assert p in upTo[j].updated;
    }
    forall k | k in KeysOf(log[i].updated)
      ensures k in UpdatedKeys(tail) && k in UpdatedKeys(upTo)
    {
      var p :| p in log[i].updated && KeyOf(p) == k;
      assert p in tail[0].updated && p in upTo[i].updated;
    }
    forall p | p in Undone(rest)
      ensures p in Undone(tail)
    {
      var j, k :| 0 <= j < |rest| && k in rest[j].undo.binaries && rest[j].undo.binaries[k] == p;
      assert k in tail[j + 1].undo.binaries;
    }
    forall p | p in log[i].undo.binaries.Values
      ensures p in Undone(tail)
    {
      var k :| k in log[i].undo.binaries && log[i].undo.binaries[k] == p;
      assert k in tail[0].undo.binaries;
    }
  }

  lemma PutBackStart(states: seq<SuiteState>, log: seq<LogEntry>, binaries: map<BinaryKey, PackageId>,
                     contents: set<PackageId>)
    requires Trace(states, log) && Dropped(states, log, 0, binaries, contents)
    ensures PutBack(states, log, |log|, binaries)
    ensures PutBackOnly(log, |log|, contents, binaries, contents)
    ensures contents <= states[0].contents
  {
    assert log[0..] == log && log[..|log|] == log;
    assert Undone(log[|log|..]) == {};
    forall k | k in binaries
      ensures k in states[0].binaries && binaries[k] == states[0].binaries[k]
    {
      SurvivorAt(states, log, 0, k);
    }
  }

  lemma PutBackStep(states: seq<SuiteState>, log: seq<LogEntry>, i: nat, kept: set<PackageId>,
                    binaries: map<BinaryKey, PackageId>, contents: set<PackageId>)
    requires Trace(states, log) && i < |log|
    requires PutBack(states, log, i + 1, binaries) && PutBackOnly(log, i + 1, kept, binaries, contents)
    ensures var binaries' := binaries + log[i].undo.binaries;
      && PutBack(states, log, i, binaries')
      && PutBackOnly(log, i, kept, binaries', contents + log[i].undo.binaries.Values)
  {
    assert RecordsAt(states, log, i);
    UpdatedSplit(log, i);
  }

  /** All that the start held is back; the tester may be left with more. */
  lemma PutBackAll(states: seq<SuiteState>, log: seq<LogEntry>, kept: set<PackageId>,
                   binaries: map<BinaryKey, PackageId>, contents: set<PackageId>)
    requires Trace(states, log) && kept <= states[0].contents
    requires PutBack(states, log, 0, binaries) && PutBackOnly(log, 0, kept, binaries, contents)
    ensures forall k :: k in states[0].binaries ==> k in binaries && binaries[k] == states[0].binaries[k]
    ensures contents == states[0].contents + Undone(log)
    ensures contents == states[0].contents <==> Reversible(states[0], log)
    ensures Reversible(states[0], log) ==> binaries == states[0].binaries
  {
    assert log[0..] == log && log[..0] == [];
    forall p | p in states[0].contents
      ensures p in contents
    {
      var k :| k in states[0].binaries && states[0].binaries[k] == p;
      assert binaries[k] == p;
    }
    if Reversible(states[0], log) {
      forall k | k in binaries
        ensures k in states[0].binaries
      {
        assert binaries[k] in states[0].contents;
      }
    }
  }

  // ---------------------------------------------------------------------------------------------
  // The suite and its transactions
  // ---------------------------------------------------------------------------------------------

  class TargetSuite {
    var sources: map<string, SourcePackage>
    var binaries: map<BinaryKey, PackageId>
    var providesTable: map<BinaryKey, set<Provider>>
    var contents: set<PackageId>

    constructor (s: SuiteState)
      ensures State() == s
    {
      sources, binaries, providesTable, contents := s.sources, s.binaries, s.providesTable, s.contents;
    }

    function State(): SuiteState
      reads this
    {
      SuiteState(sources, binaries, providesTable, contents)
    }

    method AddBinary(p: PackageId)
      modifies this`contents
      ensures contents == old(contents) + {p}
    {
      contents := contents + {p};
    }

    method RemoveBinary(p: PackageId)
      modifies this`contents
      ensures contents == old(contents) - {p}
    {
      contents := contents - {p};
    }
  }

  /** Put the recorded values back and delete what was not there before. */
  method RestoreMap<K(==), V>(m0: map<K, V>, undo: map<K, Option<V>>) returns (m: map<K, V>)
    ensures m == Restored(m0, undo)
  {
    m := m0;
    var rest := undo.Keys;
    while rest != {}
      invariant rest <= undo.Keys
      invariant forall k :: k in m <==> if k in undo && k !in rest then undo[k].Some? else k in m0
      invariant forall k :: k in m ==> m[k] == if k in undo && k !in rest then undo[k].value else m0[k]
    {
      var k :| k in rest;
      rest := rest - {k};
      match undo[k]
      case None => m := m - {k};
      case Some(v) => m := m[k := v];
    }
  }

  class MigrationTransactionState {
    const suite: TargetSuite
    const parent: MigrationTransactionState?
    var isRolledBack: bool
    var isCommitted: bool
    var undoItems: seq<LogEntry>
    var pendingChild: bool
    /** The suite at the start and after every item. */
    ghost const start: SuiteState
    ghost var states: seq<SuiteState>

    /** The log says how to get from the last state back to the start. */
    ghost predicate Traced()
      reads this
    {
      Trace(states, undoItems) && states[0] == start
    }

    ghost predicate Loggable()
      reads this
    {
      |states| == |undoItems| + 1 && WellKeyed(undoItems)
    }

    ghost function Parents(): set<MigrationTransactionState> {
      if parent == null then {} else {parent}
    }

    predicate Open()
      reads this
    {
      !isRolledBack && !isCommitted
    }

    /** A transaction supports one child at a time. */
    constructor (suite: TargetSuite, parent: MigrationTransactionState?)
      requires parent != null ==> !parent.pendingChild
      modifies (if parent == null then {} else {parent})`pendingChild
      ensures this.suite == suite && this.parent == parent && Open() && !pendingChild
      ensures parent != null ==> parent.pendingChild
      ensures undoItems == [] && start == suite.State() && states == [start] && Loggable()
      ensures Coherent(start) ==> Traced()
    {
      this.suite, this.parent := suite, parent;
      isRolledBack, isCommitted, pendingChild := false, false, false;
      undoItems, start, states := [], suite.State(), [suite.State()];
      new;
      if parent != null {
        parent.pendingChild := true;
      }
    }

    method AddUndoItem(undo: Undo, updated: set<PackageId>, ghost after: SuiteState)
      requires Open() && !pendingChild && Loggable() && DistinctKeys(updated) && Keyed(undo.binaries)
      modifies this`undoItems, this`states
      ensures undoItems == old(undoItems) + [LogEntry(undo, updated)]
      ensures states == old(states) + [after] && Loggable()
      ensures old(Traced() && Records(states[|undoItems|], LogEntry(undo, updated), after)) ==> Traced()
    {
      if Traced() && Records(states[|undoItems|], LogEntry(undo, updated), after) {
        ghost var last := states[|undoItems|];
        TraceOne(last, LogEntry(undo, updated), after);
        TraceAppend(states, undoItems, [last, after], [LogEntry(undo, updated)]);
      }
      undoItems := undoItems + [LogEntry(undo, updated)];
      states := states + [after];
    }

    /** Hand the undo items over to the parent, if any. */
    method Commit()
      requires Open() && Loggable() && parent != this
      requires parent != null ==> parent.Open() && parent.Loggable()
      modifies this`isCommitted, Parents()`pendingChild, Parents()`undoItems, Parents()`states
      ensures isCommitted
      ensures parent != null ==> !parent.pendingChild && parent.Loggable()
      ensures parent != null ==> parent.undoItems == old(parent.undoItems) + undoItems
      ensures parent != null ==> parent.states == old(parent.states) + states[1..]
      ensures parent != null && old(Traced() && parent.Traced() && parent.states[|parent.undoItems|] == start) ==> parent.Traced()
    {
      isCommitted := true;
      if parent != null {
        parent.pendingChild := false;
        ghost var outer := parent.states;
        for i := 0 to |undoItems|
          invariant isCommitted && !parent.pendingChild && parent.Open() && undoItems == old(undoItems) && states == old(states)
          invariant Loggable() && parent.Loggable()
          invariant parent.undoItems == old(parent.undoItems) + undoItems[..i]
          invariant parent.states == outer + states[1..i + 1]
          invariant old(Traced() && parent.Traced() && parent.states[|parent.undoItems|] == start) ==> parent.Traced()
        {
          assert undoItems[i] in undoItems;
          assert old(Traced()) ==> RecordsAt(states, undoItems, i);
          parent.AddUndoItem(undoItems[i].undo, undoItems[i].updated, states[i + 1]);
        }
        assert undoItems[..|undoItems|] == undoItems;
        assert states[1..|undoItems| + 1] == states[1..];
      }
    }

    /** Undo everything recorded since the start, in four steps over the whole log.  If the log leads
        from the present state back to the start, the suite is as it was exactly when the log is
        reversible. */
    method Rollback()
      requires Open() && Loggable() && parent != this
      modifies suite, this`isRolledBack, Parents()`pendingChild
      ensures isRolledBack
      ensures parent != null ==> !parent.pendingChild
      ensures suite.State() == RolledBack(old(suite.State()), undoItems)
      ensures old(Traced() && suite.State() == states[|undoItems|]) ==> RestoresStart(start, undoItems, suite.State())
    {
      if Traced() && suite.State() == states[|undoItems|] {
        RolledBackRight(states, undoItems);
      }
      isRolledBack := true;
      UndoSources();
      DropUpdated();
      PutBackBinaries();
      UndoProvides();
      if parent != null {
        parent.pendingChild := false;
      }
    }

    /** Step 1: sources. */
    method UndoSources()
      modifies suite`sources
      ensures suite.sources == SourcesBack(old(suite.sources), undoItems)
    {
      assert undoItems[..|undoItems|] == undoItems;
      for i := |undoItems| downto 0
        invariant SourcesBack(suite.sources, undoItems[..i]) == SourcesBack(old(suite.sources), undoItems)
      {
        assert undoItems[..i + 1][..i] == undoItems[..i];
        suite.sources := RestoreMap(suite.sources, undoItems[i].undo.sources);
      }
    }

    function Holding(): Held
      reads suite
    {
      Held(suite.binaries, suite.contents)
    }

    /** Step 2: new and updated binaries. */
    method DropUpdated()
      requires WellKeyed(undoItems)
      modifies suite`binaries, suite`contents
      ensures Holding() == DropAll(old(Holding()), undoItems)
    {
      assert undoItems[..|undoItems|] == undoItems;
      for i := |undoItems| downto 0
        invariant DropAll(Holding(), undoItems[..i]) == DropAll(old(Holding()), undoItems)
      {
        assert undoItems[..i + 1][..i] == undoItems[..i];
        assert undoItems[i] in undoItems;
        DropSome(undoItems[i]);
      }
    }

    method DropSome(e: LogEntry)
      requires DistinctKeys(e.updated)
      modifies suite`binaries, suite`contents
      ensures Holding() == DropEntry(old(Holding()), e)
    {
      var rest := e.updated;
      ghost var h := Holding();
      while rest != {}
        invariant rest <= e.updated
        invariant Holding() == DropEntry(h, e.(updated := e.updated - rest))
      {
        var p :| p in rest;
        DropOne(h, e, rest, p);
        rest := rest - {p};
        var k := KeyOf(p);
        if k in suite.binaries {
          suite.binaries := suite.binaries - {k};
          suite.RemoveBinary(p);
        }
      }
      assert e.updated - rest == e.updated;
    }

    /** Step 3: removed and replaced binaries. */
    method PutBackBinaries()
      modifies suite`binaries, suite`contents
      ensures Holding() == PutAll(old(Holding()), undoItems)
    {
      assert undoItems[..|undoItems|] == undoItems;
      for i := |undoItems| downto 0
        invariant PutAll(Holding(), undoItems[..i]) == PutAll(old(Holding()), undoItems)
      {
        assert undoItems[..i + 1][..i] == undoItems[..i];
        PutBackSome(undoItems[i].undo.binaries);
      }
    }

    method PutBackSome(undone: map<BinaryKey, PackageId>)
      modifies suite`binaries, suite`contents
      ensures suite.binaries == old(suite.binaries) + undone
      ensures suite.contents == old(suite.contents) + undone.Values
    {
      var rest := undone.Keys;
      ghost var done: map<BinaryKey, PackageId> := map[];
      while rest != {}
        invariant rest <= undone.Keys && done.Keys == undone.Keys - rest
        invariant forall k :: k in done ==> done[k] == undone[k]
        invariant suite.binaries == old(suite.binaries) + done
        invariant suite.contents == old(suite.contents) + done.Values
      {
        var k :| k in rest;
        rest := rest - {k};
        ValuesWith(done, k, undone[k]);
        done := done[k := undone[k]];
        suite.binaries := suite.binaries[k := undone[k]];
        suite.AddBinary(undone[k]);
      }
      assert done == undone;
    }

    /** Step 4: virtual packages. */
    method UndoProvides()
      modifies suite`providesTable
      ensures suite.providesTable == TableBack(old(suite.providesTable), undoItems)
    {
      assert undoItems[..|undoItems|] == undoItems;
      for i := |undoItems| downto 0
        invariant TableBack(suite.providesTable, undoItems[..i]) == TableBack(old(suite.providesTable), undoItems)
      {
        assert undoItems[..i + 1][..i] == undoItems[..i];
        suite.providesTable := RestoreMap(suite.providesTable, undoItems[i].undo.virtual);
      }
    }
  }

  lemma DropOne(h: Held, e: LogEntry, rest: set<PackageId>, p: PackageId)
    requires DistinctKeys(e.updated) && rest <= e.updated && p in rest
    ensures
      var before := DropEntry(h, e.(updated := e.updated - rest));
      var after := DropEntry(h, e.(updated := e.updated - (rest - {p})));
      && (KeyOf(p) in before.binaries <==> KeyOf(p) in h.binaries)
      && after.binaries == before.binaries - {KeyOf(p)}
      && after.contents == if KeyOf(p) in before.binaries then before.contents - {p} else before.contents
  {
    assert e.updated - (rest - {p}) == e.updated - rest + {p};
    forall q | q in e.updated - rest
      ensures KeyOf(q) != KeyOf(p)
    {
      assert SameKey(p, q) ==> p == q;
    }
  }

  lemma LastCoherent(states: seq<SuiteState>, log: seq<LogEntry>)
    requires Trace(states, log)
    ensures Dropped(states, log, |log|, states[|log|].binaries, states[|log|].contents)
    ensures Coherent(states[|log|])
  {
    assert log[|log|..] == [];
    if |log| > 0 {
      assert RecordsAt(states, log, |log| - 1);
    }
  }

  lemma ValuesWith(m: map<BinaryKey, PackageId>, k: BinaryKey, p: PackageId)
    requires k !in m
    ensures m[k := p].Values == m.Values + {p}
  {
    var m' := m[k := p];
    assert m'[k] == p;
    forall q | q in m.Values
      ensures q in m'.Values
    {
      var j :| j in m && m[j] == q;
      assert m'[j] == q;
    }
  }
}
