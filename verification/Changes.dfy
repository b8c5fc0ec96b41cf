/** What one migration item does to the suite, and which packages must be looked at again. */
module Changes {
  import opened Universes
  import opened Transactions

  /** A virtual package that a binary provides, with its version. */
  datatype Virtual = Virtual(name: string, version: string)

  datatype BinaryPackage = BinaryPackage(virtuals: set<Virtual>, archAll: bool)

  type Packages = map<PackageId, BinaryPackage>

  function VirtualsOf(data: Packages, p: PackageId): set<Virtual> {
    if p in data then data[p].virtuals else {}
  }

  predicate IsArchAll(data: Packages, p: PackageId) {
    p in data && data[p].archAll
  }

  /** An item together with its groups: the binaries it adds and those it removes.  `architecture` is
      "source" for an item that migrates or removes a whole source package. */
  datatype Change = Change(
    sourceName: string,
    architecture: string,
    isRemoval: bool,
    sourceVersion: string,
    updates: set<PackageId>,
    rms: set<PackageId>)
  {
    predicate RemovesSource() {
      isRemoval && architecture == "source"
    }
  }

  /** An item that brings in one binary. */
  function AddOnly(p: PackageId): Change {
    Change(p.packageName, p.architecture, false, p.version, {p}, {})
  }

  /** What the groups of an item promise. */
  predicate Applicable(s: SuiteState, c: Change) {
    && c.rms <= s.binaries.Values
    && DistinctKeys(c.updates)
    && (c.isRemoval ==> c.updates == {})
    && (c.RemovesSource() ==> c.sourceName in s.sources)
  }

  // ---------------------------------------------------------------------------------------------
  // The provides table
  // ---------------------------------------------------------------------------------------------

  type Table = map<BinaryKey, set<Provider>>

  /** An entry of the provides table. */
  datatype Registration = Registration(key: BinaryKey, provider: Provider)

  function RegistrationsOf(data: Packages, p: PackageId): set<Registration> {
    set v | v in VirtualsOf(data, p) :: Registration(BinaryKey(v.name, p.architecture), Provider(p.packageName, v.version))
  }

  function Registrations(data: Packages, ps: set<PackageId>): set<Registration> {
    set p, r | p in ps && r in RegistrationsOf(data, p) :: r
  }

  function Lookup(table: Table, k: BinaryKey): set<Provider> {
    if k in table then table[k] else {}
  }

  function EntriesAt(regs: set<Registration>, k: BinaryKey): set<Provider> {
    set r | r in regs && r.key == k :: r.provider
  }

  function KeysIn(regs: set<Registration>): set<BinaryKey> {
    set r | r in regs :: r.key
  }

  /** Every binary of the suite is registered under each of its virtual packages. */
  ghost predicate Registered(data: Packages, binaries: map<BinaryKey, PackageId>, table: Table) {
    forall k, r {:trigger IsRegistered(table, r), binaries[k]} ::
      k in binaries && r in RegistrationsOf(data, binaries[k]) ==> IsRegistered(table, r)
  }

  predicate IsRegistered(table: Table, r: Registration) {
    r.provider in Lookup(table, r.key)
  }

  function TableEntry(table: Table, leaving: set<Registration>, arriving: set<Registration>, k: BinaryKey): set<Provider> {
    (Lookup(table, k) - EntriesAt(leaving, k)) + EntriesAt(arriving, k)
  }

  /** The table after some entries left and then others arrived; keys left without providers are deleted. */
  function TableAfter(table: Table, leaving: set<Registration>, arriving: set<Registration>): Table {
    var touched := KeysIn(leaving) + KeysIn(arriving);
    map k | k in table.Keys + touched && (k in touched ==> TableEntry(table, leaving, arriving, k) != {}) ::
      TableEntry(table, leaving, arriving, k)
  }

  /** What the keys of `regs` held before. */
  function TableUndo(table: Table, regs: set<Registration>): map<BinaryKey, Option<set<Provider>>> {
    map k | k in KeysIn(regs) :: OptionAt(table, k)
  }

  function OptionAt<K, V>(m: map<K, V>, k: K): Option<V> {
    if k in m then Some(m[k]) else None
  }

  // ---------------------------------------------------------------------------------------------
  // The whole change
  // ---------------------------------------------------------------------------------------------

  function BinariesWithout(binaries: map<BinaryKey, PackageId>, rms: set<PackageId>): map<BinaryKey, PackageId> {
    map k | k in binaries && binaries[k] !in rms :: binaries[k]
  }

  /** The package of `ps` under a key. */
  function AtKey(ps: set<PackageId>, k: BinaryKey): (p: PackageId)
    requires DistinctKeys(ps) && k in KeysOf(ps)
    ensures p in ps && KeyOf(p) == k
  {
    assert forall p, q :: p in ps && q in ps && KeyOf(p) == KeyOf(q) ==> SameKey(p, q);
    var p :| p in ps && KeyOf(p) == k;
    p
  }

  function ByKey(ps: set<PackageId>): map<BinaryKey, PackageId>
    requires DistinctKeys(ps)
  {
    map k | k in KeysOf(ps) :: AtKey(ps, k)
  }

  lemma ByKeyAt(ps: set<PackageId>)
    requires DistinctKeys(ps)
    ensures forall k :: k in ByKey(ps) ==> ByKey(ps)[k] in ps && KeyOf(ByKey(ps)[k]) == k
    ensures forall p :: p in ps ==> KeyOf(p) in ByKey(ps) && ByKey(ps)[KeyOf(p)] == p
    ensures forall k :: k in ByKey(ps) <==> k in KeysOf(ps)
  {
    assert forall p, q :: p in ps && q in ps && KeyOf(p) == KeyOf(q) ==> SameKey(p, q);
  }

  function BinariesAfter(binaries: map<BinaryKey, PackageId>, c: Change): map<BinaryKey, PackageId>
    requires DistinctKeys(c.updates)
  {
    BinariesWithout(binaries, c.rms) + ByKey(c.updates)
  }

  /** The binaries that are removed or replaced. */
  function LostBinaries(binaries: map<BinaryKey, PackageId>, c: Change): map<BinaryKey, PackageId> {
    map k | k in binaries && (binaries[k] in c.rms || k in KeysOf(c.updates)) :: binaries[k]
  }

  /** The sources once the binaries `rms` and `updates` have been dealt with. */
  function SourcesWith(sources: map<string, SourcePackage>, c: Change, rms: set<PackageId>, updates: set<PackageId>)
    : map<string, SourcePackage> {
    if c.RemovesSource() then sources - {c.sourceName}
    else
      var before := if c.sourceName in sources then sources[c.sourceName].binaries else {};
      sources[c.sourceName := SourcePackage(c.sourceVersion, (before - rms) + updates)]
  }

  function SourcesAfter(sources: map<string, SourcePackage>, c: Change): map<string, SourcePackage> {
    SourcesWith(sources, c, c.rms, c.updates)
  }

  function ProvidesAfter(data: Packages, table: Table, c: Change): Table {
    TableAfter(table, Registrations(data, c.rms), Registrations(data, c.updates))
  }

  function After(data: Packages, s: SuiteState, c: Change): SuiteState
    requires DistinctKeys(c.updates)
  {
    SuiteState(
      SourcesAfter(s.sources, c),
      BinariesAfter(s.binaries, c),
      ProvidesAfter(data, s.providesTable, c),
      ContentsAfter(s, c))
  }

  // What a change means, source by source, binary by binary and entry by entry.

  /** The source has the version of the item, without the binaries removed and with those added; or it is
      gone if the item removes it.  Other sources are as before. */
  ghost predicate SourcesChanged(before: map<string, SourcePackage>, c: Change, after: map<string, SourcePackage>) {
    && (c.RemovesSource() <==> c.sourceName !in after)
    && (c.sourceName in after ==>
          && after[c.sourceName].version == c.sourceVersion
          && forall p :: p in after[c.sourceName].binaries <==>
               p in c.updates || (p !in c.rms && c.sourceName in before && p in before[c.sourceName].binaries))
    && (forall name :: name != c.sourceName ==>
          (name in after <==> name in before) && (name in before ==> after[name] == before[name]))
  }

  /** A key has the binary added under it, or else the one it had, unless that is removed. */
  ghost predicate BinariesChanged(before: map<BinaryKey, PackageId>, c: Change, after: map<BinaryKey, PackageId>) {
    forall k, p :: k in after && after[k] == p <==>
      (p in c.updates && KeyOf(p) == k) || (k in before && before[k] == p && p !in c.rms && forall q :: q in c.updates ==> KeyOf(q) != k)
  }

  predicate Provides(data: Packages, ps: set<PackageId>, r: Registration) {
    exists p, v :: p in ps && v in VirtualsOf(data, p)
      && r == Registration(BinaryKey(v.name, p.architecture), Provider(p.packageName, v.version))
  }

  /** An entry is there if a binary added provides it, or if it was there and no binary removed provides it. */
  ghost predicate ProvidesChanged(data: Packages, before: Table, c: Change, after: Table) {
    forall r :: IsRegistered(after, r) <==> Provides(data, c.updates, r) || (IsRegistered(before, r) && !Provides(data, c.rms, r))
  }

  /** The tester learns of the binaries added and forgets those removed or replaced. */
  ghost predicate ContentsChanged(s: SuiteState, c: Change, after: set<PackageId>) {
    forall p :: p in after <==>
      p in c.updates || (p in s.contents
        && !exists k :: k in s.binaries && s.binaries[k] == p && (p in c.rms || exists q :: q in c.updates && KeyOf(q) == k))
  }

  ghost predicate Changed(data: Packages, s: SuiteState, c: Change, t: SuiteState) {
    && SourcesChanged(s.sources, c, t.sources)
    && BinariesChanged(s.binaries, c, t.binaries)
    && ProvidesChanged(data, s.providesTable, c, t.providesTable)
    && ContentsChanged(s, c, t.contents)
  }

  lemma AfterChanged(data: Packages, s: SuiteState, c: Change)
    requires DistinctKeys(c.updates)
    ensures Changed(data, s, c, After(data, s, c))
  {
    BinariesAre(s.binaries, c);
    ProvidesAre(data, s.providesTable, c);
    ContentsAre(s, c);
  }

  lemma ContentsAre(s: SuiteState, c: Change)
    requires DistinctKeys(c.updates)
    ensures ContentsChanged(s, c, ContentsAfter(s, c))
  {
    var lost := LostBinaries(s.binaries, c);
    forall p
      ensures p in lost.Values <==>
        exists k :: k in s.binaries && s.binaries[k] == p && (p in c.rms || exists q :: q in c.updates && KeyOf(q) == k)
    {
      if p in lost.Values {
        var k :| k in lost && lost[k] == p;
        assert k in s.binaries && s.binaries[k] == p;
      }
      if k :| k in s.binaries && s.binaries[k] == p && (p in c.rms || exists q :: q in c.updates && KeyOf(q) == k) {
        assert lost[k] == p;
      }
    }
  }

  lemma BinariesAre(before: map<BinaryKey, PackageId>, c: Change)
    requires DistinctKeys(c.updates)
    ensures BinariesChanged(before, c, BinariesAfter(before, c))
  {
    var after := BinariesAfter(before, c);
    ByKeyAt(c.updates);
    forall k, p
      ensures k in after && after[k] == p <==>
        (p in c.updates && KeyOf(p) == k) || (k in before && before[k] == p && p !in c.rms && forall q :: q in c.updates ==> KeyOf(q) != k)
    {
      if k in KeysOf(c.updates) {
        assert after[k] == ByKey(c.updates)[k];
      }
    }
  }

  lemma ProvidesAre(data: Packages, before: Table, c: Change)
    ensures ProvidesChanged(data, before, c, ProvidesAfter(data, before, c))
  {
    var after := ProvidesAfter(data, before, c);
    var leaving, arriving := Registrations(data, c.rms), Registrations(data, c.updates);
    forall r
      ensures IsRegistered(after, r) <==> Provides(data, c.updates, r) || (IsRegistered(before, r) && !Provides(data, c.rms, r))
    {
      ProvidesIs(data, c.rms, r);
      ProvidesIs(data, c.updates, r);
      EntryIs(before, leaving, arriving, r);
    }
  }

  lemma ProvidesIs(data: Packages, ps: set<PackageId>, r: Registration)
    ensures Provides(data, ps, r) <==> r in Registrations(data, ps)
  {
    if Provides(data, ps, r) {
      var p, v :| p in ps && v in VirtualsOf(data, p)
        && r == Registration(BinaryKey(v.name, p.architecture), Provider(p.packageName, v.version));
      assert r in RegistrationsOf(data, p);
    }
    if r in Registrations(data, ps) {
      var p :| p in ps && r in RegistrationsOf(data, p);
    }
  }

  lemma EntryIs(before: Table, leaving: set<Registration>, arriving: set<Registration>, r: Registration)
    ensures IsRegistered(TableAfter(before, leaving, arriving), r) <==>
            r in arriving || (IsRegistered(before, r) && r !in leaving)
  {
    forall regs: set<Registration> | regs == leaving || regs == arriving
      ensures r.provider in EntriesAt(regs, r.key) <==> r in regs
    {
      assert forall x: Registration :: x.key == r.key && x.provider == r.provider ==> x == r;
    }
  }

  /** What the tester knows afterwards. */
  function ContentsAfter(s: SuiteState, c: Change): set<PackageId> {
    (s.contents - LostBinaries(s.binaries, c).Values) + c.updates
  }

  /** A tester that knew exactly the binaries of the suite still does. */
  lemma ContentsCoherent(s: SuiteState, c: Change)
    requires Coherent(s) && DistinctKeys(c.updates)
    ensures ContentsAfter(s, c) == BinariesAfter(s.binaries, c).Values
  {
    var lost, after := LostBinaries(s.binaries, c), BinariesAfter(s.binaries, c);
    BinariesRecorded(s.binaries, c);
    ByKeyAt(c.updates);
    forall p
      ensures p in ContentsAfter(s, c) <==> p in after.Values
    {
      if p in c.updates {
        assert after[KeyOf(p)] == p;
      } else if p in after.Values {
        var k :| k in after && after[k] == p;
        assert k !in KeysOf(c.updates) && k !in lost;
        assert forall j :: j in lost && lost[j] == p ==> j == k;
      } else {
        assert forall k :: k in s.binaries && s.binaries[k] == p && k !in lost ==> OptionAt(after, k) == Some(p);
        assert forall k :: k in s.binaries && s.binaries[k] == p && k in lost ==> lost[k] == p;
      }
    }
  }

  /** The undo record of a change. */
  function EntryOf(data: Packages, s: SuiteState, c: Change): LogEntry {
    LogEntry(
      Undo(
        map[c.sourceName := OptionAt(s.sources, c.sourceName)],
        LostBinaries(s.binaries, c),
        TableUndo(s.providesTable, Registrations(data, c.rms) + Registrations(data, c.updates))),
      c.updates)
  }

  /** The undo record of a change leads back to where the change started. */
  lemma EntryRecords(data: Packages, s: SuiteState, c: Change)
    requires Applicable(s, c) && Coherent(s) && Registered(data, s.binaries, s.providesTable)
    ensures Records(s, EntryOf(data, s, c), After(data, s, c))
    ensures Registered(data, After(data, s, c).binaries, After(data, s, c).providesTable)
  {
    SourcesRestored(s.sources, c);
    TableRestored(data, s, c);
    StillRegistered(data, s, c);
    BinariesRecorded(s.binaries, c);
    ContentsCoherent(s, c);
  }

  lemma RestoredIs<K, V>(m: map<K, V>, undo: map<K, Option<V>>, before: map<K, V>)
    requires forall k :: k in undo ==> undo[k] == OptionAt(before, k)
    requires forall k :: k !in undo ==> (k in m <==> k in before)
    requires forall k :: k !in undo && k in m ==> m[k] == before[k]
    ensures Restored(m, undo) == before
  {
  }

  lemma SourcesRestored(sources: map<string, SourcePackage>, c: Change)
    requires c.RemovesSource() ==> c.sourceName in sources
    ensures var undo := map[c.sourceName := OptionAt(sources, c.sourceName)];
      Restored(SourcesAfter(sources, c), undo) == sources && Deletable(SourcesAfter(sources, c), undo)
  {
    RestoredIs(SourcesAfter(sources, c), map[c.sourceName := OptionAt(sources, c.sourceName)], sources);
  }

  lemma BinariesRecorded(binaries: map<BinaryKey, PackageId>, c: Change)
    requires DistinctKeys(c.updates) && forall k :: k in binaries ==> KeyOf(binaries[k]) == k
    ensures var lost, after := LostBinaries(binaries, c), BinariesAfter(binaries, c);
      && (forall k :: k in binaries && k !in lost ==>
            k !in KeysOf(c.updates) && k in after && after[k] == binaries[k])
      && (forall k :: k in after && k !in KeysOf(c.updates) ==> k in binaries && binaries[k] == after[k])
      && (forall p :: p in c.updates ==> KeyOf(p) in after && after[KeyOf(p)] == p)
      && (forall k :: k in after ==> KeyOf(after[k]) == k)
  {
    ByKeyAt(c.updates);
  }

  /** In a sound suite an entry that is about to be dropped is there. */
  lemma EntryPresent(table: Table, leaving: set<Registration>, r: Registration)
    requires IsRegistered(table, r) && r !in leaving
    ensures IsRegistered(TableAfter(table, leaving, {}), r)
  {
    assert r.provider in TableEntry(table, leaving, {}, r.key);
  }

  /** Whatever leaves is in the table. */
  lemma LeavingRegistered(data: Packages, s: SuiteState, c: Change, r: Registration)
    requires Applicable(s, c) && Coherent(s) && Registered(data, s.binaries, s.providesTable)
    requires r in Registrations(data, c.rms)
    ensures IsRegistered(s.providesTable, r) && r.key in s.providesTable
  {
    var p :| p in c.rms && r in RegistrationsOf(data, p);
    var j :| j in s.binaries && s.binaries[j] == p;
    assert IsRegistered(s.providesTable, r);
  }

  lemma TableRestored(data: Packages, s: SuiteState, c: Change)
    requires Applicable(s, c) && Coherent(s) && Registered(data, s.binaries, s.providesTable)
    ensures var undo, table := EntryOf(data, s, c).undo.virtual, ProvidesAfter(data, s.providesTable, c);
      Restored(table, undo) == s.providesTable && Deletable(table, undo)
  {
    var leaving, arriving := Registrations(data, c.rms), Registrations(data, c.updates);
    var undo, table := TableUndo(s.providesTable, leaving + arriving), TableAfter(s.providesTable, leaving, arriving);
    forall r | r in leaving
      ensures r.key in s.providesTable
    {
      LeavingRegistered(data, s, c, r);
    }
    forall k
      ensures k !in undo ==> (k in table <==> k in s.providesTable)
      ensures k !in undo && k in table ==> table[k] == s.providesTable[k]
      ensures k in undo && undo[k].None? ==> k in table
    {
      TableAt(s.providesTable, leaving, arriving, k);
    }
    RestoredIs(table, undo, s.providesTable);
  }

  lemma TableAt(table: Table, leaving: set<Registration>, arriving: set<Registration>, k: BinaryKey)
    ensures k !in KeysIn(leaving + arriving) ==> OptionAt(TableAfter(table, leaving, arriving), k) == OptionAt(table, k)
    ensures k in KeysIn(arriving) ==> k in TableAfter(table, leaving, arriving)
    ensures k in KeysIn(leaving + arriving) <==> k in KeysIn(leaving) || k in KeysIn(arriving)
  {
    if k in KeysIn(leaving) {
      var r :| r in leaving && r.key == k;
      assert r in leaving + arriving;
    }
    if k in KeysIn(arriving) {
      var r :| r in arriving && r.key == k;
      assert r in leaving + arriving && r.provider in EntriesAt(arriving, k);
    }
    if k !in KeysIn(leaving + arriving) {
      assert EntriesAt(leaving, k) == {} && EntriesAt(arriving, k) == {};
      assert TableEntry(table, leaving, arriving, k) == Lookup(table, k);
    }
  }

  lemma StillRegistered(data: Packages, s: SuiteState, c: Change)
    requires Applicable(s, c) && Coherent(s) && Registered(data, s.binaries, s.providesTable)
    ensures Registered(data, BinariesAfter(s.binaries, c), ProvidesAfter(data, s.providesTable, c))
  {
    var after, table := BinariesAfter(s.binaries, c), ProvidesAfter(data, s.providesTable, c);
    BinariesRecorded(s.binaries, c);
    forall k, r | k in after && r in RegistrationsOf(data, after[k])
      ensures IsRegistered(table, r)
    {
      if after[k] in c.updates {
        assert r in Registrations(data, c.updates);
      } else {
        assert k in s.binaries && s.binaries[k] == after[k];
        assert IsRegistered(s.providesTable, r);
        OthersProvide(data, s.binaries, c.rms, k, r);
      }
      assert r.provider in TableEntry(s.providesTable, Registrations(data, c.rms), Registrations(data, c.updates), r.key);
    }
  }

  /** The entries of a binary that stays are not among those of the binaries that leave. */
  lemma OthersProvide(data: Packages, binaries: map<BinaryKey, PackageId>, rms: set<PackageId>, k: BinaryKey, r: Registration)
    requires k in binaries && binaries[k] !in rms && r in RegistrationsOf(data, binaries[k])
    requires forall j :: j in binaries ==> KeyOf(binaries[j]) == j
    requires forall p :: p in rms ==> p in binaries.Values
    ensures r !in Registrations(data, rms) && r.provider !in EntriesAt(Registrations(data, rms), r.key)
  {
    forall q, e | q in rms && e in RegistrationsOf(data, q)
      ensures e != r
    {
      assert e == r ==> KeyOf(q) == k;
    }
  }

  // One entry at a time.

  lemma OneMore(regs: set<Registration>, r: Registration, k: BinaryKey)
    ensures EntriesAt(regs + {r}, k) == EntriesAt(regs, k) + if k == r.key then {r.provider} else {}
    ensures k in KeysIn(regs + {r}) <==> k in KeysIn(regs) || k == r.key
  {
    assert r in regs + {r};
    forall e | e in EntriesAt(regs, k)
      ensures e in EntriesAt(regs + {r}, k)
    {
      assert Registration(k, e) in regs + {r};
    }
    if k in KeysIn(regs) {
      var q :| q in regs && q.key == k;
      assert q in regs + {r};
    }
  }

  lemma SameTable(t: Table, t': Table)
    requires forall k :: OptionAt(t, k) == OptionAt(t', k)
    ensures t == t'
  {
    forall k
      ensures k in t <==> k in t'
      ensures k in t ==> t[k] == t'[k]
    {
      assert OptionAt(t, k) == OptionAt(t', k);
    }
  }

  function WithoutEntry(t: Table, r: Registration): Table {
    var left := Lookup(t, r.key) - {r.provider};
    if left == {} then t - {r.key} else t[r.key := left]
  }

  function WithEntry(t: Table, r: Registration): Table {
    t[r.key := Lookup(t, r.key) + {r.provider}]
  }

  lemma OneLeavesAt(table: Table, leaving: set<Registration>, r: Registration, k: BinaryKey)
    ensures OptionAt(TableAfter(table, leaving + {r}, {}), k) == OptionAt(WithoutEntry(TableAfter(table, leaving, {}), r), k)
  {
    OneMore(leaving, r, k);
    assert EntriesAt({}, k) == {};
    var now := TableEntry(table, leaving, {}, k);
    assert TableEntry(table, leaving + {r}, {}, k) == if k == r.key then now - {r.provider} else now;
  }

  lemma OneLeaves(table: Table, leaving: set<Registration>, r: Registration)
    ensures var t := TableAfter(table, leaving, {});
      TableAfter(table, leaving + {r}, {}) == WithoutEntry(t, r)
  {
    forall k
      ensures OptionAt(TableAfter(table, leaving + {r}, {}), k) == OptionAt(WithoutEntry(TableAfter(table, leaving, {}), r), k)
    {
      OneLeavesAt(table, leaving, r, k);
    }
    SameTable(TableAfter(table, leaving + {r}, {}), WithoutEntry(TableAfter(table, leaving, {}), r));
  }

  lemma OneArrivesAt(table: Table, leaving: set<Registration>, arriving: set<Registration>, r: Registration, k: BinaryKey)
    ensures OptionAt(TableAfter(table, leaving, arriving + {r}), k)
         == OptionAt(WithEntry(TableAfter(table, leaving, arriving), r), k)
  {
    OneMore(arriving, r, k);
    var now := TableEntry(table, leaving, arriving, k);
    assert TableEntry(table, leaving, arriving + {r}, k) == if k == r.key then now + {r.provider} else now;
    assert Lookup(TableAfter(table, leaving, arriving), k) == now by {
      if k !in KeysIn(leaving) + KeysIn(arriving) {
        assert EntriesAt(leaving, k) == {} && EntriesAt(arriving, k) == {};
      }
    }
  }

  lemma OneArrives(table: Table, leaving: set<Registration>, arriving: set<Registration>, r: Registration)
    ensures TableAfter(table, leaving, arriving + {r}) == WithEntry(TableAfter(table, leaving, arriving), r)
  {
    forall k
      ensures OptionAt(TableAfter(table, leaving, arriving + {r}), k)
           == OptionAt(WithEntry(TableAfter(table, leaving, arriving), r), k)
    {
      OneArrivesAt(table, leaving, arriving, r, k);
    }
    SameTable(TableAfter(table, leaving, arriving + {r}), WithEntry(TableAfter(table, leaving, arriving), r));
  }

  lemma OneMoreUndo(table: Table, leaving: set<Registration>, arriving: set<Registration>, r: Registration,
                    virtual: map<BinaryKey, Option<set<Provider>>>)
    requires virtual == TableUndo(table, leaving + arriving)
    ensures var t := TableAfter(table, leaving, arriving);
      var virtual' := if r.key in virtual then virtual else virtual[r.key := OptionAt(t, r.key)];
      virtual' == TableUndo(table, leaving + {r} + arriving) == TableUndo(table, leaving + (arriving + {r}))
  {
    TableAt(table, leaving, arriving, r.key);
    assert leaving + {r} + arriving == leaving + arriving + {r} == leaving + (arriving + {r});
    forall k
      ensures k in KeysIn(leaving + arriving + {r}) <==> k in KeysIn(leaving + arriving) || k == r.key
    {
      OneMore(leaving + arriving, r, k);
    }
  }

  lemma RegistrationsStep(data: Packages, done: set<PackageId>, p: PackageId)
    ensures Registrations(data, done + {p}) == Registrations(data, done) + RegistrationsOf(data, p)
  {
    forall r | r in RegistrationsOf(data, p)
      ensures r in Registrations(data, done + {p})
    {
      assert p in done + {p};
    }
  }
}
