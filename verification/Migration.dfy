/** The migration engine: applies items to the suite inside nested transactions. */
module Migration {
  import opened Universes
  import opened Transactions
  import opened Changes
  import opened Affected

  /** A state the engine can work on. */
  ghost predicate Sound(u: Universe, data: Packages, s: SuiteState) {
    && Coherent(s)
    && Registered(data, s.binaries, s.providesTable)
    && (forall p :: p in s.contents ==> u.Knows(p))
  }

  /** The innermost log with entries appended; without a transaction nothing is logged. */
  function ExtendLast(logs: seq<seq<LogEntry>>, more: seq<LogEntry>): seq<seq<LogEntry>> {
    if logs == [] then [] else logs[|logs| - 1 := logs[|logs| - 1] + more]
  }

  lemma ExtendTwice(logs: seq<seq<LogEntry>>, a: seq<LogEntry>, b: seq<LogEntry>)
    ensures ExtendLast(ExtendLast(logs, a), b) == ExtendLast(logs, a + b)
    ensures ExtendLast(logs, []) == logs
  {
    if logs != [] {
      assert logs[|logs| - 1] + a + b == logs[|logs| - 1] + (a + b);
      assert logs[|logs| - 1] + [] == logs[|logs| - 1];
    }
  }

  /** The log of the transaction around the innermost one. */
  function EnclosingOf(logs: seq<seq<LogEntry>>): seq<LogEntry> {
    if |logs| < 2 then [] else logs[|logs| - 2]
  }

  class MigrationManager {
    const universe: Universe
    const data: Packages
    const suite: TargetSuite
    var transactions: seq<MigrationTransactionState>
    /** What the open transactions have recorded, outermost first. */
    ghost var records: seq<Record>

    constructor (universe: Universe, data: Packages, suite: TargetSuite)
      requires Keyed(suite.binaries)
      ensures this.universe == universe && this.data == data && this.suite == suite
      ensures transactions == [] && Valid()
      ensures Sound(universe, data, suite.State()) ==> Intact()
    {
      this.universe, this.data, this.suite := universe, data, suite;
      transactions, records := [], [];
    }

    /** The engine can work: binaries come under their own keys, and the open transactions are nested.
        This is all that a rollback leaves in any case. */
    ghost predicate Valid()
      reads this, suite, transactions
    {
      Keyed(suite.binaries) && |records| == |transactions| && Nested(|transactions|)
    }

    /** The lowest `n` transactions are open, and only the last one has no child. */
    ghost predicate Nested(n: nat)
      requires n <= |transactions|
      reads this, transactions
    {
      && (forall i, j :: 0 <= i < j < |transactions| ==> transactions[i] != transactions[j])
      && (forall i {:trigger Frame(i, n)} :: 0 <= i < n ==> Frame(i, n))
    }

    /** Transaction number `i` of `n` is open and has the one below it as its parent. */
    ghost predicate Frame(i: nat, n: nat)
      requires i < |transactions|
      reads this, transactions
    {
      var t := transactions[i];
      && t.suite == suite && t.Open() && t.Loggable()
      && t.parent == (if i == 0 then null else transactions[i - 1])
      && (t.pendingChild <==> i + 1 < n)
      && i < |records| && records[i] == Record(t.start, t.states, t.undoItems)
    }

    /** The suite is sound, and the open transactions can undo their changes. */
    ghost predicate Intact()
      reads this, suite
    {
      Sound(universe, data, suite.State()) && Chain(universe, data, records, suite.State())
    }

    /** The logs of the open transactions, outermost first. */
    ghost function Logs(): seq<seq<LogEntry>>
      reads this`records
    {
      LogsOf(records)
    }

    method StartTransaction() returns (t: MigrationTransactionState)
      requires Valid()
      modifies this`transactions, this`records, transactions
      ensures Valid() && fresh(t)
      ensures transactions == old(transactions) + [t]
      ensures t.start == suite.State() && Logs() == old(Logs()) + [[]]
      ensures old(Intact()) ==> Intact()
    {
      ghost var n := |transactions|;
      assert n > 0 ==> Frame(n - 1, n);
      var parent := if transactions == [] then null else transactions[|transactions| - 1];
      ghost var before := transactions;
      t := new MigrationTransactionState(suite, parent);
      transactions := transactions + [t];
      records := records + [Record(t.start, t.states, [])];
      ghost var height := |transactions|;
      forall i | 0 <= i < height
        ensures Frame(i, height)
      {
        assert i < |before| ==> old(Frame(i, n));
      }
      if old(Intact()) {
        ChainStarted(universe, data, old(records), suite.State());
      }
    }

    /** Commit the innermost transaction and leave it. */
    method CommitTransaction()
      requires Valid() && transactions != []
      modifies this`transactions, this`records, transactions
      ensures Valid()
      ensures transactions == old(transactions[..|transactions| - 1])
      ensures Logs() == old(ExtendLast(Logs()[..|transactions| - 1], Logs()[|transactions| - 1]))
      ensures old(Intact()) ==> Intact()
    {
      if Intact() {
        ChainJoined(universe, data, records, suite.State());
      }
      var n := |transactions| - 1;
      var t := transactions[n];
      assert Frame(n, n + 1) && (n > 0 ==> Frame(n - 1, n + 1));
      JoinedLogs(records);
      t.Commit();
      records := Joined(records);
      transactions := transactions[..n];
      forall i | 0 <= i < n
        ensures Frame(i, n)
      {
        assert old(Frame(i, n + 1));
      }
    }

    /** Roll the innermost transaction back and leave it.  If the engine was intact, the suite is as it
        was at the start exactly when the log is reversible, and then the engine is intact. */
    method RollbackTransaction()
      requires Valid() && transactions != []
      modifies this`transactions, this`records, transactions, suite
      ensures Valid()
      ensures transactions == old(transactions[..|transactions| - 1])
      ensures Logs() == old(Logs()[..|transactions| - 1])
      ensures suite.State() == old(RolledBack(suite.State(), transactions[|transactions| - 1].undoItems))
      ensures var t := old(transactions[|transactions| - 1]);
        old(Intact()) ==>
          && RestoresStart(t.start, old(t.undoItems), suite.State())
          && (Reversible(t.start, old(t.undoItems)) ==> Intact())
    {
      var n := |transactions| - 1;
      assert Frame(n, n + 1);
      if Intact() {
        assert LevelAt(universe, data, records, suite.State(), n);
        ChainLeft(universe, data, records, suite.State());
      }
      RollBackTop();
      Leave();
    }

    method RollBackTop()
      requires Valid() && transactions != []
      modifies transactions, suite
      ensures Keyed(suite.binaries) && Nested(|transactions| - 1)
      ensures suite.State() == old(RolledBack(suite.State(), transactions[|transactions| - 1].undoItems))
      ensures var t := transactions[|transactions| - 1];
        && t.undoItems == old(t.undoItems)
        && (old(t.Traced() && suite.State() == t.states[|t.undoItems|]) ==> RestoresStart(t.start, t.undoItems, suite.State()))
    {
      var n := |transactions| - 1;
      var t := transactions[n];
      assert Frame(n, n + 1) && (n > 0 ==> Frame(n - 1, n + 1));
      RolledBackKeyed(suite.State(), t.undoItems);
      t.Rollback();
      forall i | 0 <= i < n
        ensures Frame(i, n)
      {
        assert old(Frame(i, n + 1));
      }
    }

    /** Forget the innermost transaction. */
    method Leave()
      requires transactions != [] && Nested(|transactions| - 1) && |records| == |transactions| && Keyed(suite.binaries)
      modifies this`transactions, this`records
      ensures Valid()
      ensures transactions == old(transactions[..|transactions| - 1]) && records == old(records[..|records| - 1])
    {
      var n := |transactions| - 1;
      transactions, records := transactions[..n], records[..n];
      forall i | 0 <= i < n
        ensures Frame(i, n)
      {
        assert old(Frame(i, n));
      }
    }

    /** The log of the transaction around the current one. */
    function Enclosing(): seq<LogEntry>
      reads this, transactions
    {
      if |transactions| < 2 then [] else transactions[|transactions| - 2].undoItems
    }

    method ReplaceSource(c: Change)
      modifies suite`sources
      ensures suite.sources == SourcesWith(old(suite.sources), c, {}, {})
    {
      if c.RemovesSource() {
        suite.sources := suite.sources - {c.sourceName};
      } else {
        // a copy with its own list of binaries
        var binaries := if c.sourceName in suite.sources then suite.sources[c.sourceName].binaries else {};
        assert binaries - {} + {} == binaries;
        suite.sources := suite.sources[c.sourceName := SourcePackage(c.sourceVersion, binaries)];
      }
    }

    /** Drop the provides-table entries of `p`, remembering what the keys held before the change. */
    method Unregister(p: PackageId, virtual0: map<BinaryKey, Option<set<Provider>>>, ghost table: Table,
                      ghost done: set<PackageId>)
      returns (virtual: map<BinaryKey, Option<set<Provider>>>)
      requires suite.providesTable == TableAfter(table, Registrations(data, done), {})
      requires virtual0 == TableUndo(table, Registrations(data, done))
      modifies suite`providesTable
      ensures suite.providesTable == TableAfter(table, Registrations(data, done + {p}), {})
      ensures virtual == TableUndo(table, Registrations(data, done + {p}))
    {
      virtual := virtual0;
      var rest := RegistrationsOf(data, p);
      ghost var leaving := Registrations(data, done);
      while rest != {}
        invariant rest <= RegistrationsOf(data, p)
        invariant leaving == Registrations(data, done) + (RegistrationsOf(data, p) - rest)
        invariant suite.providesTable == TableAfter(table, leaving, {})
        invariant virtual == TableUndo(table, leaving)
      {
        var r :| r in rest;
        OneLeaves(table, leaving, r);
        OneMoreLeft(table, leaving, r, virtual);
        OneMoved(Registrations(data, done), RegistrationsOf(data, p), rest, r);
        rest := rest - {r};
        leaving := leaving + {r};
        if r.key !in virtual {
          virtual := virtual[r.key := OptionAt(suite.providesTable, r.key)];
        }
        var providers := Lookup(suite.providesTable, r.key) - {r.provider};
        if providers == {} {
          suite.providesTable := suite.providesTable - {r.key};
        } else {
          suite.providesTable := suite.providesTable[r.key := providers];
        }
      }
      RegistrationsStep(data, done, p);
      assert leaving == Registrations(data, done + {p});
    }

    /** Add the provides-table entries of `p`, remembering what the keys held before the change. */
    method Register(p: PackageId, virtual0: map<BinaryKey, Option<set<Provider>>>, ghost table: Table,
                    ghost leaving: set<Registration>, ghost done: set<PackageId>)
      returns (virtual: map<BinaryKey, Option<set<Provider>>>)
      requires suite.providesTable == TableAfter(table, leaving, Registrations(data, done))
      requires virtual0 == TableUndo(table, leaving + Registrations(data, done))
      modifies suite`providesTable
      ensures suite.providesTable == TableAfter(table, leaving, Registrations(data, done + {p}))
      ensures virtual == TableUndo(table, leaving + Registrations(data, done + {p}))
    {
      virtual := virtual0;
      var rest := RegistrationsOf(data, p);
      ghost var arriving := Registrations(data, done);
      while rest != {}
        invariant rest <= RegistrationsOf(data, p)
        invariant arriving == Registrations(data, done) + (RegistrationsOf(data, p) - rest)
        invariant suite.providesTable == TableAfter(table, leaving, arriving)
        invariant virtual == TableUndo(table, leaving + arriving)
      {
        var r :| r in rest;
        OneArrives(table, leaving, arriving, r);
        OneMoreUndo(table, leaving, arriving, r, virtual);
        OneMoved(Registrations(data, done), RegistrationsOf(data, p), rest, r);
        rest := rest - {r};
        arriving := arriving + {r};
        if r.key !in virtual {
          virtual := virtual[r.key := OptionAt(suite.providesTable, r.key)];
        }
        suite.providesTable := suite.providesTable[r.key := Lookup(suite.providesTable, r.key) + {r.provider}];
      }
      RegistrationsStep(data, done, p);
      assert arriving == Registrations(data, done + {p});
    }

    /** Remove the binaries of the item that are not smooth-updated. */
    method RemoveBinaries(c: Change, eqvSet: set<BinaryKey>, ghost s: SuiteState)
      returns (removed: map<BinaryKey, PackageId>, virtual: map<BinaryKey, Option<set<Provider>>>, affected: set<PackageId>)
      requires Applicable(s, c) && Keyed(s.binaries)
      requires suite.State() == s.(sources := SourcesWith(s.sources, c, {}, {}))
      modifies suite
      ensures Removing(universe, data, s, c, eqvSet, c.rms, suite.State(), removed, virtual, affected)
    {
      removed, virtual, affected := map[], map[], {};
      var rest := c.rms;
      ghost var done: set<PackageId> := {};
      NothingRemoved(universe, data, s, c, eqvSet);
      while rest != {}
        invariant Split(c.rms, done, rest)
        invariant Removing(universe, data, s, c, eqvSet, done, suite.State(), removed, virtual, affected)
      {
        var p :| p in rest;
        Taken(c.rms, done, rest, p);
        removed, virtual, affected := RemoveOne(c, eqvSet, s, done, p, removed, virtual, affected);
        rest, done := rest - {p}, done + {p};
      }
    }

    method RemoveOne(c: Change, eqvSet: set<BinaryKey>, ghost s: SuiteState, ghost done: set<PackageId>, p: PackageId,
                     removed0: map<BinaryKey, PackageId>, virtual0: map<BinaryKey, Option<set<Provider>>>,
                     affected0: set<PackageId>)
      returns (removed: map<BinaryKey, PackageId>, virtual: map<BinaryKey, Option<set<Provider>>>, affected: set<PackageId>)
      requires Applicable(s, c) && Keyed(s.binaries) && done <= c.rms && p in c.rms && p !in done
      requires Removing(universe, data, s, c, eqvSet, done, suite.State(), removed0, virtual0, affected0)
      modifies suite
      ensures Removing(universe, data, s, c, eqvSet, done + {p}, suite.State(), removed, virtual, affected)
    {
      ghost var state := suite.State();
      Removable(s, c, done, p, state);
      // save the old binary for undo
      removed := removed0[KeyOf(p) := p];
      var found := Affects(p, eqvSet);
      affected := affected0 + found;
      virtual := Unregister(p, virtual0, s.providesTable, done);
      Discard(c, p);
      TakeOut(p);
      RemovalStep(universe, data, s, c, eqvSet, done, p, state, removed0, virtual0, affected0,
                  suite.State(), removed, virtual, affected);
    }

    method Affects(p: PackageId, eqvSet: set<BinaryKey>) returns (affected: set<PackageId>)
      ensures affected == RemovalAffects(universe, eqvSet, p)
    {
      affected := {};
      if KeyOf(p) !in eqvSet {
        // all the reverse dependencies are affected by the change
        affected := universe.ReverseDependenciesOf(p) + universe.NegativeDependenciesOf(p);
      }
    }

    method TakeOut(p: PackageId)
      modifies suite`binaries, suite`contents
      ensures suite.binaries == old(suite.binaries) - {KeyOf(p)} && suite.contents == old(suite.contents) - {p}
    {
      suite.binaries := suite.binaries - {KeyOf(p)};
      suite.RemoveBinary(p);
    }

    /** Take a binary off the list of its source; for source removal, the source is already gone. */
    method Discard(c: Change, p: PackageId)
      modifies suite`sources
      ensures suite.sources == Discarded(old(suite.sources), c.sourceName, p)
    {
      if c.sourceName in suite.sources {
        var source := suite.sources[c.sourceName];
        suite.sources := suite.sources[c.sourceName := source.(binaries := source.binaries - {p})];
      }
    }

    /** Add the binaries of the item, replacing those that another source built. */
    method AddBinaries(c: Change, eqvSet: set<BinaryKey>, enclosing: seq<LogEntry>,
                       virtual0: map<BinaryKey, Option<set<Provider>>>, ghost s: SuiteState)
      returns (replaced: map<BinaryKey, PackageId>, virtual: map<BinaryKey, Option<set<Provider>>>, affected: set<PackageId>)
      requires Applicable(s, c) && Keyed(s.binaries)
      requires Adding(universe, data, s, c, enclosing, eqvSet, {}, suite.State(), map[], virtual0, {})
      modifies suite
      ensures Adding(universe, data, s, c, enclosing, eqvSet, c.updates, suite.State(), replaced, virtual, affected)
    {
      replaced, virtual, affected := map[], virtual0, {};
      var rest := c.updates;
      ghost var done: set<PackageId> := {};
      while rest != {}
        invariant Split(c.updates, done, rest)
        invariant Adding(universe, data, s, c, enclosing, eqvSet, done, suite.State(), replaced, virtual, affected)
      {
        var p :| p in rest;
        ghost var state, replaced0, virtual1, affected0 := suite.State(), replaced, virtual, affected;
        Taken(c.updates, done, rest, p);
        rest := rest - {p};
        var found;
        replaced, found := Place(p, eqvSet, enclosing, replaced);
        Include(c, p);
        virtual := Register(p, virtual, s.providesTable, Registrations(data, c.rms), done);
        affected := affected + found;
        UpdateStep(universe, data, s, c, enclosing, eqvSet, done, p, state, replaced0, virtual1, affected0,
                   suite.State(), replaced, virtual, affected);
        done := done + {p};
      }
    }

    /** Put a binary into the suite, in place of the one that has its key if there is one. */
    method Place(p: PackageId, eqvSet: set<BinaryKey>, enclosing: seq<LogEntry>, replaced0: map<BinaryKey, PackageId>)
      returns (replaced: map<BinaryKey, PackageId>, affected: set<PackageId>)
      modifies suite`binaries, suite`contents
      ensures suite.binaries == old(suite.binaries)[KeyOf(p) := p]
      ensures suite.contents == Replaced(old(suite.contents), old(suite.binaries), KeyOf(p)) + {p}
      ensures replaced == Noted(replaced0, old(suite.binaries), KeyOf(p))
      ensures affected == UpdateAffects(universe, old(suite.binaries), enclosing, eqvSet, p)
    {
      var key := KeyOf(p);
      replaced, affected := replaced0, {};
      if key !in eqvSet {
        affected := affected + {p};
      }
      if key in suite.binaries {
        var before := suite.binaries[key];
        replaced := replaced[key := before];
        if key !in eqvSet {
          affected := affected + universe.ReverseDependenciesOf(before);
        }
        suite.RemoveBinary(before);
      } else {
        var earlier := EarlierAffected(enclosing, key);
        affected := affected + earlier;
      }
      suite.binaries := suite.binaries[key := p];
      suite.AddBinary(p);
      if key !in eqvSet {
        affected := affected + {p} + universe.NegativeDependenciesOf(p);
      }
    }

    /** Put a binary on the list of its source. */
    method Include(c: Change, p: PackageId)
      requires c.sourceName in suite.sources
      modifies suite`sources
      ensures suite.sources == Included(old(suite.sources), c.sourceName, p)
    {
      var source := suite.sources[c.sourceName];
      suite.sources := suite.sources[c.sourceName := source.(binaries := source.binaries + {p})];
    }

    /** Look up what the enclosing transaction removed under a key. */
    method EarlierAffected(enclosing: seq<LogEntry>, key: BinaryKey) returns (affected: set<PackageId>)
      ensures affected == EarlierAffects(universe, enclosing, key)
    {
      affected := {};
      for i := 0 to |enclosing|
        invariant affected == EarlierAffects(universe, enclosing[..i], key)
      {
        EarlierStep(universe, enclosing, i, key);
        if key in enclosing[i].undo.binaries {
          affected := affected + universe.ReverseDependenciesOf(enclosing[i].undo.binaries[key]);
        }
      }
      assert enclosing[..|enclosing|] == enclosing;
    }

    /** Apply an item to the suite; report how to undo it and what it affects. */
    method ChangeSuite(c: Change, enclosing: seq<LogEntry>) returns (entry: LogEntry, affected: set<PackageId>)
      requires Keyed(suite.binaries) && Applicable(suite.State(), c)
      modifies suite
      ensures suite.State() == old(After(data, suite.State(), c)) && Changed(data, old(suite.State()), c, suite.State())
      ensures entry == old(EntryOf(data, suite.State(), c))
      ensures IsReverseTree(universe, old(DirectlyAffected(universe, suite.binaries, enclosing, c)), affected)
    {
      ghost var s := suite.State();
      AfterChanged(data, s, c);
      var undoSources := map[c.sourceName := OptionAt(suite.sources, c.sourceName)];
      ReplaceSource(c);
      KeyedDistinct(s.binaries, c.rms);
      var eqvSet := ComputeEqvSet(universe, c.updates, c.rms);
      var removed, virtual, affectedByRemovals := RemoveBinaries(c, eqvSet, s);
      NothingAdded(universe, data, s, c, enclosing, eqvSet, suite.State(), removed, virtual, affectedByRemovals);
      var replaced, allVirtual, affectedByUpdates := AddBinaries(c, eqvSet, enclosing, virtual, s);
      AllAdded(universe, data, s, c, enclosing, suite.State(), removed, affectedByRemovals,
               replaced, allVirtual, affectedByUpdates);
      entry := LogEntry(Undo(undoSources, removed + replaced, allVirtual), c.updates);
      affected := ComputeReverseTree(universe, affectedByRemovals + affectedByUpdates);
    }

    /** Apply an item to the suite, log how to undo it, and collect the packages it affects. */
    method ApplyItem(c: Change) returns (affected: set<PackageId>)
      requires Valid() && Applicable(suite.State(), c)
      modifies suite, transactions, this`records
      ensures Valid()
      ensures suite.State() == old(After(data, suite.State(), c))
      ensures Changed(data, old(suite.State()), c, suite.State())
      ensures IsReverseTree(universe, old(DirectlyAffected(universe, suite.binaries, Enclosing(), c)), affected)
      ensures Logs() == old(ExtendLast(Logs(), [EntryOf(data, suite.State(), c)]))
      ensures old(Intact()) && (forall p :: p in c.updates ==> universe.Knows(p)) ==> Intact()
    {
      ghost var s := suite.State();
      if Intact() && (forall p :: p in c.updates ==> universe.Knows(p)) {
        ItemIntact(universe, data, records, s, c);
      }
      ItemKeyed(data, s, c);
      AfterChanged(data, s, c);
      var entry;
      EnclosingLog();
      entry, affected := ChangeInside(c);
      LoggedLogs(records, entry, suite.State());
      LogItem(entry);
    }

    lemma EnclosingLog()
      requires Valid()
      ensures Enclosing() == EnclosingOf(Logs())
    {
      var n := |transactions|;
      assert n >= 2 ==> Frame(n - 2, n);
    }

    method ChangeInside(c: Change) returns (entry: LogEntry, affected: set<PackageId>)
      requires Valid() && Applicable(suite.State(), c) && Keyed(After(data, suite.State(), c).binaries)
      modifies suite
      ensures Valid()
      ensures suite.State() == old(After(data, suite.State(), c))
      ensures entry == old(EntryOf(data, suite.State(), c))
      ensures IsReverseTree(universe, old(DirectlyAffected(universe, suite.binaries, Enclosing(), c)), affected)
    {
      ghost var height := |transactions|;
      var enclosing := Enclosing();
      entry, affected := ChangeSuite(c, enclosing);
      forall i | 0 <= i < height
        ensures Frame(i, height)
      {
        assert old(Frame(i, height));
      }
    }

    /** Have the innermost transaction, if any, remember how to get back. */
    method LogItem(entry: LogEntry)
      requires Valid() && DistinctKeys(entry.updated) && Keyed(entry.undo.binaries)
      modifies transactions, this`records
      ensures Valid()
      ensures records == Logged(old(records), entry, suite.State())
    {
      if transactions != [] {
        var n := |transactions| - 1;
        assert Frame(n, n + 1);
        transactions[n].AddUndoItem(entry.undo, entry.updated, suite.State());
        ghost var height := |transactions|;
        records := Logged(records, entry, suite.State());
        forall i | 0 <= i < height
          ensures Frame(i, height)
        {
          assert old(Frame(i, height));
        }
      }
    }
  }

  // ---------------------------------------------------------------------------------------------
  // The stack of transactions
  // ---------------------------------------------------------------------------------------------

  /** What a transaction has recorded: the suite at its start and after every item, and the log. */
  datatype Record = Record(start: SuiteState, states: seq<SuiteState>, log: seq<LogEntry>)

  function LogsOf(records: seq<Record>): seq<seq<LogEntry>> {
    seq(|records|, i requires 0 <= i < |records| => records[i].log)
  }

  lemma JoinedLogs(records: seq<Record>)
    requires records != []
    ensures var n := |records| - 1; LogsOf(Joined(records)) == ExtendLast(LogsOf(records)[..n], LogsOf(records)[n])
    ensures |Joined(records)| == |records| - 1
  {
  }

  lemma LoggedLogs(records: seq<Record>, entry: LogEntry, after: SuiteState)
    ensures LogsOf(Logged(records, entry, after)) == ExtendLast(LogsOf(records), [entry])
  {
  }

  /** The records lead to the state `now`: each to the start of the one above it. */
  ghost predicate Chain(u: Universe, data: Packages, records: seq<Record>, now: SuiteState) {
    forall i {:trigger LevelAt(u, data, records, now, i)} :: 0 <= i < |records| ==> LevelAt(u, data, records, now, i)
  }

  ghost predicate LevelAt(u: Universe, data: Packages, records: seq<Record>, now: SuiteState, i: nat)
    requires i < |records|
  {
    var r := records[i];
    && Trace(r.states, r.log) && r.states[0] == r.start && Sound(u, data, r.start)
    && r.states[|r.log|] == if i + 1 < |records| then records[i + 1].start else now
  }

  lemma ChainStarted(u: Universe, data: Packages, records: seq<Record>, now: SuiteState)
    requires Chain(u, data, records, now) && Sound(u, data, now)
    ensures Chain(u, data, records + [Record(now, [now], [])], now)
  {
    var records' := records + [Record(now, [now], [])];
    forall i | 0 <= i < |records'|
      ensures LevelAt(u, data, records', now, i)
    {
      assert i < |records| ==> LevelAt(u, data, records, now, i);
    }
  }

  /** The last record appended to the one below it. */
  function Joined(records: seq<Record>): seq<Record> {
    var n := |records| - 1;
    if n < 1 then []
    else
      var outer, inner := records[n - 1], records[n];
      var states := if inner.states == [] then [] else inner.states[1..];
      records[..n - 1] + [Record(outer.start, outer.states + states, outer.log + inner.log)]
  }

  lemma ChainJoined(u: Universe, data: Packages, records: seq<Record>, now: SuiteState)
    requires Chain(u, data, records, now) && records != []
    ensures Chain(u, data, Joined(records), now)
  {
    var n := |records| - 1;
    if n > 0 {
      var outer, inner := records[n - 1], records[n];
      assert LevelAt(u, data, records, now, n - 1) && LevelAt(u, data, records, now, n);
      TraceAppend(outer.states, outer.log, inner.states, inner.log);
      forall i | 0 <= i < n
        ensures LevelAt(u, data, Joined(records), now, i)
      {
        assert LevelAt(u, data, records, now, i);
      }
    }
  }

  lemma ChainLeft(u: Universe, data: Packages, records: seq<Record>, now: SuiteState)
    requires Chain(u, data, records, now) && records != []
    ensures var n := |records| - 1; Chain(u, data, records[..n], records[n].start)
  {
    var n := |records| - 1;
    forall i | 0 <= i < n
      ensures LevelAt(u, data, records[..n], records[n].start, i)
    {
      assert LevelAt(u, data, records, now, i);
    }
  }

  /** The last record with one more entry. */
  function Logged(records: seq<Record>, entry: LogEntry, after: SuiteState): seq<Record> {
    var n := |records| - 1;
    if n < 0 then [] else records[n := Record(records[n].start, records[n].states + [after], records[n].log + [entry])]
  }

  lemma ChainLogged(u: Universe, data: Packages, records: seq<Record>, now: SuiteState, entry: LogEntry, after: SuiteState)
    requires Chain(u, data, records, now) && Records(now, entry, after)
    ensures Chain(u, data, Logged(records, entry, after), after)
  {
    if records != [] {
      var n := |records| - 1;
      assert LevelAt(u, data, records, now, n);
      TraceOne(now, entry, after);
      TraceAppend(records[n].states, records[n].log, [now, after], [entry]);
      forall i | 0 <= i <= n
        ensures LevelAt(u, data, Logged(records, entry, after), after, i)
      {
        assert LevelAt(u, data, records, now, i);
      }
    }
  }

  // ---------------------------------------------------------------------------------------------
  // One item
  // ---------------------------------------------------------------------------------------------

  lemma ItemIntact(u: Universe, data: Packages, records: seq<Record>, s: SuiteState, c: Change)
    requires Sound(u, data, s) && Chain(u, data, records, s)
    requires Applicable(s, c) && forall p :: p in c.updates ==> u.Knows(p)
    ensures var t := After(data, s, c); Sound(u, data, t) && Chain(u, data, Logged(records, EntryOf(data, s, c), t), t)
  {
    StaysSound(u, data, s, c);
    ChainLogged(u, data, records, s, EntryOf(data, s, c), After(data, s, c));
  }

  lemma ItemKeyed(data: Packages, s: SuiteState, c: Change)
    requires Keyed(s.binaries) && Applicable(s, c)
    ensures Keyed(After(data, s, c).binaries) && Keyed(EntryOf(data, s, c).undo.binaries)
    ensures EntryOf(data, s, c).updated == c.updates
  {
    BinariesRecorded(s.binaries, c);
  }

  lemma StaysSound(u: Universe, data: Packages, s: SuiteState, c: Change)
    requires Sound(u, data, s) && Applicable(s, c) && forall p :: p in c.updates ==> u.Knows(p)
    ensures Sound(u, data, After(data, s, c)) && Records(s, EntryOf(data, s, c), After(data, s, c))
  {
    EntryRecords(data, s, c);
    BinariesRecorded(s.binaries, c);
    forall k | k in BinariesAfter(s.binaries, c)
      ensures u.Knows(BinariesAfter(s.binaries, c)[k])
    {
      if k in KeysOf(c.updates) {
        ByKeyAt(c.updates);
      }
    }
  }

  lemma KeyedDistinct(binaries: map<BinaryKey, PackageId>, ps: set<PackageId>)
    requires Keyed(binaries) && ps <= binaries.Values
    ensures DistinctKeys(ps)
  {
    forall p, q | p in ps && q in ps && SameKey(p, q)
      ensures p == q
    {
      var j :| j in binaries && binaries[j] == p;
      var k :| k in binaries && binaries[k] == q;
    }
  }

  lemma NothingAdded(u: Universe, data: Packages, s: SuiteState, c: Change, enclosing: seq<LogEntry>, eqv: set<BinaryKey>,
                     st: SuiteState, removed: map<BinaryKey, PackageId>,
                     virtual: map<BinaryKey, Option<set<Provider>>>, affected: set<PackageId>)
    requires Removing(u, data, s, c, eqv, c.rms, st, removed, virtual, affected)
    ensures Adding(u, data, s, c, enclosing, eqv, {}, st, map[], virtual, {})
  {
    var left, leaving := BinariesWithout(s.binaries, c.rms), Registrations(data, c.rms);
    NoUpdates(u, data, left, enclosing, eqv);
    assert left + map[] == left && leaving + {} == leaving;
  }

  lemma NoUpdates(u: Universe, data: Packages, left: map<BinaryKey, PackageId>, enclosing: seq<LogEntry>, eqv: set<BinaryKey>)
    ensures DistinctKeys({}) && ByKey({}) == map[]
    ensures Registrations(data, {}) == {} && ReplacedBinaries(left, {}) == map[]
    ensures UpdatesAffect(u, left, enclosing, eqv, {}) == {}
  {
    assert KeysOf({}) == {};
  }

  lemma AllAdded(u: Universe, data: Packages, s: SuiteState, c: Change, enclosing: seq<LogEntry>,
                 st: SuiteState, removed: map<BinaryKey, PackageId>, affected: set<PackageId>,
                 replaced: map<BinaryKey, PackageId>, virtual: map<BinaryKey, Option<set<Provider>>>, affected': set<PackageId>)
    requires DistinctKeys(c.updates) && c.rms <= s.binaries.Values
    requires removed == RemovedBinaries(s.binaries, c.rms)
    requires var eqv := EqvKeys(u, c.updates, c.rms);
      && affected == RemovalsAffect(u, eqv, c.rms)
      && Adding(u, data, s, c, enclosing, eqv, c.updates, st, replaced, virtual, affected')
    ensures st == After(data, s, c)
    ensures removed + replaced == LostBinaries(s.binaries, c)
    ensures virtual == EntryOf(data, s, c).undo.virtual
    ensures affected + affected' == DirectlyAffected(u, s.binaries, enclosing, c)
  {
    LostSplit(s.binaries, c);
    var replaced := ReplacedBinaries(BinariesWithout(s.binaries, c.rms), c.updates);
    assert s.contents - c.rms - replaced.Values == s.contents - LostBinaries(s.binaries, c).Values;
  }

  lemma LostSplit(binaries: map<BinaryKey, PackageId>, c: Change)
    requires c.rms <= binaries.Values
    ensures var removed, replaced := RemovedBinaries(binaries, c.rms), ReplacedBinaries(BinariesWithout(binaries, c.rms), c.updates);
      && removed + replaced == LostBinaries(binaries, c)
      && c.rms + replaced.Values == LostBinaries(binaries, c).Values
  {
    var removed, replaced := RemovedBinaries(binaries, c.rms), ReplacedBinaries(BinariesWithout(binaries, c.rms), c.updates);
    var lost := LostBinaries(binaries, c);
    assert removed + replaced == lost;
    forall p
      ensures p in c.rms + replaced.Values <==> p in lost.Values
    {
      if p in c.rms {
        var k :| k in binaries && binaries[k] == p;
        assert lost[k] == p;
      }
      if p in replaced.Values {
        var k :| k in replaced && replaced[k] == p;
        assert lost[k] == p;
      }
      if p in lost.Values {
        var k :| k in lost && lost[k] == p;
        assert p !in c.rms ==> replaced[k] == p;
      }
    }
  }

  // ---------------------------------------------------------------------------------------------
  // The loop over the removals
  // ---------------------------------------------------------------------------------------------

  function RemovedBinaries(binaries: map<BinaryKey, PackageId>, rms: set<PackageId>): map<BinaryKey, PackageId> {
    map k | k in binaries && binaries[k] in rms :: binaries[k]
  }

  function Discarded(sources: map<string, SourcePackage>, name: string, p: PackageId): map<string, SourcePackage> {
    if name in sources then sources[name := sources[name].(binaries := sources[name].binaries - {p})] else sources
  }

  ghost predicate Split(all: set<PackageId>, done: set<PackageId>, rest: set<PackageId>) {
    all == done + rest && done !! rest
  }

  lemma Taken(all: set<PackageId>, done: set<PackageId>, rest: set<PackageId>, p: PackageId)
    requires Split(all, done, rest) && p in rest
    ensures p in all && p !in done && done <= all
    ensures Split(all, done + {p}, rest - {p})
  {
  }

  lemma OneMoved<T>(start: set<T>, all: set<T>, rest: set<T>, x: T)
    requires x in rest && rest <= all
    ensures start + (all - (rest - {x})) == start + (all - rest) + {x}
  {
  }

  /** `st` is the suite after the removals `done`. */
  ghost predicate Removing(u: Universe, data: Packages, s: SuiteState, c: Change, eqv: set<BinaryKey>, done: set<PackageId>,
                           st: SuiteState, removed: map<BinaryKey, PackageId>,
                           virtual: map<BinaryKey, Option<set<Provider>>>, affected: set<PackageId>) {
    && st.sources == SourcesWith(s.sources, c, done, {})
    && st.binaries == BinariesWithout(s.binaries, done)
    && st.contents == s.contents - done
    && st.providesTable == TableAfter(s.providesTable, Registrations(data, done), {})
    && removed == RemovedBinaries(s.binaries, done)
    && virtual == TableUndo(s.providesTable, Registrations(data, done))
    && affected == RemovalsAffect(u, eqv, done)
  }

  lemma NothingRemoved(u: Universe, data: Packages, s: SuiteState, c: Change, eqv: set<BinaryKey>)
    ensures Removing(u, data, s, c, eqv, {}, s.(sources := SourcesWith(s.sources, c, {}, {})), map[], map[], {})
  {
    EmptyTable(data, s.providesTable);
    assert BinariesWithout(s.binaries, {}) == s.binaries;
  }

  lemma EmptyTable(data: Packages, table: Table)
    ensures TableAfter(table, Registrations(data, {}), {}) == table
    ensures TableUndo(table, Registrations(data, {})) == map[]
  {
    assert Registrations(data, {}) == {} && KeysIn({}) == {};
    forall k
      ensures TableEntry(table, {}, {}, k) == Lookup(table, k)
    {
    }
  }

  /** The next binary to remove is there. */
  lemma Removable(s: SuiteState, c: Change, done: set<PackageId>, p: PackageId, st: SuiteState)
    requires Applicable(s, c) && Keyed(s.binaries) && p in c.rms && p !in done
    requires st.binaries == BinariesWithout(s.binaries, done)
    ensures KeyOf(p) in st.binaries && st.binaries[KeyOf(p)] == p
  {
    var j :| j in s.binaries && s.binaries[j] == p;
  }

  /** In a sound suite so are its entries in the provides table: nothing is dropped that is not there. */
  lemma EntriesPresent(u: Universe, data: Packages, s: SuiteState, c: Change, done: set<PackageId>, p: PackageId, r: Registration)
    requires Sound(u, data, s) && Applicable(s, c) && done <= c.rms && p in c.rms && p !in done
    requires r in RegistrationsOf(data, p)
    ensures IsRegistered(TableAfter(s.providesTable, Registrations(data, done), {}), r)
  {
    var j :| j in s.binaries && s.binaries[j] == p;
    assert IsRegistered(s.providesTable, r);
    OthersProvide(data, s.binaries, done, j, r);
    EntryPresent(s.providesTable, Registrations(data, done), r);
  }

  lemma RemovalStep(u: Universe, data: Packages, s: SuiteState, c: Change, eqv: set<BinaryKey>, done: set<PackageId>,
                    p: PackageId, st: SuiteState, removed: map<BinaryKey, PackageId>,
                    virtual: map<BinaryKey, Option<set<Provider>>>, affected: set<PackageId>,
                    st': SuiteState, removed': map<BinaryKey, PackageId>,
                    virtual': map<BinaryKey, Option<set<Provider>>>, affected': set<PackageId>)
    requires Keyed(s.binaries) && p !in done
    requires Removing(u, data, s, c, eqv, done, st, removed, virtual, affected)
    requires KeyOf(p) in st.binaries && st.binaries[KeyOf(p)] == p
    requires st'.sources == Discarded(st.sources, c.sourceName, p)
    requires st'.binaries == st.binaries - {KeyOf(p)} && st'.contents == st.contents - {p}
    requires st'.providesTable == TableAfter(s.providesTable, Registrations(data, done + {p}), {})
    requires virtual' == TableUndo(s.providesTable, Registrations(data, done + {p}))
    requires removed' == removed[KeyOf(p) := p] && affected' == affected + RemovalAffects(u, eqv, p)
    ensures Removing(u, data, s, c, eqv, done + {p}, st', removed', virtual', affected')
  {
    SourceDiscards(s.sources, c, done, p);
    BinaryRemoved(s.binaries, done, p);
    RemovalsAffectStep(u, eqv, done, p);
  }

  lemma SourceDiscards(sources: map<string, SourcePackage>, c: Change, done: set<PackageId>, p: PackageId)
    ensures SourcesWith(sources, c, done + {p}, {}) == Discarded(SourcesWith(sources, c, done, {}), c.sourceName, p)
  {
    var before := if c.sourceName in sources then sources[c.sourceName].binaries else {};
    assert before - (done + {p}) + {} == before - done + {} - {p};
  }

  lemma BinaryRemoved(binaries: map<BinaryKey, PackageId>, done: set<PackageId>, p: PackageId)
    requires KeyOf(p) in binaries && binaries[KeyOf(p)] == p && p !in done
    requires forall k :: k in binaries ==> KeyOf(binaries[k]) == k
    ensures BinariesWithout(binaries, done + {p}) == BinariesWithout(binaries, done) - {KeyOf(p)}
    ensures RemovedBinaries(binaries, done + {p}) == RemovedBinaries(binaries, done)[KeyOf(p) := p]
  {
    assert BinariesWithout(binaries, done + {p}) == BinariesWithout(binaries, done) - {KeyOf(p)};
  }

  lemma RemovalsAffectStep(u: Universe, eqv: set<BinaryKey>, done: set<PackageId>, p: PackageId)
    ensures RemovalsAffect(u, eqv, done + {p}) == RemovalsAffect(u, eqv, done) + RemovalAffects(u, eqv, p)
  {
    assert p in done + {p};
  }

  lemma OneMoreLeft(table: Table, leaving: set<Registration>, r: Registration, virtual: map<BinaryKey, Option<set<Provider>>>)
    requires virtual == TableUndo(table, leaving)
    ensures TableUndo(table, leaving + {r}) ==
            if r.key in virtual then virtual else virtual[r.key := OptionAt(TableAfter(table, leaving, {}), r.key)]
  {
    assert leaving + {} == leaving && leaving + {r} + {} == leaving + {r};
    OneMoreUndo(table, leaving, {}, r, virtual);
  }

  // ---------------------------------------------------------------------------------------------
  // The loop over the updates
  // ---------------------------------------------------------------------------------------------

  function ReplacedBinaries(binaries: map<BinaryKey, PackageId>, updates: set<PackageId>): map<BinaryKey, PackageId> {
    map k | k in binaries && k in KeysOf(updates) :: binaries[k]
  }

  function Included(sources: map<string, SourcePackage>, name: string, p: PackageId): map<string, SourcePackage>
    requires name in sources
  {
    sources[name := sources[name].(binaries := sources[name].binaries + {p})]
  }

  function Replaced(contents: set<PackageId>, binaries: map<BinaryKey, PackageId>, k: BinaryKey): set<PackageId> {
    if k in binaries then contents - {binaries[k]} else contents
  }

  function Noted(replaced: map<BinaryKey, PackageId>, binaries: map<BinaryKey, PackageId>, k: BinaryKey)
    : map<BinaryKey, PackageId> {
    if k in binaries then replaced[k := binaries[k]] else replaced
  }

  /** `st` is the suite after all the removals and the updates `done`. */
  ghost predicate Adding(u: Universe, data: Packages, s: SuiteState, c: Change, enclosing: seq<LogEntry>,
                         eqv: set<BinaryKey>, done: set<PackageId>,
                         st: SuiteState, replaced: map<BinaryKey, PackageId>,
                         virtual: map<BinaryKey, Option<set<Provider>>>, affected: set<PackageId>)
    requires DistinctKeys(done)
  {
    && st.sources == SourcesWith(s.sources, c, c.rms, done)
    && st.binaries == BinariesWithout(s.binaries, c.rms) + ByKey(done)
    && st.contents == (s.contents - c.rms - ReplacedBinaries(BinariesWithout(s.binaries, c.rms), done).Values) + done
    && st.providesTable == TableAfter(s.providesTable, Registrations(data, c.rms), Registrations(data, done))
    && replaced == ReplacedBinaries(BinariesWithout(s.binaries, c.rms), done)
    && virtual == TableUndo(s.providesTable, Registrations(data, c.rms) + Registrations(data, done))
    && affected == UpdatesAffect(u, BinariesWithout(s.binaries, c.rms), enclosing, eqv, done)
  }

  lemma UpdateStep(u: Universe, data: Packages, s: SuiteState, c: Change, enclosing: seq<LogEntry>,
                   eqv: set<BinaryKey>, done: set<PackageId>, p: PackageId,
                   st: SuiteState, replaced: map<BinaryKey, PackageId>,
                   virtual: map<BinaryKey, Option<set<Provider>>>, affected: set<PackageId>,
                   st': SuiteState, replaced': map<BinaryKey, PackageId>,
                   virtual': map<BinaryKey, Option<set<Provider>>>, affected': set<PackageId>)
    requires Keyed(s.binaries) && p !in done && DistinctKeys(done + {p}) && DistinctKeys(done) && !c.RemovesSource()
    requires Adding(u, data, s, c, enclosing, eqv, done, st, replaced, virtual, affected)
    requires c.sourceName in st.sources && st'.sources == Included(st.sources, c.sourceName, p)
    requires st'.binaries == st.binaries[KeyOf(p) := p]
    requires st'.contents == Replaced(st.contents, st.binaries, KeyOf(p)) + {p}
    requires st'.providesTable == TableAfter(s.providesTable, Registrations(data, c.rms), Registrations(data, done + {p}))
    requires virtual' == TableUndo(s.providesTable, Registrations(data, c.rms) + Registrations(data, done + {p}))
    requires replaced' == Noted(replaced, st.binaries, KeyOf(p))
    requires affected' == affected + UpdateAffects(u, st.binaries, enclosing, eqv, p)
    ensures Adding(u, data, s, c, enclosing, eqv, done + {p}, st', replaced', virtual', affected')
  {
    var left := BinariesWithout(s.binaries, c.rms);
    SourceIncludes(s.sources, c, done, p);
    BinaryAdded(left, done, p);
    ContentsStep(s.contents - c.rms, left, done, p, left + ByKey(done));
    UpdatesAffectStep(u, left, enclosing, eqv, done, p);
  }

  lemma SourceIncludes(sources: map<string, SourcePackage>, c: Change, done: set<PackageId>, p: PackageId)
    requires !c.RemovesSource()
    ensures c.sourceName in SourcesWith(sources, c, c.rms, done)
    ensures SourcesWith(sources, c, c.rms, done + {p}) == Included(SourcesWith(sources, c, c.rms, done), c.sourceName, p)
  {
    var before := if c.sourceName in sources then sources[c.sourceName].binaries else {};
    assert before - c.rms + (done + {p}) == before - c.rms + done + {p};
  }

  lemma BinaryAdded(left: map<BinaryKey, PackageId>, done: set<PackageId>, p: PackageId)
    requires DistinctKeys(done) && DistinctKeys(done + {p}) && p !in done
    requires forall k :: k in left ==> KeyOf(left[k]) == k
    ensures var now, next, k := left + ByKey(done), left + ByKey(done + {p}), KeyOf(p);
      && OptionAt(now, k) == OptionAt(left, k)
      && next == now[k := p]
      && ReplacedBinaries(left, done + {p}) == Noted(ReplacedBinaries(left, done), now, k)
  {
    NewKey(done, p);
    ByKeyAt(done);
    PlusUpdate(left, ByKey(done), KeyOf(p), p);
    NotedStep(left, done, p, left + ByKey(done));
  }

  lemma PlusUpdate(left: map<BinaryKey, PackageId>, more: map<BinaryKey, PackageId>, k: BinaryKey, p: PackageId)
    ensures left + more[k := p] == (left + more)[k := p]
  {
  }

  lemma NotedStep(left: map<BinaryKey, PackageId>, done: set<PackageId>, p: PackageId, now: map<BinaryKey, PackageId>)
    requires KeysOf(done + {p}) == KeysOf(done) + {KeyOf(p)} && OptionAt(now, KeyOf(p)) == OptionAt(left, KeyOf(p))
    ensures ReplacedBinaries(left, done + {p}) == Noted(ReplacedBinaries(left, done), now, KeyOf(p))
  {
  }

  lemma NewKey(done: set<PackageId>, p: PackageId)
    requires DistinctKeys(done) && DistinctKeys(done + {p}) && p !in done
    ensures KeyOf(p) !in KeysOf(done) && KeyOf(p) !in ByKey(done)
    ensures ByKey(done + {p}) == ByKey(done)[KeyOf(p) := p]
    ensures KeysOf(done + {p}) == KeysOf(done) + {KeyOf(p)}
  {
    forall q | q in done
      ensures KeyOf(q) != KeyOf(p)
    {
      assert q in done + {p} && p in done + {p} && (KeyOf(q) == KeyOf(p) ==> SameKey(q, p));
    }
    ByKeyAt(done);
    ByKeyAt(done + {p});
    forall q | q in done
      ensures ByKey(done + {p})[KeyOf(q)] == q == ByKey(done)[KeyOf(q)]
    {
      assert q in done + {p};
    }
    assert KeysOf(done + {p}) == KeysOf(done) + {KeyOf(p)};
  }

  /** The tester forgets what is replaced and learns what is added. */
  lemma ContentsStep(contents: set<PackageId>, left: map<BinaryKey, PackageId>, done: set<PackageId>, p: PackageId,
                     now: map<BinaryKey, PackageId>)
    requires DistinctKeys(done + {p}) && p !in done && Keyed(left)
    requires OptionAt(now, KeyOf(p)) == OptionAt(left, KeyOf(p))
    requires ReplacedBinaries(left, done + {p}) == Noted(ReplacedBinaries(left, done), now, KeyOf(p))
    ensures (contents - ReplacedBinaries(left, done + {p}).Values) + (done + {p})
         == Replaced((contents - ReplacedBinaries(left, done).Values) + done, now, KeyOf(p)) + {p}
  {
    var k := KeyOf(p);
    var replaced := ReplacedBinaries(left, done);
    forall q | q in done
      ensures KeyOf(q) != k
    {
      assert q in done + {p} && p in done + {p} && (KeyOf(q) == k ==> SameKey(q, p));
    }
    if k in now {
      assert k !in replaced;
      ValuesWith(replaced, k, now[k]);
      assert now[k] !in done;
    }
  }

  lemma UpdatesAffectStep(u: Universe, left: map<BinaryKey, PackageId>, enclosing: seq<LogEntry>, eqv: set<BinaryKey>,
                          done: set<PackageId>, p: PackageId)
    ensures UpdatesAffect(u, left, enclosing, eqv, done + {p}) ==
            UpdatesAffect(u, left, enclosing, eqv, done) + UpdateAffects(u, left, enclosing, eqv, p)
  {
    assert p in done + {p};
  }

  lemma EarlierStep(u: Universe, enclosing: seq<LogEntry>, i: nat, k: BinaryKey)
    requires i < |enclosing|
    ensures EarlierAffects(u, enclosing[..i + 1], k) == EarlierAffects(u, enclosing[..i], k)
      + if k in enclosing[i].undo.binaries then u.ReverseDependenciesOf(enclosing[i].undo.binaries[k]) else {}
  {
    var now, next := enclosing[..i], enclosing[..i + 1];
    assert next == now + [enclosing[i]];
    forall x | x in EarlierAffects(u, now, k)
      ensures x in EarlierAffects(u, next, k)
    {
      var j :| 0 <= j < |now| && k in now[j].undo.binaries && x in u.ReverseDependenciesOf(now[j].undo.binaries[k]);
      assert next[j] == now[j];
    }
    if k in enclosing[i].undo.binaries {
      forall x | x in u.ReverseDependenciesOf(enclosing[i].undo.binaries[k])
        ensures x in EarlierAffects(u, next, k)
      {
        assert next[i] == enclosing[i];
      }
    }
  }
}
