/** What the tick store guarantees over every interleaving of its batcher, its compactor
    and any number of queries. */
module StoreRuns {
  import opened Wrappers
  import opened Bytes
  import opened Rows
  import opened Paths
  import opened Catalogs
  import opened Protocol
  import opened ProtocolInvariant

  // ---------- Exactly-once reads ----------

  /** While a query holds both locks for a kind, the listed files (of its date range) followed
      by the hot rows are exactly the accepted ticks, in arrival order, less the lost batches. */
  lemma ExactlyOnce(cfg: Config, events: seq<Event>, s: State, id: nat, kind: Kind)
    requires Run(cfg, events) == Some(s) && id in s.queries && ReadOf(s.queries[id], kind).Locked?
    ensures var q := s.queries[id];
      var key := Key(cfg, q, kind);
      var account := AccountOf(s, key);
      && account.accepted == AllRows(account.batches) + SlotOf(s, key).rows
      && ReadOf(q, kind).promised == Owed(cfg, s, q, kind)
      && RowsIn(s.disk, RangeList(cfg, s, q, kind)) + SlotOf(s, key).rows == Owed(cfg, s, q, kind)
  {
    hide Inv, Run, RowsIn, AllRows, Survivors, Distinct;
    RunInv(cfg, events);
    var key := Key(cfg, s.queries[id], kind);
    AtKey(cfg, s, key);
    AtQuery(cfg, s, id, kind);
    DiskIsWritten(cfg, s, key);
    EmptyRows(s.disk);
    EmptyRows(s.written);
    hide ListAt, SizeAt, PassAt;
  }

  lemma DiskIsWritten(cfg: Config, s: State, key: Partition)
    requires Inv(cfg, s)
    ensures RowsIn(s.disk, CurrentList(s, key)) == RowsIn(s.written, CurrentList(s, key))
  {
    hide Inv, Run, RowsIn, AllRows, Survivors;
    AtKey(cfg, s, key);
    forall p | p in CurrentList(s, key)
      ensures Content(s.disk, p) == Content(s.written, p)
    {
      AtPath(cfg, s, p);
    }
    RowsInSame(s.disk, s.written, CurrentList(s, key));
  }

  ghost predicate BatchesAt(s: State, key: Partition)
  {
    forall b :: b in AccountOf(s, key).batches ==> b.rows != []
  }

  lemma BatchesB(cfg: Config, s: State, e: BatcherEvent, key: Partition)
    requires BatchesAt(s, key) && FlushAt(cfg, s) && BatcherCan(cfg, s, e)
    ensures BatchesAt(BatcherStep(cfg, s, e), key)
  {
    hide IsSafeSymbol, CanWriteHot, CanWriteCatalog, CurrentList, SymbolsOf, SlotOf;
  }

  lemma BatchesC(cfg: Config, s: State, e: CompactorEvent, key: Partition)
    requires BatchesAt(s, key) && CompactorCan(cfg, s, e)
    ensures BatchesAt(CompactorStep(cfg, s, e), key)
  {
    hide RowsIn, KeysOver, CanWriteCatalog;
  }

  /** No batch of any run is empty. */
  lemma {:induction false} RunBatches(cfg: Config, events: seq<Event>, key: Partition)
    ensures Run(cfg, events).Some? ==> BatchesAt(Run(cfg, events).value, key)
    decreases |events|
  {
    hide Inv, BatcherCan, BatcherStep, CompactorCan, CompactorStep, QueryCan, QueryAfter;
    if events != [] && Run(cfg, events).Some? {
      var front, e := events[..|events| - 1], events[|events| - 1];
      var before := Run(cfg, front).value;
      RunBatches(cfg, front, key);
      RunInv(cfg, front);
      AtStore(cfg, before);
      match e {
        case B(b) => BatchesB(cfg, before, b, key);
        case C(c) => BatchesC(cfg, before, c, key);
        case Q(_, _) =>
      }
    }
  }

  /** A query is owed every accepted tick exactly when no write lost any of its batches or,
      if its dates miss the day, when nothing has been flushed yet. */
  lemma OwedIsAccepted(cfg: Config, events: seq<Event>, s: State, id: nat, kind: Kind)
    requires Run(cfg, events) == Some(s) && id in s.queries && ReadOf(s.queries[id], kind).Locked?
    ensures var account := AccountOf(s, Key(cfg, s.queries[id], kind));
      Owed(cfg, s, s.queries[id], kind) == account.accepted
      <==> if CoversDay(cfg, s.queries[id]) then forall b :: b in account.batches ==> !b.lost else account.batches == []
  {
    hide Run, AllRows, Survivors, RowsIn;
    var key := Key(cfg, s.queries[id], kind);
    ExactlyOnce(cfg, events, s, id, kind);
    RunBatches(cfg, events, key);
    SurvivorsFewer(AccountOf(s, key).batches);
  }

  lemma {:induction false} SurvivorsFewer(batches: seq<Batch>)
    requires forall b :: b in batches ==> b.rows != []
    ensures |Survivors(batches)| <= |AllRows(batches)|
    ensures |Survivors(batches)| == |AllRows(batches)| <==> forall b :: b in batches ==> !b.lost
    ensures Survivors(batches) == AllRows(batches) <==> forall b :: b in batches ==> !b.lost
    ensures AllRows(batches) == [] <==> batches == []
  {
    if batches != [] {
      var front, last := batches[..|batches| - 1], batches[|batches| - 1];
      SurvivorsFewer(front);
      assert batches == front + [last];
      assert forall b :: b in batches <==> b in front || b == last;
    }
  }

  lemma RunSnoc(cfg: Config, events: seq<Event>, e: Event)
    requires Run(cfg, events).Some? && Can(cfg, Run(cfg, events).value, e)
    ensures Run(cfg, events + [e]) == Some(Step(cfg, Run(cfg, events).value, e))
  {
    hide Can, Step;
    assert (events + [e])[..|events|] == events;
  }

  /** A run taken one step further. */
  lemma Next(cfg: Config, events: seq<Event>, s: State, e: Event) returns (events': seq<Event>, s': State)
    requires Run(cfg, events) == Some(s) && Can(cfg, s, e)
    ensures events' == events + [e] && s' == Step(cfg, s, e) && Run(cfg, events') == Some(s')
  {
    hide Run, Can, Step;
    RunSnoc(cfg, events, e);
    events', s' := events + [e], Step(cfg, s, e);
  }

  /** One tick accepted, its flush failed, the lock released. */
  lemma LossyFlush(cfg: Config, symbol: Symbol, row: Row) returns (events: seq<Event>, s: State)
    requires cfg.maxRows <= 1 && IsSafeSymbol(symbol)
    ensures Run(cfg, events) == Some(s)
    ensures s.batcher == Idle && s.compactor == Resting && s.queries == map[]
    ensures var key := Partition(symbol, Kind.Trade, cfg.day);
      SlotOf(s, key).rows == [] && AccountOf(s, key) == Account([row], [Batch([row], true)])
  {
    hide Run, IsSafeSymbol;
    NoEvents(cfg);
    var key := Partition(symbol, Kind.Trade, cfg.day);
    events, s := Next(cfg, [], Init(), B(Accept(symbol, Kind.Trade, row)));
    assert SlotOf(s, key) == Slot([row], 0) && AccountOf(s, key) == Account([row], []);
    events, s := Next(cfg, events, s, B(TakeBatch(symbol)));
    assert s.batcher == Taken(key, [row], FilePath(key, PartFile(0)), EndTick);
    assert AccountOf(s, key) == Account([row], []) && [] + [Batch([row], true)] == [Batch([row], true)];
    events, s := Next(cfg, events, s, B(SaveFail(None)));
    assert s.batcher == TickDone(Kind.Trade);
    events, s := Next(cfg, events, s, B(ReleaseTick));
  }

  /** A query has taken both locks of run `events` for a kind, and misses accepted ticks. */
  ghost predicate MissesTicks(cfg: Config, events: seq<Event>, id: nat, kind: Kind)
  {
    && Run(cfg, events).Some?
    && var s := Run(cfg, events).value;
    && id in s.queries && ReadOf(s.queries[id], kind).Locked? && CoversDay(cfg, s.queries[id])
    && Owed(cfg, s, s.queries[id], kind) == [] && AccountOf(s, Key(cfg, s.queries[id], kind)).accepted != []
  }

  /** A flush whose write fails loses its rows for good: a query opened afterwards is owed
      nothing, though a tick was accepted. */
  lemma FailedFlushLosesTicks(cfg: Config, symbol: Symbol, row: Row)
    requires cfg.maxRows <= 1 && IsSafeSymbol(symbol)
    ensures exists events :: MissesTicks(cfg, events, 0, Kind.Trade)
  {
    var events, s := LossyFlush(cfg, symbol, row);
    hide Run, IsSafeSymbol, Survivors;
    SafeNotEmpty(symbol);
    LostBatch(row);
    events, s := Next(cfg, events, s, Q(0, Open(symbol, cfg.day, cfg.day)));
    events, s := Next(cfg, events, s, Q(0, LockHot(Kind.Trade)));
    assert MissesTicks(cfg, events, 0, Kind.Trade);
  }

  lemma LostBatch(row: Row)
    ensures Survivors([Batch([row], true)]) == []
  {
    assert [Batch([row], true)][..0] == [];
  }

  lemma SafeNotEmpty(symbol: Symbol)
    ensures IsSafeSymbol(symbol) ==> symbol != []
  {
  }

  lemma NoEvents(cfg: Config)
    ensures Run(cfg, []) == Some(Init())
  {
  }

  // ---------- Deferred execution ----------

  function Promised(r: Read): Option<seq<Row>>
  {
    match r
    case Locked(p) => Some(p)
    case Snapped(p, _) => Some(p)
    case Captured(p, _, _, _, _) => Some(p)
    case _ => None
  }

  /** At step `i` the query took its second lock for this kind, and was then owed `rows`. */
  ghost predicate OwedAt(cfg: Config, events: seq<Event>, i: nat, id: nat, kind: Kind, rows: seq<Row>)
  {
    && i < |events| && events[i] == Q(id, LockHot(kind))
    && Run(cfg, events[..i]).Some?
    && var s := Run(cfg, events[..i]).value;
    && id in s.queries && rows == Owed(cfg, s, s.queries[id], kind)
  }

  lemma PromiseStepQ(cfg: Config, s: State, id: nat, e: QueryEvent, kind: Kind)
    requires QueryCan(cfg, s, id, e)
    ensures e == LockHot(kind) ==>
      id in s.queries && Promised(ReadOf(QueryAfter(cfg, s, id, e), kind)) == Some(Owed(cfg, s, s.queries[id], kind))
    ensures e != LockHot(kind) && Promised(ReadOf(QueryAfter(cfg, s, id, e), kind)).Some? ==>
      id in s.queries && Promised(ReadOf(s.queries[id], kind)) == Promised(ReadOf(QueryAfter(cfg, s, id, e), kind))
  {
    hide Owed, SlotOf, ListsOf, KeysInRange, Enumerates, CanReadHot, CanReadCatalog;
  }

  lemma PromiseStep(cfg: Config, s: State, e: Event, id: nat, kind: Kind)
    requires Can(cfg, s, e) && id in Step(cfg, s, e).queries
    ensures e == Q(id, LockHot(kind)) ==>
      id in s.queries && Promised(ReadOf(Step(cfg, s, e).queries[id], kind)) == Some(Owed(cfg, s, s.queries[id], kind))
    ensures e != Q(id, LockHot(kind)) && Promised(ReadOf(Step(cfg, s, e).queries[id], kind)).Some? ==>
      id in s.queries && Promised(ReadOf(s.queries[id], kind)) == Promised(ReadOf(Step(cfg, s, e).queries[id], kind))
  {
    match e {
      case B(b) => QueriesKept(cfg, s, b);
      case C(c) => QueriesKeptC(cfg, s, c);
      case Q(other, q) =>
        if other == id {
          PromiseStepQ(cfg, s, id, q, kind);
        }
    }
    hide Owed, Promised, BatcherCan, BatcherStep, CompactorCan, CompactorStep, QueryCan, QueryAfter;
  }

  lemma {:induction false} PromiseHasOrigin(cfg: Config, events: seq<Event>, s: State, id: nat, kind: Kind)
    requires Run(cfg, events) == Some(s) && id in s.queries && Promised(ReadOf(s.queries[id], kind)).Some?
    ensures exists i: nat :: OwedAt(cfg, events, i, id, kind, Promised(ReadOf(s.queries[id], kind)).value)
    decreases |events|
  {
    hide Can, Step, Owed;
    if events != [] {
      var last := |events| - 1;
      var front, e := events[..last], events[last];
      var before := Run(cfg, front).value;
      var rows := Promised(ReadOf(s.queries[id], kind)).value;
      PromiseStep(cfg, before, e, id, kind);
      if e == Q(id, LockHot(kind)) {
        assert OwedAt(cfg, events, last, id, kind, rows);
      } else {
        PromiseHasOrigin(cfg, front, before, id, kind);
        var i: nat :| OwedAt(cfg, front, i, id, kind, rows);
        OwedAtLater(cfg, events, last, i, id, kind, rows);
      }
    }
  }

  lemma OwedAtLater(cfg: Config, events: seq<Event>, last: nat, i: nat, id: nat, kind: Kind, rows: seq<Row>)
    requires last <= |events| && OwedAt(cfg, events[..last], i, id, kind, rows)
    ensures OwedAt(cfg, events, i, id, kind, rows)
  {
    hide Run, Owed;
    assert events[..last][..i] == events[..i];
  }

  /** A query that gets through its captured files returns exactly what it was owed when it
      held both locks, whatever flushes, merges and deletions happened in between. */
  lemma AnswerIsWhatWasOwed(cfg: Config, events: seq<Event>, s: State, id: nat, kind: Kind)
    requires Run(cfg, events) == Some(s) && id in s.queries
    requires ReadOf(s.queries[id], kind).Captured?
    requires ReadOf(s.queries[id], kind).next == |ReadOf(s.queries[id], kind).paths|
    ensures var r := ReadOf(s.queries[id], kind);
      exists i: nat :: OwedAt(cfg, events, i, id, kind, r.got + r.hot)
  {
    hide Inv, Run, RowsIn, AllRows, Survivors;
    RunInv(cfg, events);
    PromiseHasOrigin(cfg, events, s, id, kind);
    var r := ReadOf(s.queries[id], kind);
    AtQuery(cfg, s, id, kind);
    assert r.paths[..r.next] == r.paths;
    assert r.promised == r.got + r.hot;
  }

  /** As long as the captured files still exist they hold the rows of the snapshot: no path
      is ever rewritten. */
  lemma CapturedFilesKeep(cfg: Config, events: seq<Event>, s: State, id: nat, kind: Kind)
    requires Run(cfg, events) == Some(s) && id in s.queries && ReadOf(s.queries[id], kind).Captured?
    requires forall p :: p in ReadOf(s.queries[id], kind).paths ==> p in s.disk
    ensures var r := ReadOf(s.queries[id], kind);
      RowsIn(s.disk, r.paths) + r.hot == r.promised
  {
    hide Inv, Run, RowsIn, AllRows, Survivors;
    RunInv(cfg, events);
    var r := ReadOf(s.queries[id], kind);
    AtQuery(cfg, s, id, kind);
    forall p | p in r.paths
      ensures Content(s.disk, p) == Content(s.written, p)
    {
      AtPath(cfg, s, p);
    }
    RowsInSame(s.disk, s.written, r.paths);
  }

  // ---------- Conservation ----------

  /** For each kind and symbol the accepted ticks are consecutive batches, then the rows being
      flushed, then the hot rows; the files standing for the partition hold, on disk and in
      order, exactly the batches whose write succeeded. */
  lemma Conservation(cfg: Config, events: seq<Event>, s: State, key: Partition)
    requires Run(cfg, events) == Some(s)
    ensures var account := AccountOf(s, key);
      && account.accepted == AllRows(account.batches) + InFlight(s, key) + SlotOf(s, key).rows
      && RowsIn(s.disk, CurrentList(s, key)) == Survivors(account.batches)
  {
    hide Inv, Run, RowsIn, AllRows, Survivors;
    RunInv(cfg, events);
    AtKey(cfg, s, key);
    DiskIsWritten(cfg, s, key);
  }

  /** Every listed path exists on disk with the rows written to it, under its own partition,
      once in its list and in no other; what is about to be deleted is listed nowhere. */
  lemma NoDanglingFile(cfg: Config, events: seq<Event>, s: State, key: Partition, i: nat)
    requires Run(cfg, events) == Some(s) && i < |CurrentList(s, key)|
    ensures var p := CurrentList(s, key)[i];
      && p in s.disk && p in s.written && s.disk[p] == s.written[p]
      && (forall other, j: nat :: j < |CurrentList(s, other)| && CurrentList(s, other)[j] == p ==> other == key && j == i)
      && (s.compactor.Deleting? ==> p !in s.compactor.paths)
  {
    hide Inv, Run, RowsIn, AllRows, Survivors;
    RunInv(cfg, events);
    var p := CurrentList(s, key)[i];
    AtKey(cfg, s, key);
    AtPath(cfg, s, p);
    forall other, j: nat | j < |CurrentList(s, other)| && CurrentList(s, other)[j] == p
      ensures other == key && j == i
    {
      AtKey(cfg, s, other);
      assert p in CurrentList(s, other);
    }
  }

  /** The batcher is at work on the hot map of a kind: from the push of a tick, or the start of a
      sweep, to the end of it. */
  predicate WorksOn(pc: BatcherPc, kind: Kind)
  {
    match pc
    case Pushed(key) => key.kind == kind
    case TickDone(k) => k == kind
    case Sweeping(k, _) => k == kind
    case Taken(key, _, _, _) => key.kind == kind
    case Saved(key, _, _, _) => key.kind == kind
    case Adding(key, _, _, _) => key.kind == kind
    case _ => false
  }

  /** Locks exclude: no query holds a hot buffer the batcher works on, none holds the catalog
      while it is written, merged or cleaned up after, and it has one writer at a time. */
  lemma MutualExclusion(cfg: Config, events: seq<Event>, s: State, id: nat)
    requires Run(cfg, events) == Some(s) && id in s.queries
    ensures s.queries[id].trades.Locked? ==> s.queries[id].holdsCatalog && !WorksOn(s.batcher, Kind.Trade)
    ensures s.queries[id].quotes.Locked? ==> s.queries[id].holdsCatalog && !WorksOn(s.batcher, Kind.Quote)
    ensures s.queries[id].holdsCatalog ==> !s.batcher.Adding? && !s.compactor.Merging? && !s.compactor.Deleting?
    ensures !(s.batcher.Adding? && (s.compactor.Merging? || s.compactor.Deleting?))
  {
    hide Inv, Run, RowsIn, AllRows, Survivors;
    RunInv(cfg, events);
    AtQuery(cfg, s, id, Kind.Trade);
    AtStore(cfg, s);
  }

  // ---------- A sweep runs to its end ----------

  /** A sweep of both kinds is under way. */
  predicate InSweep(pc: BatcherPc)
  {
    match pc
    case Sweeping(_, _) => true
    case BetweenSweeps => true
    case Taken(_, _, _, after) => after.GoOn?
    case Saved(_, _, _, after) => after.GoOn?
    case Adding(_, _, _, after) => after.GoOn?
    case _ => false
  }

  /** A sweep starts with all the symbols there are and, whatever its writes come to, is left
      only at the end of the trades; a flush within a tick goes back to that tick. */
  lemma SweepRunsToItsEnd(cfg: Config, s: State, e: BatcherEvent)
    requires BatcherCan(cfg, s, e)
    ensures var t := BatcherStep(cfg, s, e);
      && (InSweep(s.batcher) && !InSweep(t.batcher) ==> e.EndSweep? && s.batcher.kind.Trade? && t.batcher == Idle)
      && (!InSweep(s.batcher) && InSweep(t.batcher) ==> e.StartSweep?)
      && (e.StartSweep? ==> t.batcher.Sweeping? && forall key :: key in s.hot && key.kind == t.batcher.kind ==>
            key.symbol in t.batcher.todo)
  {
    hide IsSafeSymbol, CanWriteHot, CanWriteCatalog;
  }

  // ---------- Bounds ----------

  /** With no tick or sweep in progress every hot buffer is below the row limit. */
  lemma HotBufferBound(cfg: Config, events: seq<Event>, s: State, key: Partition)
    requires Run(cfg, events) == Some(s) && HotHeld(s.batcher).None?
    ensures |SlotOf(s, key).rows| < Max(cfg.maxRows, 1)
  {
    hide Inv, Run, RowsIn, AllRows, Survivors;
    RunInv(cfg, events);
    AtKey(cfg, s, key);
  }

  /** Every part file ever written has between one row and the row limit. */
  lemma PartFileBound(cfg: Config, events: seq<Event>, s: State, p: FilePath)
    requires Run(cfg, events) == Some(s) && p in s.written && p.name.PartFile?
    ensures 1 <= |s.written[p]| <= Max(cfg.maxRows, 1)
  {
    hide Inv, Run, RowsIn, AllRows, Survivors;
    RunInv(cfg, events);
    AtPath(cfg, s, p);
  }

  /** A finished sweep leaves every buffer of its kind empty. */
  lemma SweepEmpties(cfg: Config, events: seq<Event>, s: State, key: Partition)
    requires Run(cfg, events) == Some(s) && Can(cfg, s, B(EndSweep)) && key.kind == s.batcher.kind
    ensures SlotOf(Step(cfg, s, B(EndSweep)), key).rows == []
  {
    hide Inv, Run, RowsIn, AllRows, Survivors;
    RunInv(cfg, events);
    AtKey(cfg, s, key);
  }

  /** Once the sweep has come to the trades, no quote is buffered. */
  ghost predicate QuotesSwept(s: State, key: Partition)
  {
    key.kind.Quote? && (match s.batcher
                        case BetweenSweeps => true
                        case Sweeping(kind, _) => kind.Trade?
                        case Taken(k, _, _, GoOn(_)) => k.kind.Trade?
                        case Saved(k, _, _, GoOn(_)) => k.kind.Trade?
                        case Adding(k, _, _, GoOn(_)) => k.kind.Trade?
                        case _ => false)
    ==> SlotOf(s, key).rows == []
  }

  lemma QuotesSweptB(cfg: Config, s: State, e: BatcherEvent, key: Partition)
    requires QuotesSwept(s, key) && SizeAt(cfg, s, key) && BatcherCan(cfg, s, e)
    ensures QuotesSwept(BatcherStep(cfg, s, e), key)
  {
    hide IsSafeSymbol, CanWriteHot, CanWriteCatalog, SymbolsOf;
  }

  lemma QuotesSweptC(cfg: Config, s: State, e: CompactorEvent, key: Partition)
    requires QuotesSwept(s, key) && CompactorCan(cfg, s, e)
    ensures QuotesSwept(CompactorStep(cfg, s, e), key)
  {
    hide RowsIn, KeysOver, CanWriteCatalog;
  }

  lemma {:induction false} RunQuotesSwept(cfg: Config, events: seq<Event>, key: Partition)
    ensures Run(cfg, events).Some? ==> QuotesSwept(Run(cfg, events).value, key)
    decreases |events|
  {
    hide Inv, BatcherCan, BatcherStep, CompactorCan, CompactorStep, QueryCan, QueryAfter;
    if events != [] && Run(cfg, events).Some? {
      var front, e := events[..|events| - 1], events[|events| - 1];
      var before := Run(cfg, front).value;
      RunQuotesSwept(cfg, front, key);
      RunInv(cfg, front);
      AtKey(cfg, before, key);
      match e {
        case B(b) => QuotesSweptB(cfg, before, b, key);
        case C(c) => QuotesSweptC(cfg, before, c, key);
        case Q(_, _) =>
      }
    }
  }

  /** A sweep that ends with the batcher waiting for ticks again has emptied both kinds. */
  lemma SweepEmptiesBoth(cfg: Config, events: seq<Event>, s: State, key: Partition)
    requires Run(cfg, events) == Some(s) && Can(cfg, s, B(EndSweep)) && Step(cfg, s, B(EndSweep)).batcher.Idle?
    ensures SlotOf(Step(cfg, s, B(EndSweep)), key).rows == []
  {
    hide Inv, Run, RowsIn, AllRows, Survivors;
    RunInv(cfg, events);
    AtKey(cfg, s, key);
    RunQuotesSwept(cfg, events, key);
  }

  /** At the end of a pass with no failed merge, a partition lists at most the threshold (or
      one file) and what was flushed to it since the due list was read. */
  lemma CompactionBound(cfg: Config, events: seq<Event>, s: State, key: Partition)
    requires Run(cfg, events) == Some(s) && Can(cfg, s, C(EndPass)) && !s.pass.failed
    ensures |Listed(s.parts, key)| <= Max(cfg.threshold, 1) + FlushesOf(s, key)
  {
    hide Inv, Run, RowsIn, AllRows, Survivors;
    RunInv(cfg, events);
    AtKey(cfg, s, key);
  }

  // ---------- Fresh targets ----------

  /** Keys the store works with come from accepted ticks: safe symbols, the run's own day. */
  predicate SafeKey(cfg: Config, key: Partition)
  {
    IsSafeSymbol(key.symbol) && key.date == cfg.day
  }

  ghost predicate SafeAt(cfg: Config, s: State, p: FilePath)
  {
    && (p.partition in s.hot || p.partition in s.parts ==> SafeKey(cfg, p.partition))
    && (p in s.targeted ==> SafeKey(cfg, p.partition))
  }

  lemma SafeB(cfg: Config, s: State, e: BatcherEvent, p: FilePath)
    requires SafeAt(cfg, s, p) && FlushAt(cfg, s) && BatcherCan(cfg, s, e)
    requires ListAt(cfg, s, p.partition)
    ensures SafeAt(cfg, BatcherStep(cfg, s, e), p)
  {
    hide IsSafeSymbol, CanWriteHot, CanWriteCatalog, Distinct, CurrentList;
  }

  lemma SafeC(cfg: Config, s: State, e: CompactorEvent, p: FilePath)
    requires SafeAt(cfg, s, p) && CompactorCan(cfg, s, e)
    requires s.compactor.Merging? && s.compactor.paths != [] ==> SafeKey(cfg, s.compactor.key)
    ensures SafeAt(cfg, CompactorStep(cfg, s, e), p)
  {
    hide SafeKey, RowsIn, KeysOver, CanWriteCatalog;
  }

  lemma MergeKeySafe(cfg: Config, s: State)
    requires Inv(cfg, s) && forall p :: SafeAt(cfg, s, p)
    ensures s.compactor.Merging? && s.compactor.paths != [] ==> SafeKey(cfg, s.compactor.key)
  {
    hide SafeKey, Inv, Distinct;
    if s.compactor.Merging? && s.compactor.paths != [] {
      var p := s.compactor.paths[0];
      AtKey(cfg, s, s.compactor.key);
      AtPath(cfg, s, p);
      assert SafeAt(cfg, s, p);
    }
  }

  lemma InitSafe(cfg: Config, p: FilePath)
    ensures SafeAt(cfg, Init(), p)
  {
  }

  lemma {:induction false} RunSafe(cfg: Config, events: seq<Event>, p: FilePath)
    ensures Run(cfg, events).Some? ==> SafeAt(cfg, Run(cfg, events).value, p)
    decreases |events|
  {
    hide Inv, Can, Step, SafeAt;
    if events == [] {
      InitSafe(cfg, p);
    } else if Run(cfg, events).Some? {
      var front, e := events[..|events| - 1], events[|events| - 1];
      forall other ensures Run(cfg, front).Some? ==> SafeAt(cfg, Run(cfg, front).value, other) {
        RunSafe(cfg, front, other);
      }
      RunInv(cfg, front);
      SafeStep(cfg, Run(cfg, front).value, e, p);
    }
  }

  lemma SafeStep(cfg: Config, s: State, e: Event, p: FilePath)
    requires Inv(cfg, s) && (forall other :: SafeAt(cfg, s, other)) && Can(cfg, s, e)
    ensures SafeAt(cfg, Step(cfg, s, e), p)
  {
    hide Inv, Run, RowsIn, AllRows, Survivors;
    assert SafeAt(cfg, s, p);
    AtStore(cfg, s);
    AtKey(cfg, s, p.partition);
    match e {
      case B(b) => SafeB(cfg, s, b, p);
      case C(c) => MergeKeySafe(cfg, s); SafeC(cfg, s, c, p);
      case Q(_, _) =>
    }
  }

  /** The path a step is about to write, when it writes one. */
  function TargetOf(s: State, e: Event): Option<FilePath>
  {
    match e
    case B(SaveOk) => if s.batcher.Taken? then Some(s.batcher.path) else None
    case B(SaveFail(_)) => if s.batcher.Taken? then Some(s.batcher.path) else None
    case C(MergeSaveOk) => if s.compactor.Merging? then Some(MergeTarget(s.compactor.key, s.mergedIdx)) else None
    case C(MergeSaveFail(_)) => if s.compactor.Merging? then Some(MergeTarget(s.compactor.key, s.mergedIdx)) else None
    case _ => None
  }

  /** Starting from an empty catalog, every flush and every merge writes a file no write of the
      run, successful or not, has touched before: not even under another spelling of its path. */
  lemma FreshTarget(cfg: Config, events: seq<Event>, s: State, e: Event, p: FilePath, base: seq<Byte>, text: DateText)
    requires NamesDates(text)
    requires Run(cfg, events) == Some(s) && Can(cfg, s, e) && TargetOf(s, e).Some?
    requires p in s.targeted
    ensures var t := TargetOf(s, e).value;
      && t !in s.targeted && t !in s.disk && t in Step(cfg, s, e).targeted
      && Entry(base, p, text) != Entry(base, t, text)
  {
    var t := TargetOf(s, e).value;
    TargetIsNew(cfg, events, s, e);
    hide Can, Step, Run, Inv, Entry, IsSafeSymbol, NamesDates;
    RunSafe(cfg, events, p);
    TargetsOfOneDay(base, p, t, text);
  }

  lemma TargetIsNew(cfg: Config, events: seq<Event>, s: State, e: Event)
    requires Run(cfg, events) == Some(s) && Can(cfg, s, e) && TargetOf(s, e).Some?
    ensures var t := TargetOf(s, e).value;
      t !in s.targeted && t !in s.disk && t in Step(cfg, s, e).targeted && SafeKey(cfg, t.partition)
  {
    hide Run, Inv, SafeKey, RowsIn;
    var t := TargetOf(s, e).value;
    RunInv(cfg, events);
    AtStore(cfg, s);
    AtPath(cfg, s, t);
    forall p ensures SafeAt(cfg, s, p) { RunSafe(cfg, events, p); }
    MergeKeySafe(cfg, s);
    assert SafeAt(cfg, s, t);
  }
}
