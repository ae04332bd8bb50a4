/** What every step of the tick-store protocol keeps. Each part of the invariant speaks of
    one key, path or query at a time, and is shown to survive every step on its own. */
module ProtocolInvariant {
  import opened Wrappers
  import opened Rows
  import opened Paths
  import opened Disks
  import opened Catalogs
  import opened Protocol

  /** The list that stands for a partition: while a merge has taken it, the merge's copy. */
  function CurrentList(s: State, key: Partition): seq<FilePath>
  {
    if s.compactor.Merging? && s.compactor.key == key then s.compactor.paths else Listed(s.parts, key)
  }

  predicate Flushing(pc: BatcherPc)
  {
    pc.Taken? || pc.Saved? || pc.Adding?
  }

  /** Rows taken off a hot buffer and not yet accounted for. */
  function InFlight(s: State, key: Partition): seq<Row>
  {
    if Flushing(s.batcher) && s.batcher.key == key then s.batcher.rows else []
  }

  /** The sweep's remaining symbols, when a sweep of this kind is under way. */
  predicate SweptPast(pc: BatcherPc, key: Partition)
  {
    match pc
    case Sweeping(kind, todo) => key.kind == kind && key.symbol !in todo
    case Taken(k, _, _, GoOn(todo)) => key.kind == k.kind && key.symbol !in todo
    case Saved(k, _, _, GoOn(todo)) => key.kind == k.kind && key.symbol !in todo
    case Adding(k, _, _, GoOn(todo)) => key.kind == k.kind && key.symbol !in todo
    case _ => false
  }

  /** The partitions the current pass has yet to merge. */
  predicate StillDue(pc: CompactorPc, key: Partition)
  {
    match pc
    case Resting => true
    case Due(todo) => key in todo
    case Merging(k, _, todo) => key == k || key in todo
    case Deleting(_, todo) => key in todo
  }

  // ---------- The parts of the invariant ----------

  /** Mutual exclusion: nobody holds a lock together with its writer. */
  ghost predicate LocksAt(s: State, id: nat)
  {
    id in s.queries ==>
      && var q := s.queries[id];
      && (q.holdsCatalog ==> CanReadCatalog(s))
      && (q.trades.Locked? ==> q.holdsCatalog && CanReadHot(s, Kind.Trade))
      && (q.quotes.Locked? ==> q.holdsCatalog && CanReadHot(s, Kind.Quote))
      && (q.trades.Snapped? || q.quotes.Snapped? ==> q.holdsCatalog)
  }

  predicate OneWriter(s: State)
  {
    !(s.batcher.Adding? && CompactorWrites(s))
  }

  /** A merge has emptied the list it took; what is being deleted was written in this run. */
  ghost predicate CompactorAt(s: State)
  {
    && (s.compactor.Merging? ==> Listed(s.parts, s.compactor.key) == [])
    && (s.compactor.Deleting? ==> forall p :: p in s.compactor.paths ==> p in s.targeted)
  }

  /** A write target, once used, is below its counter; what a path holds is what was written. */
  ghost predicate PathAt(s: State, p: FilePath)
  {
    && (p in s.targeted ==> match p.name
          case PartFile(n) => n < SlotOf(s, p.partition).nextSeq
          case MergedFile(n) => n < s.mergedIdx)
    && (p in s.disk || p in s.written ==> p in s.targeted)
    && (p in s.disk && p in s.written ==> s.disk[p] == s.written[p])
  }

  /** The file being flushed is the newest of its buffer: untouched until it is saved, then
      on disk with the taken rows and listed nowhere. */
  ghost predicate FlushAt(cfg: Config, s: State)
  {
    var pc := s.batcher;
    && (Flushing(pc) ==>
        && pc.key.date == cfg.day
        && 1 <= |pc.rows| <= Max(cfg.maxRows, 1)
        && SlotOf(s, pc.key).nextSeq > 0
        && pc.path == FilePath(pc.key, PartFile(SlotOf(s, pc.key).nextSeq - 1))
        && SlotOf(s, pc.key).rows == []
        && (pc.after.GoOn? ==> pc.key.symbol !in pc.after.todo))
    && (pc.Taken? ==> pc.path !in s.targeted)
    && (pc.Saved? || pc.Adding? ==>
        && pc.path in s.written && s.written[pc.path] == pc.rows && pc.path in s.disk
        && pc.path !in CurrentList(s, pc.key)
        && (s.compactor.Deleting? ==> pc.path !in s.compactor.paths))
    && (pc.Pushed? ==> pc.key.date == cfg.day && pc.key in s.hot)
  }

  /** A listed file belongs to its partition, was written, is on disk, and is listed once. */
  ghost predicate ListAt(cfg: Config, s: State, key: Partition)
  {
    var list := CurrentList(s, key);
    && (forall p :: p in list ==> p.partition == key && p in s.written && p in s.disk)
    && Distinct(list)
    && (key in s.parts || key in s.hot || list != [] ==> key.date == cfg.day)
    && (s.compactor.Deleting? ==> forall p :: p in s.compactor.paths ==> p !in list)
  }

  /** Conservation: the accepted rows are the batches, the rows in flight and the hot rows,
      in order. */
  ghost predicate ConservedAt(s: State, key: Partition)
  {
    AccountOf(s, key).accepted == AllRows(AccountOf(s, key).batches) + InFlight(s, key) + SlotOf(s, key).rows
  }

  /** The listed files hold exactly the surviving batches, in order. */
  ghost predicate StoredAt(s: State, key: Partition)
  {
    RowsIn(s.written, CurrentList(s, key)) == Survivors(AccountOf(s, key).batches)
  }

  /** Sizes: hot buffers stay below the row limit outside a flush, a swept buffer is empty. */
  ghost predicate SizeAt(cfg: Config, s: State, key: Partition)
  {
    var n := |SlotOf(s, key).rows|;
    && (s.batcher == Pushed(key) ==> 1 <= n <= Max(cfg.maxRows, 1))
    && (s.batcher != Pushed(key) ==> n < Max(cfg.maxRows, 1))
    && (SweptPast(s.batcher, key) ==> n == 0)
  }

  ghost predicate PartSizeAt(cfg: Config, s: State, p: FilePath)
  {
    p in s.written && p.name.PartFile? ==> 1 <= |s.written[p]| <= Max(cfg.maxRows, 1)
  }

  function RangeList(cfg: Config, s: State, q: Query, kind: Kind): seq<FilePath>
  {
    if CoversDay(cfg, q) then Listed(s.parts, Key(cfg, q, kind)) else []
  }

  /** What a query has gathered adds up to what it was promised. */
  ghost predicate ViewAt(cfg: Config, s: State, q: Query, kind: Kind)
  {
    match ReadOf(q, kind)
    case Locked(promised) =>
      promised == RowsIn(s.written, RangeList(cfg, s, q, kind)) + SlotOf(s, Key(cfg, q, kind)).rows
    case Snapped(promised, hot) =>
      promised == RowsIn(s.written, RangeList(cfg, s, q, kind)) + hot
    case Captured(promised, hot, paths, got, next) =>
      && (forall p :: p in paths ==> p in s.written)
      && promised == RowsIn(s.written, paths) + hot
      && next <= |paths| && got == RowsIn(s.written, paths[..next])
    case _ => true
  }

  /** Since the due list was read, with no failed merge: a partition not waiting for its merge
      lists at most the threshold (or the one merged file) and what was flushed meanwhile. */
  ghost predicate PassAt(cfg: Config, s: State, key: Partition)
  {
    !s.pass.failed && !StillDue(s.compactor, key) ==>
      |CurrentList(s, key)| <= Max(cfg.threshold, 1) + FlushesOf(s, key)
  }

  ghost predicate Inv(cfg: Config, s: State)
  {
    && OneWriter(s) && CompactorAt(s)
    && FlushAt(cfg, s)
    && (forall id :: LocksAt(s, id))
    && (forall p :: PathAt(s, p) && PartSizeAt(cfg, s, p))
    && (forall key :: ListAt(cfg, s, key) && ConservedAt(s, key) && StoredAt(s, key))
    && (forall key :: SizeAt(cfg, s, key) && PassAt(cfg, s, key))
    && (forall id, kind :: id in s.queries ==> ViewAt(cfg, s, s.queries[id], kind))
  }

  lemma AtStore(cfg: Config, s: State)
    requires Inv(cfg, s)
    ensures OneWriter(s) && CompactorAt(s) && FlushAt(cfg, s)
  {
    hide FlushAt, PathAt, PartSizeAt, ListAt, ConservedAt, StoredAt, SizeAt, PassAt, ViewAt, LocksAt, CompactorAt;
  }

  lemma AtKey(cfg: Config, s: State, key: Partition)
    requires Inv(cfg, s)
    ensures ListAt(cfg, s, key) && ConservedAt(s, key) && StoredAt(s, key) && SizeAt(cfg, s, key) && PassAt(cfg, s, key)
  {
    hide FlushAt, PathAt, PartSizeAt, ListAt, ConservedAt, StoredAt, SizeAt, PassAt, ViewAt, LocksAt, CompactorAt;
  }

  lemma AtPath(cfg: Config, s: State, p: FilePath)
    requires Inv(cfg, s)
    ensures PathAt(s, p) && PartSizeAt(cfg, s, p)
  {
    hide FlushAt, PathAt, PartSizeAt, ListAt, ConservedAt, StoredAt, SizeAt, PassAt, ViewAt, LocksAt, CompactorAt;
  }

  lemma AtQuery(cfg: Config, s: State, id: nat, kind: Kind)
    requires Inv(cfg, s)
    ensures LocksAt(s, id) && (id in s.queries ==> ViewAt(cfg, s, s.queries[id], kind))
  {
    hide FlushAt, PathAt, PartSizeAt, ListAt, ConservedAt, StoredAt, SizeAt, PassAt, ViewAt, LocksAt, CompactorAt;
  }

  lemma InitInv(cfg: Config)
    ensures Inv(cfg, Init())
  {
  }

  // ---------- Locks ----------

  lemma LocksB(cfg: Config, s: State, e: BatcherEvent, id: nat)
    requires LocksAt(s, id) && OneWriter(s) && BatcherCan(cfg, s, e)
    ensures LocksAt(BatcherStep(cfg, s, e), id) && OneWriter(BatcherStep(cfg, s, e))
  {
    hide SymbolsOf, IsSafeSymbol, SlotOf;
  }

  lemma LocksC(cfg: Config, s: State, e: CompactorEvent, id: nat)
    requires LocksAt(s, id) && OneWriter(s) && CompactorCan(cfg, s, e)
    ensures LocksAt(CompactorStep(cfg, s, e), id) && OneWriter(CompactorStep(cfg, s, e))
  {
    hide RowsIn, KeysOver, Listed;
  }

  lemma LocksQ(cfg: Config, s: State, id: nat, e: QueryEvent)
    requires LocksAt(s, id) && QueryCan(cfg, s, id, e)
    ensures LocksAt(Step(cfg, s, Q(id, e)), id)
  {
    hide Owed, ListsOf, KeysInRange, SlotOf;
  }

  // ---------- Targets ----------

  lemma PathB(cfg: Config, s: State, e: BatcherEvent, p: FilePath)
    requires PathAt(s, p) && PartSizeAt(cfg, s, p) && FlushAt(cfg, s) && BatcherCan(cfg, s, e)
    requires Flushing(s.batcher) ==> PathAt(s, s.batcher.path)
    ensures PathAt(BatcherStep(cfg, s, e), p) && PartSizeAt(cfg, BatcherStep(cfg, s, e), p)
  {
    hide SymbolsOf, IsSafeSymbol, CurrentList, CanWriteHot, CanWriteCatalog;
  }

  lemma PathC(cfg: Config, s: State, e: CompactorEvent, p: FilePath)
    requires PathAt(s, p) && PartSizeAt(cfg, s, p) && CompactorCan(cfg, s, e)
    requires s.compactor.Merging? ==> PathAt(s, MergeTarget(s.compactor.key, s.mergedIdx))
    ensures PathAt(CompactorStep(cfg, s, e), p) && PartSizeAt(cfg, CompactorStep(cfg, s, e), p)
  {
    hide RowsIn, KeysOver, Listed, CanWriteCatalog;
  }

  // ---------- Flushes ----------

  lemma FlushB(cfg: Config, s: State, e: BatcherEvent)
    requires FlushAt(cfg, s) && CompactorAt(s) && BatcherCan(cfg, s, e)
    requires e.TakeBatch? ==>
      var key := FlushKey(cfg, s, e.symbol);
      SizeAt(cfg, s, key) && PathAt(s, FilePath(key, PartFile(SlotOf(s, key).nextSeq)))
    requires Flushing(s.batcher) ==> PathAt(s, s.batcher.path) && ListAt(cfg, s, s.batcher.key)
    ensures FlushAt(cfg, BatcherStep(cfg, s, e))
  {
    hide SymbolsOf, IsSafeSymbol, CanWriteHot, CanWriteCatalog, Distinct;
  }

  lemma CompactorB(cfg: Config, s: State, e: BatcherEvent)
    requires CompactorAt(s) && OneWriter(s) && BatcherCan(cfg, s, e)
    ensures CompactorAt(BatcherStep(cfg, s, e))
  {
    hide SymbolsOf, IsSafeSymbol, CanWriteHot, CanWriteCatalog, SlotOf;
  }

  lemma CompactorC(cfg: Config, s: State, e: CompactorEvent)
    requires CompactorAt(s) && CompactorCan(cfg, s, e)
    requires s.compactor.Merging? ==> forall p :: p in s.compactor.paths ==> PathAt(s, p)
    requires s.compactor.Merging? ==> ListAt(cfg, s, s.compactor.key)
    ensures CompactorAt(CompactorStep(cfg, s, e))
  {
    hide RowsIn, KeysOver, CanWriteCatalog, Distinct, SlotOf;
  }

  lemma FlushC(cfg: Config, s: State, e: CompactorEvent)
    requires FlushAt(cfg, s) && CompactorAt(s) && OneWriter(s) && CompactorCan(cfg, s, e)
    requires s.compactor.Merging? ==> ListAt(cfg, s, s.compactor.key)
    requires s.compactor.Merging? ==> forall p :: p in s.compactor.paths ==> PathAt(s, p)
    ensures FlushAt(cfg, CompactorStep(cfg, s, e))
  {
    hide RowsIn, KeysOver, CanWriteCatalog, Distinct;
  }

  // ---------- Lists ----------

  lemma ListB(cfg: Config, s: State, e: BatcherEvent, key: Partition)
    requires ListAt(cfg, s, key) && FlushAt(cfg, s) && OneWriter(s) && BatcherCan(cfg, s, e)
    requires Flushing(s.batcher) ==> PathAt(s, s.batcher.path)
    ensures ListAt(cfg, BatcherStep(cfg, s, e), key)
  {
    hide SymbolsOf, IsSafeSymbol, CanWriteHot, CanWriteCatalog, SlotOf;
  }

  lemma ListC(cfg: Config, s: State, e: CompactorEvent, key: Partition)
    requires ListAt(cfg, s, key) && CompactorAt(s) && CompactorCan(cfg, s, e)
    requires s.compactor.Merging? ==> ListAt(cfg, s, s.compactor.key)
    requires s.compactor.Merging? ==> PathAt(s, MergeTarget(s.compactor.key, s.mergedIdx))
    ensures ListAt(cfg, CompactorStep(cfg, s, e), key)
  {
    hide RowsIn, KeysOver, CanWriteCatalog;
    if e.MergeSaveOk? {
      MergedList(cfg, s, key);
    }
  }

  /** The swap leaves one new file in the merged partition's list and the others alone. */
  lemma MergedList(cfg: Config, s: State, key: Partition)
    requires ListAt(cfg, s, key) && CompactorCan(cfg, s, MergeSaveOk) && ListAt(cfg, s, s.compactor.key)
    requires PathAt(s, MergeTarget(s.compactor.key, s.mergedIdx))
    ensures ListAt(cfg, CompactorStep(cfg, s, MergeSaveOk), key)
  {
    hide RowsIn, KeysOver, CanWriteCatalog;
  }

  // ---------- Conservation ----------

  lemma BatchSnoc(batches: seq<Batch>, batch: Batch)
    ensures AllRows(batches + [batch]) == AllRows(batches) + batch.rows
    ensures Survivors(batches + [batch]) == Survivors(batches) + if batch.lost then [] else batch.rows
  {
    assert (batches + [batch])[..|batches|] == batches;
  }

  lemma ConservedB(cfg: Config, s: State, e: BatcherEvent, key: Partition)
    requires ConservedAt(s, key) && FlushAt(cfg, s) && BatcherCan(cfg, s, e)
    ensures ConservedAt(BatcherStep(cfg, s, e), key)
  {
    hide SymbolsOf, IsSafeSymbol, CanWriteHot, CanWriteCatalog, AllRows, Survivors, CurrentList;
    if e.SaveFail? || e.AddFile? {
      BatchEnds(cfg, s, e, key);
    } else if e.TakeBatch? {
      BatchStarts(cfg, s, e.symbol, key);
    }
  }

  lemma BatchEnds(cfg: Config, s: State, e: BatcherEvent, key: Partition)
    requires ConservedAt(s, key) && FlushAt(cfg, s) && BatcherCan(cfg, s, e) && (e.SaveFail? || e.AddFile?)
    ensures ConservedAt(BatcherStep(cfg, s, e), key)
  {
    hide SymbolsOf, IsSafeSymbol, CanWriteHot, CanWriteCatalog, AllRows, Survivors, CurrentList;
    BatchSnoc(AccountOf(s, key).batches, Batch(s.batcher.rows, e.SaveFail?));
  }

  lemma BatchStarts(cfg: Config, s: State, symbol: Symbol, key: Partition)
    requires ConservedAt(s, key) && BatcherCan(cfg, s, TakeBatch(symbol))
    ensures ConservedAt(BatcherStep(cfg, s, TakeBatch(symbol)), key)
  {
    hide SymbolsOf, IsSafeSymbol, CanWriteHot, CanWriteCatalog, AllRows, Survivors, CurrentList;
    var all, rows := AllRows(AccountOf(s, key).batches), SlotOf(s, key).rows;
    assert all + [] + rows == all + rows + [];
  }

  lemma ConservedC(cfg: Config, s: State, e: CompactorEvent, key: Partition)
    requires ConservedAt(s, key) && CompactorCan(cfg, s, e)
    ensures ConservedAt(CompactorStep(cfg, s, e), key)
  {
    hide RowsIn, KeysOver, CanWriteCatalog, AllRows;
  }

  lemma StoredB(cfg: Config, s: State, e: BatcherEvent, key: Partition)
    requires StoredAt(s, key) && FlushAt(cfg, s) && OneWriter(s) && BatcherCan(cfg, s, e)
    requires ListAt(cfg, s, key) && (Flushing(s.batcher) ==> PathAt(s, s.batcher.path))
    ensures StoredAt(BatcherStep(cfg, s, e), key)
  {
    hide SymbolsOf, IsSafeSymbol, CanWriteHot, CanWriteCatalog, Distinct, AllRows, Survivors, RowsIn;
    var list, batches := CurrentList(s, key), AccountOf(s, key).batches;
    if e.SaveOk? {
      RowsInSame(s.written, BatcherStep(cfg, s, e).written, list);
    } else if e.SaveFail? {
      BatchSnoc(batches, Batch(s.batcher.rows, true));
      assert Survivors(batches) + [] == Survivors(batches);
    } else if e.AddFile? {
      BatchSnoc(batches, Batch(s.batcher.rows, false));
      RowsInSnoc(s.written, list, s.batcher.path);
    }
  }

  lemma StoredC(cfg: Config, s: State, e: CompactorEvent, key: Partition)
    requires StoredAt(s, key) && CompactorAt(s) && CompactorCan(cfg, s, e) && ListAt(cfg, s, key)
    requires s.compactor.Merging? ==> PathAt(s, MergeTarget(s.compactor.key, s.mergedIdx))
    requires s.compactor.Merging? ==> forall p :: p in s.compactor.paths ==> PathAt(s, p) && p in s.written
    ensures StoredAt(CompactorStep(cfg, s, e), key)
  {
    hide KeysOver, CanWriteCatalog, Distinct, AllRows, Survivors, RowsIn;
    if e.MergeSaveOk? {
      MergedRows(cfg, s, key);
    }
  }

  /** The merged file holds the rows of the files it replaces; other lists are untouched. */
  lemma MergedRows(cfg: Config, s: State, key: Partition)
    requires CompactorCan(cfg, s, MergeSaveOk) && ListAt(cfg, s, key)
    requires PathAt(s, MergeTarget(s.compactor.key, s.mergedIdx))
    requires forall p :: p in s.compactor.paths ==> PathAt(s, p) && p in s.written
    ensures var t := CompactorStep(cfg, s, MergeSaveOk);
      RowsIn(t.written, CurrentList(t, key)) == RowsIn(s.written, CurrentList(s, key))
  {
    hide Distinct, RowsIn;
    var t, target := CompactorStep(cfg, s, MergeSaveOk), MergeTarget(s.compactor.key, s.mergedIdx);
    if key == s.compactor.key {
      RowsInSame(s.disk, s.written, s.compactor.paths);
      RowsInSnoc(t.written, [], target);
      assert [] + [target] == [target];
      EmptyRows(t.written);
    } else {
      RowsInSame(s.written, t.written, CurrentList(s, key));
    }
  }

  lemma EmptyRows(files: Files)
    ensures RowsIn(files, []) == []
  {
  }

  // ---------- Sizes ----------

  lemma SizeB(cfg: Config, s: State, e: BatcherEvent, key: Partition)
    requires SizeAt(cfg, s, key) && FlushAt(cfg, s) && BatcherCan(cfg, s, e) && ListAt(cfg, s, key)
    ensures SizeAt(cfg, BatcherStep(cfg, s, e), key)
  {
    hide IsSafeSymbol, CanWriteHot, CanWriteCatalog, Distinct;
  }

  lemma SizeC(cfg: Config, s: State, e: CompactorEvent, key: Partition)
    requires SizeAt(cfg, s, key) && CompactorCan(cfg, s, e)
    ensures SizeAt(cfg, CompactorStep(cfg, s, e), key)
  {
    hide RowsIn, KeysOver, CanWriteCatalog;
  }

  // ---------- Compaction passes ----------

  lemma PassB(cfg: Config, s: State, e: BatcherEvent, key: Partition)
    requires PassAt(cfg, s, key) && OneWriter(s) && BatcherCan(cfg, s, e)
    ensures PassAt(cfg, BatcherStep(cfg, s, e), key)
  {
    hide SymbolsOf, IsSafeSymbol, CanWriteHot, CanWriteCatalog, SlotOf;
  }

  lemma PassC(cfg: Config, s: State, e: CompactorEvent, key: Partition)
    requires PassAt(cfg, s, key) && CompactorAt(s) && CompactorCan(cfg, s, e)
    ensures PassAt(cfg, CompactorStep(cfg, s, e), key)
  {
    hide RowsIn, CanWriteCatalog, SlotOf;
  }

  // ---------- Views ----------

  lemma ViewB(cfg: Config, s: State, e: BatcherEvent, id: nat, kind: Kind)
    requires id in s.queries && ViewAt(cfg, s, s.queries[id], kind) && LocksAt(s, id)
    requires FlushAt(cfg, s) && BatcherCan(cfg, s, e) && (Flushing(s.batcher) ==> PathAt(s, s.batcher.path))
    requires ListAt(cfg, s, Key(cfg, s.queries[id], kind))
    ensures ViewAt(cfg, BatcherStep(cfg, s, e), s.queries[id], kind)
  {
    hide BatcherCan, BatcherStep, ViewAt, ListAt, SlotOf;
    LockedKept(cfg, s, e, id, kind);
    WritesKept(cfg, s, e);
    ViewKept(cfg, s, BatcherStep(cfg, s, e), s.queries[id], kind);
  }

  /** What a query has locked the batcher leaves alone. */
  lemma LockedKept(cfg: Config, s: State, e: BatcherEvent, id: nat, kind: Kind)
    requires id in s.queries && LocksAt(s, id) && FlushAt(cfg, s) && BatcherCan(cfg, s, e)
    ensures var t, q := BatcherStep(cfg, s, e), s.queries[id];
      && (ReadOf(q, kind).Locked? || ReadOf(q, kind).Snapped? ==> t.parts == s.parts && !s.compactor.Merging?)
      && (ReadOf(q, kind).Locked? ==> SlotOf(t, Key(cfg, q, kind)) == SlotOf(s, Key(cfg, q, kind)))
  {
    hide SymbolsOf, IsSafeSymbol, CanWriteCatalog, CurrentList;
  }

  /** The batcher never writes over a file. */
  lemma WritesKept(cfg: Config, s: State, e: BatcherEvent)
    requires FlushAt(cfg, s) && BatcherCan(cfg, s, e) && (Flushing(s.batcher) ==> PathAt(s, s.batcher.path))
    ensures forall p :: p in s.written ==>
      p in BatcherStep(cfg, s, e).written && BatcherStep(cfg, s, e).written[p] == s.written[p]
  {
    hide SymbolsOf, IsSafeSymbol, CanWriteCatalog, CanWriteHot, CurrentList, SlotOf;
  }

  /** A new file changes no view: every file a view rests on was written before. */
  lemma ViewKept(cfg: Config, s: State, t: State, q: Query, kind: Kind)
    requires ViewAt(cfg, s, q, kind) && ListAt(cfg, s, Key(cfg, q, kind))
    requires ReadOf(q, kind).Locked? || ReadOf(q, kind).Snapped? ==> t.parts == s.parts
    requires ReadOf(q, kind).Locked? ==> SlotOf(t, Key(cfg, q, kind)) == SlotOf(s, Key(cfg, q, kind))
    requires forall p :: p in s.written ==> p in t.written && t.written[p] == s.written[p]
    requires ReadOf(q, kind).Locked? || ReadOf(q, kind).Snapped? ==> !s.compactor.Merging?
    ensures ViewAt(cfg, t, q, kind)
  {
    hide Distinct, RowsIn;
    var r := ReadOf(q, kind);
    if r.Captured? {
      RowsInSame(s.written, t.written, r.paths);
      RowsInSame(s.written, t.written, r.paths[..r.next]);
    } else if r.Locked? || r.Snapped? {
      RowsInSame(s.written, t.written, RangeList(cfg, s, q, kind));
    }
  }

  lemma ViewC(cfg: Config, s: State, e: CompactorEvent, id: nat, kind: Kind)
    requires id in s.queries && ViewAt(cfg, s, s.queries[id], kind) && LocksAt(s, id) && CompactorCan(cfg, s, e)
    requires s.compactor.Merging? ==> PathAt(s, MergeTarget(s.compactor.key, s.mergedIdx))
    ensures ViewAt(cfg, CompactorStep(cfg, s, e), s.queries[id], kind)
  {
    hide KeysOver, RowsIn;
    var t, r := CompactorStep(cfg, s, e), ReadOf(s.queries[id], kind);
    if e.MergeSaveOk? && r.Captured? {
      RowsInSame(s.written, t.written, r.paths);
      RowsInSame(s.written, t.written, r.paths[..r.next]);
    }
  }

  /** A query's own step, seen by one of its two kinds. */
  lemma ViewQ(cfg: Config, s: State, id: nat, e: QueryEvent, kind: Kind)
    requires QueryCan(cfg, s, id, e) && LocksAt(s, id)
    requires id in s.queries ==> ViewAt(cfg, s, s.queries[id], kind)
    requires id in s.queries ==>
      ListAt(cfg, s, Key(cfg, s.queries[id], kind)) && StoredAt(s, Key(cfg, s.queries[id], kind))
    requires forall key :: key in s.parts ==> key.date == cfg.day
    requires id in s.queries && ReadOf(s.queries[id], kind).Captured? ==>
      forall p :: p in ReadOf(s.queries[id], kind).paths ==> PathAt(s, p)
    ensures ViewAt(cfg, s, QueryAfter(cfg, s, id, e), kind)
  {
    hide RowsIn, Survivors, Distinct, ListsOf, KeysInRange, Enumerates, Owed, CurrentList;
    match e {
      case CaptureFiles(k, order) =>
        if k == kind {
          CaptureStep(cfg, s, s.queries[id], kind, order);
        }
      case ReadFile(k) =>
        if k == kind {
          ReadStep(cfg, s, s.queries[id], kind);
        }
      case LockHot(k) =>
        if k == kind {
          LockStep(cfg, s, s.queries[id], kind);
        }
      case _ =>
    }
  }

  lemma LockStep(cfg: Config, s: State, q: Query, kind: Kind)
    requires q.holdsCatalog && CanReadCatalog(s) && StoredAt(s, Key(cfg, q, kind))
    ensures ViewAt(cfg, s, WithRead(q, kind, Locked(Owed(cfg, s, q, kind))), kind)
  {
    hide RowsIn, Survivors;
    EmptyRows(s.written);
  }

  lemma CaptureStep(cfg: Config, s: State, q: Query, kind: Kind, order: seq<Partition>)
    requires ReadOf(q, kind).Snapped? && q.holdsCatalog && CanReadCatalog(s) && ViewAt(cfg, s, q, kind)
    requires Enumerates(order, KeysInRange(s.parts, q.symbol, kind, q.first, q.last))
    requires forall key :: key in s.parts ==> key.date == cfg.day
    requires ListAt(cfg, s, Key(cfg, q, kind))
    ensures var r := ReadOf(q, kind);
      ViewAt(cfg, s, WithRead(q, kind, Captured(r.promised, r.hot, ListsOf(s.parts, order), [], 0)), kind)
  {
    hide RowsIn, Distinct, ListsOf, KeysInRange, Enumerates;
    OneDayRange(s.parts, order, q.symbol, kind, q.first, q.last, cfg.day);
    assert ListsOf(s.parts, order)[..0] == [];
    EmptyRows(s.written);
  }

  lemma ReadStep(cfg: Config, s: State, q: Query, kind: Kind)
    requires ReadOf(q, kind).Captured? && ReadOf(q, kind).next < |ReadOf(q, kind).paths| && ViewAt(cfg, s, q, kind)
    requires forall p :: p in ReadOf(q, kind).paths ==> PathAt(s, p)
    ensures ViewAt(cfg, s, WithRead(q, kind, NextFile(s, ReadOf(q, kind))), kind)
  {
    hide RowsIn;
    var r := ReadOf(q, kind);
    var p := r.paths[r.next];
    RowsInSnoc(s.written, r.paths[..r.next], p);
    assert r.paths[..r.next + 1] == r.paths[..r.next] + [p];
  }

  // ---------- All steps, all runs ----------

  lemma InvB(cfg: Config, s: State, e: BatcherEvent)
    requires Inv(cfg, s) && BatcherCan(cfg, s, e)
    ensures Inv(cfg, BatcherStep(cfg, s, e))
  {
    hide BatcherCan, BatcherStep, FlushAt, PathAt, ListAt, ConservedAt, StoredAt, SizeAt, PassAt, ViewAt, LocksAt, CompactorAt, PartSizeAt;
    var t := BatcherStep(cfg, s, e);
    QueriesKept(cfg, s, e);
    FlushB(cfg, s, e);
    CompactorB(cfg, s, e);
    forall id ensures LocksAt(t, id) && OneWriter(t) { LocksB(cfg, s, e, id); }
    assert LocksAt(t, 0) && OneWriter(t);
    forall p ensures PathAt(t, p) && PartSizeAt(cfg, t, p) { PathB(cfg, s, e, p); }
    forall key ensures ListAt(cfg, t, key) { ListB(cfg, s, e, key); }
    forall key ensures ConservedAt(t, key) { ConservedB(cfg, s, e, key); }
    forall key ensures StoredAt(t, key) { StoredB(cfg, s, e, key); }
    forall key ensures SizeAt(cfg, t, key) { SizeB(cfg, s, e, key); }
    forall key ensures PassAt(cfg, t, key) { PassB(cfg, s, e, key); }
    forall id, kind | id in s.queries ensures ViewAt(cfg, t, s.queries[id], kind) { ViewB(cfg, s, e, id, kind); }
  }

  lemma QueriesKept(cfg: Config, s: State, e: BatcherEvent)
    requires BatcherCan(cfg, s, e)
    ensures BatcherStep(cfg, s, e).queries == s.queries
  {
  }

  lemma QueriesKeptC(cfg: Config, s: State, e: CompactorEvent)
    requires CompactorCan(cfg, s, e)
    ensures CompactorStep(cfg, s, e).queries == s.queries
  {
  }

  lemma InvC(cfg: Config, s: State, e: CompactorEvent)
    requires Inv(cfg, s) && CompactorCan(cfg, s, e)
    ensures Inv(cfg, CompactorStep(cfg, s, e))
  {
    var t := CompactorStep(cfg, s, e);
    hide CompactorCan, CompactorStep, FlushAt, PathAt, ListAt, ConservedAt, StoredAt, SizeAt, PassAt, ViewAt, LocksAt, CompactorAt, PartSizeAt;
    QueriesKeptC(cfg, s, e);
    MergeSources(cfg, s);
    FlushC(cfg, s, e);
    CompactorC(cfg, s, e);
    forall id ensures LocksAt(t, id) && OneWriter(t) { LocksC(cfg, s, e, id); }
    assert LocksAt(t, 0) && OneWriter(t);
    forall p ensures PathAt(t, p) && PartSizeAt(cfg, t, p) { PathC(cfg, s, e, p); }
    forall key ensures ListAt(cfg, t, key) { ListC(cfg, s, e, key); }
    forall key ensures ConservedAt(t, key) { ConservedC(cfg, s, e, key); }
    forall key ensures StoredAt(t, key) { StoredC(cfg, s, e, key); }
    forall key ensures SizeAt(cfg, t, key) { SizeC(cfg, s, e, key); }
    forall key ensures PassAt(cfg, t, key) { PassC(cfg, s, e, key); }
    forall id, kind | id in s.queries ensures ViewAt(cfg, t, s.queries[id], kind) { ViewC(cfg, s, e, id, kind); }
  }

  lemma MergeSources(cfg: Config, s: State)
    requires Inv(cfg, s)
    ensures s.compactor.Merging? ==> forall p :: p in s.compactor.paths ==> PathAt(s, p) && p in s.written
  {
    hide PathAt;
    if s.compactor.Merging? {
      assert ListAt(cfg, s, s.compactor.key);
    }
  }

  /** Everything but locks and views ignores the queries. */
  ghost predicate StoreInv(cfg: Config, s: State)
  {
    && OneWriter(s) && CompactorAt(s)
    && FlushAt(cfg, s)
    && (forall p :: PathAt(s, p) && PartSizeAt(cfg, s, p))
    && (forall key :: ListAt(cfg, s, key) && ConservedAt(s, key) && StoredAt(s, key))
    && (forall key :: SizeAt(cfg, s, key) && PassAt(cfg, s, key))
  }

  lemma PathIgnores(cfg: Config, s: State, queries: map<nat, Query>, p: FilePath)
    ensures PathAt(s.(queries := queries), p) == PathAt(s, p)
    ensures PartSizeAt(cfg, s.(queries := queries), p) == PartSizeAt(cfg, s, p)
  {
  }

  lemma ListIgnores(cfg: Config, s: State, queries: map<nat, Query>, key: Partition)
    ensures ListAt(cfg, s.(queries := queries), key) == ListAt(cfg, s, key)
    ensures PassAt(cfg, s.(queries := queries), key) == PassAt(cfg, s, key)
  {
    hide Distinct, StillDue;
    assert CurrentList(s.(queries := queries), key) == CurrentList(s, key);
  }

  lemma KeyIgnores(cfg: Config, s: State, queries: map<nat, Query>, key: Partition)
    ensures ConservedAt(s.(queries := queries), key) == ConservedAt(s, key)
    ensures StoredAt(s.(queries := queries), key) == StoredAt(s, key)
    ensures SizeAt(cfg, s.(queries := queries), key) == SizeAt(cfg, s, key)
  {
    hide RowsIn, AllRows, Survivors, SweptPast;
  }

  lemma RestIgnores(cfg: Config, s: State, queries: map<nat, Query>, q: Query, kind: Kind)
    ensures ViewAt(cfg, s.(queries := queries), q, kind) == ViewAt(cfg, s, q, kind)
    ensures OneWriter(s.(queries := queries)) == OneWriter(s)
    ensures CompactorAt(s.(queries := queries)) == CompactorAt(s)
    ensures FlushAt(cfg, s.(queries := queries)) == FlushAt(cfg, s)
  {
  }

  lemma StoreIgnores(cfg: Config, s: State, queries: map<nat, Query>, q: Query)
    requires StoreInv(cfg, s)
    ensures StoreInv(cfg, s.(queries := queries))
  {
    hide PathAt, PartSizeAt, ListAt, ConservedAt, StoredAt, SizeAt, PassAt, FlushAt, CompactorAt, OneWriter;
    var t := s.(queries := queries);
    RestIgnores(cfg, s, queries, q, Kind.Quote);
    forall p ensures PathAt(t, p) && PartSizeAt(cfg, t, p) { PathIgnores(cfg, s, queries, p); }
    forall key
      ensures ListAt(cfg, t, key) && ConservedAt(t, key) && StoredAt(t, key)
      ensures SizeAt(cfg, t, key) && PassAt(cfg, t, key)
    {
      ListIgnores(cfg, s, queries, key);
      KeyIgnores(cfg, s, queries, key);
    }
  }

  lemma InvQ(cfg: Config, s: State, id: nat, e: QueryEvent)
    requires Inv(cfg, s) && QueryCan(cfg, s, id, e)
    ensures Inv(cfg, Step(cfg, s, Q(id, e)))
  {
    DaysOnly(cfg, s);
    hide PathAt, PartSizeAt, ListAt, ConservedAt, StoredAt, SizeAt, PassAt, FlushAt, CompactorAt, OneWriter,
         ViewAt, LocksAt, QueryCan, QueryAfter;
    var after := QueryAfter(cfg, s, id, e);
    var queries := s.queries[id := after];
    var t := s.(queries := queries);
    StoreIgnores(cfg, s, queries, after);
    forall other ensures LocksAt(t, other) {
      if other == id {
        LocksQ(cfg, s, id, e);
      } else {
        LocksIgnore(s, queries, other);
      }
    }
    forall other, kind | other in queries ensures ViewAt(cfg, t, queries[other], kind) {
      RestIgnores(cfg, s, queries, queries[other], kind);
      if other == id {
        ViewQ(cfg, s, id, e, kind);
      }
    }
  }

  lemma LocksIgnore(s: State, queries: map<nat, Query>, other: nat)
    requires LocksAt(s, other) && (other in queries <==> other in s.queries)
    requires other in queries ==> queries[other] == s.queries[other]
    ensures LocksAt(s.(queries := queries), other)
  {
  }

  lemma DaysOnly(cfg: Config, s: State)
    requires Inv(cfg, s)
    ensures forall key :: key in s.parts ==> key.date == cfg.day
  {
    hide PathAt, PartSizeAt, ConservedAt, StoredAt, SizeAt, PassAt, FlushAt, ViewAt, LocksAt;
    forall key | key in s.parts
      ensures key.date == cfg.day
    {
      assert ListAt(cfg, s, key);
    }
  }

  lemma InvStep(cfg: Config, s: State, e: Event)
    requires Inv(cfg, s) && Can(cfg, s, e)
    ensures Inv(cfg, Step(cfg, s, e))
  {
    hide Inv, BatcherCan, BatcherStep, CompactorCan, CompactorStep, QueryCan, QueryAfter;
    match e {
      case B(b) => InvB(cfg, s, b);
      case C(c) => InvC(cfg, s, c);
      case Q(id, q) => InvQ(cfg, s, id, q);
    }
  }

  /** The invariant holds in every reachable state. */
  lemma {:induction false} RunInv(cfg: Config, events: seq<Event>)
    ensures Run(cfg, events).Some? ==> Inv(cfg, Run(cfg, events).value)
    decreases |events|
  {
    hide Inv, Can, Step;
    if events == [] {
      InitInv(cfg);
    } else {
      var front, e := events[..|events| - 1], events[|events| - 1];
      RunInv(cfg, front);
      if Run(cfg, events).Some? {
        InvStep(cfg, Run(cfg, front).value, e);
      }
    }
  }
}
