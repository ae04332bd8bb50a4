/** Reading captured files after the locks are gone: when that fails, and a run in which it does. */
module DeferredReads {
  import opened Wrappers
  import opened Rows
  import opened Paths
  import opened Catalogs
  import opened Protocol
  import opened ProtocolInvariant
  import opened StoreRuns
  import opened Disks
  import opened Queries

  /** The step deletes `p`. */
  predicate Removes(s: State, e: Event, p: FilePath)
  {
    e == C(DeleteNext(true)) && s.compactor.Deleting? && s.compactor.paths != [] && s.compactor.paths[0] == p
  }

  /** Step `i` of the run deletes `p`, which a merge had replaced. */
  ghost predicate RemovedAt(cfg: Config, events: seq<Event>, i: nat, p: FilePath)
  {
    i < |events| && Run(cfg, events[..i]).Some? && Removes(Run(cfg, events[..i]).value, events[i], p)
  }

  ghost predicate Removed(cfg: Config, events: seq<Event>, p: FilePath)
  {
    exists i: nat :: RemovedAt(cfg, events, i, p)
  }

  lemma RemovedSnoc(cfg: Config, events: seq<Event>, e: Event, p: FilePath)
    requires Run(cfg, events).Some?
    ensures Removed(cfg, events + [e], p) <==> Removed(cfg, events, p) || Removes(Run(cfg, events).value, e, p)
  {
    hide Run, Removes;
    var all := events + [e];
    assert all[..|events|] == events;
    if i: nat :| RemovedAt(cfg, events, i, p) {
      assert all[..i] == events[..i];
      assert RemovedAt(cfg, all, i, p);
    }
    if Removes(Run(cfg, events).value, e, p) {
      assert RemovedAt(cfg, all, |events|, p);
    }
    if i: nat :| RemovedAt(cfg, all, i, p) {
      if i < |events| {
        assert all[..i] == events[..i];
        assert RemovedAt(cfg, events, i, p);
      }
    }
  }

  /** What one step does to a path: a written file goes only by being deleted, and a path is
      written only if nothing has been tried on it. */
  ghost predicate PathStep(s: State, e: Event, t: State, p: FilePath)
  {
    && (p in s.targeted ==> p in t.targeted)
    && (p in s.written ==> p in t.written && (p in t.disk <==> p in s.disk && !Removes(s, e, p)))
    && (p !in s.written && p in t.written ==> p in t.disk && p !in s.targeted)
    && (Removes(s, e, p) ==> p in s.targeted && p !in t.disk)
  }

  lemma PathStepB(cfg: Config, s: State, e: BatcherEvent, p: FilePath)
    requires BatcherCan(cfg, s, e) && PathAt(s, p)
    requires TargetOf(s, B(e)).Some? ==> TargetOf(s, B(e)).value !in s.targeted
    ensures PathStep(s, B(e), BatcherStep(cfg, s, e), p)
  {
    hide SymbolsOf, IsSafeSymbol, CanWriteHot, CanWriteCatalog, SlotOf;
  }

  lemma PathStepC(cfg: Config, s: State, e: CompactorEvent, p: FilePath)
    requires CompactorCan(cfg, s, e) && PathAt(s, p) && CompactorAt(s)
    requires TargetOf(s, C(e)).Some? ==> TargetOf(s, C(e)).value !in s.targeted
    ensures PathStep(s, C(e), CompactorStep(cfg, s, e), p)
  {
    hide RowsIn, KeysOver, CanWriteCatalog, SlotOf;
  }

  lemma EventPathStep(cfg: Config, events: seq<Event>, s: State, e: Event, p: FilePath)
    requires Run(cfg, events) == Some(s) && Can(cfg, s, e)
    ensures PathStep(s, e, Step(cfg, s, e), p)
  {
    RunInv(cfg, events);
    hide Run, Inv, BatcherCan, BatcherStep, CompactorCan, CompactorStep, QueryCan, QueryAfter;
    AtStore(cfg, s);
    AtPath(cfg, s, p);
    if TargetOf(s, e).Some? {
      TargetIsNew(cfg, events, s, e);
    }
    match e {
      case B(b) => PathStepB(cfg, s, b, p);
      case C(c) => PathStepC(cfg, s, c, p);
      case Q(_, _) =>
    }
  }

  /** A file once written is missing exactly when the run has deleted it. */
  lemma {:induction false} MissingIsRemoved(cfg: Config, events: seq<Event>, s: State, p: FilePath)
    requires Run(cfg, events) == Some(s)
    ensures Removed(cfg, events, p) ==> p in s.targeted
    ensures p in s.written ==> (p !in s.disk <==> Removed(cfg, events, p))
    decreases |events|
  {
    hide Can, Step, Removes, Removed;
    if events == [] {
      NothingRemoved(cfg, p);
    } else {
      var front, e := events[..|events| - 1], events[|events| - 1];
      var before := Run(cfg, front).value;
      MissingIsRemoved(cfg, front, before, p);
      EventPathStep(cfg, front, before, e, p);
      assert front + [e] == events;
      RemovedSnoc(cfg, front, e, p);
    }
  }

  lemma NothingRemoved(cfg: Config, p: FilePath)
    ensures !Removed(cfg, [], p)
  {
  }

  /** A deferred read fails exactly when the run has deleted the file it is about to read. */
  lemma ReadFailsIfRemoved(cfg: Config, events: seq<Event>, s: State, id: nat, kind: Kind)
    requires Run(cfg, events) == Some(s) && Can(cfg, s, Q(id, ReadFile(kind)))
    ensures var r := ReadOf(s.queries[id], kind);
      NextFile(s, r).Broken? <==> Removed(cfg, events, r.paths[r.next])
  {
    var r := ReadOf(s.queries[id], kind);
    var p := r.paths[r.next];
    hide Inv, Run, RowsIn, Can, Step, Removed;
    RunInv(cfg, events);
    AtQuery(cfg, s, id, kind);
    assert p in r.paths;
    MissingIsRemoved(cfg, events, s, p);
  }

  /** A deferred read can only fail on a file that a later merge has replaced. */
  lemma OnlySupersededFilesVanish(cfg: Config, events: seq<Event>, s: State, id: nat, kind: Kind)
    requires Run(cfg, events) == Some(s) && Can(cfg, s, Q(id, ReadFile(kind)))
    requires ReadOf(Step(cfg, s, Q(id, ReadFile(kind))).queries[id], kind).Broken?
    ensures var r := ReadOf(s.queries[id], kind);
      r.paths[r.next] in s.written && r.paths[r.next] !in CurrentList(s, r.paths[r.next].partition)
  {
    var r := ReadOf(s.queries[id], kind);
    var p := r.paths[r.next];
    assert p !in s.disk;
    hide Inv, Run, RowsIn, Can, Step, CurrentList;
    RunInv(cfg, events);
    AtQuery(cfg, s, id, kind);
    AtKey(cfg, s, p.partition);
  }

  /** A plan over the files a query captured, run on the disk at any later point, gives what the
      query was owed when it held both locks, unless the run has deleted one of those files. */
  lemma PlanKeepsPromise(cfg: Config, events: seq<Event>, s: State, id: nat, kind: Kind, plan: Plan)
    requires Run(cfg, events) == Some(s) && id in s.queries && ReadOf(s.queries[id], kind).Captured?
    requires Reads(plan, ReadOf(s.queries[id], kind).paths, ReadOf(s.queries[id], kind).hot)
    ensures var r := ReadOf(s.queries[id], kind);
      && Execute(s.disk, plan) == (if AllIn(r.paths, s.disk) then Some(r.promised) else None)
      && (AllIn(r.paths, s.disk) <==> forall p :: p in r.paths ==> !Removed(cfg, events, p))
      && exists i: nat :: OwedAt(cfg, events, i, id, kind, r.promised)
  {
    hide Inv, Run, RowsIn, Removed, Execute, Owed;
    RunInv(cfg, events);
    AtQuery(cfg, s, id, kind);
    PromiseHasOrigin(cfg, events, s, id, kind);
    var r := ReadOf(s.queries[id], kind);
    if AllIn(r.paths, s.disk) {
      CapturedFilesKeep(cfg, events, s, id, kind);
    }
    forall p | p in r.paths
      ensures p !in s.disk <==> Removed(cfg, events, p)
    {
      MissingIsRemoved(cfg, events, s, p);
    }
  }

  // ---------- A run in which one does ----------

  /** One tick, flushed at once: one file, listed. */
  ghost predicate OneFile(cfg: Config, s: State, symbol: Symbol, row: Row)
  {
    var key := Partition(symbol, Kind.Trade, cfg.day);
    && s.batcher == Idle && s.compactor == Resting && s.mergedIdx == 0
    && s.parts == map[key := [FilePath(key, PartFile(0))]] && s.disk == map[FilePath(key, PartFile(0)) := [row]]
  }

  lemma FlushedRun(cfg: Config, symbol: Symbol, row: Row) returns (events: seq<Event>, s: State)
    requires cfg.maxRows <= 1 && IsSafeSymbol(symbol)
    ensures Run(cfg, events) == Some(s) && OneFile(cfg, s, symbol, row) && s.queries == map[]
  {
    hide Run, IsSafeSymbol;
    NoEvents(cfg);
    var key := Partition(symbol, Kind.Trade, cfg.day);
    var path := FilePath(key, PartFile(0));
    events, s := Next(cfg, [], Init(), B(Accept(symbol, Kind.Trade, row)));
    assert SlotOf(s, key) == Slot([row], 0);
    events, s := Next(cfg, events, s, B(TakeBatch(symbol)));
    assert s.batcher == Taken(key, [row], path, EndTick);
    events, s := Next(cfg, events, s, B(SaveOk));
    events, s := Next(cfg, events, s, B(LockAdd));
    assert s.batcher == Adding(key, [row], path, EndTick) && s.disk == map[path := [row]] && s.parts == map[];
    events, s := Next(cfg, events, s, B(AddFile));
    assert Listed(map[], key) + [path] == [path];
    events, s := Next(cfg, events, s, B(ReleaseTick));
  }

  ghost predicate HasCaptured(s: State, path: FilePath)
  {
    && s.queries.Keys == {0} && !s.queries[0].holdsCatalog
    && s.queries[0].trades.Captured? && s.queries[0].trades.paths == [path] && s.queries[0].trades.next == 0
    && s.queries[0].quotes.Captured?
  }

  /** With nobody writing, a query locks, reads and captures one kind. */
  lemma CaptureKind(cfg: Config, before: seq<Event>, s0: State, kind: Kind, order: seq<Partition>)
    returns (events: seq<Event>, s: State)
    requires Run(cfg, before) == Some(s0) && s0.batcher == Idle && s0.compactor == Resting
    requires s0.queries.Keys == {0} && s0.queries[0].holdsCatalog && ReadOf(s0.queries[0], kind).Waiting?
    requires kind.Quote? ==> s0.queries[0].trades.Captured?
    requires var q := s0.queries[0];
      Enumerates(order, KeysInRange(s0.parts, q.symbol, kind, q.first, q.last))
    ensures Run(cfg, events) == Some(s) && s == s0.(queries := s.queries) && s.queries.Keys == {0}
    ensures var r := ReadOf(s.queries[0], kind);
      r.Captured? && r.paths == ListsOf(s0.parts, order) && r.next == 0 && s.queries[0] == WithRead(s0.queries[0], kind, r)
  {
    hide Run, Owed, ListsOf, Enumerates, KeysInRange, SlotOf;
    events, s := Next(cfg, before, s0, Q(0, LockHot(kind)));
    events, s := Next(cfg, events, s, Q(0, UnlockHot(kind)));
    events, s := Next(cfg, events, s, Q(0, CaptureFiles(kind, order)));
  }

  /** A query captures the file and lets go of the catalog. */
  lemma CapturedRun(cfg: Config, before: seq<Event>, s0: State, symbol: Symbol, row: Row)
    returns (events: seq<Event>, s: State)
    requires Run(cfg, before) == Some(s0) && OneFile(cfg, s0, symbol, row) && s0.queries == map[] && symbol != []
    ensures Run(cfg, events) == Some(s) && OneFile(cfg, s, symbol, row)
    ensures HasCaptured(s, FilePath(Partition(symbol, Kind.Trade, cfg.day), PartFile(0)))
  {
    hide Run, Owed, ListsOf, Enumerates, KeysInRange;
    var key := Partition(symbol, Kind.Trade, cfg.day);
    events, s := Next(cfg, before, s0, Q(0, Open(symbol, cfg.day, cfg.day)));
    RangeOfOne(s.parts, key);
    events, s := CaptureKind(cfg, events, s, Kind.Trade, [key]);
    events, s := CaptureKind(cfg, events, s, Kind.Quote, []);
    events, s := Next(cfg, events, s, Q(0, CloseCatalog));
  }

  lemma RangeOfOne(parts: Partitions, key: Partition)
    requires parts.Keys == {key} && key.kind == Kind.Trade
    ensures Enumerates([key], KeysInRange(parts, key.symbol, Kind.Trade, key.date, key.date))
    ensures Enumerates([], KeysInRange(parts, key.symbol, Kind.Quote, key.date, key.date))
    ensures ListsOf(parts, [key]) == parts[key]
  {
    assert [key][..0] == [];
    assert ListsOf(parts, []) == [];
  }

  /** A merge replaces the file and deletes it. */
  lemma MergedRun(cfg: Config, before: seq<Event>, s0: State, symbol: Symbol, row: Row)
    returns (events: seq<Event>, s: State)
    requires cfg.threshold == 0 && Run(cfg, before) == Some(s0) && OneFile(cfg, s0, symbol, row)
    requires HasCaptured(s0, FilePath(Partition(symbol, Kind.Trade, cfg.day), PartFile(0)))
    ensures Run(cfg, events) == Some(s) && s.queries == s0.queries
    ensures FilePath(Partition(symbol, Kind.Trade, cfg.day), PartFile(0)) !in s.disk
  {
    hide Run, RowsIn, Enumerates, KeysOver;
    var key := Partition(symbol, Kind.Trade, cfg.day);
    var path := FilePath(key, PartFile(0));
    OverZero(s0.parts, key);
    events, s := Next(cfg, before, s0, C(ReadDue([key])));
    events, s := Next(cfg, events, s, C(LockMerge));
    assert s.compactor == Merging(key, [path], []);
    events, s := Next(cfg, events, s, C(MergeSaveOk));
    assert s.compactor == Deleting([path], []);
    events, s := Next(cfg, events, s, C(DeleteNext(true)));
  }

  lemma OverZero(parts: Partitions, key: Partition)
    requires parts.Keys == {key} && |parts[key]| == 1
    ensures Enumerates([key], KeysOver(parts, 0))
  {
  }

  /** A deferred read fails in run `events` at this point. */
  ghost predicate ReadBreaks(cfg: Config, events: seq<Event>, id: nat, kind: Kind)
  {
    && Run(cfg, events).Some?
    && var s := Run(cfg, events).value;
    && Can(cfg, s, Q(id, ReadFile(kind))) && NextFile(s, ReadOf(s.queries[id], kind)).Broken?
  }

  /** A reader can meet a deleted path: a file captured before a merge and read after it. */
  lemma ReaderMeetsDeletedPath(cfg: Config, symbol: Symbol, row: Row)
    requires cfg.maxRows <= 1 && cfg.threshold == 0 && IsSafeSymbol(symbol)
    ensures exists events :: ReadBreaks(cfg, events, 0, Kind.Trade)
  {
    hide Run, IsSafeSymbol, OneFile;
    SafeNotEmpty(symbol);
    var e1, s1 := FlushedRun(cfg, symbol, row);
    var e2, s2 := CapturedRun(cfg, e1, s1, symbol, row);
    var e3, s3 := MergedRun(cfg, e2, s2, symbol, row);
    assert ReadBreaks(cfg, e3, 0, Kind.Trade);
  }
}
