/** The history a state carries is the history of the run: what the events say. */
module Ledger {
  import opened Wrappers
  import opened Rows
  import opened Paths
  import opened Catalogs
  import opened Protocol

  /** The rows of the accepted ticks of one symbol and kind, in the order of their arrival. */
  function AcceptedIn(cfg: Config, events: seq<Event>, key: Partition): seq<Row>
  {
    if events == [] then []
    else
      AcceptedIn(cfg, events[..|events| - 1], key)
      + match events[|events| - 1]
        case B(Accept(symbol, kind, row)) => if Partition(symbol, kind, cfg.day) == key then [row] else []
        case _ => []
  }

  /** What the batcher's step does for a partition: list a file of its, or lose a batch of its. */
  predicate ListsFor(s: State, e: Event, key: Partition)
  {
    e == B(BatcherEvent.AddFile) && s.batcher.Adding? && s.batcher.key == key
  }

  predicate LosesFor(s: State, e: Event, key: Partition)
  {
    e.B? && e.b.SaveFail? && s.batcher.Taken? && s.batcher.key == key
  }

  /** Files listed for a partition since the compactor last read its due list. */
  ghost function ListedSince(cfg: Config, events: seq<Event>, key: Partition): nat
  {
    if events == [] then 0
    else
      var front, e := events[..|events| - 1], events[|events| - 1];
      if e.C? && e.c.ReadDue? then 0
      else ListedSince(cfg, front, key)
           + if Run(cfg, front).Some? && ListsFor(Run(cfg, front).value, e, key) then 1 else 0
  }

  /** Whether a merge has failed since then. */
  function FailedSince(events: seq<Event>): bool
  {
    if events == [] then false
    else
      var e := events[|events| - 1];
      if e.C? && e.c.ReadDue? then false
      else FailedSince(events[..|events| - 1]) || (e.C? && (e.c.MergeRefused? || e.c.MergeSaveFail?))
  }

  /** Writes of a partition's batches that failed. */
  ghost function LostIn(cfg: Config, events: seq<Event>, key: Partition): nat
  {
    if events == [] then 0
    else
      var front, e := events[..|events| - 1], events[|events| - 1];
      LostIn(cfg, front, key) + if Run(cfg, front).Some? && LosesFor(Run(cfg, front).value, e, key) then 1 else 0
  }

  function LostCount(batches: seq<Batch>): nat
  {
    if batches == [] then 0 else LostCount(batches[..|batches| - 1]) + if batches[|batches| - 1].lost then 1 else 0
  }

  lemma LostSnoc(batches: seq<Batch>, batch: Batch)
    ensures LostCount(batches + [batch]) == LostCount(batches) + if batch.lost then 1 else 0
  {
    assert (batches + [batch])[..|batches|] == batches;
  }

  lemma BatcherHistory(cfg: Config, s: State, e: BatcherEvent, key: Partition)
    requires BatcherCan(cfg, s, e)
    ensures var t := BatcherStep(cfg, s, e);
      && AccountOf(t, key).accepted
         == AccountOf(s, key).accepted
            + (if e.Accept? && Partition(e.symbol, e.kind, cfg.day) == key then [e.row] else [])
      && FlushesOf(t, key) == FlushesOf(s, key) + (if ListsFor(s, B(e), key) then 1 else 0)
      && t.pass.failed == s.pass.failed
  {
    hide SymbolsOf, IsSafeSymbol, CanWriteHot, CanWriteCatalog, SlotOf;
    assert AccountOf(s, key).accepted + [] == AccountOf(s, key).accepted;
  }

  lemma LossHistory(cfg: Config, s: State, e: BatcherEvent, key: Partition)
    requires BatcherCan(cfg, s, e)
    ensures LostCount(AccountOf(BatcherStep(cfg, s, e), key).batches)
            == LostCount(AccountOf(s, key).batches) + if LosesFor(s, B(e), key) then 1 else 0
  {
    hide SymbolsOf, IsSafeSymbol, CanWriteHot, CanWriteCatalog, LostCount, SlotOf;
    if e.SaveFail? || e.AddFile? {
      LostSnoc(AccountOf(s, key).batches, Batch(s.batcher.rows, e.SaveFail?));
    }
  }

  lemma CompactorHistory(cfg: Config, s: State, e: CompactorEvent, key: Partition)
    requires CompactorCan(cfg, s, e)
    ensures var t := CompactorStep(cfg, s, e);
      && AccountOf(t, key) == AccountOf(s, key)
      && FlushesOf(t, key) == (if e.ReadDue? then 0 else FlushesOf(s, key))
      && t.pass.failed == (!e.ReadDue? && (s.pass.failed || e.MergeRefused? || e.MergeSaveFail?))
  {
    hide RowsIn, KeysOver, CanWriteCatalog;
  }

  /** In every run the accounts, the pass and the losses are what the events say. */
  lemma {:induction false} HistoryIsTrue(cfg: Config, events: seq<Event>, s: State, key: Partition)
    requires Run(cfg, events) == Some(s)
    ensures AccountOf(s, key).accepted == AcceptedIn(cfg, events, key)
    ensures FlushesOf(s, key) == ListedSince(cfg, events, key)
    ensures s.pass.failed == FailedSince(events)
    ensures LostCount(AccountOf(s, key).batches) == LostIn(cfg, events, key)
    decreases |events|
  {
    hide BatcherCan, BatcherStep, CompactorCan, CompactorStep, QueryCan, QueryAfter, LostCount;
    if events == [] {
      NothingYet(key);
    } else {
      var front, e := events[..|events| - 1], events[|events| - 1];
      var before := Run(cfg, front).value;
      HistoryIsTrue(cfg, front, before, key);
      match e {
        case B(b) => BatcherHistory(cfg, before, b, key); LossHistory(cfg, before, b, key);
        case C(c) => CompactorHistory(cfg, before, c, key);
        case Q(_, _) =>
      }
    }
  }

  lemma NothingYet(key: Partition)
    ensures AccountOf(Init(), key) == Account([], []) && FlushesOf(Init(), key) == 0 && LostCount([]) == 0
  {
  }

  // ---------- Nobody is stuck ----------

  lemma {:induction false} SomeOrder(keys: set<Partition>) returns (order: seq<Partition>)
    ensures Enumerates(order, keys)
    decreases keys
  {
    order := [];
    if keys != {} {
      var key :| key in keys;
      var later := SomeOrder(keys - {key});
      EnumeratesSnoc(later, keys - {key}, key);
      assert keys - {key} + {key} == keys;
      order := later + [key];
    }
  }

  /** The batcher can always take a step, or waits for a lock. */
  lemma BatcherGoesOn(cfg: Config, s: State)
    ensures (exists e :: BatcherCan(cfg, s, e))
      || (s.batcher.Idle? && !CanWriteHot(s, Kind.Quote)) || (s.batcher.BetweenSweeps? && !CanWriteHot(s, Kind.Trade))
      || (s.batcher.Saved? && !CanWriteCatalog(s))
  {
    hide CanWriteHot, CanWriteCatalog, SlotOf, IsSafeSymbol;
    match s.batcher {
      case Idle => if CanWriteHot(s, Kind.Quote) { assert BatcherCan(cfg, s, StartSweep); }
      case Pushed(key) => assert BatcherCan(cfg, s, ReleaseTick) || BatcherCan(cfg, s, TakeBatch(key.symbol));
      case TickDone(_) => assert BatcherCan(cfg, s, ReleaseTick);
      case Sweeping(_, todo) =>
        if symbol :| symbol in todo {
          assert BatcherCan(cfg, s, SkipEmpty(symbol)) || BatcherCan(cfg, s, TakeBatch(symbol));
        } else {
          assert todo == {};
          assert BatcherCan(cfg, s, EndSweep);
        }
      case BetweenSweeps => if CanWriteHot(s, Kind.Trade) { assert BatcherCan(cfg, s, StartSweep); }
      case Taken(_, _, _, _) => assert BatcherCan(cfg, s, SaveOk) && BatcherCan(cfg, s, SaveFail(None));
      case Saved(_, _, _, _) => if CanWriteCatalog(s) { assert BatcherCan(cfg, s, LockAdd); }
      case Adding(_, _, _, _) => assert BatcherCan(cfg, s, BatcherEvent.AddFile);
    }
  }

  /** So can the compactor. */
  lemma CompactorGoesOn(cfg: Config, s: State)
    ensures (exists e :: CompactorCan(cfg, s, e))
      || (s.compactor.Resting? && !CanReadCatalog(s))
      || (s.compactor.Due? && s.compactor.todo != [] && !CanWriteCatalog(s))
  {
    hide CanWriteCatalog, CanReadCatalog, KeysOver, Enumerates;
    match s.compactor {
      case Resting =>
        var order := SomeOrder(KeysOver(s.parts, cfg.threshold));
        if CanReadCatalog(s) {
          assert CompactorCan(cfg, s, ReadDue(order));
        }
      case Due(todo) => assert (todo != [] && !CanWriteCatalog(s)) || CompactorCan(cfg, s, LockMerge) || CompactorCan(cfg, s, EndPass);
      case Merging(_, _, _) => assert CompactorCan(cfg, s, MergeNothing) || CompactorCan(cfg, s, MergeRefused);
      case Deleting(_, _) => assert CompactorCan(cfg, s, DeleteNext(true)) || CompactorCan(cfg, s, UnlockMerge);
    }
  }
}
