/** The tick store as a concurrent protocol: one batcher, one compactor, any number of
    queries, two hot-buffer locks and the catalog lock
    (tick_score/src/batcher.rs, compactor.rs, catalog.rs; query_engine/src/query.rs).
    A step is one actor's work between two points where another actor could see a change;
    who holds which lock is read off the program counters. */
module Protocol {
  import opened Wrappers
  import opened Rows
  import opened Paths
  import opened Disks
  import opened Catalogs

  datatype Config = Config(maxRows: nat, threshold: nat, day: Date)

  /** A hot buffer and the number its next part file gets. */
  datatype Slot = Slot(rows: seq<Row>, nextSeq: nat)

  // ---------- Program counters ----------

  /** What the batcher goes on with after a flush. */
  datatype After = EndTick | GoOn(todo: set<Symbol>)

  datatype BatcherPc =
    | Idle
    | Pushed(key: Partition)                      // hot lock held
    | TickDone(kind: Kind)                        // hot lock held
    | Sweeping(kind: Kind, todo: set<Symbol>)     // hot lock held
    | BetweenSweeps
    | Taken(key: Partition, rows: seq<Row>, path: FilePath, after: After)   // hot lock held
    | Saved(key: Partition, rows: seq<Row>, path: FilePath, after: After)   // hot lock held
    | Adding(key: Partition, rows: seq<Row>, path: FilePath, after: After)  // hot and catalog write locks held

  datatype CompactorPc =
    | Resting
    | Due(todo: seq<Partition>)
    | Merging(key: Partition, paths: seq<FilePath>, todo: seq<Partition>)  // catalog write lock held
    | Deleting(paths: seq<FilePath>, todo: seq<Partition>)                 // catalog write lock held

  /** How far a query has got with one kind. `promised` records, for the proofs, what it
      was owed when it held both locks; the query itself never looks at it. */
  datatype Read =
    | Waiting
    | Locked(promised: seq<Row>)                          // hot read lock held
    | Snapped(promised: seq<Row>, hot: seq<Row>)
    | Captured(promised: seq<Row>, hot: seq<Row>, paths: seq<FilePath>, got: seq<Row>, next: nat)
    | Broken

  datatype Query = Query(symbol: Symbol, first: Date, last: Date, holdsCatalog: bool, trades: Read, quotes: Read)

  function ReadOf(q: Query, kind: Kind): Read
  {
    if kind.Trade? then q.trades else q.quotes
  }

  function WithRead(q: Query, kind: Kind, r: Read): Query
  {
    if kind.Trade? then q.(trades := r) else q.(quotes := r)
  }

  // ---------- History kept for the proofs ----------

  datatype Batch = Batch(rows: seq<Row>, lost: bool)

  datatype Account = Account(accepted: seq<Row>, batches: seq<Batch>)

  /** Since the compactor last read its due list: files added per partition, and whether a merge failed. */
  datatype Pass = Pass(flushes: map<Partition, nat>, failed: bool)

  /** `accounts`, `written` (every successful write), `targeted` (every attempted write) and
      `pass` are history; no step's choice depends on them. */
  datatype State = State(
    hot: map<Partition, Slot>, parts: Partitions, mergedIdx: nat, disk: Files,
    batcher: BatcherPc, compactor: CompactorPc, queries: map<nat, Query>,
    accounts: map<Partition, Account>, written: Files, targeted: set<FilePath>, pass: Pass)

  function Init(): State
  {
    State(map[], map[], 0, map[], Idle, Resting, map[], map[], map[], {}, Pass(map[], false))
  }

  /** A symbol without a buffer counts as one with an empty buffer. */
  function SlotIn(hot: map<Partition, Slot>, key: Partition): Slot
  {
    if key in hot then hot[key] else Slot([], 0)
  }

  function SlotOf(s: State, key: Partition): Slot
  {
    SlotIn(s.hot, key)
  }

  /** The file the next flush of a buffer writes. */
  function PartTarget(key: Partition, slot: Slot): FilePath
  {
    FilePath(key, PartFile(slot.nextSeq))
  }

  function AccountOf(s: State, key: Partition): Account
  {
    if key in s.accounts then s.accounts[key] else Account([], [])
  }

  function FlushesOf(s: State, key: Partition): nat
  {
    if key in s.pass.flushes then s.pass.flushes[key] else 0
  }

  function AllRows(batches: seq<Batch>): seq<Row>
  {
    if batches == [] then [] else AllRows(batches[..|batches| - 1]) + batches[|batches| - 1].rows
  }

  /** The rows of the batches that reached the catalog. */
  function Survivors(batches: seq<Batch>): seq<Row>
  {
    if batches == [] then []
    else
      var last := batches[|batches| - 1];
      Survivors(batches[..|batches| - 1]) + if last.lost then [] else last.rows
  }

  // ---------- Locks ----------

  function HotHeld(pc: BatcherPc): Option<Kind>
  {
    match pc
    case Idle | BetweenSweeps => None
    case Pushed(key) => Some(key.kind)
    case TickDone(kind) => Some(kind)
    case Sweeping(kind, _) => Some(kind)
    case Taken(key, _, _, _) => Some(key.kind)
    case Saved(key, _, _, _) => Some(key.kind)
    case Adding(key, _, _, _) => Some(key.kind)
  }

  predicate CompactorWrites(s: State)
  {
    s.compactor.Merging? || s.compactor.Deleting?
  }

  predicate CanReadCatalog(s: State)
  {
    !s.batcher.Adding? && !CompactorWrites(s)
  }

  predicate CanWriteCatalog(s: State)
  {
    CanReadCatalog(s) && forall id :: id in s.queries ==> !s.queries[id].holdsCatalog
  }

  predicate CanReadHot(s: State, kind: Kind)
  {
    HotHeld(s.batcher) != Some(kind)
  }

  /** The batcher is the only writer of the hot buffers. */
  predicate CanWriteHot(s: State, kind: Kind)
  {
    forall id :: id in s.queries ==> !ReadOf(s.queries[id], kind).Locked?
  }

  // ---------- Steps ----------

  datatype BatcherEvent =
    | Accept(symbol: Symbol, kind: Kind, row: Row)
    | ReleaseTick
    | StartSweep
    | SkipEmpty(symbol: Symbol)
    | EndSweep
    | TakeBatch(symbol: Symbol)
    | SaveOk
    | SaveFail(left: Option<seq<Row>>)
    | LockAdd
    | AddFile

  datatype CompactorEvent =
    | ReadDue(order: seq<Partition>)
    | LockMerge
    | MergeNothing
    | MergeRefused
    | MergeSaveFail(left: Option<seq<Row>>)
    | MergeSaveOk
    | DeleteNext(gone: bool)
    | UnlockMerge
    | EndPass

  datatype QueryEvent =
    | Open(symbol: Symbol, first: Date, last: Date)
    | LockHot(kind: Kind)
    | UnlockHot(kind: Kind)
    | CaptureFiles(kind: Kind, order: seq<Partition>)
    | CloseCatalog
    | Abort
    | ReadFile(kind: Kind)

  datatype Event = B(b: BatcherEvent) | C(c: CompactorEvent) | Q(id: nat, q: QueryEvent)

  function SymbolsOf(s: State, kind: Kind): set<Symbol>
  {
    set key | key in s.hot && key.kind == kind :: key.symbol
  }

  /** The buffer the batcher is about to take, with what it does afterwards. */
  function FlushKey(cfg: Config, s: State, symbol: Symbol): Partition
  {
    match s.batcher
    case Pushed(key) => key
    case Sweeping(kind, _) => Partition(symbol, kind, cfg.day)
    case _ => Partition(symbol, Kind.Quote, cfg.day)
  }

  function Resume(pc: BatcherPc): BatcherPc
    requires pc.Taken? || pc.Adding?
  {
    match pc.after
    case EndTick => TickDone(pc.key.kind)
    case GoOn(todo) => Sweeping(pc.key.kind, todo)
  }

  predicate BatcherCan(cfg: Config, s: State, e: BatcherEvent)
  {
    match e
    case Accept(symbol, kind, row) => s.batcher.Idle? && IsSafeSymbol(symbol) && CanWriteHot(s, kind)
    case ReleaseTick =>
      (s.batcher.Pushed? && |SlotOf(s, s.batcher.key).rows| < cfg.maxRows) || s.batcher.TickDone?
    case StartSweep => (s.batcher.Idle? && CanWriteHot(s, Kind.Quote)) || (s.batcher.BetweenSweeps? && CanWriteHot(s, Kind.Trade))
    case SkipEmpty(symbol) =>
      s.batcher.Sweeping? && symbol in s.batcher.todo && SlotOf(s, FlushKey(cfg, s, symbol)).rows == []
    case EndSweep => s.batcher.Sweeping? && s.batcher.todo == {}
    case TakeBatch(symbol) =>
      || (s.batcher.Pushed? && symbol == s.batcher.key.symbol && |SlotOf(s, s.batcher.key).rows| >= cfg.maxRows)
      || (s.batcher.Sweeping? && symbol in s.batcher.todo && SlotOf(s, FlushKey(cfg, s, symbol)).rows != [])
    case SaveOk => s.batcher.Taken?
    case SaveFail(_) => s.batcher.Taken?
    case LockAdd => s.batcher.Saved? && CanWriteCatalog(s)
    case AddFile => s.batcher.Adding?
  }

  /** A failed write leaves nothing, or anything, at its target. */
  function Spoiled(disk: Files, path: FilePath, left: Option<seq<Row>>): Files
  {
    match left
    case None => disk - {path}
    case Some(partial) => disk[path := partial]
  }

  function WithBatch(s: State, key: Partition, batch: Batch): map<Partition, Account>
  {
    var a := AccountOf(s, key);
    s.accounts[key := a.(batches := a.batches + [batch])]
  }

  function BatcherStep(cfg: Config, s: State, e: BatcherEvent): State
    requires BatcherCan(cfg, s, e)
  {
    match e
    case Accept(symbol, kind, row) =>
      var key := Partition(symbol, kind, cfg.day);
      var slot, account := SlotOf(s, key), AccountOf(s, key);
      s.(hot := s.hot[key := slot.(rows := slot.rows + [row])],
         accounts := s.accounts[key := account.(accepted := account.accepted + [row])],
         batcher := Pushed(key))
    case ReleaseTick => s.(batcher := Idle)
    case StartSweep =>
      var kind := if s.batcher.Idle? then Kind.Quote else Kind.Trade;
      s.(batcher := Sweeping(kind, SymbolsOf(s, kind)))
    case SkipEmpty(symbol) => s.(batcher := Sweeping(s.batcher.kind, s.batcher.todo - {symbol}))
    case EndSweep => s.(batcher := if s.batcher.kind.Quote? then BetweenSweeps else Idle)
    case TakeBatch(symbol) =>
      var key := FlushKey(cfg, s, symbol);
      var slot := SlotOf(s, key);
      var after := if s.batcher.Pushed? then EndTick else GoOn(s.batcher.todo - {symbol});
      s.(hot := s.hot[key := Slot([], slot.nextSeq + 1)],
         batcher := Taken(key, slot.rows, PartTarget(key, slot), after))
    case SaveOk =>
      var pc := s.batcher;
      s.(disk := s.disk[pc.path := pc.rows], written := s.written[pc.path := pc.rows],
         targeted := s.targeted + {pc.path}, batcher := Saved(pc.key, pc.rows, pc.path, pc.after))
    case SaveFail(left) =>
      var pc := s.batcher;
      s.(disk := Spoiled(s.disk, pc.path, left), targeted := s.targeted + {pc.path},
         accounts := WithBatch(s, pc.key, Batch(pc.rows, true)), batcher := Resume(pc))
    case LockAdd =>
      var pc := s.batcher;
      s.(batcher := Adding(pc.key, pc.rows, pc.path, pc.after))
    case AddFile =>
      var pc := s.batcher;
      s.(parts := Added(s.parts, pc.key, pc.path), accounts := WithBatch(s, pc.key, Batch(pc.rows, false)),
         pass := s.pass.(flushes := s.pass.flushes[pc.key := FlushesOf(s, pc.key) + 1]), batcher := Resume(pc))
  }

  ghost predicate CompactorCan(cfg: Config, s: State, e: CompactorEvent)
  {
    var pc := s.compactor;
    match e
    case ReadDue(order) => pc.Resting? && CanReadCatalog(s) && Enumerates(order, KeysOver(s.parts, cfg.threshold))
    case LockMerge => pc.Due? && pc.todo != [] && CanWriteCatalog(s)
    case MergeNothing => pc.Merging? && pc.paths == []
    case MergeRefused => pc.Merging? && pc.paths != []
    case MergeSaveFail(_) => pc.Merging? && pc.paths != []
    case MergeSaveOk => pc.Merging? && pc.paths != [] && AllIn(pc.paths, s.disk)
    case DeleteNext(_) => pc.Deleting? && pc.paths != []
    case UnlockMerge => pc.Deleting? && pc.paths == []
    case EndPass => pc.Due? && pc.todo == []
  }

  function CompactorStep(cfg: Config, s: State, e: CompactorEvent): State
    requires CompactorCan(cfg, s, e)
  {
    var pc := s.compactor;
    match e
    case ReadDue(order) => s.(compactor := Due(order), pass := Pass(map[], false))
    case LockMerge =>
      var key := pc.todo[0];
      s.(compactor := Merging(key, Listed(s.parts, key), pc.todo[1..]),
         parts := if key in s.parts then s.parts[key := []] else s.parts)
    case MergeNothing => s.(compactor := Due(pc.todo))
    case MergeRefused =>
      s.(parts := s.parts[pc.key := pc.paths], pass := s.pass.(failed := true), compactor := Due(pc.todo))
    case MergeSaveFail(left) =>
      var target := MergeTarget(pc.key, s.mergedIdx);
      s.(parts := s.parts[pc.key := pc.paths], pass := s.pass.(failed := true), mergedIdx := s.mergedIdx + 1,
         disk := Spoiled(s.disk, target, left), targeted := s.targeted + {target}, compactor := Due(pc.todo))
    case MergeSaveOk =>
      var target := MergeTarget(pc.key, s.mergedIdx);
      var rows := RowsIn(s.disk, pc.paths);
      s.(parts := s.parts[pc.key := [target]], mergedIdx := s.mergedIdx + 1,
         disk := s.disk[target := rows], written := s.written[target := rows],
         targeted := s.targeted + {target}, compactor := Deleting(pc.paths, pc.todo))
    case DeleteNext(gone) =>
      s.(disk := if gone then s.disk - {pc.paths[0]} else s.disk, compactor := Deleting(pc.paths[1..], pc.todo))
    case UnlockMerge => s.(compactor := Due(pc.todo))
    case EndPass => s.(compactor := Resting)
  }

  function Key(cfg: Config, q: Query, kind: Kind): Partition
  {
    Partition(q.symbol, kind, cfg.day)
  }

  predicate CoversDay(cfg: Config, q: Query)
  {
    q.first <= cfg.day <= q.last
  }

  /** What a query holding both locks is owed: every tick accepted so far that was not lost to
      a failed write, in arrival order; the flushed ones only if its dates cover the run's day. */
  function Owed(cfg: Config, s: State, q: Query, kind: Kind): seq<Row>
  {
    var key := Key(cfg, q, kind);
    (if CoversDay(cfg, q) then Survivors(AccountOf(s, key).batches) else []) + SlotOf(s, key).rows
  }

  ghost predicate QueryCan(cfg: Config, s: State, id: nat, e: QueryEvent)
  {
    if e.Open? then id !in s.queries && e.symbol != [] && CanReadCatalog(s)
    else id in s.queries && ReaderCan(s, s.queries[id], e)
  }

  ghost predicate ReaderCan(s: State, q: Query, e: QueryEvent)
    requires !e.Open?
  {
    match e
    case LockHot(kind) =>
      && q.holdsCatalog && ReadOf(q, kind).Waiting? && CanReadHot(s, kind)
      && (kind.Quote? ==> q.trades.Captured?)
    case UnlockHot(kind) => ReadOf(q, kind).Locked?
    case CaptureFiles(kind, order) =>
      && ReadOf(q, kind).Snapped?
      && Enumerates(order, KeysInRange(s.parts, q.symbol, kind, q.first, q.last))
    case CloseCatalog => q.holdsCatalog && q.trades.Captured? && q.quotes.Captured?
    case Abort => !q.trades.Locked? && !q.quotes.Locked?
    case ReadFile(kind) => !q.holdsCatalog && ReadOf(q, kind).Captured? && ReadOf(q, kind).next < |ReadOf(q, kind).paths|
  }

  function NextFile(s: State, r: Read): Read
    requires r.Captured? && r.next < |r.paths|
  {
    var p := r.paths[r.next];
    if p in s.disk then r.(got := r.got + s.disk[p], next := r.next + 1) else Broken
  }

  function QueryAfter(cfg: Config, s: State, id: nat, e: QueryEvent): Query
    requires QueryCan(cfg, s, id, e)
  {
    match e
    case Open(symbol, first, last) => Query(symbol, first, last, true, Waiting, Waiting)
    case LockHot(kind) => WithRead(s.queries[id], kind, Locked(Owed(cfg, s, s.queries[id], kind)))
    case UnlockHot(kind) =>
      var q := s.queries[id];
      WithRead(q, kind, Snapped(ReadOf(q, kind).promised, SlotOf(s, Key(cfg, q, kind)).rows))
    case CaptureFiles(kind, order) =>
      var q := s.queries[id];
      var r := ReadOf(q, kind);
      WithRead(q, kind, Captured(r.promised, r.hot, ListsOf(s.parts, order), [], 0))
    case CloseCatalog => s.queries[id].(holdsCatalog := false)
    case Abort => s.queries[id].(holdsCatalog := false, trades := Broken, quotes := Broken)
    case ReadFile(kind) => WithRead(s.queries[id], kind, NextFile(s, ReadOf(s.queries[id], kind)))
  }

  ghost predicate Can(cfg: Config, s: State, e: Event)
  {
    match e
    case B(b) => BatcherCan(cfg, s, b)
    case C(c) => CompactorCan(cfg, s, c)
    case Q(id, q) => QueryCan(cfg, s, id, q)
  }

  ghost function Step(cfg: Config, s: State, e: Event): State
    requires Can(cfg, s, e)
  {
    match e
    case B(b) => BatcherStep(cfg, s, b)
    case C(c) => CompactorStep(cfg, s, c)
    case Q(id, q) => s.(queries := s.queries[id := QueryAfter(cfg, s, id, q)])
  }

  /** The state an interleaving leads to; None when it asks for a step that is not possible. */
  ghost function Run(cfg: Config, events: seq<Event>): Option<State>
    decreases |events|
  {
    if events == [] then Some(Init())
    else
      var last := |events| - 1;
      match Run(cfg, events[..last])
      case None => None
      case Some(before) => if Can(cfg, before, events[last]) then Some(Step(cfg, before, events[last])) else None
  }
}
