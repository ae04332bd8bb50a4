/** The batcher's own code, one call at a time (tick_score/src/batcher.rs). The two hot maps
    are one map here, keyed by kind as well as symbol. */
module Batchers {
  import opened Wrappers
  import opened Rows
  import opened Paths
  import opened Disks
  import opened Catalogs
  import opened Protocol

  /** What one flush may do: the buffer is emptied and its number used up; a write that succeeds
      leaves the rows at the target and lists it, one that fails leaves anything there and
      lists nothing. */
  ghost predicate FlushEffect(key: Partition, ok: bool, hot: map<Partition, Slot>, parts: Partitions, files: Files,
                              hot': map<Partition, Slot>, parts': Partitions, files': Files)
    requires key in hot
  {
    var slot := hot[key];
    var target := PartTarget(key, slot);
    && hot' == hot[key := Slot([], slot.nextSeq + 1)]
    && AgreeExcept(files', files, target)
    && (ok ==> files' == files[target := slot.rows])
    && parts' == if ok then Added(parts, key, target) else parts
  }

  class Batcher {
    const cfg: Config
    const catalog: Catalog
    const disk: Disk
    var hot: map<Partition, Slot>

    constructor (cfg: Config, catalog: Catalog, disk: Disk)
      ensures this.cfg == cfg && this.catalog == catalog && this.disk == disk && hot == map[]
    {
      this.cfg, this.catalog, this.disk, hot := cfg, catalog, disk, map[];
    }

    /** `flush_quote` and `flush_trade`: takes the buffer first; a write that fails loses the
        rows, one that succeeds lists its file. The number is used up either way. */
    method Flush(key: Partition) returns (ok: bool)
      requires key in hot
      modifies this, catalog`partitions, disk
      ensures FlushEffect(key, ok, old(hot), old(catalog.partitions), old(disk.files),
                          hot, catalog.partitions, disk.files)
      ensures disk.writes == old(disk.writes) + [Write(PartTarget(key, old(hot)[key]), old(hot)[key].rows, ok)]
      ensures disk.removals == old(disk.removals) && disk.faults == old(disk.faults) + if ok then 0 else 1
    {
      var slot := hot[key];
      var path := PartTarget(key, slot);
      hot := hot[key := Slot([], slot.nextSeq + 1)];
      ok := disk.Save(path, slot.rows, true);
      if ok {
        catalog.AddFile(key, path);
      }
    }

    /** One tick off the stream: unsafe symbols are dropped, a full buffer is flushed. */
    method OnTick(symbol: Symbol, kind: Kind, row: Row)
      modifies this, catalog`partitions, disk
      ensures !IsSafeSymbol(symbol) ==>
        && hot == old(hot) && catalog.partitions == old(catalog.partitions)
        && disk.files == old(disk.files) && disk.writes == old(disk.writes)
      ensures disk.removals == old(disk.removals)
      ensures IsSafeSymbol(symbol) ==>
        var key := Partition(symbol, kind, cfg.day);
        var before := SlotIn(old(hot), key);
        && (forall k :: k != key ==> (k in hot <==> k in old(hot)) && (k in hot ==> hot[k] == old(hot)[k]))
        && key in hot
        && hot[key] == (if |before.rows| + 1 >= cfg.maxRows then Slot([], before.nextSeq + 1)
                        else Slot(before.rows + [row], before.nextSeq))
      ensures IsSafeSymbol(symbol) ==>
        var key := Partition(symbol, kind, cfg.day);
        var before := SlotIn(old(hot), key);
        if |before.rows| + 1 < cfg.maxRows then
          catalog.partitions == old(catalog.partitions) && disk.files == old(disk.files) && disk.writes == old(disk.writes)
        else
          var target := PartTarget(key, before);
          && |disk.writes| == |old(disk.writes)| + 1
          && var write := disk.writes[|old(disk.writes)|];
          && disk.writes == old(disk.writes) + [write]
          && write == Write(target, before.rows + [row], write.ok)
          && AgreeExcept(disk.files, old(disk.files), target)
          && (write.ok ==> disk.files == old(disk.files)[target := before.rows + [row]])
          && catalog.partitions
             == if write.ok then old(Added(catalog.partitions, key, target)) else old(catalog.partitions)
    {
      if !IsSafeSymbol(symbol) {
        return;
      }
      var key := Partition(symbol, kind, cfg.day);
      if key !in hot {
        hot := hot[key := Slot([], 0)];
      }
      hot := hot[key := Slot(hot[key].rows + [row], hot[key].nextSeq)];
      if |hot[key].rows| >= cfg.maxRows {
        var ok := Flush(key);
      }
    }

    /** `sweep_stale`: flushes every non-empty buffer of the kind, whatever its age, in the
        map's own order. */
    method SweepStale(kind: Kind)
      modifies this, catalog`partitions, disk
      ensures hot.Keys == old(hot).Keys
      ensures forall key :: key in hot ==>
        hot[key] == if key.kind == kind && old(hot)[key].rows != [] then Slot([], old(hot)[key].nextSeq + 1) else old(hot)[key]
      ensures old(disk.writes) <= disk.writes && disk.removals == old(disk.removals)
      ensures SweptAll(old(hot), {}, kind, old(catalog.partitions), catalog.partitions, disk.files,
                       disk.writes[|old(disk.writes)|..])
    {
      hide FlushedOrLost;
      ghost var hot0, parts0, n := hot, catalog.partitions, |disk.writes|;
      var left := hot.Keys;
      while left != {}
        invariant left <= hot.Keys == hot0.Keys
        invariant forall key :: key in hot ==> hot[key] == if key in left then hot0[key] else Swept(hot0[key], key, kind)
        invariant old(disk.writes) <= disk.writes && disk.removals == old(disk.removals)
        invariant SweptAll(hot0, left, kind, parts0, catalog.partitions, disk.files, disk.writes[n..])
        decreases left
      {
        hide SweptAll, Stale, Listed, AgreeExcept;
        var key :| key in left;
        ghost var left1, parts1, files1, writes1 := left, catalog.partitions, disk.files, disk.writes[n..];
        left := left - {key};
        if Stale(hot[key], key, kind) {
          var ok := Flush(key);
          ghost var write := Write(PartTarget(key, hot0[key]), hot0[key].rows, ok);
          assert disk.writes[n..] == writes1 + [write];
          SweptOne(hot0, left1, key, kind, parts0, parts1, catalog.partitions, files1, disk.files, writes1, ok);
        } else {
          SkippedOne(hot0, left1, key, kind, parts0, parts1, files1, writes1);
        }
      }
    }
  }

  /** Every stale buffer outside `left` has been flushed or lost; no other list has changed. */
  ghost predicate SweptAll(hot: map<Partition, Slot>, left: set<Partition>, kind: Kind, before: Partitions,
                           after: Partitions, files: Files, writes: seq<Write>)
  {
    forall key ::
      if key in hot && key !in left && Stale(hot[key], key, kind)
      then FlushedOrLost(key, hot[key], before, after, files, writes)
      else Listed(after, key) == Listed(before, key)
  }

  /** After a whole sweep, every buffer of the kind that held rows has been written once, under
      its own number; its partition has gained that file exactly if the write succeeded. */
  lemma SweptMeans(hot: map<Partition, Slot>, kind: Kind, before: Partitions, after: Partitions, files: Files,
                   writes: seq<Write>, key: Partition)
    requires SweptAll(hot, {}, kind, before, after, files, writes)
    ensures key in hot && key.kind == kind && hot[key].rows != [] ==>
      var target := FilePath(key, PartFile(hot[key].nextSeq));
      || (Write(target, hot[key].rows, true) in writes && Listed(after, key) == Listed(before, key) + [target]
          && target in files && files[target] == hot[key].rows)
      || (Write(target, hot[key].rows, false) in writes && Listed(after, key) == Listed(before, key))
    ensures !(key in hot && key.kind == kind && hot[key].rows != []) ==> Listed(after, key) == Listed(before, key)
  {
  }

  lemma SkippedOne(hot: map<Partition, Slot>, left: set<Partition>, key: Partition, kind: Kind,
                   before: Partitions, after: Partitions, files: Files, writes: seq<Write>)
    requires SweptAll(hot, left, kind, before, after, files, writes) && key in hot && !Stale(hot[key], key, kind)
    ensures SweptAll(hot, left - {key}, kind, before, after, files, writes)
  {
    hide FlushedOrLost, Stale;
  }

  lemma SweptOne(hot: map<Partition, Slot>, left: set<Partition>, key: Partition, kind: Kind, before: Partitions,
                 after: Partitions, after': Partitions, files: Files, files': Files, writes: seq<Write>, ok: bool)
    requires SweptAll(hot, left, kind, before, after, files, writes)
    requires key in hot && key in left && Stale(hot[key], key, kind)
    requires var target := PartTarget(key, hot[key]);
      && after' == (if ok then Added(after, key, target) else after)
      && AgreeExcept(files', files, target) && (ok ==> files' == files[target := hot[key].rows])
    ensures SweptAll(hot, left - {key}, kind, before, after', files',
                     writes + [Write(PartTarget(key, hot[key]), hot[key].rows, ok)])
  {
    hide FlushedOrLost, Stale, AgreeExcept;
    var write := Write(PartTarget(key, hot[key]), hot[key].rows, ok);
    FlushedNow(key, hot[key], before, after, after', files', writes, write);
    forall k | k in hot && k !in left && Stale(hot[k], k, kind)
      ensures FlushedOrLost(k, hot[k], before, after', files', writes + [write])
    {
      StillFlushed(k, hot[k], before, after, after', files, files', writes, write);
    }
  }

  lemma FlushedNow(key: Partition, slot: Slot, before: Partitions, after: Partitions, after': Partitions,
                   files': Files, writes: seq<Write>, write: Write)
    requires Listed(after, key) == Listed(before, key)
    requires write == Write(PartTarget(key, slot), slot.rows, write.ok)
    requires after' == if write.ok then Added(after, key, write.path) else after
    requires write.ok ==> Content(files', write.path) == slot.rows
    ensures FlushedOrLost(key, slot, before, after', files', writes + [write])
  {
    assert (writes + [write])[|writes|] == write;
  }

  predicate Stale(slot: Slot, key: Partition, kind: Kind)
  {
    key.kind == kind && slot.rows != []
  }

  /** A slot after a sweep of `kind`. */
  function Swept(slot: Slot, key: Partition, kind: Kind): Slot
  {
    if Stale(slot, key, kind) then Slot([], slot.nextSeq + 1) else slot
  }

  /** The buffer's rows went into one write; the list gained that file if the write succeeded,
      and is as it was if not. */
  ghost predicate FlushedOrLost(key: Partition, slot: Slot, before: Partitions, after: Partitions,
                                files: Files, writes: seq<Write>)
  {
    var target := PartTarget(key, slot);
    || (Write(target, slot.rows, false) in writes && Listed(after, key) == Listed(before, key))
    || (Write(target, slot.rows, true) in writes && Listed(after, key) == Listed(before, key) + [target]
        && Content(files, target) == slot.rows)
  }

  lemma StillFlushed(key: Partition, slot: Slot, before: Partitions, after: Partitions, after': Partitions,
                     files: Files, files': Files, writes: seq<Write>, write: Write)
    requires FlushedOrLost(key, slot, before, after, files, writes)
    requires Listed(after', key) == Listed(after, key) && AgreeExcept(files', files, write.path)
    requires write.path.partition != key
    ensures FlushedOrLost(key, slot, before, after', files', writes + [write])
  {
  }

  /** The state machine's flush of one buffer, run without interference. */
  ghost predicate FlushSteps(cfg: Config, s: State, symbol: Symbol, ok: bool, left: Option<seq<Row>>, t: State)
  {
    && BatcherCan(cfg, s, TakeBatch(symbol))
    && var s1 := BatcherStep(cfg, s, TakeBatch(symbol));
    if ok then
      && BatcherCan(cfg, s1, SaveOk)
      && var s2 := BatcherStep(cfg, s1, SaveOk);
      && BatcherCan(cfg, s2, LockAdd)
      && var s3 := BatcherStep(cfg, s2, LockAdd);
      && BatcherCan(cfg, s3, BatcherEvent.AddFile) && t == BatcherStep(cfg, s3, BatcherEvent.AddFile)
    else BatcherCan(cfg, s1, SaveFail(left)) && t == BatcherStep(cfg, s1, SaveFail(left))
  }

  ghost predicate FlushReaches(t: State, hot: map<Partition, Slot>, parts: Partitions, files: Files)
  {
    t.hot == hot && t.parts == parts && t.disk == files
  }

  /** What the state machine does in an undisturbed flush is what one call of `Flush` may do. */
  lemma StepsAreFlush(cfg: Config, s: State, symbol: Symbol, ok: bool, left: Option<seq<Row>>, t: State)
    requires FlushSteps(cfg, s, symbol, ok, left, t) && FlushKey(cfg, s, symbol) in s.hot
    ensures FlushEffect(FlushKey(cfg, s, symbol), ok, s.hot, s.parts, s.disk, t.hot, t.parts, t.disk)
  {
    hide SymbolsOf, CanWriteCatalog, CanWriteHot, IsSafeSymbol, AccountOf;
  }

  /** And whatever a call of `Flush` may do the state machine does in some undisturbed flush. */
  lemma FlushIsSteps(cfg: Config, s: State, symbol: Symbol, ok: bool,
                     hot: map<Partition, Slot>, parts: Partitions, files: Files) returns (left: Option<seq<Row>>, t: State)
    requires BatcherCan(cfg, s, TakeBatch(symbol)) && CanWriteCatalog(s) && FlushKey(cfg, s, symbol) in s.hot
    requires FlushEffect(FlushKey(cfg, s, symbol), ok, s.hot, s.parts, s.disk, hot, parts, files)
    ensures FlushSteps(cfg, s, symbol, ok, left, t) && FlushReaches(t, hot, parts, files)
  {
    hide SymbolsOf, CanWriteHot, IsSafeSymbol, AccountOf, CanWriteCatalog, FlushSteps;
    if ok {
      left := None;
      t := SavedFlush(cfg, s, symbol, hot, parts, files);
    } else {
      left, t := LostFlush(cfg, s, symbol, hot, parts, files);
    }
  }

  lemma SavedFlush(cfg: Config, s: State, symbol: Symbol, hot: map<Partition, Slot>, parts: Partitions, files: Files)
    returns (t: State)
    requires BatcherCan(cfg, s, TakeBatch(symbol)) && CanWriteCatalog(s) && FlushKey(cfg, s, symbol) in s.hot
    requires FlushEffect(FlushKey(cfg, s, symbol), true, s.hot, s.parts, s.disk, hot, parts, files)
    ensures FlushSteps(cfg, s, symbol, true, None, t) && FlushReaches(t, hot, parts, files)
  {
    hide SymbolsOf, CanWriteHot, IsSafeSymbol, AccountOf, AgreeExcept, CanWriteCatalog;
    var s2 := BatcherStep(cfg, BatcherStep(cfg, s, TakeBatch(symbol)), SaveOk);
    OthersKeepCatalog(s, s2);
    ListSaved(cfg, s2);
    t := BatcherStep(cfg, BatcherStep(cfg, s2, LockAdd), BatcherEvent.AddFile);
  }

  lemma OthersKeepCatalog(s: State, t: State)
    requires CanWriteCatalog(s) && t.compactor == s.compactor && t.queries == s.queries && !t.batcher.Adding?
    ensures CanWriteCatalog(t)
  {
  }

  /** The second half of a flush that saved its file. */
  lemma ListSaved(cfg: Config, s: State)
    requires s.batcher.Saved? && CanWriteCatalog(s)
    ensures BatcherCan(cfg, s, LockAdd)
    ensures var s3 := BatcherStep(cfg, s, LockAdd);
      && BatcherCan(cfg, s3, BatcherEvent.AddFile)
      && var t := BatcherStep(cfg, s3, BatcherEvent.AddFile);
      t.hot == s.hot && t.disk == s.disk && t.parts == Added(s.parts, s.batcher.key, s.batcher.path)
  {
    hide CanWriteCatalog, AccountOf;
  }

  lemma LostFlush(cfg: Config, s: State, symbol: Symbol, hot: map<Partition, Slot>, parts: Partitions, files: Files)
    returns (left: Option<seq<Row>>, t: State)
    requires BatcherCan(cfg, s, TakeBatch(symbol)) && FlushKey(cfg, s, symbol) in s.hot
    requires FlushEffect(FlushKey(cfg, s, symbol), false, s.hot, s.parts, s.disk, hot, parts, files)
    ensures FlushSteps(cfg, s, symbol, false, left, t) && FlushReaches(t, hot, parts, files)
  {
    hide SymbolsOf, CanWriteHot, CanWriteCatalog, IsSafeSymbol, AccountOf, AgreeExcept, Spoiled;
    var target := PartTarget(FlushKey(cfg, s, symbol), s.hot[FlushKey(cfg, s, symbol)]);
    left := if target in files then Some(files[target]) else None;
    SpoiledIs(s.disk, files, target);
    t := BatcherStep(cfg, BatcherStep(cfg, s, TakeBatch(symbol)), SaveFail(left));
  }

  lemma SpoiledIs(files: Files, files': Files, path: FilePath)
    requires AgreeExcept(files', files, path)
    ensures Spoiled(files, path, if path in files' then Some(files'[path]) else None) == files'
  {
  }

  /** The outcomes of one call of `Flush` are exactly those of the state machine's flush. */
  lemma FlushIsFourSteps(cfg: Config, s: State, symbol: Symbol, ok: bool,
                         hot: map<Partition, Slot>, parts: Partitions, files: Files)
    requires BatcherCan(cfg, s, TakeBatch(symbol)) && CanWriteCatalog(s) && FlushKey(cfg, s, symbol) in s.hot
    ensures FlushEffect(FlushKey(cfg, s, symbol), ok, s.hot, s.parts, s.disk, hot, parts, files)
      <==> exists left, t :: FlushSteps(cfg, s, symbol, ok, left, t) && FlushReaches(t, hot, parts, files)
  {
    hide FlushSteps, FlushEffect, BatcherCan, CanWriteCatalog, FlushKey;
    if FlushEffect(FlushKey(cfg, s, symbol), ok, s.hot, s.parts, s.disk, hot, parts, files) {
      var left, t := FlushIsSteps(cfg, s, symbol, ok, hot, parts, files);
    }
    forall left, t | FlushSteps(cfg, s, symbol, ok, left, t) && FlushReaches(t, hot, parts, files)
      ensures FlushEffect(FlushKey(cfg, s, symbol), ok, s.hot, s.parts, s.disk, hot, parts, files)
    {
      StepsAreFlush(cfg, s, symbol, ok, left, t);
    }
  }
}
