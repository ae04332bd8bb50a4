/** Assembling one kind's rows for a query (query_engine/src/query.rs). */
module Queries {
  import opened Wrappers
  import opened Rows
  import opened Paths
  import opened Disks
  import opened Catalogs
  import opened Protocol

  /** `hot_lazyframe_for_symbol`: None when the symbol has no buffer, or an empty one. */
  function HotFrame(hot: map<Partition, Slot>, key: Partition): Option<seq<Row>>
  {
    if key !in hot || hot[key].rows == [] then None else Some(hot[key].rows)
  }

  // ---------- Plans, read later ----------

  /** One part of a query's plan: a file opened when the plan is run, or rows copied already. */
  datatype Frame = FileScan(path: FilePath) | HotRows(rows: seq<Row>)

  /** No frame makes an empty table, one frame is itself, more are concatenated. */
  datatype Plan = Nothing | One(frame: Frame) | Union(frames: seq<Frame>)

  function ReadFrame(files: Files, f: Frame): Option<seq<Row>>
  {
    match f
    case FileScan(path) => if path in files then Some(files[path]) else None
    case HotRows(rows) => Some(rows)
  }

  /** All frames in order; None when a file is missing. */
  function ReadFrames(files: Files, frames: seq<Frame>): Option<seq<Row>>
  {
    if frames == [] then Some([])
    else
      var last := |frames| - 1;
      match (ReadFrames(files, frames[..last]), ReadFrame(files, frames[last]))
      case (Some(earlier), Some(rows)) => Some(earlier + rows)
      case _ => None
  }

  /** Running a plan on the files there are by then. */
  function Execute(files: Files, plan: Plan): Option<seq<Row>>
  {
    match plan
    case Nothing => Some([])
    case One(f) => ReadFrame(files, f)
    case Union(frames) => ReadFrames(files, frames)
  }

  function Scans(paths: seq<FilePath>): (frames: seq<Frame>)
  {
    seq(|paths|, i requires 0 <= i < |paths| => FileScan(paths[i]))
  }

  /** What a plan owes its reader: the listed files in order, then the hot rows, or nothing
      when a file is gone. */
  ghost predicate Reads(plan: Plan, paths: seq<FilePath>, hot: seq<Row>)
  {
    forall files :: Execute(files, plan) == if AllIn(paths, files) then Some(RowsIn(files, paths) + hot) else None
  }

  /** `scan_kind`: a plan that scans the listed files in catalog order, then the hot rows. It
      fails only when there is a file to open. */
  method ScanKind(catalog: Catalog, disk: Disk, hot: map<Partition, Slot>, symbol: Symbol, kind: Kind,
                  first: Date, last: Date, day: Date)
    returns (plan: Option<Plan>)
    modifies disk`faults
    ensures disk.faults == old(disk.faults) + if plan.Some? then 0 else 1
    ensures exists order ::
      && Enumerates(order, KeysInRange(catalog.partitions, symbol, kind, first, last))
      && var paths := ListsOf(catalog.partitions, order);
         match plan
         case Some(p) => Reads(p, paths, SlotIn(hot, Partition(symbol, kind, day)).rows)
         case None => paths != []
  {
    var paths := catalog.FilesForSymbolInRange(symbol, kind, first, last);
    ghost var order :|
      && Enumerates(order, KeysInRange(catalog.partitions, symbol, kind, first, last))
      && paths == ListsOf(catalog.partitions, order);
    var readable := disk.Scan(paths);
    if !readable {
      return None;
    }
    hide Enumerates, KeysInRange, ListsOf, Reads;
    var frames := Scans(paths);
    var h := HotFrame(hot, Partition(symbol, kind, day));
    if h.Some? {
      frames := frames + [HotRows(h.value)];
    }
    FramesRead(paths, h);
    assert h.None? ==> Scans(paths) + [] == Scans(paths);
    plan := Some(PlanOf(frames));
  }

  function PlanOf(frames: seq<Frame>): Plan
  {
    if |frames| == 0 then Nothing else if |frames| == 1 then One(frames[0]) else Union(frames)
  }

  /** The three cases on the number of frames agree. */
  lemma PlanReads(files: Files, frames: seq<Frame>)
    ensures Execute(files, PlanOf(frames)) == ReadFrames(files, frames)
  {
    if |frames| == 1 {
      assert frames[..0] == [];
      var r := ReadFrame(files, frames[0]);
      if r.Some? {
        assert [] + r.value == r.value;
      }
    }
  }

  lemma {:induction false} ScansRead(files: Files, paths: seq<FilePath>)
    ensures ReadFrames(files, Scans(paths)) == if AllIn(paths, files) then Some(RowsIn(files, paths)) else None
  {
    if paths != [] {
      var front, last := paths[..|paths| - 1], paths[|paths| - 1];
      assert Scans(paths)[..|paths| - 1] == Scans(front);
      assert paths == front + [last];
      ScansRead(files, front);
      assert AllIn(paths, files) <==> AllIn(front, files) && last in files;
    }
  }

  lemma FramesRead(paths: seq<FilePath>, hot: Option<seq<Row>>)
    ensures Reads(PlanOf(Scans(paths) + if hot.Some? then [HotRows(hot.value)] else []), paths,
                  if hot.Some? then hot.value else [])
  {
    var scans := Scans(paths);
    var frames := scans + if hot.Some? then [HotRows(hot.value)] else [];
    forall files
      ensures Execute(files, PlanOf(frames))
              == if AllIn(paths, files) then Some(RowsIn(files, paths) + if hot.Some? then hot.value else []) else None
    {
      hide AllIn, RowsIn, Scans, PlanOf, Execute;
      PlanReads(files, frames);
      ScansRead(files, paths);
      if hot.Some? {
        assert frames[..|scans|] == scans;
      } else {
        assert frames == scans && RowsIn(files, paths) + [] == RowsIn(files, paths);
      }
    }
  }
}
