/** The compactor's pass, one call at a time (tick_score/src/compactor.rs). */
module Compactors {
  import opened Wrappers
  import opened Rows
  import opened Paths
  import opened Disks
  import opened Catalogs
  import opened Protocol
  import opened Batchers

  /** Listed files belong to their partition, and merged ones were numbered before. */
  ghost predicate Sound(parts: Partitions, mergedIdx: nat)
  {
    forall key, p :: p in Listed(parts, key) ==> p.partition == key && (p.name.MergedFile? ==> p.name.n < mergedIdx)
  }

  /** What a partition holds, as a reader of its files in list order sees it. */
  ghost predicate SameRows(parts: Partitions, files: Files, parts': Partitions, files': Files)
  {
    forall key :: RowsIn(files', Listed(parts', key)) == RowsIn(files, Listed(parts, key))
  }

  method MergeOne(catalog: Catalog, disk: Disk, key: Partition) returns (ok: bool)
    requires Sound(catalog.partitions, catalog.mergedIdx)
    modifies catalog, disk
    ensures Sound(catalog.partitions, catalog.mergedIdx)
    ensures SameRows(old(catalog.partitions), old(disk.files), catalog.partitions, disk.files)
    ensures forall k :: k != key ==> Listed(catalog.partitions, k) == old(Listed(catalog.partitions, k))
    ensures disk.faults == old(disk.faults) + if ok then 0 else 1
    ensures ok && |old(Listed(catalog.partitions, key))| > 0 ==> |Listed(catalog.partitions, key)| == 1
    ensures if ok then |Listed(catalog.partitions, key)| <= 1
            else Listed(catalog.partitions, key) == old(Listed(catalog.partitions, key))
  {
    hide RowsIn;
    ghost var parts, idx, files := catalog.partitions, catalog.mergedIdx, disk.files;
    ok := catalog.ConcatFromCache(disk, key);
    if ok && Listed(parts, key) != [] {
      MergedKeepsRows(parts, idx, files, disk.files, key);
    } else {
      UnmergedKeepsRows(parts, idx, files, disk.files, key);
    }
  }

  lemma MergedKeepsRows(parts: Partitions, idx: nat, files: Files, files': Files, key: Partition)
    requires Sound(parts, idx)
    requires forall p :: p !in Listed(parts, key) ==>
      Content(files', p) == if p == MergeTarget(key, idx) then RowsIn(files, Listed(parts, key)) else Content(files, p)
    ensures Sound(parts[key := [MergeTarget(key, idx)]], idx + 1)
    ensures SameRows(parts, files, parts[key := [MergeTarget(key, idx)]], files')
  {
    hide RowsIn;
    var target := MergeTarget(key, idx);
    forall k
      ensures RowsIn(files', Listed(parts[key := [target]], k)) == RowsIn(files, Listed(parts, k))
    {
      if k == key {
        assert target !in Listed(parts, key);
        RowsOfOneFile(files', target);
      } else {
        forall p | p in Listed(parts, k)
          ensures Content(files', p) == Content(files, p)
        {
          assert p.partition == k && p !in Listed(parts, key);
        }
        RowsInSame(files', files, Listed(parts, k));
      }
    }
    var parts' := parts[key := [target]];
    forall k, p | p in Listed(parts', k)
      ensures p.partition == k && (p.name.MergedFile? ==> p.name.n < idx + 1)
    {
      assert k != key ==> p in Listed(parts, k);
    }
  }

  /** The files left when each deletion in turn succeeds or not. */
  function DeleteEach(files: Files, paths: seq<FilePath>, gone: seq<bool>): Files
    requires |gone| == |paths|
  {
    if paths == [] then files
    else DeleteEach(if gone[0] then files - {paths[0]} else files, paths[1..], gone[1..])
  }

  lemma {:induction false} DeleteEachIs(files: Files, paths: seq<FilePath>, gone: seq<bool>)
    requires |gone| == |paths|
    ensures Deleted(DeleteEach(files, paths, gone), files, paths)
  {
    if paths != [] {
      var now := if gone[0] then files - {paths[0]} else files;
      DeleteEachIs(now, paths[1..], gone[1..]);
      assert paths == [paths[0]] + paths[1..];
    }
  }

  /** Any set of deletions comes about in some such way. */
  lemma {:induction false} DeletedSomehow(after: Files, before: Files, paths: seq<FilePath>) returns (gone: seq<bool>)
    requires Deleted(after, before, paths)
    ensures |gone| == |paths| && DeleteEach(before, paths, gone) == after
  {
    if paths == [] {
      gone := [];
      assert after == before;
    } else {
      var first := paths[0] !in after;
      var now := if first then before - {paths[0]} else before;
      assert paths == [paths[0]] + paths[1..];
      var later := DeletedSomehow(after, now, paths[1..]);
      gone := [first] + later;
      assert gone[1..] == later;
    }
  }

  /** The way a merge goes in the state machine. */
  datatype Way = NothingToDo | RefusedFirst | FailedSave(left: Option<seq<Row>>) | Merges(gone: seq<bool>)

  predicate Succeeds(way: Way)
  {
    way.NothingToDo? || way.Merges?
  }

  /** The deletions after a merge, down to releasing the lock. */
  ghost predicate DeleteSteps(cfg: Config, s: State, gone: seq<bool>, t: State)
    decreases |gone|
  {
    if gone == [] then CompactorCan(cfg, s, UnlockMerge) && t == CompactorStep(cfg, s, UnlockMerge)
    else CompactorCan(cfg, s, DeleteNext(gone[0])) && DeleteSteps(cfg, CompactorStep(cfg, s, DeleteNext(gone[0])), gone[1..], t)
  }

  /** The state machine's merge of the next due partition, run without interference. */
  ghost predicate MergeSteps(cfg: Config, s: State, way: Way, t: State)
  {
    && CompactorCan(cfg, s, LockMerge)
    && var s1 := CompactorStep(cfg, s, LockMerge);
    match way
    case NothingToDo => CompactorCan(cfg, s1, MergeNothing) && t == CompactorStep(cfg, s1, MergeNothing)
    case RefusedFirst => CompactorCan(cfg, s1, MergeRefused) && t == CompactorStep(cfg, s1, MergeRefused)
    case FailedSave(left) => CompactorCan(cfg, s1, MergeSaveFail(left)) && t == CompactorStep(cfg, s1, MergeSaveFail(left))
    case Merges(gone) => CompactorCan(cfg, s1, MergeSaveOk) && DeleteSteps(cfg, CompactorStep(cfg, s1, MergeSaveOk), gone, t)
  }

  ghost predicate MergeReaches(t: State, parts: Partitions, idx: nat, files: Files)
  {
    t.parts == parts && t.mergedIdx == idx && t.disk == files
  }

  lemma {:induction false} DeleteStepsAre(cfg: Config, s: State, gone: seq<bool>, t: State)
    requires s.compactor.Deleting?
    ensures DeleteSteps(cfg, s, gone, t)
      <==> |gone| == |s.compactor.paths|
           && t == s.(disk := DeleteEach(s.disk, s.compactor.paths, gone), compactor := Due(s.compactor.todo))
    decreases |gone|
  {
    if gone != [] && s.compactor.paths != [] {
      var next := CompactorStep(cfg, s, DeleteNext(gone[0]));
      DeleteStepsAre(cfg, next, gone[1..], t);
    }
  }

  /** What the state machine does in an undisturbed merge is what one call of
      `concat_from_cache` may do. */
  lemma StepsAreMerge(cfg: Config, s: State, way: Way, t: State)
    requires MergeSteps(cfg, s, way, t)
    ensures MergeEffect(s.compactor.todo[0], Succeeds(way), s.parts, s.mergedIdx, s.disk, t.parts, t.mergedIdx, t.disk)
  {
    hide RowsIn, CanWriteCatalog, DeleteSteps;
    var key := s.compactor.todo[0];
    if key in s.parts {
      RestoredList(s.parts, key);
    }
    if way.Merges? {
      var s2 := CompactorStep(cfg, CompactorStep(cfg, s, LockMerge), MergeSaveOk);
      DeleteStepsAre(cfg, s2, way.gone, t);
      DeleteEachIs(s2.disk, s2.compactor.paths, way.gone);
    }
  }

  /** And whatever such a call may do the state machine does in some undisturbed merge. */
  lemma MergeIsSteps(cfg: Config, s: State, ok: bool, parts: Partitions, idx: nat, files: Files)
    returns (way: Way, t: State)
    requires CompactorCan(cfg, s, LockMerge)
    requires MergeEffect(s.compactor.todo[0], ok, s.parts, s.mergedIdx, s.disk, parts, idx, files)
    ensures MergeSteps(cfg, s, way, t) && Succeeds(way) == ok && MergeReaches(t, parts, idx, files)
  {
    hide RowsIn, CanWriteCatalog, DeleteSteps;
    var key := s.compactor.todo[0];
    var target := MergeTarget(key, s.mergedIdx);
    var s1 := CompactorStep(cfg, s, LockMerge);
    if key in s.parts {
      RestoredList(s.parts, key);
    }
    if Listed(s.parts, key) == [] {
      way, t := NothingToDo, CompactorStep(cfg, s1, MergeNothing);
    } else if !ok && idx == s.mergedIdx {
      way, t := RefusedFirst, CompactorStep(cfg, s1, MergeRefused);
    } else if !ok {
      var left := if target in files then Some(files[target]) else None;
      SpoiledIs(s.disk, files, target);
      way, t := FailedSave(left), CompactorStep(cfg, s1, MergeSaveFail(left));
    } else {
      way, t := SuccessIsSteps(cfg, s, parts, idx, files);
    }
  }

  lemma SuccessIsSteps(cfg: Config, s: State, parts: Partitions, idx: nat, files: Files) returns (way: Way, t: State)
    requires CompactorCan(cfg, s, LockMerge) && Listed(s.parts, s.compactor.todo[0]) != []
    requires MergeEffect(s.compactor.todo[0], true, s.parts, s.mergedIdx, s.disk, parts, idx, files)
    ensures MergeSteps(cfg, s, way, t) && Succeeds(way) && MergeReaches(t, parts, idx, files)
  {
    hide RowsIn, CanWriteCatalog, DeleteSteps;
    var s2 := CompactorStep(cfg, CompactorStep(cfg, s, LockMerge), MergeSaveOk);
    RestoredList(s.parts, s.compactor.todo[0]);
    var gone := DeletedSomehow(files, s2.disk, s2.compactor.paths);
    way, t := Merges(gone), s2.(disk := files, compactor := Due(s2.compactor.todo));
    DeleteStepsAre(cfg, s2, gone, t);
  }

  /** The outcomes of one call of `concat_from_cache` are exactly those of the state machine's
      merge, deletions included. */
  lemma MergeIsItsSteps(cfg: Config, s: State, ok: bool, parts: Partitions, idx: nat, files: Files)
    requires CompactorCan(cfg, s, LockMerge)
    ensures MergeEffect(s.compactor.todo[0], ok, s.parts, s.mergedIdx, s.disk, parts, idx, files)
      <==> exists way, t :: MergeSteps(cfg, s, way, t) && Succeeds(way) == ok && MergeReaches(t, parts, idx, files)
  {
    var key := s.compactor.todo[0];
    hide MergeSteps, MergeEffect, CompactorCan;
    if MergeEffect(key, ok, s.parts, s.mergedIdx, s.disk, parts, idx, files) {
      var way, t := MergeIsSteps(cfg, s, ok, parts, idx, files);
    }
    forall way, t | MergeSteps(cfg, s, way, t) && Succeeds(way) == ok && MergeReaches(t, parts, idx, files)
      ensures MergeEffect(key, ok, s.parts, s.mergedIdx, s.disk, parts, idx, files)
    {
      StepsAreMerge(cfg, s, way, t);
    }
  }

  lemma RowsOfOneFile(files: Files, path: FilePath)
    ensures RowsIn(files, [path]) == Content(files, path)
  {
    RowsInSnoc(files, [], path);
    assert [] + [path] == [path];
  }

  lemma UnmergedKeepsRows(parts: Partitions, idx: nat, files: Files, files': Files, key: Partition)
    requires Sound(parts, idx)
    requires forall p :: p != MergeTarget(key, idx) ==> Content(files', p) == Content(files, p)
    ensures Sound(parts, idx + 1) && SameRows(parts, files, parts, files')
  {
    hide RowsIn;
    forall k
      ensures RowsIn(files', Listed(parts, k)) == RowsIn(files, Listed(parts, k))
    {
      assert MergeTarget(key, idx) !in Listed(parts, k);
      RowsInSame(files', files, Listed(parts, k));
    }
  }

  /** One tick of the compactor: whatever merges fail, every partition keeps its rows in order;
      a partition at or below the threshold is left alone; if no merge fails, every other ends
      with one file. */
  method Pass(catalog: Catalog, disk: Disk, threshold: nat) returns (failures: nat)
    requires Sound(catalog.partitions, catalog.mergedIdx)
    modifies catalog, disk
    ensures Sound(catalog.partitions, catalog.mergedIdx)
    ensures SameRows(old(catalog.partitions), old(disk.files), catalog.partitions, disk.files)
    ensures failures == 0 ==>
      forall key :: |Listed(catalog.partitions, key)| <= Max(threshold, 1)
    ensures failures == disk.faults - old(disk.faults)
    ensures forall key :: |old(Listed(catalog.partitions, key))| <= threshold ==>
      Listed(catalog.partitions, key) == old(Listed(catalog.partitions, key))
    ensures failures == 0 ==> forall key :: |old(Listed(catalog.partitions, key))| > threshold ==>
      |Listed(catalog.partitions, key)| == 1
  {
    failures := 0;
    var due := catalog.PartitionsOver(threshold);
    ghost var parts, files := catalog.partitions, disk.files;
    for i := 0 to |due|
      invariant Sound(catalog.partitions, catalog.mergedIdx)
      invariant SameRows(parts, files, catalog.partitions, disk.files)
      invariant forall key :: key !in due[..i] ==> Listed(catalog.partitions, key) == Listed(parts, key)
      invariant failures == 0 ==> forall key :: key in due[..i] ==> |Listed(catalog.partitions, key)| == 1
      invariant failures == disk.faults - old(disk.faults)
    {
      hide SameRows, Sound, Enumerates, KeysOver;
      ghost var parts1, files1 := catalog.partitions, disk.files;
      DueIsNext(due, i);
      var ok := MergeOne(catalog, disk, due[i]);
      SameRowsTwice(parts, files, parts1, files1, catalog.partitions, disk.files);
      if !ok {
        failures := failures + 1;
      }
    }
    assert due[..|due|] == due;
  }

  lemma DueIsNext(due: seq<Partition>, i: nat)
    requires Distinct(due) && i < |due|
    ensures due[i] !in due[..i] && due[..i + 1] == due[..i] + [due[i]] && due[i] in due
  {
  }

  lemma SameRowsTwice(parts: Partitions, files: Files, parts1: Partitions, files1: Files, parts2: Partitions, files2: Files)
    requires SameRows(parts, files, parts1, files1) && SameRows(parts1, files1, parts2, files2)
    ensures SameRows(parts, files, parts2, files2)
  {
  }
}
