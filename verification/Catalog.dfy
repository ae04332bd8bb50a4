/** The directory of files as the catalog sees it: what a path holds, and writes that fail. */
module Disks {
  import opened Rows
  import opened Paths

  type Files = map<FilePath, seq<Row>>

  /** Two disks that agree everywhere except perhaps at `path`. */
  ghost predicate AgreeExcept(a: Files, b: Files, path: FilePath)
  {
    forall p :: p != path ==> (p in a <==> p in b) && (p in a && p in b ==> a[p] == b[p])
  }

  datatype Write = Write(path: FilePath, rows: seq<Row>, ok: bool)

  /** Some of `paths` are gone, and nothing else has changed. */
  ghost predicate Deleted(after: Files, before: Files, paths: seq<FilePath>)
  {
    && (forall p :: p in after ==> p in before && after[p] == before[p])
    && (forall p :: p in before && p !in paths ==> p in after)
  }

  predicate AllIn(paths: seq<FilePath>, files: Files)
  {
    forall p :: p in paths ==> p in files
  }

  class Disk {
    var files: Files
    /** Every write tried, with its outcome, and every deletion tried: kept for the proofs. */
    ghost var writes: seq<Write>
    ghost var removals: seq<FilePath>
    /** How many plans and writes have failed. */
    ghost var faults: nat

    /** `stream_saving`: a write fails if what it reads is missing, and may fail all the same;
        it then leaves anything, or nothing, at its target. */
    method Save(path: FilePath, rows: seq<Row>, readable: bool) returns (ok: bool)
      modifies this
      ensures ok ==> readable
      ensures ok ==> files == old(files)[path := rows]
      ensures AgreeExcept(files, old(files), path)
      ensures writes == old(writes) + [Write(path, rows, ok)] && removals == old(removals)
      ensures faults == old(faults) + if ok then 0 else 1
    {
      ok := *;
      ok := ok && readable;
      writes := writes + [Write(path, rows, ok)];
      faults := faults + if ok then 0 else 1;
      if ok {
        files := files[path := rows];
      } else if * {
        var partial: seq<Row> := *;
        files := files[path := partial];
      } else if * {
        files := files - {path};
      }
    }

    /** `remove_file`. */
    method Remove(path: FilePath) returns (ok: bool)
      modifies this
      ensures files == if ok then old(files) - {path} else old(files)
      ensures writes == old(writes) && removals == old(removals) + [path] && faults == old(faults)
    {
      removals := removals + [path];
      if path !in files {
        return false;
      }
      if * {
        files := files - {path};
        return true;
      }
      return false;
    }

    /** Planning to read files: may fail, but does not yet need them. */
    method Scan(paths: seq<FilePath>) returns (ok: bool)
      modifies this`faults
      ensures paths == [] ==> ok
      ensures faults == old(faults) + if ok then 0 else 1
    {
      for i := 0 to |paths|
        invariant faults == old(faults)
      {
        var planned: bool := *;
        if !planned {
          faults := faults + 1;
          return false;
        }
      }
      return true;
    }

    /** Planning to concatenate: may fail. */
    method Unite() returns (ok: bool)
      modifies this`faults
      ensures faults == old(faults) + if ok then 0 else 1
    {
      ok := *;
      faults := faults + if ok then 0 else 1;
    }
  }
}

/** Which files stand for which partition (tick_score/src/catalog.rs). */
module Catalogs {
  import opened Wrappers
  import opened Rows
  import opened Paths
  import opened Disks

  type Partitions = map<Partition, seq<FilePath>>

  function Listed(parts: Partitions, key: Partition): seq<FilePath>
  {
    if key in parts then parts[key] else []
  }

  function Added(parts: Partitions, key: Partition, path: FilePath): Partitions
  {
    parts[key := Listed(parts, key) + [path]]
  }

  function MergeTarget(key: Partition, mergedIdx: nat): FilePath
  {
    FilePath(key, MergedFile(mergedIdx))
  }

  function Content(files: Files, path: FilePath): seq<Row>
  {
    if path in files then files[path] else []
  }

  /** The rows of the listed files, in list order. */
  function RowsIn(files: Files, paths: seq<FilePath>): seq<Row>
  {
    if paths == [] then []
    else RowsIn(files, paths[..|paths| - 1]) + Content(files, paths[|paths| - 1])
  }

  lemma RowsInSnoc(files: Files, paths: seq<FilePath>, path: FilePath)
    ensures RowsIn(files, paths + [path]) == RowsIn(files, paths) + Content(files, path)
  {
    assert (paths + [path])[..|paths|] == paths;
  }

  /** Only the contents of the listed paths matter. */
  lemma {:induction false} RowsInSame(a: Files, b: Files, paths: seq<FilePath>)
    requires forall p :: p in paths ==> Content(a, p) == Content(b, p)
    ensures RowsIn(a, paths) == RowsIn(b, paths)
  {
    if paths != [] {
      RowsInSame(a, b, paths[..|paths| - 1]);
    }
  }

  /** `order` is some order of the set `keys`: a hash map's iteration order. */
  ghost predicate Enumerates<T(!new)>(order: seq<T>, keys: set<T>)
  {
    Distinct(order) && forall x :: x in order <==> x in keys
  }

  lemma EnumeratesSnoc<T(!new)>(order: seq<T>, keys: set<T>, x: T)
    requires Enumerates(order, keys) && x !in keys
    ensures Enumerates(order + [x], keys + {x})
  {
  }

  predicate InRange(key: Partition, symbol: Symbol, kind: Kind, first: Date, last: Date)
  {
    key.symbol == symbol && key.kind == kind && first <= key.date <= last
  }

  function KeysInRange(parts: Partitions, symbol: Symbol, kind: Kind, first: Date, last: Date): set<Partition>
  {
    set key | key in parts && InRange(key, symbol, kind, first, last)
  }

  function ListsOf(parts: Partitions, order: seq<Partition>): seq<FilePath>
  {
    if order == [] then [] else ListsOf(parts, order[..|order| - 1]) + Listed(parts, order[|order| - 1])
  }

  function KeysOver(parts: Partitions, threshold: nat): set<Partition>
  {
    set key | key in parts && |parts[key]| > threshold
  }

  /** What one merge of a partition may do, on each of its exits. It succeeds with nothing to
      do on an empty list. It fails with all lists as they were, before the write (nothing has
      changed) or in it (the number is used up, and its target may hold anything); a source file
      that is missing shows up in either place. It succeeds
      with one listed file holding the old files' rows in order, and some of those deleted. */
  ghost predicate MergeEffect(key: Partition, ok: bool, parts: Partitions, idx: nat, files: Files,
                              parts': Partitions, idx': nat, files': Files)
  {
    var paths, target := Listed(parts, key), MergeTarget(key, idx);
    if paths == [] then ok && parts' == parts && idx' == idx && files' == files
    else if !ok then
      && parts' == parts
      && ((idx' == idx && files' == files)
          || (idx' == idx + 1 && AgreeExcept(files', files, target)))
    else
      && AllIn(paths, files) && parts' == parts[key := [target]] && idx' == idx + 1
      && Deleted(files', files[target := RowsIn(files, paths)], paths)
  }

  class Catalog {
    var partitions: Partitions
    var mergedIdx: nat

    constructor ()
      ensures partitions == map[] && mergedIdx == 0
    {
      partitions, mergedIdx := map[], 0;
    }

    /** Hands the partition's list over and leaves it empty. */
    method Take(key: Partition) returns (paths: seq<FilePath>)
      modifies this`partitions
      ensures paths == old(Listed(partitions, key))
      ensures partitions == if key in old(partitions) then old(partitions)[key := []] else old(partitions)
    {
      if key !in partitions {
        return [];
      }
      paths := partitions[key];
      partitions := partitions[key := []];
    }

    method AddFile(key: Partition, path: FilePath)
      modifies this`partitions
      ensures partitions == old(Added(partitions, key, path))
    {
      if key !in partitions {
        partitions := partitions[key := []];
      }
      partitions := partitions[key := partitions[key] + [path]];
    }

    /** The lists of the matching partitions, in the map's own order. */
    method FilesForSymbolInRange(symbol: Symbol, kind: Kind, first: Date, last: Date)
      returns (paths: seq<FilePath>)
      ensures exists order ::
        Enumerates(order, KeysInRange(partitions, symbol, kind, first, last)) && paths == ListsOf(partitions, order)
    {
      paths := [];
      ghost var order: seq<Partition> := [];
      var left := partitions.Keys;
      while left != {}
        invariant left <= partitions.Keys
        invariant Enumerates(order, KeysInRange(partitions, symbol, kind, first, last) - left)
        invariant paths == ListsOf(partitions, order)
        decreases left
      {
        var key :| key in left;
        left := left - {key};
        if InRange(key, symbol, kind, first, last) {
          ghost var done := KeysInRange(partitions, symbol, kind, first, last) - (left + {key});
          EnumeratesSnoc(order, done, key);
          assert done + {key} == KeysInRange(partitions, symbol, kind, first, last) - left;
          assert (order + [key])[..|order|] == order;
          paths := paths + partitions[key];
          order := order + [key];
        } else {
          assert KeysInRange(partitions, symbol, kind, first, last) - (left + {key})
              == KeysInRange(partitions, symbol, kind, first, last) - left;
        }
      }
      assert KeysInRange(partitions, symbol, kind, first, last) - left
          == KeysInRange(partitions, symbol, kind, first, last);
    }

    /** The partitions listing more than `threshold` files, in the map's own order. */
    method PartitionsOver(threshold: nat) returns (due: seq<Partition>)
      ensures Enumerates(due, KeysOver(partitions, threshold))
      ensures forall key :: key in due <==> key in partitions && |partitions[key]| > threshold
    {
      due := [];
      var left := partitions.Keys;
      while left != {}
        invariant left <= partitions.Keys
        invariant Enumerates(due, KeysOver(partitions, threshold) - left)
        decreases left
      {
        var key :| key in left;
        left := left - {key};
        if |partitions[key]| > threshold {
          ghost var done := KeysOver(partitions, threshold) - (left + {key});
          EnumeratesSnoc(due, done, key);
          assert done + {key} == KeysOver(partitions, threshold) - left;
          due := due + [key];
        } else {
          assert KeysOver(partitions, threshold) - (left + {key}) == KeysOver(partitions, threshold) - left;
        }
      }
    }

    /** `concat_from_cache`: all or nothing. Every error exit leaves the lists exactly as they
        were; success on a non-empty partition lists one file holding the old files' rows in
        order, then tries to delete exactly the files it replaced. */
    method ConcatFromCache(disk: Disk, key: Partition) returns (ok: bool)
      modifies this, disk
      ensures MergeEffect(key, ok, old(partitions), old(mergedIdx), old(disk.files), partitions, mergedIdx, disk.files)
      ensures disk.removals == old(disk.removals) + if ok then old(Listed(partitions, key)) else []
      ensures disk.writes == old(disk.writes)
        + if mergedIdx == old(mergedIdx) then []
          else [Write(MergeTarget(key, old(mergedIdx)), RowsIn(old(disk.files), old(Listed(partitions, key))), ok)]
      ensures disk.faults == old(disk.faults) + if ok then 0 else 1
    {
      var paths := Take(key);
      if paths == [] {
        if key in old(partitions) {
          RestoredList(old(partitions), key);
        }
        return true;
      }
      RestoredList(old(partitions), key);
      var scanned := disk.Scan(paths);
      if !scanned {
        partitions := partitions[key := paths];
        return false;
      }
      var united := disk.Unite();
      if !united {
        partitions := partitions[key := paths];
        return false;
      }
      var target := MergeTarget(key, mergedIdx);
      var rows := RowsIn(disk.files, paths);
      mergedIdx := mergedIdx + 1;
      var saved := disk.Save(target, rows, AllIn(paths, disk.files));
      if !saved {
        partitions := partitions[key := paths];
        return false;
      }
      partitions := partitions[key := [target]];
      RemoveMergedFiles(disk, paths);
      return true;
    }
  }

  lemma RestoredList(parts: Partitions, key: Partition)
    requires key in parts
    ensures parts[key := []][key := parts[key]] == parts
    ensures parts[key] == [] ==> parts[key := []] == parts
  {
  }

  /** Deletes the superseded files and nothing else; a file that will not go is left. */
  method RemoveMergedFiles(disk: Disk, paths: seq<FilePath>)
    modifies disk
    ensures Deleted(disk.files, old(disk.files), paths)
    ensures disk.removals == old(disk.removals) + paths
    ensures disk.writes == old(disk.writes) && disk.faults == old(disk.faults)
  {
    for i := 0 to |paths|
      invariant Deleted(disk.files, old(disk.files), paths)
      invariant disk.removals == old(disk.removals) + paths[..i]
      invariant disk.writes == old(disk.writes) && disk.faults == old(disk.faults)
    {
      var gone := disk.Remove(paths[i]);
      assert paths[..i + 1] == paths[..i] + [paths[i]];
    }
    assert paths[..|paths|] == paths;
  }

  lemma FirstTwoDiffer<T(!new)>(order: seq<T>)
    requires Distinct(order) && |order| > 1
    ensures order[0] != order[1]
  {
  }

  /** With one partition per symbol and kind, a range holds that partition's list or nothing. */
  lemma OneDayRange(parts: Partitions, order: seq<Partition>, symbol: Symbol, kind: Kind,
                    first: Date, last: Date, day: Date)
    requires Enumerates(order, KeysInRange(parts, symbol, kind, first, last))
    requires forall key :: key in parts ==> key.date == day
    ensures ListsOf(parts, order)
            == if first <= day <= last then Listed(parts, Partition(symbol, kind, day)) else []
  {
    var key := Partition(symbol, kind, day);
    forall i | 0 <= i < |order|
      ensures order[i] == key
    {
      assert order[i] in order;
      assert order[i] in KeysInRange(parts, symbol, kind, first, last);
    }
    if |order| > 1 {
      FirstTwoDiffer(order);
      assert false;
    }
    assert order != [] ==> order[0] in KeysInRange(parts, symbol, kind, first, last);
    if first <= day <= last && key in parts {
      assert key in KeysInRange(parts, symbol, kind, first, last);
      assert order == [key] && order[..0] == [];
    }
  }
}
