/** What a directory scan and a batch of changes make of the file map and of the file table,
    as functions of values. */
module Scanning {
  import opened Wrappers
  import opened Store

  const MAX_ERROR_COUNT := 100

  datatype FileInfo = FileInfo(path: Path, hash: string, mtime: int, size: nat)

  type FileMap = map<Path, FileInfo>

  /** What the directory iterator yields: a regular file whose time may be unreadable and whose
      content may not hash, a directory, or an entry whose relative path cannot be had. */
  datatype Entry =
    | FileEntry(path: Path, mtime: Option<int>, size: nat, content: string)
    | DirEntry(path: Path)
    | Unplaced(path: Path)

  datatype PendingFile = PendingFile(path: Path, mtime: int, hash: string, needCalc: bool, dirty: bool, size: nat)

  /** The table rows that a file map stands for. */
  function Projection(m: FileMap): Table {
    map p | p in m :: Row(m[p].hash, m[p].mtime)
  }

  // ---------------------------------------------------------------- phases of a scan

  /** retry: the files that were locked, to be looked at again. */
  datatype Walk = Walk(pending: seq<PendingFile>, dirs: set<Path>, errors: nat, retry: set<Path>)

  function Hit(cache: Table, path: Path, mtime: int): bool {
    path in cache && cache[path].mtime == mtime
  }

  /** A file as the walk records it, its hash filled in where the cache had none. An empty
      content string is a hash that failed. */
  function Pend(cache: Table, e: Entry): PendingFile
    requires e.FileEntry? && e.mtime.Some?
  {
    if Hit(cache, e.path, e.mtime.value)
    then PendingFile(e.path, e.mtime.value, cache[e.path].hash, false, false, e.size)
    else PendingFile(e.path, e.mtime.value, e.content, true, true, e.size)
  }

  function WalkOne(cache: Table, ignored: Path -> bool, w: Walk, e: Entry): Walk {
    if w.errors >= MAX_ERROR_COUNT then w
    else if e.Unplaced? then w.(errors := w.errors + 1)
    else if e.path == "" || ignored(e.path) then w
    else if e.DirEntry? then w.(dirs := w.dirs + {e.path})
    else if e.mtime.None? then w.(errors := w.errors + 1, retry := w.retry + {e.path})
    else
      var f := Pend(cache, e);
      w.(pending := w.pending + [f], retry := if f.needCalc && f.hash == "" then w.retry + {e.path} else w.retry)
  }

  function WalkAll(cache: Table, ignored: Path -> bool, entries: seq<Entry>): Walk {
    if entries == [] then Walk([], {}, 0, {})
    else WalkOne(cache, ignored, WalkAll(cache, ignored, entries[..|entries| - 1]), entries[|entries| - 1])
  }

  function InfoOf(f: PendingFile): FileInfo {
    FileInfo(f.path, f.hash, f.mtime, f.size)
  }

  /** The new file map: every file that has a hash. */
  function MapOf(pending: seq<PendingFile>): FileMap {
    if pending == [] then map[]
    else
      var last := pending[|pending| - 1];
      var m := MapOf(pending[..|pending| - 1]);
      if last.hash == "" then m else m[last.path := InfoOf(last)]
  }

  function Dirty(pending: seq<PendingFile>): seq<FileInfo> {
    if pending == [] then []
    else
      var last := pending[|pending| - 1];
      var d := Dirty(pending[..|pending| - 1]);
      if last.hash == "" || !last.dirty then d else d + [InfoOf(last)]
  }

  function UpdateOps(files: seq<FileInfo>): (ops: seq<PendingOp>)
    ensures |ops| == |files|
    ensures forall k :: 0 <= k < |ops| ==> ops[k] == Update(files[k].path, Row(files[k].hash, files[k].mtime))
  {
    seq(|files|, k requires 0 <= k < |files| => Update(files[k].path, Row(files[k].hash, files[k].mtime)))
  }

  function ScanMap(cache: Table, ignored: Path -> bool, entries: seq<Entry>): FileMap {
    MapOf(WalkAll(cache, ignored, entries).pending)
  }

  predicate DistinctPaths(entries: seq<Entry>) {
    forall i, j :: 0 <= i < j < |entries| ==> entries[i].path != entries[j].path
  }

  // ---------------------------------------------------------------- what a scan leaves

  predicate DistinctPending(pending: seq<PendingFile>) {
    forall i, j :: 0 <= i < j < |pending| ==> pending[i].path != pending[j].path
  }

  /** A pending file is clean exactly when the cache has its time, and then it is what the cache
      said. */
  predicate CleanFromCache(cache: Table, pending: seq<PendingFile>) {
    forall k :: 0 <= k < |pending| ==>
      (pending[k].dirty <==> !Hit(cache, pending[k].path, pending[k].mtime))
      && (!pending[k].dirty ==> cache[pending[k].path].hash == pending[k].hash)
  }

  /** Every pending file comes from an entry, and says of the cache what it should. */
  predicate Comes(cache: Table, entries: seq<Entry>, f: PendingFile) {
    && (exists j :: 0 <= j < |entries| && entries[j].path == f.path)
    && (f.dirty <==> !Hit(cache, f.path, f.mtime)) && (!f.dirty ==> cache[f.path].hash == f.hash)
  }

  lemma {:induction false} PendingComes(cache: Table, ignored: Path -> bool, entries: seq<Entry>)
    ensures forall f :: f in WalkAll(cache, ignored, entries).pending ==> Comes(cache, entries, f)
  {
    if entries != [] {
      var init, last := entries[..|entries| - 1], entries[|entries| - 1];
      PendingComes(cache, ignored, init);
      var w0, w := WalkAll(cache, ignored, init), WalkAll(cache, ignored, entries);
      forall f | f in w.pending ensures Comes(cache, entries, f) {
        if f in w0.pending {
          var j :| 0 <= j < |init| && init[j].path == f.path;
          assert entries[j] == init[j];
        } else {
          assert entries[|entries| - 1].path == f.path;
        }
      }
    }
  }

  lemma {:induction false} PendingDistinct(cache: Table, ignored: Path -> bool, entries: seq<Entry>)
    requires DistinctPaths(entries)
    ensures DistinctPending(WalkAll(cache, ignored, entries).pending)
  {
    if entries != [] {
      var init, last := entries[..|entries| - 1], entries[|entries| - 1];
      PendingDistinct(cache, ignored, init);
      PendingComes(cache, ignored, init);
      var w0 := WalkAll(cache, ignored, init);
      forall k | 0 <= k < |w0.pending| ensures w0.pending[k].path != last.path {
        assert Comes(cache, init, w0.pending[k]);
      }
    }
  }

  lemma WalkFacts(cache: Table, ignored: Path -> bool, entries: seq<Entry>)
    requires DistinctPaths(entries)
    ensures var w := WalkAll(cache, ignored, entries);
      && DistinctPending(w.pending) && CleanFromCache(cache, w.pending)
      && (forall k :: 0 <= k < |w.pending| ==> exists j :: 0 <= j < |entries| && entries[j].path == w.pending[k].path)
  {
    PendingDistinct(cache, ignored, entries);
    PendingComes(cache, ignored, entries);
    var w := WalkAll(cache, ignored, entries);
    forall k | 0 <= k < |w.pending| ensures Comes(cache, entries, w.pending[k]) {
      assert w.pending[k] in w.pending;
    }
  }

  lemma {:induction false} MapKeys(pending: seq<PendingFile>, p: Path)
    ensures p in MapOf(pending) ==>
      exists k ::
        0 <= k < |pending| && pending[k].path == p && pending[k].hash != "" && MapOf(pending)[p] == InfoOf(pending[k])
  {
    if pending != [] {
      var init, last := pending[..|pending| - 1], pending[|pending| - 1];
      MapKeys(init, p);
      if p in MapOf(init) {
        var k :| 0 <= k < |init| && init[k].path == p && init[k].hash != "" && MapOf(init)[p] == InfoOf(init[k]);
        assert pending[k] == init[k];
      }
      assert pending[|pending| - 1] == last;
    }
  }

  lemma {:induction false} PendingInMap(pending: seq<PendingFile>, k: nat)
    requires k < |pending| && pending[k].hash != ""
    ensures pending[k].path in MapOf(pending)
    decreases |pending|
  {
    if k < |pending| - 1 { PendingInMap(pending[..|pending| - 1], k); }
  }

  /** Whether the walk gets to an entry that is a file to be recorded. */
  predicate Listed(cache: Table, ignored: Path -> bool, entries: seq<Entry>, k: nat)
    requires k < |entries|
  {
    var e := entries[k];
    && e.FileEntry? && e.path != "" && !ignored(e.path)
    && WalkAll(cache, ignored, entries[..k]).errors < MAX_ERROR_COUNT
  }

  /** A walk never loses what it has. */
  lemma {:induction false} WalkGrows(cache: Table, ignored: Path -> bool, entries: seq<Entry>, k: nat)
    requires k <= |entries|
    ensures var a, b := WalkAll(cache, ignored, entries[..k]), WalkAll(cache, ignored, entries);
      a.retry <= b.retry && |a.pending| <= |b.pending| && a.pending == b.pending[..|a.pending|]
    decreases |entries|
  {
    if k == |entries| {
      assert entries[..k] == entries;
    } else {
      var init := entries[..|entries| - 1];
      assert init[..k] == entries[..k];
      WalkGrows(cache, ignored, init, k);
    }
  }

  /** No file the walk gets to is forgotten: it is in the new map, or it will be looked at again. */
  lemma MappedOrRetried(cache: Table, ignored: Path -> bool, entries: seq<Entry>, k: nat)
    requires k < |entries| && Listed(cache, ignored, entries, k)
    requires forall p :: p in cache ==> cache[p].hash != ""
    ensures var w, p := WalkAll(cache, ignored, entries), entries[k].path; p in MapOf(w.pending) || p in w.retry
  {
    assert entries[..k + 1][..k] == entries[..k];
    var w := WalkAll(cache, ignored, entries[..k + 1]);
    WalkGrows(cache, ignored, entries, k + 1);
    if entries[k].path !in w.retry {
      PendingInMap(WalkAll(cache, ignored, entries).pending, |w.pending| - 1);
    }
  }

  // ---------------------------------------------------------------- incremental scans

  predicate Scanned(ignored: Path -> bool, entries: seq<Entry>, k: nat)
    requires k < |entries|
  {
    Listed(map[], ignored, entries, k) && entries[k].mtime.Some?
  }

  /** Where the cache answers, it answers with the hash of the content. */
  predicate CacheTruthful(cache: Table, ignored: Path -> bool, entries: seq<Entry>) {
    forall k ::
      0 <= k < |entries| && Scanned(ignored, entries, k) && Hit(cache, entries[k].path, entries[k].mtime.value) ==>
        cache[entries[k].path].hash == entries[k].content
  }

  /** Errors and directories do not depend on the cache, and the pending files only in their
      hashes. */
  lemma {:induction false} WalksAlign(cache: Table, ignored: Path -> bool, entries: seq<Entry>)
    ensures var a, b := WalkAll(cache, ignored, entries), WalkAll(map[], ignored, entries);
      a.errors == b.errors && a.dirs == b.dirs && |a.pending| == |b.pending|
  {
    if entries != [] { WalksAlign(cache, ignored, entries[..|entries| - 1]); }
  }

  lemma PrefixTruthful(cache: Table, ignored: Path -> bool, entries: seq<Entry>)
    requires entries != []
    ensures var init, last := entries[..|entries| - 1], |entries| - 1;
      CacheTruthful(cache, ignored, entries) <==>
        CacheTruthful(cache, ignored, init)
        && (Scanned(ignored, entries, last) && Hit(cache, entries[last].path, entries[last].mtime.value) ==>
              cache[entries[last].path].hash == entries[last].content)
  {
    var init := entries[..|entries| - 1];
    forall k | 0 <= k < |init| ensures Scanned(ignored, init, k) == Scanned(ignored, entries, k)
      && init[k] == entries[k] {
      assert init[..k] == entries[..k];
    }
  }

  /** A scan with the cache yields the file map of one that hashes every file exactly when
      every cached hash it uses is the hash of the content. */
  lemma {:induction false} IncrementalScanExactly(cache: Table, ignored: Path -> bool, entries: seq<Entry>)
    requires DistinctPaths(entries)
    ensures ScanMap(cache, ignored, entries) == ScanMap(map[], ignored, entries)
        <==> CacheTruthful(cache, ignored, entries)
    decreases |entries|
  {
    if entries != [] {
      var init, last := entries[..|entries| - 1], entries[|entries| - 1];
      IncrementalScanExactly(cache, ignored, init);
      PrefixTruthful(cache, ignored, entries);
      WalksAlign(cache, ignored, init);
      if Scanned(ignored, entries, |entries| - 1) {
        LastFile(cache, ignored, entries);
      } else {
        assert ScanMap(cache, ignored, entries) == ScanMap(cache, ignored, init);
        assert ScanMap(map[], ignored, entries) == ScanMap(map[], ignored, init);
      }
    }
  }

  lemma NotInPrefix(cache: Table, ignored: Path -> bool, entries: seq<Entry>)
    requires DistinctPaths(entries) && entries != []
    ensures entries[|entries| - 1].path !in ScanMap(cache, ignored, entries[..|entries| - 1])
  {
    var init, last := entries[..|entries| - 1], entries[|entries| - 1];
    WalkFacts(cache, ignored, init);
    MapKeys(WalkAll(cache, ignored, init).pending, last.path);
  }

  lemma LastFile(cache: Table, ignored: Path -> bool, entries: seq<Entry>)
    requires DistinctPaths(entries) && entries != [] && Scanned(ignored, entries, |entries| - 1)
    ensures var init, last := entries[..|entries| - 1], entries[|entries| - 1];
      ScanMap(cache, ignored, entries) == ScanMap(map[], ignored, entries) <==>
        ScanMap(cache, ignored, init) == ScanMap(map[], ignored, init)
        && (Hit(cache, last.path, last.mtime.value) ==> cache[last.path].hash == last.content)
  {
    var init, last := entries[..|entries| - 1], entries[|entries| - 1];
    WalksAlign(cache, ignored, init);
    NotInPrefix(cache, ignored, entries);
    NotInPrefix(map[], ignored, entries);
    var a0, b0 := ScanMap(cache, ignored, init), ScanMap(map[], ignored, init);
    var a, b := ScanMap(cache, ignored, entries), ScanMap(map[], ignored, entries);
    var fa, fb := Pend(cache, last), Pend(map[], last);
    assert a == if fa.hash == "" then a0 else a0[last.path := InfoOf(fa)];
    assert b == if fb.hash == "" then b0 else b0[last.path := InfoOf(fb)];
    OneMoreFile(a0, b0, fa, fb);
  }

  /** Two file maps without a path stay equal exactly when they are given the same hash for it. */
  lemma OneMoreFile(a0: FileMap, b0: FileMap, fa: PendingFile, fb: PendingFile)
    requires fa.path == fb.path && fa.mtime == fb.mtime && fa.size == fb.size
    requires fa.path !in a0 && fb.path !in b0
    ensures var a := if fa.hash == "" then a0 else a0[fa.path := InfoOf(fa)];
      var b := if fb.hash == "" then b0 else b0[fb.path := InfoOf(fb)];
      a == b <==> a0 == b0 && fa.hash == fb.hash
  {
    var a := if fa.hash == "" then a0 else a0[fa.path := InfoOf(fa)];
    var b := if fb.hash == "" then b0 else b0[fb.path := InfoOf(fb)];
    assert a - {fa.path} == a0 && b - {fa.path} == b0;
    if fa.path in a && fb.path in b {
      assert a[fa.path] == InfoOf(fa) && b[fb.path] == InfoOf(fb);
    }
  }

  // ---------------------------------------------------------------- batches of changes

  function WithUpdates(m: FileMap, updates: seq<FileInfo>): FileMap {
    if updates == [] then m
    else
      var last := updates[|updates| - 1];
      WithUpdates(m, updates[..|updates| - 1])[last.path := last]
  }

  /** Deleting paths one by one: a path is a file if the file map still has it, else a
      directory if the directory map has it. */
  datatype Deleted = Deleted(files: FileMap, dirs: set<Path>, removedFiles: seq<Path>, removedDirs: seq<Path>)

  function DeleteOne(d: Deleted, path: Path): Deleted {
    if path in d.files then d.(files := d.files - {path}, removedFiles := d.removedFiles + [path])
    else if path in d.dirs then d.(dirs := d.dirs - {path}, removedDirs := d.removedDirs + [path])
    else d
  }

  function DeleteAll(m: FileMap, dirs: set<Path>, paths: seq<Path>): Deleted {
    if paths == [] then Deleted(m, dirs, [], [])
    else DeleteOne(DeleteAll(m, dirs, paths[..|paths| - 1]), paths[|paths| - 1])
  }

  function RemoveOps(paths: seq<Path>): (ops: seq<PendingOp>)
    ensures |ops| == |paths|
    ensures forall k :: 0 <= k < |ops| ==> ops[k] == Remove(paths[k])
  {
    seq(|paths|, k requires 0 <= k < |paths| => Remove(paths[k]))
  }

  lemma {:induction false} UpdatesProject(m: FileMap, updates: seq<FileInfo>)
    ensures Projection(WithUpdates(m, updates)) == Replay(Projection(m), UpdateOps(updates))
  {
    if updates == [] {
      assert UpdateOps(updates) == [];
    } else {
      var init, last := updates[..|updates| - 1], updates[|updates| - 1];
      UpdatesProject(m, init);
      assert UpdateOps(updates) == UpdateOps(init) + [Update(last.path, Row(last.hash, last.mtime))];
      ReplayOneMore(Projection(m), UpdateOps(init), Update(last.path, Row(last.hash, last.mtime)));
    }
  }

  lemma {:induction false} DeletesProject(m: FileMap, dirs: set<Path>, paths: seq<Path>)
    ensures var d := DeleteAll(m, dirs, paths);
      Projection(d.files) == Replay(Projection(m), RemoveOps(d.removedFiles))
  {
    if paths == [] {
      assert RemoveOps([]) == [];
    } else {
      var init, last := paths[..|paths| - 1], paths[|paths| - 1];
      DeletesProject(m, dirs, init);
      var d0 := DeleteAll(m, dirs, init);
      OneMoreRemoved(m, d0, last);
    }
  }

  lemma OneMoreRemoved(m: FileMap, d: Deleted, path: Path)
    requires Projection(d.files) == Replay(Projection(m), RemoveOps(d.removedFiles))
    ensures Projection(DeleteOne(d, path).files) == Replay(Projection(m), RemoveOps(DeleteOne(d, path).removedFiles))
  {
    if path in d.files {
      assert RemoveOps(d.removedFiles + [path]) == RemoveOps(d.removedFiles) + [Remove(path)];
      ReplayOneMore(Projection(m), RemoveOps(d.removedFiles), Remove(path));
    }
  }

  /** The echo filter over the updates in order: a file that was just received with this very
      hash is not announced, and the record of it is used up. */
  datatype Announced = Announced(updates: seq<FileInfo>, received: map<Path, string>)

  function AnnounceOne(a: Announced, f: FileInfo): Announced {
    if f.path in a.received && a.received[f.path] == f.hash then a.(received := a.received - {f.path})
    else a.(updates := a.updates + [f])
  }

  function Announce(received: map<Path, string>, updates: seq<FileInfo>): Announced {
    if updates == [] then Announced([], received)
    else AnnounceOne(Announce(received, updates[..|updates| - 1]), updates[|updates| - 1])
  }
}
