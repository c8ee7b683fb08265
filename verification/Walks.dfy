/** What a scan records, told from the entries alone: every entry that is reached, and how many
    failing ones it takes for an entry not to be reached. */
module Walks {
  import opened Wrappers
  import opened Store
  import opened Scanning
  import opened TableWrites
  import opened Watching
  import opened Scanner

  /** An entry whose path cannot be had, or a file to be recorded whose time cannot. */
  predicate Failing(ignored: Path -> bool, e: Entry) {
    e.Unplaced? || (e.FileEntry? && e.mtime.None? && Seen(ignored, e.path))
  }

  function Failures(ignored: Path -> bool, entries: seq<Entry>): nat {
    if entries == [] then 0
    else
      Failures(ignored, entries[..|entries| - 1]) + if Failing(ignored, entries[|entries| - 1]) then 1 else 0
  }

  /** A hundred failing entries before it end a scan. */
  predicate Reached(ignored: Path -> bool, entries: seq<Entry>, k: nat)
    requires k < |entries|
  {
    Failures(ignored, entries[..k]) < 100
  }

  lemma {:induction false} FailuresGrow(ignored: Path -> bool, entries: seq<Entry>, k: nat)
    requires k <= |entries|
    ensures Failures(ignored, entries[..k]) <= Failures(ignored, entries)
    decreases |entries|
  {
    if k == |entries| {
      assert entries[..k] == entries;
    } else {
      assert entries[..|entries| - 1][..k] == entries[..k];
      FailuresGrow(ignored, entries[..|entries| - 1], k);
    }
  }

  /** Fewer than a hundred failing entries never cut a scan short. */
  lemma FewFailuresReachAll(ignored: Path -> bool, entries: seq<Entry>)
    requires Failures(ignored, entries) < 100
    ensures forall k :: 0 <= k < |entries| ==> Reached(ignored, entries, k)
  {
    forall k | 0 <= k < |entries| ensures Reached(ignored, entries, k) {
      FailuresGrow(ignored, entries, k);
    }
  }

  lemma {:induction false} ErrorsExactly(cache: Table, ignored: Path -> bool, entries: seq<Entry>)
    ensures var n := Failures(ignored, entries);
      WalkAll(cache, ignored, entries).errors == if n < 100 then n else 100
  {
    if entries != [] { ErrorsExactly(cache, ignored, entries[..|entries| - 1]); }
  }

  // ---------------------------------------------------------------- what is recorded

  predicate DirThere(ignored: Path -> bool, entries: seq<Entry>, p: Path) {
    exists k :: 0 <= k < |entries| && entries[k] == DirEntry(p) && Reached(ignored, entries, k)
  }

  /** A file is recorded with the cached hash if the cache has its time, or else with that of
      its content. */
  predicate Recorded(cache: Table, e: Entry, f: PendingFile) {
    && e.FileEntry? && e.mtime.Some? && f.path == e.path && f.mtime == e.mtime.value && f.size == e.size
    && var cached := e.path in cache && cache[e.path].mtime == e.mtime.value;
      f.hash == (if cached then cache[e.path].hash else e.content) && f.dirty == !cached && f.needCalc == !cached
  }

  predicate FileThere(cache: Table, ignored: Path -> bool, entries: seq<Entry>, f: PendingFile) {
    exists k :: 0 <= k < |entries| && Recorded(cache, entries[k], f) && Reached(ignored, entries, k)
  }

  /** A file that was locked: no time, or no cached hash and no content. */
  predicate Locked(cache: Table, e: Entry) {
    e.FileEntry? && (e.mtime.None? || (e.content == "" && !(e.path in cache && cache[e.path].mtime == e.mtime.value)))
  }

  predicate LockedThere(cache: Table, ignored: Path -> bool, entries: seq<Entry>, p: Path) {
    exists k :: 0 <= k < |entries| && Locked(cache, entries[k]) && entries[k].path == p && Reached(ignored, entries, k)
  }

  lemma OneMoreReached(ignored: Path -> bool, entries: seq<Entry>)
    requires entries != []
    ensures var init := entries[..|entries| - 1];
      && (forall k :: 0 <= k < |init| ==> init[k] == entries[k])
      && (forall k :: 0 <= k < |init| ==> Reached(ignored, init, k) == Reached(ignored, entries, k))
      && (Reached(ignored, entries, |entries| - 1) <==> Failures(ignored, init) < 100)
  {
    var init := entries[..|entries| - 1];
    assert forall k :: 0 <= k < |init| ==> init[..k] == entries[..k];
  }

  lemma OneMoreDir(ignored: Path -> bool, entries: seq<Entry>, p: Path)
    requires entries != []
    ensures DirThere(ignored, entries, p) <==>
      DirThere(ignored, entries[..|entries| - 1], p)
      || (entries[|entries| - 1] == DirEntry(p) && Failures(ignored, entries[..|entries| - 1]) < 100)
  {
    OneMoreReached(ignored, entries);
    hide Reached, Failures;
  }

  lemma OneMoreFile(cache: Table, ignored: Path -> bool, entries: seq<Entry>, f: PendingFile)
    requires entries != []
    ensures FileThere(cache, ignored, entries, f) <==>
      FileThere(cache, ignored, entries[..|entries| - 1], f)
      || (Recorded(cache, entries[|entries| - 1], f) && Failures(ignored, entries[..|entries| - 1]) < 100)
  {
    OneMoreReached(ignored, entries);
    hide Reached, Failures, Recorded;
  }

  lemma OneMoreLocked(cache: Table, ignored: Path -> bool, entries: seq<Entry>, p: Path)
    requires entries != []
    ensures var last := entries[|entries| - 1];
      LockedThere(cache, ignored, entries, p) <==>
      LockedThere(cache, ignored, entries[..|entries| - 1], p)
      || (Locked(cache, last) && last.path == p && Failures(ignored, entries[..|entries| - 1]) < 100)
  {
    OneMoreReached(ignored, entries);
    hide Reached, Failures, Locked;
  }

  lemma {:induction false} DirsExactly(cache: Table, ignored: Path -> bool, entries: seq<Entry>, p: Path)
    ensures p in WalkAll(cache, ignored, entries).dirs <==> Seen(ignored, p) && DirThere(ignored, entries, p)
  {
    if entries != [] {
      DirsExactly(cache, ignored, entries[..|entries| - 1], p);
      ErrorsExactly(cache, ignored, entries[..|entries| - 1]);
      OneMoreDir(ignored, entries, p);
      hide Failures, DirThere;
    }
  }

  lemma {:induction false} FilesExactly(cache: Table, ignored: Path -> bool, entries: seq<Entry>, f: PendingFile)
    ensures f in WalkAll(cache, ignored, entries).pending
       <==> Seen(ignored, f.path) && FileThere(cache, ignored, entries, f)
  {
    if entries != [] {
      FilesExactly(cache, ignored, entries[..|entries| - 1], f);
      ErrorsExactly(cache, ignored, entries[..|entries| - 1]);
      OneMoreFile(cache, ignored, entries, f);
      hide Failures, FileThere;
    }
  }

  lemma {:induction false} RetriesExactly(cache: Table, ignored: Path -> bool, entries: seq<Entry>, p: Path)
    ensures p in WalkAll(cache, ignored, entries).retry
       <==> Seen(ignored, p) && LockedThere(cache, ignored, entries, p)
  {
    if entries != [] {
      RetriesExactly(cache, ignored, entries[..|entries| - 1], p);
      ErrorsExactly(cache, ignored, entries[..|entries| - 1]);
      OneMoreLocked(cache, ignored, entries, p);
      hide Failures, LockedThere;
    }
  }

  /** The whole outcome of a scan: the directories, the files and the locked files that are
      reached and neither the root nor ignored, and nothing else. */
  lemma WalkExactly(cache: Table, ignored: Path -> bool, entries: seq<Entry>)
    ensures var w := WalkAll(cache, ignored, entries);
      && (forall p :: p in w.dirs <==> Seen(ignored, p) && DirThere(ignored, entries, p))
      && (forall f :: f in w.pending <==> Seen(ignored, f.path) && FileThere(cache, ignored, entries, f))
      && (forall p :: p in w.retry <==> Seen(ignored, p) && LockedThere(cache, ignored, entries, p))
  {
    hide WalkAll, Seen, DirThere, FileThere, LockedThere;
    var w := WalkAll(cache, ignored, entries);
    forall p ensures p in w.dirs <==> Seen(ignored, p) && DirThere(ignored, entries, p) {
      DirsExactly(cache, ignored, entries, p);
    }
    forall f ensures f in w.pending <==> Seen(ignored, f.path) && FileThere(cache, ignored, entries, f) {
      FilesExactly(cache, ignored, entries, f);
    }
    forall p ensures p in w.retry <==> Seen(ignored, p) && LockedThere(cache, ignored, entries, p) {
      RetriesExactly(cache, ignored, entries, p);
    }
  }

  // ---------------------------------------------------------------- the file map

  lemma {:induction false} MapExactly(pending: seq<PendingFile>, p: Path, info: FileInfo)
    requires DistinctPending(pending)
    ensures p in MapOf(pending) && MapOf(pending)[p] == info
       <==> exists f :: f in pending && f.path == p && f.hash != "" && info == FileInfo(p, f.hash, f.mtime, f.size)
  {
    if pending != [] {
      var init, last := pending[..|pending| - 1], pending[|pending| - 1];
      assert pending == init + [last];
      MapExactly(init, p, info);
      assert forall f :: f in init ==> f.path != last.path;
      MapKeys(init, last.path);
    }
  }

  /** The file that a scan maps a path to. */
  ghost predicate Mapped(cache: Table, ignored: Path -> bool, entries: seq<Entry>, p: Path, info: FileInfo) {
    && Seen(ignored, p) && info.path == p && info.hash != ""
    && exists f :: FileThere(cache, ignored, entries, f) && FileInfo(f.path, f.hash, f.mtime, f.size) == info
  }

  /** The file map after a scan: an entry for every file that is recorded and has a hash, with
      that hash, its time and its size. */
  lemma ScannedMapExactly(cache: Table, ignored: Path -> bool, entries: seq<Entry>, p: Path, info: FileInfo)
    requires DistinctPaths(entries)
    ensures var m := ScanMap(cache, ignored, entries);
      p in m && m[p] == info <==> Mapped(cache, ignored, entries, p, info)
  {
    hide WalkAll, MapOf, Seen, FileThere;
    var w := WalkAll(cache, ignored, entries);
    PendingDistinct(cache, ignored, entries);
    WalkExactly(cache, ignored, entries);
    MapExactly(w.pending, p, info);
  }

  /** What the state manager knows after a scan: the two maps are those of the tree and nothing
      else, the locked files wait for another look with those that did before, and what was
      received and the history stay. */
  lemma ScanExactly(k: Known, ignored: Path -> bool, entries: seq<Entry>, fates: nat -> Fate, cleanup: Fate)
    requires DistinctPaths(entries)
    ensures var a := AfterScan(k, ignored, Some(entries), fates, cleanup);
      && (forall p, info :: p in a.files && a.files[p] == info <==> Mapped(k.table, ignored, entries, p, info))
      && (forall p :: p in a.dirs <==> Seen(ignored, p) && DirThere(ignored, entries, p))
      && (forall p :: p in a.pending <==>
            p in k.pending || (Seen(ignored, p) && LockedThere(k.table, ignored, entries, p)))
      && a.received == k.received && a.history == k.history
    ensures AfterScan(k, ignored, None, fates, cleanup) == k
  {
    WalkExactly(k.table, ignored, entries);
    hide WalkAll, MapOf, ScanTable, DirThere, LockedThere, FileThere;
    var a := AfterScan(k, ignored, Some(entries), fates, cleanup);
    forall p, info ensures p in a.files && a.files[p] == info <==> Mapped(k.table, ignored, entries, p, info) {
      ScannedMapExactly(k.table, ignored, entries, p, info);
    }
  }
}
