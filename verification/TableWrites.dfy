/** What a scan leaves of the file table when the database may refuse any statement of any of its
    transactions. */
module TableWrites {
  import opened Wrappers
  import opened Store
  import opened Scanning

  const DB_BATCH_WRITE_SIZE := 500

  /** How the database answers a transaction: everything is accepted, or the first statement to
      be refused, the commit coming after the last write. */
  datatype Fate = Accepted | Refused(at: nat)

  function Committed(t: Table, ops: seq<PendingOp>, fate: Fate): Table {
    if fate.Accepted? then Replay(t, ops) else t
  }

  function WindowSize(rows: nat): nat {
    if rows < DB_BATCH_WRITE_SIZE then rows else DB_BATCH_WRITE_SIZE
  }

  /** Windows of at most DB_BATCH_WRITE_SIZE rows, a transaction each; one that is refused does
      not stop the next. */
  function WriteWindows(t: Table, dirty: seq<FileInfo>, w: nat, fates: nat -> Fate): Table
    decreases |dirty|
  {
    if dirty == [] then t
    else
      var n := WindowSize(|dirty|);
      WriteWindows(Committed(t, UpdateOps(dirty[..n]), fates(w)), dirty[n..], w + 1, fates)
  }

  /** The table after the dirty rows are written and the rows of files no longer there removed. */
  function ScanTable(t: Table, pending: seq<PendingFile>, fates: nat -> Fate, cleanup: Fate): Table {
    var written := WriteWindows(t, Dirty(pending), 0, fates);
    if cleanup.Accepted? then map p | p in written && p in MapOf(pending) :: written[p] else written
  }

  function RowOf(f: FileInfo): Row {
    Row(f.hash, f.mtime)
  }

  predicate DistinctInfos(files: seq<FileInfo>) {
    forall i, j :: 0 <= i < j < |files| ==> files[i].path != files[j].path
  }

  // ---------------------------------------------------------------- windows

  lemma {:induction false} ReplayedRow(t: Table, files: seq<FileInfo>, k: nat)
    requires DistinctInfos(files) && k < |files|
    ensures Lookup(Replay(t, UpdateOps(files)), files[k].path) == Some(RowOf(files[k]))
    decreases |files|
  {
    var init, last := files[..|files| - 1], files[|files| - 1];
    assert UpdateOps(files)[..|files| - 1] == UpdateOps(init);
    if k < |init| {
      assert last.path != files[k].path && init[k] == files[k];
      ReplayedRow(t, init, k);
    }
  }

  lemma {:induction false} ReplayedElsewhere(t: Table, files: seq<FileInfo>, p: Path)
    requires !Names(files, p)
    ensures Lookup(Replay(t, UpdateOps(files)), p) == Lookup(t, p)
    decreases |files|
  {
    if files != [] {
      assert UpdateOps(files)[..|files| - 1] == UpdateOps(files[..|files| - 1]);
      ReplayedElsewhere(t, files[..|files| - 1], p);
    } else {
      assert UpdateOps(files) == [];
    }
  }

  lemma {:induction false} WrittenElsewhere(t: Table, dirty: seq<FileInfo>, w: nat, fates: nat -> Fate, p: Path)
    requires !Names(dirty, p)
    ensures Lookup(WriteWindows(t, dirty, w, fates), p) == Lookup(t, p)
    decreases |dirty|
  {
    if dirty != [] {
      var n := WindowSize(|dirty|);
      ReplayedElsewhere(t, dirty[..n], p);
      WrittenElsewhere(Committed(t, UpdateOps(dirty[..n]), fates(w)), dirty[n..], w + 1, fates, p);
    }
  }

  predicate Names(files: seq<FileInfo>, p: Path) {
    exists k :: 0 <= k < |files| && files[k].path == p
  }

  /** Cut in two, distinct files stay distinct, and each is in one part only. */
  lemma DistinctParts(files: seq<FileInfo>, n: nat, k: nat)
    requires DistinctInfos(files) && n <= |files| && k < |files|
    ensures DistinctInfos(files[..n]) && DistinctInfos(files[n..])
    ensures if k < n then files[..n][k] == files[k] && !Names(files[n..], files[k].path)
            else files[n..][k - n] == files[k] && !Names(files[..n], files[k].path)
  {
  }

  /** The window that row k is written in. */
  function WindowOf(k: nat): nat {
    k / 500
  }

  lemma Windows(k: nat)
    ensures k < DB_BATCH_WRITE_SIZE ==> WindowOf(k) == 0
    ensures k >= DB_BATCH_WRITE_SIZE ==> WindowOf(k - DB_BATCH_WRITE_SIZE) + 1 == WindowOf(k)
    ensures WindowOf(k) * DB_BATCH_WRITE_SIZE <= k && WindowOf(k * DB_BATCH_WRITE_SIZE) == k
  {
  }

  /** The table after the first window. */
  function AfterFirst(t: Table, dirty: seq<FileInfo>, w: nat, fates: nat -> Fate): Table {
    Committed(t, UpdateOps(dirty[..WindowSize(|dirty|)]), fates(w))
  }

  lemma FirstThenRest(t: Table, dirty: seq<FileInfo>, w: nat, fates: nat -> Fate)
    requires dirty != []
    ensures WriteWindows(t, dirty, w, fates)
         == WriteWindows(AfterFirst(t, dirty, w, fates), dirty[WindowSize(|dirty|)..], w + 1, fates)
  {
  }

  lemma AfterFirstRow(t: Table, dirty: seq<FileInfo>, w: nat, fates: nat -> Fate, k: nat)
    requires DistinctInfos(dirty) && k < |dirty|
    ensures Lookup(AfterFirst(t, dirty, w, fates), dirty[k].path)
         == if k < WindowSize(|dirty|) && fates(w).Accepted? then Some(RowOf(dirty[k])) else Lookup(t, dirty[k].path)
  {
    var n := WindowSize(|dirty|);
    DistinctParts(dirty, n, k);
    hide DistinctInfos, Names, UpdateOps, Replay, Lookup;
    if k < n {
      ReplayedRow(t, dirty[..n], k);
    } else {
      ReplayedElsewhere(t, dirty[..n], dirty[k].path);
    }
  }

  /** A row is written exactly when its window is accepted. */
  lemma {:induction false} WrittenRow(t: Table, dirty: seq<FileInfo>, w: nat, fates: nat -> Fate, k: nat)
    requires DistinctInfos(dirty) && k < |dirty|
    ensures Lookup(WriteWindows(t, dirty, w, fates), dirty[k].path)
         == if fates(w + WindowOf(k)).Accepted? then Some(RowOf(dirty[k])) else Lookup(t, dirty[k].path)
    decreases |dirty|
  {
    hide DistinctInfos, Names, AfterFirst, WindowOf, Lookup, WriteWindows;
    var n, t0 := WindowSize(|dirty|), AfterFirst(t, dirty, w, fates);
    var rest := dirty[n..];
    DistinctParts(dirty, n, k);
    Windows(k);
    FirstThenRest(t, dirty, w, fates);
    AfterFirstRow(t, dirty, w, fates, k);
    if k < n {
      WrittenElsewhere(t0, rest, w + 1, fates, dirty[k].path);
    } else {
      assert rest[k - n] == dirty[k] && w + 1 + WindowOf(k - n) == w + WindowOf(k);
      WrittenRow(t0, rest, w + 1, fates, k - n);
    }
  }

  // ---------------------------------------------------------------- the dirty rows of a scan

  lemma {:induction false} DirtyFrom(pending: seq<PendingFile>)
    requires DistinctPending(pending)
    ensures DistinctInfos(Dirty(pending))
    ensures forall f :: f in Dirty(pending) ==>
      exists k :: 0 <= k < |pending| && pending[k].dirty && pending[k].hash != "" && f == InfoOf(pending[k])
  {
    if pending != [] {
      var init, last := pending[..|pending| - 1], pending[|pending| - 1];
      DirtyFrom(init);
      forall f | f in Dirty(pending)
        ensures exists k :: 0 <= k < |pending| && pending[k].dirty && pending[k].hash != "" && f == InfoOf(pending[k])
        ensures f in Dirty(init) ==> f.path != last.path
      {
        if f in Dirty(init) {
          var k :| 0 <= k < |init| && init[k].dirty && init[k].hash != "" && f == InfoOf(init[k]);
          assert pending[k] == init[k];
        } else {
          assert f == InfoOf(pending[|pending| - 1]);
        }
      }
    }
  }

  lemma {:induction false} DirtyHas(pending: seq<PendingFile>, k: nat)
    requires k < |pending| && pending[k].dirty && pending[k].hash != ""
    ensures InfoOf(pending[k]) in Dirty(pending)
    decreases |pending|
  {
    if k < |pending| - 1 { DirtyHas(pending[..|pending| - 1], k); }
  }

  /** A dirty row is that of its file in the new map, and the table does not have it yet. */
  lemma DirtyRow(t: Table, pending: seq<PendingFile>, j: nat)
    requires DistinctPending(pending) && CleanFromCache(t, pending) && j < |Dirty(pending)|
    ensures var f := Dirty(pending)[j];
      f.path in MapOf(pending) && MapOf(pending)[f.path] == f && Lookup(t, f.path) != Some(RowOf(f))
  {
    var f := Dirty(pending)[j];
    DirtyFrom(pending);
    assert f in Dirty(pending);
    var k :| 0 <= k < |pending| && pending[k].dirty && pending[k].hash != "" && f == InfoOf(pending[k]);
    PendingInMap(pending, k);
    MapKeys(pending, f.path);
  }

  /** A file of the new map that is not dirty has its row already. */
  lemma CleanRow(t: Table, pending: seq<PendingFile>, p: Path)
    requires DistinctPending(pending) && CleanFromCache(t, pending) && p in MapOf(pending)
    requires forall f :: f in Dirty(pending) ==> f.path != p
    ensures Lookup(t, p) == Some(RowOf(MapOf(pending)[p]))
  {
    MapKeys(pending, p);
    var k :|
      0 <= k < |pending| && pending[k].path == p && pending[k].hash != "" && MapOf(pending)[p] == InfoOf(pending[k]);
    if pending[k].dirty {
      DirtyHas(pending, k);
    }
  }

  // ---------------------------------------------------------------- the table after a scan

  /** What the table holds of any path after a scan, whatever the database refused. */
  lemma ScannedRow(t: Table, pending: seq<PendingFile>, fates: nat -> Fate, cleanup: Fate, p: Path)
    requires DistinctPending(pending) && CleanFromCache(t, pending)
    ensures var m, after := MapOf(pending), ScanTable(t, pending, fates, cleanup);
      && (p !in m ==> Lookup(after, p) == if cleanup.Accepted? then None else Lookup(t, p))
      && (p in m && (forall j :: 0 <= j < |Dirty(pending)| ==> Dirty(pending)[j].path != p) ==>
            Lookup(after, p) == Some(RowOf(m[p])))
  {
    var dirty := Dirty(pending);
    if p !in MapOf(pending) {
      forall j | 0 <= j < |dirty| ensures dirty[j].path != p {
        DirtyRow(t, pending, j);
      }
      WrittenElsewhere(t, dirty, 0, fates, p);
    } else if forall j :: 0 <= j < |dirty| ==> dirty[j].path != p {
      WrittenElsewhere(t, dirty, 0, fates, p);
      CleanRow(t, pending, p);
    }
  }

  /** A dirty row is in the table after a scan exactly when its window was accepted. */
  lemma ScannedDirtyRow(t: Table, pending: seq<PendingFile>, fates: nat -> Fate, cleanup: Fate, j: nat)
    requires DistinctPending(pending) && CleanFromCache(t, pending) && j < |Dirty(pending)|
    ensures var f, after := Dirty(pending)[j], ScanTable(t, pending, fates, cleanup);
      Lookup(after, f.path) == if fates(WindowOf(j)).Accepted? then Some(RowOf(f)) else Lookup(t, f.path)
    ensures Lookup(Projection(MapOf(pending)), Dirty(pending)[j].path) == Some(RowOf(Dirty(pending)[j]))
    ensures Lookup(t, Dirty(pending)[j].path) != Some(RowOf(Dirty(pending)[j]))
  {
    DirtyFrom(pending);
    DirtyRow(t, pending, j);
    WrittenRow(t, Dirty(pending), 0, fates, j);
  }

  predicate AllWindowsAccepted(dirty: seq<FileInfo>, fates: nat -> Fate) {
    forall w :: 0 <= w < |dirty| && w * DB_BATCH_WRITE_SIZE < |dirty| ==> fates(w).Accepted?
  }

  /** Nothing was refused that there was to write or to remove. */
  predicate NothingRefused(t: Table, pending: seq<PendingFile>, fates: nat -> Fate, cleanup: Fate) {
    AllWindowsAccepted(Dirty(pending), fates) && (cleanup.Accepted? || forall p :: p in t ==> p in MapOf(pending))
  }

  /** After a scan the table is the projection of the new file map, whatever it was before, if and
      only if no window was refused, nor the removal of rows where there were any to remove. */
  lemma ScanMakesProjectionExactly(t: Table, ignored: Path -> bool, entries: seq<Entry>, fates: nat -> Fate,
                                   cleanup: Fate)
    requires DistinctPaths(entries)
    ensures var pending := WalkAll(t, ignored, entries).pending;
      ScanTable(t, pending, fates, cleanup) == Projection(MapOf(pending))
      <==> NothingRefused(t, pending, fates, cleanup)
  {
    WalkFacts(t, ignored, entries);
    var pending := WalkAll(t, ignored, entries).pending;
    ProjectionExactly(t, pending, fates, cleanup);
  }

  lemma AcceptedProjects(t: Table, pending: seq<PendingFile>, fates: nat -> Fate, cleanup: Fate)
    requires DistinctPending(pending) && CleanFromCache(t, pending) && AllWindowsAccepted(Dirty(pending), fates)
    requires cleanup.Accepted? || forall p :: p in t ==> p in MapOf(pending)
    ensures ScanTable(t, pending, fates, cleanup) == Projection(MapOf(pending))
  {
    var dirty, after, goal := Dirty(pending), ScanTable(t, pending, fates, cleanup), Projection(MapOf(pending));
    hide ScanTable, DistinctPending, CleanFromCache, Dirty, MapOf, WindowOf;
    forall p ensures Lookup(after, p) == Lookup(goal, p) {
      ScannedRow(t, pending, fates, cleanup, p);
      if j: nat :| j < |dirty| && dirty[j].path == p {
        ScannedDirtyRow(t, pending, fates, cleanup, j);
        Windows(j);
        assert fates(WindowOf(j)).Accepted?;
      }
    }
    SameRows(after, goal);
  }

  lemma ProjectionExactly(t: Table, pending: seq<PendingFile>, fates: nat -> Fate, cleanup: Fate)
    requires DistinctPending(pending) && CleanFromCache(t, pending)
    ensures ScanTable(t, pending, fates, cleanup) == Projection(MapOf(pending))
      <==> NothingRefused(t, pending, fates, cleanup)
  {
    var dirty, after, goal := Dirty(pending), ScanTable(t, pending, fates, cleanup), Projection(MapOf(pending));
    if w: nat :| w * DB_BATCH_WRITE_SIZE < |dirty| && !fates(w).Accepted? {
      Windows(w);
      hide ScanTable, DistinctPending, CleanFromCache, Dirty, MapOf, WindowOf;
      ScannedDirtyRow(t, pending, fates, cleanup, w * DB_BATCH_WRITE_SIZE);
    } else if p :| !cleanup.Accepted? && p in t && p !in MapOf(pending) {
      hide ScanTable, DistinctPending, CleanFromCache, Dirty, MapOf;
      ScannedRow(t, pending, fates, cleanup, p);
      assert p in after && p !in goal;
    } else {
      assert AllWindowsAccepted(dirty, fates);
      hide ScanTable, DistinctPending, CleanFromCache, Dirty, MapOf, AllWindowsAccepted;
      AcceptedProjects(t, pending, fates, cleanup);
    }
  }

  lemma SameRows(a: Table, b: Table)
    requires forall p :: Lookup(a, p) == Lookup(b, p)
    ensures a == b
  {
    forall p ensures p in a <==> p in b
    ensures p in a && p in b ==> a[p] == b[p]
    {
      assert Lookup(a, p) == Lookup(b, p);
    }
  }
}
