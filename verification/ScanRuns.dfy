/** What holds over whole runs of scans, batches, removals and notices, with a database that may
    refuse anything: when map and table agree, that no wrong hash is ever stored, and that no
    change is lost. */
module ScanRuns {
  import opened Wrappers
  import opened Store
  import opened Scanning
  import opened TableWrites
  import opened Watching
  import opened Scanner

  datatype Step =
    | Scan(ignored: Path -> bool, root: Option<seq<Entry>>, fates: nat -> Fate, cleanup: Fate)
    | Notice(path: Path)
    | Take
    | Changes(found: Found, fate: Fate)
    | RemovePath(path: Path, removed: bool, forgotten: bool, committed: bool)
    | MarkReceived(path: Path, hash: string)
    | RecordSync(peer: string, path: Path, hash: string, ok: bool)

  function After(k: Known, step: Step): Known {
    match step
    case Scan(ignored, root, fates, cleanup) => AfterScan(k, ignored, root, fates, cleanup)
    case Notice(path) => k.(pending := k.pending + {path})
    case Take => k.(pending := {})
    case Changes(found, fate) => AfterChanges(k, found, fate)
    case RemovePath(path, removed, forgotten, committed) => AfterRemoval(k, path, removed, forgotten, committed)
    case MarkReceived(path, hash) => k.(received := k.received[path := hash])
    case RecordSync(peer, path, hash, ok) => if ok then k.(history := k.history[(peer, path) := hash]) else k
  }

  /** The directory iterator yields no path twice. */
  predicate Allowed(step: Step) {
    step.Scan? && step.root.Some? ==> DistinctPaths(step.root.value)
  }

  function Run(k: Known, steps: seq<Step>): Known {
    if steps == [] then k else After(Run(k, steps[..|steps| - 1]), steps[|steps| - 1])
  }

  // ---------------------------------------------------------------- map and table

  predicate MapIsTable(k: Known) {
    k.table == Projection(k.files)
  }

  /** Nothing the step had to write was refused. */
  predicate Recorded(k: Known, step: Step) {
    match step
    case Scan(ignored, root, fates, cleanup) =>
      root.None? || NothingRefused(k.table, WalkAll(k.table, ignored, root.value).pending, fates, cleanup)
    case Changes(found, fate) => fate.Accepted? || Replay(k.table, BatchOps(k, found)) == k.table
    case RemovePath(path, removed, _, committed) => (removed && committed) || path !in k.table
    case _ => true
  }

  /** A scan that opens its root makes the table the projection of the file map, whatever both
      held before, if and only if nothing it had to write was refused. */
  lemma ScanAgreesExactly(k: Known, step: Step)
    requires step.Scan? && step.root.Some? && Allowed(step)
    ensures MapIsTable(After(k, step)) <==> Recorded(k, step)
  {
    ScanMakesProjectionExactly(k.table, step.ignored, step.root.value, step.fates, step.cleanup);
  }

  lemma BatchProjects(k: Known, found: Found)
    requires MapIsTable(k)
    ensures Projection(AfterDeletions(k, found).files) == Replay(k.table, BatchOps(k, found))
  {
    var m, dirs := WithUpdates(k.files, found.updates), k.dirs + Elements(found.created);
    UpdatesProject(k.files, found.updates);
    DeletesProject(m, dirs, found.deleted);
    ReplayConcat(k.table, UpdateOps(found.updates), RemoveOps(AfterDeletions(k, found).removedFiles));
  }

  /** While map and table agree, a step keeps them so if and only if nothing it had to write was
      refused. */
  lemma StepAgreesExactly(k: Known, step: Step)
    requires Allowed(step) && MapIsTable(k)
    ensures MapIsTable(After(k, step)) <==> Recorded(k, step)
  {
    match step
    case Scan(_, root, _, _) => if root.Some? { ScanAgreesExactly(k, step); }
    case Changes(found, _) => BatchProjects(k, found);
    case RemovePath(path, _, _, _) =>
      assert path in k.table ==> k.table != k.table - {path};
      assert path !in k.table ==> k.table == k.table - {path};
    case _ =>
  }

  /** However long writes were refused: from the last scan that opened its root on, or from a
      beginning where they agree, map and table agree as long as nothing is refused. */
  lemma {:induction false} MapAndTableAgree(k: Known, steps: seq<Step>, from: nat)
    requires from <= |steps| && forall i :: 0 <= i < |steps| ==> Allowed(steps[i])
    requires from == 0 ==> MapIsTable(k)
    requires from > 0 ==>
      var scan := steps[from - 1]; scan.Scan? && scan.root.Some? && Recorded(Run(k, steps[..from - 1]), scan)
    requires forall i :: from <= i < |steps| ==> Recorded(Run(k, steps[..i]), steps[i])
    ensures MapIsTable(Run(k, steps))
    decreases |steps|
  {
    if steps != [] {
      var n := |steps| - 1;
      var init, last := steps[..n], steps[n];
      if from == |steps| {
        ScanAgreesExactly(Run(k, init), last);
      } else {
        forall i | from <= i < n ensures Recorded(Run(k, init[..i]), init[i]) {
          assert init[..i] == steps[..i];
        }
        if from > 0 { assert init[..from - 1] == steps[..from - 1]; }
        MapAndTableAgree(k, init, from);
        StepAgreesExactly(Run(k, init), last);
      }
    }
  }

  // ---------------------------------------------------------------- no wrong hash

  /** What the hash of a path was at a time. */
  type Truth = (Path, int) -> string

  ghost predicate TrueRows(t: Table, truth: Truth) {
    forall p :: p in t ==> t[p].hash == truth(p, t[p].mtime)
  }

  ghost predicate TrueFiles(m: FileMap, truth: Truth) {
    forall p :: p in m ==> m[p].path == p && m[p].hash == truth(p, m[p].mtime)
  }

  ghost predicate TrueInfos(files: seq<FileInfo>, truth: Truth) {
    forall f :: f in files ==> f.hash == truth(f.path, f.mtime)
  }

  /** What is hashed hashes to the truth, or not at all; what is reported is true. */
  ghost predicate Honest(step: Step, truth: Truth) {
    match step
    case Scan(_, root, _, _) => root.Some? ==> HonestEntries(root.value, truth)
    case Changes(found, _) => TrueInfos(found.updates, truth)
    case _ => true
  }

  ghost predicate HonestEntries(entries: seq<Entry>, truth: Truth) {
    forall e :: e in entries && e.FileEntry? && e.mtime.Some? && e.content != "" ==>
      e.content == truth(e.path, e.mtime.value)
  }

  lemma {:induction false} ReplayIsTrue(t: Table, ops: seq<PendingOp>, truth: Truth)
    requires TrueRows(t, truth)
    requires forall op :: op in ops && op.Update? ==> op.row.hash == truth(op.path, op.row.mtime)
    ensures TrueRows(Replay(t, ops), truth)
    decreases |ops|
  {
    if ops != [] {
      assert ops[|ops| - 1] in ops;
      ReplayIsTrue(t, ops[..|ops| - 1], truth);
    }
  }

  lemma UpdatesAreTrue(files: seq<FileInfo>, truth: Truth)
    requires TrueInfos(files, truth)
    ensures forall op :: op in UpdateOps(files) && op.Update? ==> op.row.hash == truth(op.path, op.row.mtime)
  {
    forall op | op in UpdateOps(files) ensures op.Update? && op.row.hash == truth(op.path, op.row.mtime) {
      var k :| 0 <= k < |files| && UpdateOps(files)[k] == op;
      assert files[k] in files;
    }
  }

  lemma {:induction false} WindowsAreTrue(t: Table, dirty: seq<FileInfo>, w: nat, fates: nat -> Fate, truth: Truth)
    requires TrueRows(t, truth) && TrueInfos(dirty, truth)
    ensures TrueRows(WriteWindows(t, dirty, w, fates), truth)
    decreases |dirty|
  {
    if dirty != [] {
      var n := WindowSize(|dirty|);
      UpdatesAreTrue(dirty[..n], truth);
      ReplayIsTrue(t, UpdateOps(dirty[..n]), truth);
      WindowsAreTrue(Committed(t, UpdateOps(dirty[..n]), fates(w)), dirty[n..], w + 1, fates, truth);
    }
  }

  lemma {:induction false} WalkIsTrue(t: Table, ignored: Path -> bool, entries: seq<Entry>, truth: Truth)
    requires TrueRows(t, truth) && HonestEntries(entries, truth)
    ensures forall f :: f in WalkAll(t, ignored, entries).pending && f.hash != "" ==> f.hash == truth(f.path, f.mtime)
  {
    if entries != [] {
      assert entries[|entries| - 1] in entries;
      WalkIsTrue(t, ignored, entries[..|entries| - 1], truth);
    }
  }

  lemma {:induction false} MapIsTrue(pending: seq<PendingFile>, truth: Truth)
    requires forall f :: f in pending && f.hash != "" ==> f.hash == truth(f.path, f.mtime)
    ensures TrueFiles(MapOf(pending), truth) && TrueInfos(Dirty(pending), truth)
  {
    if pending != [] {
      assert pending[|pending| - 1] in pending;
      MapIsTrue(pending[..|pending| - 1], truth);
    }
  }

  lemma {:induction false} UpdatedMapIsTrue(m: FileMap, updates: seq<FileInfo>, truth: Truth)
    requires TrueFiles(m, truth) && TrueInfos(updates, truth)
    ensures TrueFiles(WithUpdates(m, updates), truth)
  {
    if updates != [] {
      assert updates[|updates| - 1] in updates;
      UpdatedMapIsTrue(m, updates[..|updates| - 1], truth);
    }
  }

  lemma {:induction false} DeletionKeeps(m: FileMap, dirs: set<Path>, paths: seq<Path>)
    ensures forall p :: p in DeleteAll(m, dirs, paths).files ==> p in m && DeleteAll(m, dirs, paths).files[p] == m[p]
  {
    if paths != [] { DeletionKeeps(m, dirs, paths[..|paths| - 1]); }
  }

  lemma BatchIsTrue(k: Known, found: Found, fate: Fate, truth: Truth)
    requires TrueRows(k.table, truth) && TrueFiles(k.files, truth) && TrueInfos(found.updates, truth)
    ensures TrueRows(AfterChanges(k, found, fate).table, truth) && TrueFiles(AfterChanges(k, found, fate).files, truth)
  {
    UpdatedMapIsTrue(k.files, found.updates, truth);
    DeletionKeeps(WithUpdates(k.files, found.updates), k.dirs + Elements(found.created), found.deleted);
    UpdatesAreTrue(found.updates, truth);
    ReplayIsTrue(k.table, BatchOps(k, found), truth);
  }

  lemma StepIsTrue(k: Known, step: Step, truth: Truth)
    requires TrueRows(k.table, truth) && TrueFiles(k.files, truth) && Honest(step, truth)
    ensures TrueRows(After(k, step).table, truth) && TrueFiles(After(k, step).files, truth)
  {
    match step
    case Scan(ignored, root, fates, _) =>
      if root.Some? {
        var pending := WalkAll(k.table, ignored, root.value).pending;
        WalkIsTrue(k.table, ignored, root.value, truth);
        MapIsTrue(pending, truth);
        WindowsAreTrue(k.table, Dirty(pending), 0, fates, truth);
      }
    case Changes(found, fate) => BatchIsTrue(k, found, fate, truth);
    case _ =>
  }

  /** Whatever the database refuses, no wrong hash is ever remembered: every row and every entry
      of the map is the hash its path had at its time. */
  lemma {:induction false} RunIsTrue(k: Known, steps: seq<Step>, truth: Truth)
    requires TrueRows(k.table, truth) && TrueFiles(k.files, truth)
    requires forall s :: s in steps ==> Honest(s, truth)
    ensures TrueRows(Run(k, steps).table, truth) && TrueFiles(Run(k, steps).files, truth)
  {
    if steps != [] {
      var init, last := steps[..|steps| - 1], steps[|steps| - 1];
      assert last in steps && forall s :: s in init ==> s in steps;
      RunIsTrue(k, init, truth);
      StepIsTrue(Run(k, init), last, truth);
    }
  }

  /** So a scan after any run, with whatever was refused in it, yields the map of a scan that
      hashes every file, and the table too once nothing is refused. */
  lemma ScanAfterAnyRun(k: Known, steps: seq<Step>, truth: Truth, scan: Step)
    requires TrueRows(k.table, truth) && TrueFiles(k.files, truth)
    requires forall s :: s in steps ==> Honest(s, truth)
    requires scan.Scan? && scan.root.Some? && Allowed(scan)
    requires forall e :: e in scan.root.value && e.FileEntry? && e.mtime.Some? ==>
        e.content == truth(e.path, e.mtime.value)
    ensures var after := After(Run(k, steps), scan);
      && after.files == ScanMap(map[], scan.ignored, scan.root.value)
      && (MapIsTable(after) <==> Recorded(Run(k, steps), scan))
  {
    RunIsTrue(k, steps, truth);
    var t, entries := Run(k, steps).table, scan.root.value;
    forall i | 0 <= i < |entries| && Scanned(scan.ignored, entries, i)
      && Hit(t, entries[i].path, entries[i].mtime.value)
      ensures t[entries[i].path].hash == entries[i].content
    {
      assert entries[i] in entries;
    }
    IncrementalScanExactly(t, scan.ignored, entries);
    ScanAgreesExactly(Run(k, steps), scan);
  }

  /** What looking at changes reports is true. */
  lemma FoundIsHonest(cache: Table, ignored: Path -> bool, sight: Path -> Sight, changes: seq<Path>, truth: Truth)
    requires TrueRows(cache, truth) && forall p :: p in cache ==> cache[p].hash != ""
    requires forall p :: p in changes && sight(p).File? && sight(p).mtime.Some? && sight(p).content != "" ==>
      sight(p).content == truth(p, sight(p).mtime.value)
    ensures TrueInfos(ChangesFound(cache, ignored, sight, changes).updates, truth)
  {
    WhereChangesGo(cache, ignored, sight, changes);
  }

  // ---------------------------------------------------------------- no change is lost

  lemma {:induction false} UpdatedEntry(m: FileMap, updates: seq<FileInfo>, f: FileInfo)
    requires f in updates && forall u :: u in updates && u.path == f.path ==> u == f
    ensures f.path in WithUpdates(m, updates) && WithUpdates(m, updates)[f.path] == f
  {
    var init, last := updates[..|updates| - 1], updates[|updates| - 1];
    assert updates == init + [last];
    if last != f {
      assert last in updates;
      UpdatedEntry(m, init, f);
    }
  }

  lemma {:induction false} NotUpdated(m: FileMap, updates: seq<FileInfo>, p: Path)
    requires forall u :: u in updates ==> u.path != p
    ensures EntryAt(WithUpdates(m, updates), p) == EntryAt(m, p)
  {
    if updates != [] {
      assert updates[|updates| - 1] in updates;
      NotUpdated(m, updates[..|updates| - 1], p);
    }
  }

  function EntryAt(m: FileMap, p: Path): Option<FileInfo> {
    if p in m then Some(m[p]) else None
  }

  /** Deleting a path takes the file, or else the directory; the other paths stay. */
  lemma {:induction false} DeletedOne(m: FileMap, dirs: set<Path>, paths: seq<Path>, p: Path)
    requires Distinct(paths)
    ensures var d := DeleteAll(m, dirs, paths);
      && EntryAt(d.files, p) == (if p in paths then None else EntryAt(m, p))
      && (p in d.dirs <==> p in dirs && (p in paths ==> p in m))
  {
    if paths != [] {
      var init, last := paths[..|paths| - 1], paths[|paths| - 1];
      assert paths == init + [last] && last !in init;
      DeletedOne(m, dirs, init, p);
      DeletedOne(m, dirs, init, last);
    }
  }

  lemma {:induction false} DeletionsDistinct(cache: Table, ignored: Path -> bool, sight: Path -> Sight,
                                             changes: seq<Path>)
    requires Distinct(changes)
    ensures Distinct(LookAtAll(cache, ignored, sight, changes).found.deleted)
  {
    if changes != [] {
      var init, last := changes[..|changes| - 1], changes[|changes| - 1];
      assert last !in init;
      DeletionsDistinct(cache, ignored, sight, init);
      LookedAtAll(cache, ignored, sight, init);
      OneMoreChange(LookAtAll(cache, ignored, sight, init).found.deleted, last);
    }
  }

  /** No change is lost: a path that was looked at is afterwards in the maps as it was seen, or it
      is kept for another look; and no other path's entry changes. */
  lemma ChangesAreHonoured(k: Known, cache: Table, ignored: Path -> bool, sight: Path -> Sight, changes: seq<Path>,
                           fate: Fate, p: Path)
    requires Distinct(changes) && forall q :: q in cache ==> cache[q].hash != ""
    ensures var a := AfterChanges(k, ChangesFound(cache, ignored, sight, changes), fate);
      && (p !in changes ==> EntryAt(a.files, p) == EntryAt(k.files, p) && (p in a.dirs <==> p in k.dirs))
      && (p in changes && Fails(cache, ignored, p, sight(p)) ==> p in a.pending)
      && (p in changes && p != "" && !ignored(p) && !Fails(cache, ignored, p, sight(p)) ==>
            match sight(p)
            case Gone => p !in a.files && (p !in k.files ==> p !in a.dirs)
            case Folder => p in a.dirs && EntryAt(a.files, p) == EntryAt(k.files, p)
            case File(mtime, size, content) =>
              EntryAt(a.files, p) == Some(InfoAt(cache, p, mtime.value, size, content))
            case _ => EntryAt(a.files, p) == EntryAt(k.files, p))
  {
    var f := ChangesFound(cache, ignored, sight, changes);
    WhereChangesGo(cache, ignored, sight, changes);
    DeletionsDistinct(cache, ignored, sight, changes);
    DeletedOne(WithUpdates(k.files, f.updates), k.dirs + Elements(f.created), f.deleted, p);
    var entry := EntryFor(cache, ignored, p, sight(p));
    if p in changes && entry.Some? && entry.value.hash != "" {
      UpdatedEntry(k.files, f.updates, entry.value);
    } else {
      NotUpdated(k.files, f.updates, p);
    }
  }

  // ---------------------------------------------------------------- echoes

  lemma OneRecordLess(received: map<Path, string>, p: Path)
    ensures p in received ==> |received - {p}| == |received| - 1
  {
    if p in received { assert received.Keys == (received - {p}).Keys + {p}; }
  }

  /** Every withheld announcement uses up exactly one record of a received file. */
  lemma {:induction false} EchoUsesUpItsRecord(received: map<Path, string>, updates: seq<FileInfo>)
    ensures var a := Announce(received, updates);
      && |updates| - |a.updates| == |received| - |a.received|
      && (forall p :: p in a.received ==> p in received && a.received[p] == received[p])
      && (forall f :: f in a.updates ==> f in updates)
      && (forall f :: f in updates && !(f.path in received && received[f.path] == f.hash) ==> f in a.updates)
  {
    if updates != [] {
      var init, f := updates[..|updates| - 1], updates[|updates| - 1];
      EchoUsesUpItsRecord(received, init);
      assert updates == init + [f];
      var a := Announce(received, init);
      OneRecordLess(a.received, f.path);
    }
  }

  predicate Echo(received: map<Path, string>, f: FileInfo) {
    f.path in received && received[f.path] == f.hash
  }

  predicate DistinctUpdates(updates: seq<FileInfo>) {
    forall i, j :: 0 <= i < j < |updates| ==> updates[i].path != updates[j].path
  }

  /** The records that go are those of the echoes. */
  lemma {:induction false} AnnouncedRecord(received: map<Path, string>, updates: seq<FileInfo>, p: Path)
    ensures var a := Announce(received, updates).received;
      && (p in a ==> p in received && a[p] == received[p])
      && (p in received && p !in a <==> exists f :: f in updates && f.path == p && Echo(received, f))
  {
    if updates != [] {
      var init, last := updates[..|updates| - 1], updates[|updates| - 1];
      assert updates == init + [last];
      AnnouncedRecord(received, init, p);
    }
  }

  /** Of updates of different files exactly those are withheld whose hash was just received, and
      exactly their records are used up. */
  lemma {:induction false} EchoesExactly(received: map<Path, string>, updates: seq<FileInfo>, f: FileInfo)
    requires DistinctUpdates(updates) && f in updates
    ensures var a := Announce(received, updates);
      && (f in a.updates <==> !Echo(received, f))
      && (f.path in received && f.path !in a.received <==> Echo(received, f))
  {
    var init, last := updates[..|updates| - 1], updates[|updates| - 1];
    assert updates == init + [last];
    assert forall g :: g in init ==> g.path != last.path;
    AnnouncedRecord(received, init, last.path);
    AnnouncedRecord(received, updates, f.path);
    if f != last {
      EchoesExactly(received, init, f);
    } else {
      AnnouncedOnce(received, init, f);
    }
  }

  lemma {:induction false} AnnouncedOnce(received: map<Path, string>, updates: seq<FileInfo>, f: FileInfo)
    requires f !in updates
    ensures f !in Announce(received, updates).updates
  {
    if updates != [] {
      assert updates[|updates| - 1] in updates;
      AnnouncedOnce(received, updates[..|updates| - 1], f);
    }
  }

  // ---------------------------------------------------------------- the history

  /** What was last recorded as synchronised with a peer, unless the path has been removed since. */
  function LastSync(k: Known, steps: seq<Step>, peer: string, path: Path): Option<string> {
    if steps == [] then if (peer, path) in k.history then Some(k.history[(peer, path)]) else None
    else
      var before := LastSync(k, steps[..|steps| - 1], peer, path);
      match steps[|steps| - 1]
      case RecordSync(q, p, hash, ok) => if q == peer && p == path && ok then Some(hash) else before
      case RemovePath(p, _, forgotten, committed) => if p == path && forgotten && committed then None else before
      case _ => before
  }

  /** In every run the history has, for each peer and path, what was last recorded for them;
      removing a path takes its history with every peer, and nothing else touches it. */
  lemma {:induction false} HistoryExactly(k: Known, steps: seq<Step>, peer: string, path: Path)
    ensures var h := Run(k, steps).history;
      (if (peer, path) in h then Some(h[(peer, path)]) else None) == LastSync(k, steps, peer, path)
    decreases |steps|
  {
    if steps != [] {
      HistoryExactly(k, steps[..|steps| - 1], peer, path);
      hide AfterChanges, ScanTable, WalkAll;
    }
  }

  // ---------------------------------------------------------------- received files

  /** The hash last received for a path, unless a change with this very hash was seen since. */
  function LastReceived(k: Known, steps: seq<Step>, path: Path): Option<string> {
    if steps == [] then if path in k.received then Some(k.received[path]) else None
    else
      var before := LastReceived(k, steps[..|steps| - 1], path);
      match steps[|steps| - 1]
      case MarkReceived(p, hash) => if p == path then Some(hash) else before
      case Changes(found, _) =>
        if before.Some? && exists f :: f in found.updates && f.path == path && f.hash == before.value then None
        else before
      case _ => before
  }

  /** In every run there is a record of a received file exactly from its receipt until its echo. */
  lemma {:induction false} ReceivedExactly(k: Known, steps: seq<Step>, path: Path)
    ensures var r := Run(k, steps).received;
      (if path in r then Some(r[path]) else None) == LastReceived(k, steps, path)
    decreases |steps|
  {
    if steps != [] {
      var init, step := steps[..|steps| - 1], steps[|steps| - 1];
      ReceivedExactly(k, init, path);
      if step.Changes? { AnnouncedRecord(Run(k, init).received, step.found.updates, path); }
      hide ScanTable, WalkAll, Announce, AfterDeletions, BatchOps;
    }
  }
}
