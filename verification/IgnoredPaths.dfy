/** What the ignore rules are for: a path they ignore is never in the maps after a scan, however the
    tree and the maps looked before, and so it is neither announced nor listed for deletion. */
module IgnoredPaths {
  import opened Wrappers
  import Store
  import opened Scanning
  import opened TableWrites
  import opened Watching
  import opened Walks
  import opened Scanner
  import opened ScanRuns
  import DirSync
  import SyncPlan
  import FloodSync
  import Reconciliation
  import FileFilter
  import Verdict
  import Receiving
  import KcpProto

  type Path = string

  // ---------------------------------------------------------------- runs

  ghost predicate Clean(k: Known, ignored: Path -> bool) {
    && (forall p :: p in k.files ==> Seen(ignored, p))
    && (forall p :: p in k.dirs ==> Seen(ignored, p))
  }

  /** A step that filters by these rules: a scan with them, or a batch that was looked at with
      them, in any order and against any cache. */
  ghost predicate Filters(step: Step, ignored: Path -> bool) {
    match step
    case Scan(rules, _, _, _) => rules == ignored
    case Changes(found, _) =>
      exists cache: Store.Table, sight: Path -> Sight, changes: seq<Path> ::
        found == ChangesFound(cache, ignored, sight, changes)
    case _ => true
  }

  /** Whatever the maps held before, a scan leaves nothing in them that is ignored. */
  lemma ScanCleans(k: Known, ignored: Path -> bool, entries: seq<Entry>, fates: nat -> Fate, cleanup: Fate)
    ensures Clean(AfterScan(k, ignored, Some(entries), fates, cleanup), ignored)
  {
    hide WalkAll, MapOf;
    var w := WalkAll(k.table, ignored, entries);
    WalkExactly(k.table, ignored, entries);
    forall p | p in MapOf(w.pending) ensures Seen(ignored, p) {
      MapKeys(w.pending, p);
      assert exists f :: f in w.pending && f.path == p;
    }
  }

  lemma {:induction false} UpdatedKeys(m: FileMap, updates: seq<FileInfo>, p: Path)
    ensures p in WithUpdates(m, updates) <==> p in m || exists u :: u in updates && u.path == p
  {
    if updates != [] {
      var init, last := updates[..|updates| - 1], updates[|updates| - 1];
      assert updates == init + [last];
      UpdatedKeys(m, init, p);
    }
  }

  lemma {:induction false} DeletedDirs(m: FileMap, dirs: set<Path>, paths: seq<Path>)
    ensures DeleteAll(m, dirs, paths).dirs <= dirs
  {
    if paths != [] { DeletedDirs(m, dirs, paths[..|paths| - 1]); }
  }

  lemma FoundIsSeen(cache: Store.Table, ignored: Path -> bool, sight: Path -> Sight, changes: seq<Path>)
    ensures var f := ChangesFound(cache, ignored, sight, changes);
      && (forall u :: u in f.updates ==> Seen(ignored, u.path)) && (forall p :: p in f.created ==> Seen(ignored, p))
  {
    LookedAtAll(cache, ignored, sight, changes);
    var b := LookAtAll(cache, ignored, sight, changes);
    forall u | u in ChangesFound(cache, ignored, sight, changes).updates ensures Seen(ignored, u.path) {
      HashedHas(b.found.updates, u);
      assert u in b.found.updates;
    }
  }

  lemma ChangesStayClean(k: Known, ignored: Path -> bool, found: Found, fate: Fate)
    requires Clean(k, ignored)
    requires forall u :: u in found.updates ==> Seen(ignored, u.path)
    requires forall p :: p in found.created ==> Seen(ignored, p)
    ensures Clean(AfterChanges(k, found, fate), ignored)
  {
    hide Seen;
    var m := WithUpdates(k.files, found.updates);
    DeletionKeeps(m, k.dirs + Elements(found.created), found.deleted);
    DeletedDirs(m, k.dirs + Elements(found.created), found.deleted);
    forall p | p in m ensures Seen(ignored, p) {
      UpdatedKeys(k.files, found.updates, p);
    }
  }

  lemma StepStaysClean(k: Known, step: Step, ignored: Path -> bool)
    requires Clean(k, ignored) && Filters(step, ignored)
    ensures Clean(After(k, step), ignored)
  {
    match step
    case Scan(_, root, fates, cleanup) =>
      if root.Some? { ScanCleans(k, ignored, root.value, fates, cleanup); }
    case Changes(found, fate) =>
      var cache: Store.Table, sight: Path -> Sight, changes: seq<Path> :|
        found == ChangesFound(cache, ignored, sight, changes);
      FoundIsSeen(cache, ignored, sight, changes);
      ChangesStayClean(k, ignored, found, fate);
    case _ =>
  }

  /** From a scan on that opened its root, whatever happened before it and under whatever rules,
      nothing that is ignored is in the file map or in the directory map. */
  lemma {:induction false} NothingIgnoredIsMapped(k: Known, steps: seq<Step>, from: nat, ignored: Path -> bool)
    requires 0 < from <= |steps| && steps[from - 1].Scan? && steps[from - 1].root.Some?
    requires forall i :: from - 1 <= i < |steps| ==> Filters(steps[i], ignored)
    ensures Clean(Run(k, steps), ignored)
    decreases |steps|
  {
    var n := |steps| - 1;
    var init, last := steps[..n], steps[n];
    if from == |steps| {
      assert Filters(steps[from - 1], ignored);
      ScanCleans(Run(k, init), ignored, last.root.value, last.fates, last.cleanup);
    } else {
      NothingIgnoredIsMapped(k, init, from, ignored);
      assert Filters(steps[n], ignored);
      StepStaysClean(Run(k, init), last, ignored);
    }
  }

  // ---------------------------------------------------------------- announcing and reconciling

  /** Lists of what a state manager knows: what is announced, and what reconciling starts from. */
  ghost predicate ListsOf(k: Known, files: seq<SyncPlan.FileInfo>, dirs: seq<Path>) {
    && (forall f :: f in files ==> f.path in k.files)
    && (forall d :: d in dirs ==> d in k.dirs)
  }

  /** Reconciling with any peer lists no ignored path for deletion, and what is announced names
      none. */
  lemma IgnoredIsNotListed(k: Known, ignored: Path -> bool, local: seq<SyncPlan.FileInfo>, localDirs: seq<Path>,
                           remote: FloodSync.Snapshot, history: SyncPlan.History, mode: SyncPlan.Mode, p: Path)
    requires Clean(k, ignored) && ListsOf(k, local, localDirs) && (p == "" || ignored(p))
    ensures p !in Reconciliation.FilesDeleted(local, remote.files, history, mode)
    ensures p !in Reconciliation.DirsDeleted(localDirs, remote.dirs)
    ensures p !in localDirs && forall f :: f in local ==> f.path != p
  {
    SyncPlan.DeletesExactly(local, SyncPlan.Keys(remote.files), history, mode, p);
  }

  /** What reconciling does to a file it was not told of: in two-way mode nothing, and in one-way
      mode it goes exactly with a listed directory above it. */
  lemma UnlistedFileStaysExactly(d: DirSync.Dirs, local: seq<SyncPlan.FileInfo>, localDirs: seq<Path>,
                                 order: seq<Path>, remote: FloodSync.Snapshot, history: SyncPlan.History,
                                 mode: SyncPlan.Mode, p: Path)
    requires Reconciliation.Situation(d, local, localDirs, order, remote)
    requires p in d.tree.files && forall f :: f in local ==> f.path != p
    ensures var deletes := Reconciliation.FilesDeleted(local, remote.files, history, mode);
      var below := exists dir ::
        dir in Reconciliation.DirsDeleted(localDirs, remote.dirs) && DirSync.Under(dir, p);
      p in Reconciliation.Cleared(d, deletes, order, mode).tree.files <==> mode.BiDirectional? || !below
  {
    var deletes := Reconciliation.FilesDeleted(local, remote.files, history, mode);
    SyncPlan.DeletesExactly(local, SyncPlan.Keys(remote.files), history, mode, p);
    Reconciliation.FileDeletionsKeep(d, local, localDirs, remote, history, mode);
    forall q | q in deletes ensures q in d.tree.files {
      SyncPlan.DeletesExactly(local, SyncPlan.Keys(remote.files), history, mode, q);
    }
    Reconciliation.FilesRemoved(d.tree, deletes);
    Reconciliation.Listed(order, Reconciliation.DirsDeleted(localDirs, remote.dirs));
    hide Reconciliation.FilesDeleted, Reconciliation.RemoveFiles;
    var d1 := d.(tree := Reconciliation.RemoveFiles(d.tree, deletes));
    if mode.BiDirectional? {
      DirSync.LeafFirstRemovalIsExact(d1, order);
    } else {
      DirSync.RecursiveRemovalIsExact(d1, order);
    }
  }

  // ---------------------------------------------------------------- the engine's own files

  /** A partial download is in neither map after a scan, whatever rules are loaded. */
  lemma PartialDownloadUnseen(k: Known, lines: seq<FileFilter.Line>, entries: seq<Entry>, fates: nat -> Fate,
                              cleanup: Fate, p: seq<KcpProto.byte>)
    ensures var rules := FileFilter.Loaded(lines);
      var after := AfterScan(k, path => FileFilter.Ignored(rules, path), Some(entries), fates, cleanup);
      Verdict.Characters(Receiving.TempOf(p)) !in after.files && Verdict.Characters(Receiving.TempOf(p)) !in after.dirs
  {
    var rules := FileFilter.Loaded(lines);
    Verdict.TempAlwaysIgnored(lines, p);
    hide FileFilter.Loaded, FileFilter.Ignored, AfterScan;
    ScanCleans(k, path => FileFilter.Ignored(rules, path), entries, fates, cleanup);
  }
}
