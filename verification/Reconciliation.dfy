/** What reconciling with a peer's announced state does to the local tree: the plan's deletions
    and the directory plan, carried out one after the other. */
module Reconciliation {
  import opened Wrappers
  import opened PathUtils
  import opened SyncPlan
  import opened FloodSync
  import DirSync
  import Scanning
  import Scanner
  import Store

  type Path = string
  type FileInfo = SyncPlan.FileInfo

  // ---------------------------------------------------------------- carrying it out

  function FilesDeleted(local: seq<FileInfo>, remote: seq<FileInfo>, history: History, mode: Mode): seq<Path> {
    Compare(local, remote, Some(history), mode).deletes
  }

  function DirsDeleted(localDirs: seq<Path>, remoteDirs: seq<Path>): seq<Path> {
    Missing(localDirs, DirKeys(remoteDirs))
  }

  function RemoveFiles(t: DirSync.Tree, paths: seq<Path>): DirSync.Tree {
    if paths == [] then t else DirSync.RemoveOne(RemoveFiles(t, paths[..|paths| - 1]), paths[|paths| - 1])
  }

  /** The files of the plan, then the directories in their order. */
  function Cleared(d: DirSync.Dirs, files: seq<Path>, order: seq<Path>, mode: Mode): DirSync.Dirs {
    DirSync.RemoveAll(d.(tree := RemoveFiles(d.tree, files)), order, mode)
  }

  /** How the database answers the removal of a path: the row's, the history's, the commit. */
  datatype Answers = Answers(removed: bool, forgotten: bool, committed: bool)

  predicate Removable(t: DirSync.Tree, p: Path) {
    p in DirSync.Nodes(t) && !DirSync.Below(t, p)
  }

  /** The state manager follows: a path leaves the file map when its file has been removed. */
  function Unmapped(t: DirSync.Tree, k: Scanner.Known, paths: seq<Path>, db: Path -> Answers): Scanner.Known {
    if paths == [] then k
    else
      var init, p := paths[..|paths| - 1], paths[|paths| - 1];
      var k0 := Unmapped(t, k, init, db);
      if Removable(RemoveFiles(t, init), p)
      then Scanner.AfterRemoval(k0, p, db(p).removed, db(p).forgotten, db(p).committed) else k0
  }

  /** The object that reconciles: the disk, the known directories, and the file map. */
  class Reconciler {
    const dirs: DirSync.DirectorySync
    const manager: Scanner.StateManager

    constructor (dirs: DirSync.DirectorySync, manager: Scanner.StateManager)
      ensures this.dirs == dirs && this.manager == manager
    {
      this.dirs, this.manager := dirs, manager;
    }

    method DeleteFiles(thread: Store.Thread, paths: seq<Path>, db: Path -> Answers)
      requires manager.Quiet()
      modifies dirs.fs, manager, manager.store, manager.store.db
      ensures dirs.fs.View() == RemoveFiles(old(dirs.fs.View()), paths)
      ensures manager.Quiet() && manager.View() == Unmapped(old(dirs.fs.View()), old(manager.View()), paths, db)
    {
      for i := 0 to |paths|
        invariant dirs.fs.View() == RemoveFiles(old(dirs.fs.View()), paths[..i])
        invariant manager.Quiet()
        invariant manager.View() == Unmapped(old(dirs.fs.View()), old(manager.View()), paths[..i], db)
      {
        assert paths[..i + 1][..i] == paths[..i];
        var p := paths[i];
        var removed := dirs.fs.Remove(p);
        if removed {
          manager.RemovePathFromMap(thread, p, db(p).removed, db(p).forgotten, db(p).committed);
        }
      }
      assert paths[..|paths|] == paths;
    }

    /** The local lists are those of the scan that reconciling begins with. */
    method Reconcile(thread: Store.Thread, local: seq<FileInfo>, localDirs: seq<Path>, remote: seq<FileInfo>,
                     remoteDirs: seq<Path>, history: History, mode: Mode, db: Path -> Answers)
      returns (ghost order: seq<Path>)
      requires manager.Quiet()
      modifies dirs, dirs.fs, manager, manager.store, manager.store.db
      ensures OrderOf(order, DirsDeleted(localDirs, remoteDirs))
      ensures dirs.View() == DirSync.CreateAll(
          Cleared(old(dirs.View()), FilesDeleted(local, remote, history, mode), order, mode),
          Missing(remoteDirs, DirKeys(localDirs)))
      ensures manager.Quiet() && manager.View()
          == Unmapped(old(dirs.fs.View()), old(manager.View()), FilesDeleted(local, remote, history, mode), db)
    {
      var plan := CompareStatesAndGetRequests(local, remote, Some(history), mode);
      var toCreate, toDelete := CompareDirStates(localDirs, remoteDirs);
      DeleteFiles(thread, plan.deletes, db);
      order := dirs.SyncDirectoryActions(toCreate, toDelete, mode);
    }
  }

  ghost predicate OrderOf(order: seq<Path>, dirs: seq<Path>) {
    DirSync.LongestFirst(order) && multiset(order) == multiset(dirs)
  }

  // ---------------------------------------------------------------- what must survive

  predicate Plain(p: Path) {
    p != "" && Trim(Slashes(p)) == Slashes(p)
  }

  /** A local tree of ordinary paths, and lists of what a scan of it finds. */
  predicate AsScanned(d: DirSync.Dirs, local: seq<FileInfo>, localDirs: seq<Path>) {
    && DirSync.TreeOk(d.tree) && (forall p :: p in DirSync.Nodes(d.tree) ==> Plain(p))
    && (forall f :: f in local ==> f.path in d.tree.files)
    && (forall p :: p in localDirs ==> p in d.tree.dirs)
  }

  /** Every local file and directory that the snapshot has, by key, is still there. */
  predicate Keeps(snap: Snapshot, before: DirSync.Tree, after: DirSync.Tree) {
    && (forall p :: p in before.files && Key(p) in Keys(snap.files) ==> p in after.files)
    && (forall p :: p in before.dirs && Key(p) in DirKeys(snap.dirs) ==> p in after.dirs)
  }

  /** The snapshot has, by key, every directory above what it has. */
  predicate KeyRooted(snap: Snapshot) {
    forall k :: k in Keys(snap.files) + DirKeys(snap.dirs) ==>
      forall a :: a in DirSync.Ancestors(k) ==> Key(a) in DirKeys(snap.dirs)
  }

  ghost predicate Situation(d: DirSync.Dirs, local: seq<FileInfo>, localDirs: seq<Path>, order: seq<Path>,
                            snap: Snapshot) {
    AsScanned(d, local, localDirs) && OrderOf(order, DirsDeleted(localDirs, snap.dirs))
  }

  lemma {:induction false} FilesRemoved(t: DirSync.Tree, paths: seq<Path>)
    requires DirSync.TreeOk(t) && forall p :: p in paths ==> p in t.files
    ensures RemoveFiles(t, paths) == DirSync.Tree(t.dirs, t.files - set p | p in paths)
  {
    if paths != [] {
      var init, p := paths[..|paths| - 1], paths[|paths| - 1];
      FilesRemoved(t, init);
      assert paths == init + [p];
      assert !DirSync.Below(t, p);
      assert !DirSync.Below(RemoveFiles(t, init), p);
      assert p !in t.dirs;
    }
  }

  /** Of the deleted files exactly those keep their row whose removal or commit the database refused,
      and so for their history. */
  ghost predicate RecordsFollow(k: Scanner.Known, now: Scanner.Known, paths: seq<Path>, db: Path -> Answers) {
    && (forall p :: p in now.table <==> p in k.table && !(p in paths && db(p).removed && db(p).committed))
    && (forall p :: p in now.table ==> now.table[p] == k.table[p])
    && (forall h :: h in now.history <==> h in k.history && !(h.1 in paths && db(h.1).forgotten && db(h.1).committed))
    && (forall h :: h in now.history ==> now.history[h] == k.history[h])
  }

  /** A file map that has just been scanned is after the deletions of a plan still that of the files
      there are, whatever the database answers; what it does not refuse is gone from its tables too. */
  lemma MapFollowsTree(d: DirSync.Dirs, local: seq<FileInfo>, localDirs: seq<Path>, remote: seq<FileInfo>,
                       history: History, mode: Mode, k: Scanner.Known, db: Path -> Answers)
    requires AsScanned(d, local, localDirs) && k.files.Keys == d.tree.files
    ensures var deletes := FilesDeleted(local, remote, history, mode);
      var now := Unmapped(d.tree, k, deletes, db);
      now.files.Keys == RemoveFiles(d.tree, deletes).files && RecordsFollow(k, now, deletes, db)
  {
    var deletes := FilesDeleted(local, remote, history, mode);
    forall p | p in deletes ensures p in d.tree.files {
      DeletesExactly(local, Keys(remote), history, mode, p);
    }
    UnmappedFollow(d.tree, k, deletes, db);
  }

  lemma RecordsFollowOne(k: Scanner.Known, now: Scanner.Known, paths: seq<Path>, p: Path, db: Path -> Answers)
    requires RecordsFollow(k, now, paths, db)
    ensures p in paths ==> RecordsFollow(k, now, paths + [p], db)
    ensures var after := Scanner.AfterRemoval(now, p, db(p).removed, db(p).forgotten, db(p).committed);
      RecordsFollow(k, after, paths + [p], db) && after.files == now.files - {p}
  {
  }

  lemma RemovableOnce(t: DirSync.Tree, paths: seq<Path>, p: Path)
    requires DirSync.TreeOk(t) && p in t.files && forall q :: q in paths ==> q in t.files
    ensures Removable(RemoveFiles(t, paths), p) <==> p !in paths
    ensures RemoveFiles(t, paths + [p]).files == RemoveFiles(t, paths).files - {p}
  {
    FilesRemoved(t, paths);
    FilesRemoved(t, paths + [p]);
    assert !DirSync.Below(t, p) && !DirSync.Below(RemoveFiles(t, paths), p);
    hide DirSync.Below, DirSync.TreeOk, RemoveFiles;
  }

  lemma {:induction false} UnmappedFollow(t: DirSync.Tree, k: Scanner.Known, paths: seq<Path>, db: Path -> Answers)
    requires DirSync.TreeOk(t) && k.files.Keys == t.files && forall p :: p in paths ==> p in t.files
    ensures var now := Unmapped(t, k, paths, db);
      now.files.Keys == RemoveFiles(t, paths).files && RecordsFollow(k, now, paths, db)
  {
    if paths != [] {
      var init, p := paths[..|paths| - 1], paths[|paths| - 1];
      assert paths == init + [p];
      UnmappedFollow(t, k, init, db);
      RemovableOnce(t, init, p);
      RecordsFollowOne(k, Unmapped(t, k, init, db), init, p, db);
      FilesRemoved(t, init);
      hide DirSync.TreeOk, RemoveFiles, Removable, RecordsFollow, Scanner.AfterRemoval;
    }
  }

  /** The file deletions take no file and no directory of the snapshot. */
  lemma FileDeletionsKeep(d: DirSync.Dirs, local: seq<FileInfo>, localDirs: seq<Path>, snap: Snapshot,
                          history: History, mode: Mode)
    requires AsScanned(d, local, localDirs)
    ensures var t := RemoveFiles(d.tree, FilesDeleted(local, snap.files, history, mode));
      t.dirs == d.tree.dirs && t.files <= d.tree.files && Keeps(snap, d.tree, t)
  {
    var deletes := FilesDeleted(local, snap.files, history, mode);
    forall p | p in deletes ensures p in d.tree.files && Key(p) !in Keys(snap.files) {
      DeletesExactly(local, Keys(snap.files), history, mode, p);
    }
    FilesRemoved(d.tree, deletes);
  }

  /** A path goes with the directories of the plan: in one-way mode with any above it, in two-way
      mode itself, if everything below it is listed or was a deleted file. */
  predicate Goes(d: DirSync.Dirs, files: seq<Path>, dirs: seq<Path>, mode: Mode, p: Path) {
    match mode
    case OneWay => DirSync.Covered(dirs, p)
    case BiDirectional =>
      p in dirs && forall q :: q in DirSync.Nodes(d.tree) && DirSync.Under(p, q) ==> q in dirs || q in files
  }

  /** What reconciling leaves of a scanned tree, in whatever longest-first order the directories are
      taken: everything but the listed files and what goes with the listed directories. */
  lemma ClearedExactly(d: DirSync.Dirs, local: seq<FileInfo>, localDirs: seq<Path>, order: seq<Path>, snap: Snapshot,
                       history: History, mode: Mode)
    requires Situation(d, local, localDirs, order, snap)
    ensures var files, dirs := FilesDeleted(local, snap.files, history, mode), DirsDeleted(localDirs, snap.dirs);
      var after := Cleared(d, files, order, mode).tree;
      && (forall p :: p in after.files <==> p in d.tree.files && p !in files && !Goes(d, files, dirs, mode, p))
      && (forall p :: p in after.dirs <==> p in d.tree.dirs && !Goes(d, files, dirs, mode, p))
  {
    var files, dirs := FilesDeleted(local, snap.files, history, mode), DirsDeleted(localDirs, snap.dirs);
    forall p | p in files ensures p in d.tree.files {
      DeletesExactly(local, Keys(snap.files), history, mode, p);
    }
    FilesRemoved(d.tree, files);
    Listed(order, dirs);
    hide FilesDeleted, RemoveFiles, DirsDeleted;
    var d1 := d.(tree := RemoveFiles(d.tree, files));
    if mode.BiDirectional? {
      DirSync.LeafFirstRemovalIsExact(d1, order);
    } else {
      DirSync.RecursiveRemovalIsExact(d1, order);
    }
  }

  /** One-way mode does its work: of a tree that was listed completely only what the snapshot has,
      by key, is left. */
  lemma OneWayLeavesOnlyTheirs(d: DirSync.Dirs, local: seq<FileInfo>, localDirs: seq<Path>, order: seq<Path>,
                               snap: Snapshot, history: History)
    requires Situation(d, local, localDirs, order, snap)
    requires forall p :: p in d.tree.files ==> exists f :: f in local && f.path == p
    requires forall p :: p in d.tree.dirs ==> p in localDirs
    ensures var after := Cleared(d, FilesDeleted(local, snap.files, history, OneWay), order, OneWay).tree;
      && (forall p :: p in after.files ==> Key(p) in Keys(snap.files))
      && (forall p :: p in after.dirs ==> Key(p) in DirKeys(snap.dirs))
  {
    ClearedExactly(d, local, localDirs, order, snap, history, OneWay);
    var files, dirs := FilesDeleted(local, snap.files, history, OneWay), DirsDeleted(localDirs, snap.dirs);
    var after := Cleared(d, files, order, OneWay).tree;
    forall p | p in after.files ensures Key(p) in Keys(snap.files) {
      DeletesExactly(local, Keys(snap.files), history, OneWay, p);
    }
    forall p | p in after.dirs ensures Key(p) in DirKeys(snap.dirs) {
      assert p in dirs ==> DirSync.Covered(dirs, p);
    }
  }

  lemma Listed(order: seq<Path>, dirs: seq<Path>)
    requires OrderOf(order, dirs)
    ensures forall p :: p in order <==> p in dirs
  {
    forall p ensures p in order <==> p in dirs {
      assert p in order <==> p in multiset(order);
    }
  }

  /** In two-way mode nothing of the snapshot is lost, whatever the snapshot. */
  lemma TwoWayKeeps(d: DirSync.Dirs, local: seq<FileInfo>, localDirs: seq<Path>, order: seq<Path>, snap: Snapshot,
                    history: History)
    requires Situation(d, local, localDirs, order, snap)
    ensures Keeps(snap, d.tree,
        Cleared(d, FilesDeleted(local, snap.files, history, BiDirectional), order, BiDirectional).tree)
  {
    FileDeletionsKeep(d, local, localDirs, snap, history, BiDirectional);
    Listed(order, DirsDeleted(localDirs, snap.dirs));
    hide FilesDeleted, RemoveFiles, Key, Keys, DirKeys;
    var d1 := d.(tree := RemoveFiles(d.tree, FilesDeleted(local, snap.files, history, BiDirectional)));
    DirSync.LeafFirstRemovalIsExact(d1, order);
  }

  // ---------------------------------------------------------------- one-way mode

  lemma KeyOfKey(p: Path)
    ensures Key(Key(p)) == Key(p)
  {
    NormalIsFinal(p);
    var n := Normal(p);
    assert Slashes(n) == n by { assert forall i :: 0 <= i < |n| ==> n[i] in n && n[i] != '\\'; }
    assert Slashes(Lower(n)) == Lower(n);
    TrimLower(n);
    assert Lower(Lower(n)) == Lower(n);
  }

  /** The key of a directory is above the key of what is under it. */
  lemma AncestorKey(dir: Path, p: Path)
    requires DirSync.Under(dir, p) && dir != "" && Plain(p)
    ensures Key(dir) in DirSync.Ancestors(Key(p))
  {
    var s := Slashes(p);
    assert Slashes(dir) == s[..|dir|];
    TrimShape(Slashes(dir));
    TrimNotEmpty(Slashes(dir));
    var t := |Trim(Slashes(dir))|;
    assert s[t] == '/';
    assert Key(dir) == Key(p)[..t] && Key(p)[t] == '/';
  }

  lemma {:induction false} TrimNotEmpty(s: string)
    requires s != ""
    ensures Trim(s) != ""
  {
    if |s| > 1 && s[|s| - 1] == '/' { TrimNotEmpty(s[..|s| - 1]); }
  }

  lemma OneWayKeeps(d: DirSync.Dirs, local: seq<FileInfo>, localDirs: seq<Path>, order: seq<Path>, snap: Snapshot,
                    history: History)
    requires Situation(d, local, localDirs, order, snap) && KeyRooted(snap)
    ensures Keeps(snap, d.tree, Cleared(d, FilesDeleted(local, snap.files, history, OneWay), order, OneWay).tree)
  {
    FileDeletionsKeep(d, local, localDirs, snap, history, OneWay);
    var d1 := d.(tree := RemoveFiles(d.tree, FilesDeleted(local, snap.files, history, OneWay)));
    DirSync.RecursiveRemovalIsExact(d1, order);
    Listed(order, DirsDeleted(localDirs, snap.dirs));
    forall p | p in DirSync.Nodes(d.tree) && DirSync.Covered(order, p)
      ensures p in d.tree.files ==> Key(p) !in Keys(snap.files)
      ensures p in d.tree.dirs ==> Key(p) !in DirKeys(snap.dirs)
    {
      CoveredIsForeign(d, local, localDirs, order, snap, p);
    }
  }

  /** What is removed with a listed directory is not the snapshot's, if that is rooted. */
  lemma CoveredIsForeign(d: DirSync.Dirs, local: seq<FileInfo>, localDirs: seq<Path>, order: seq<Path>,
                         snap: Snapshot, p: Path)
    requires Situation(d, local, localDirs, order, snap) && KeyRooted(snap)
    requires p in DirSync.Nodes(d.tree) && DirSync.Covered(order, p)
    ensures p in d.tree.files ==> Key(p) !in Keys(snap.files)
    ensures p in d.tree.dirs ==> Key(p) !in DirKeys(snap.dirs)
  {
    Listed(order, DirsDeleted(localDirs, snap.dirs));
    var dir :| dir in order && (p == dir || DirSync.Under(dir, p));
    if p != dir {
      AncestorKey(dir, p);
      KeyOfKey(dir);
    }
  }

  function AncestorDirs(k: Path): set<Path> {
    set a | a in DirSync.Ancestors(k) && Plain(a)
  }

  /** Where a directory above something of the snapshot is missing from it, there is a local
      tree in which removing that directory takes the thing with it. */
  lemma UnrootedLoses(snap: Snapshot, history: History, k: Path, a: Path)
    returns (d: DirSync.Dirs, localDirs: seq<Path>, order: seq<Path>)
    requires k in Keys(snap.files) || k in DirKeys(snap.dirs)
    requires a in DirSync.Ancestors(k) && Key(a) !in DirKeys(snap.dirs)
    ensures Situation(d, [], localDirs, order, snap)
    ensures !Keeps(snap, d.tree, Cleared(d, FilesDeleted([], snap.files, history, OneWay), order, OneWay).tree)
  {
    KeyIsPlain(snap, k);
    var dir := Key(a);
    AncestorIsNormal(k, a);
    var above := AncestorDirs(k);
    var tree := if k in Keys(snap.files) then DirSync.Tree(above, {k}) else DirSync.Tree(above + {k}, {});
    d, localDirs, order := DirSync.Dirs(tree, {}), [dir], [dir];
    KeyOfKey(a);
    MissingOne(dir, DirKeys(snap.dirs));
    LoneTree(k, tree);
    assert DirSync.Under(dir, k);
    assert DirSync.Covered(order, k) by { assert dir in order; }
    DirSync.RecursiveRemovalIsExact(d, order);
  }

  lemma MissingOne(dir: Path, keys: set<string>)
    requires Key(dir) !in keys
    ensures Missing([dir], keys) == [dir]
  {
    assert [dir][..0] == [];
  }

  lemma LoneTree(k: Path, t: DirSync.Tree)
    requires t == DirSync.Tree(AncestorDirs(k), {k}) || t == DirSync.Tree(AncestorDirs(k) + {k}, {})
    ensures DirSync.TreeOk(t)
  {
    assert forall p :: p in DirSync.Nodes(t) ==> |p| <= |k|;
  }

  lemma KeyIsPlain(snap: Snapshot, k: Path)
    requires k in Keys(snap.files) || k in DirKeys(snap.dirs)
    ensures Key(k) == k && (k != "" ==> Plain(k))
  {
    var p :| Key(p) == k;
    KeyOfKey(p);
    NormalIsFinal(p);
  }

  lemma AncestorIsNormal(k: Path, a: Path)
    requires Key(k) == k && Plain(k) && a in DirSync.Ancestors(k)
    ensures Key(a) in AncestorDirs(k) && DirSync.Under(Key(a), k)
  {
    assert Slashes(k) == k && Lower(k) == k by {
      assert forall i :: 0 <= i < |k| ==> k[i] == LowerChar(Slash(k[i]));
    }
    assert Slashes(a) == a && Lower(a) == a;
    TrimShape(a);
    TrimNotEmpty(a);
    var t := |Trim(a)|;
    assert Trim(a) == k[..t] && k[t] == '/';
    assert Slashes(k[..t]) == k[..t] && Lower(k[..t]) == k[..t];
    TrimIsFinal(a);
  }

  lemma {:induction false} TrimIsFinal(s: string)
    ensures Trim(Trim(s)) == Trim(s)
  {
    if |s| > 1 && s[|s| - 1] == '/' { TrimIsFinal(s[..|s| - 1]); }
  }

  /** One-way mode: reconciling keeps everything of the snapshot, from every local state,
      exactly when the snapshot has every directory above what it has. */
  lemma OneWayKeepsExactly(snap: Snapshot, history: History)
    ensures (forall d, local, localDirs, order :: Situation(d, local, localDirs, order, snap) ==>
              Keeps(snap, d.tree, Cleared(d, FilesDeleted(local, snap.files, history, OneWay), order, OneWay).tree))
       <==> KeyRooted(snap)
  {
    if KeyRooted(snap) {
      forall d, local, localDirs, order | Situation(d, local, localDirs, order, snap)
        ensures Keeps(snap, d.tree, Cleared(d, FilesDeleted(local, snap.files, history, OneWay), order, OneWay).tree)
      {
        OneWayKeeps(d, local, localDirs, order, snap, history);
      }
    } else {
      var k :| k in Keys(snap.files) + DirKeys(snap.dirs) &&
        !forall a :: a in DirSync.Ancestors(k) ==> Key(a) in DirKeys(snap.dirs);
      var a :| a in DirSync.Ancestors(k) && Key(a) !in DirKeys(snap.dirs);
      var d, localDirs, order := UnrootedLoses(snap, history, k, a);
    }
  }

  /** Creating the missing directories afterwards takes nothing away. */
  lemma CreationKeeps(snap: Snapshot, before: DirSync.Tree, d: DirSync.Dirs, toCreate: seq<Path>)
    requires Keeps(snap, before, d.tree)
    ensures Keeps(snap, before, DirSync.CreateAll(d, toCreate).tree)
  {
    DirSync.CreationIsExact(d, toCreate);
  }

  // ---------------------------------------------------------------- what a scan announces

  /** The directory iterator yields a directory before anything in it, and nothing in an
      ignored one. */
  predicate TreeOrdered(ignored: Path -> bool, entries: seq<Scanning.Entry>) {
    forall k :: 0 <= k < |entries| ==>
      forall a :: a in DirSync.Ancestors(entries[k].path) ==> Scanning.DirEntry(a) in entries[..k] && !ignored(a)
  }

  lemma {:induction false} DirsSeen(cache: Store.Table, ignored: Path -> bool, entries: seq<Scanning.Entry>, a: Path)
    requires a != "" && !ignored(a) && Scanning.DirEntry(a) in entries
    requires Scanning.WalkAll(cache, ignored, entries).errors < Scanning.MAX_ERROR_COUNT
    ensures a in Scanning.WalkAll(cache, ignored, entries).dirs
  {
    var init, e := entries[..|entries| - 1], entries[|entries| - 1];
    assert entries == init + [e];
    if Scanning.DirEntry(a) in init { DirsSeen(cache, ignored, init, a); }
  }

  predicate AboveSeen(w: Scanning.Walk) {
    && (forall k :: 0 <= k < |w.pending| ==> DirSync.Ancestors(w.pending[k].path) <= w.dirs)
    && (forall p :: p in w.dirs ==> DirSync.Ancestors(p) <= w.dirs)
  }

  /** A scan that is not cut short, or is, has seen every directory above what it has seen. */
  lemma {:induction false} ScanIsRooted(cache: Store.Table, ignored: Path -> bool, entries: seq<Scanning.Entry>)
    requires TreeOrdered(ignored, entries)
    ensures AboveSeen(Scanning.WalkAll(cache, ignored, entries))
  {
    if entries != [] {
      var init, e := entries[..|entries| - 1], entries[|entries| - 1];
      assert forall k :: 0 <= k < |init| ==> init[k] == entries[k] && init[..k] == entries[..k];
      assert entries[..|entries| - 1] == init;
      ScanIsRooted(cache, ignored, init);
      var w := Scanning.WalkAll(cache, ignored, init);
      if w.errors < Scanning.MAX_ERROR_COUNT {
        forall a | a in DirSync.Ancestors(e.path) ensures a in w.dirs {
          assert a != "";
          DirsSeen(cache, ignored, init, a);
        }
      }
    }
  }

  /** What a flood announces: the files and directories that a scan found. */
  ghost predicate FoundBy(snap: Snapshot, cache: Store.Table, ignored: Path -> bool, entries: seq<Scanning.Entry>) {
    && (forall f :: f in snap.files ==> f.path in Scanning.ScanMap(cache, ignored, entries))
    && (forall d :: d in snap.dirs <==> d in Scanning.WalkAll(cache, ignored, entries).dirs)
  }

  predicate NoBackslash(snap: Snapshot) {
    (forall f :: f in snap.files ==> '\\' !in f.path) && (forall d :: d in snap.dirs ==> '\\' !in d)
  }

  /** What a scan announces is rooted, unless a name holds a backslash, which the keys take for
      a separator. */
  lemma ScannedIsKeyRooted(snap: Snapshot, cache: Store.Table, ignored: Path -> bool, entries: seq<Scanning.Entry>)
    requires TreeOrdered(ignored, entries) && FoundBy(snap, cache, ignored, entries) && NoBackslash(snap)
    ensures KeyRooted(snap)
  {
    ScanIsRooted(cache, ignored, entries);
    var w := Scanning.WalkAll(cache, ignored, entries);
    forall k, a | k in Keys(snap.files) + DirKeys(snap.dirs)
      && a in DirSync.Ancestors(k) ensures Key(a) in DirKeys(snap.dirs) {
      var p := AnnouncedPath(snap, cache, ignored, entries, k);
      var above := AncestorOfKey(p, a);
      assert above in snap.dirs;
    }
  }

  lemma AnnouncedPath(snap: Snapshot, cache: Store.Table, ignored: Path -> bool, entries: seq<Scanning.Entry>, k: Path)
    returns (p: Path)
    requires TreeOrdered(ignored, entries) && FoundBy(snap, cache, ignored, entries) && NoBackslash(snap)
    requires AboveSeen(Scanning.WalkAll(cache, ignored, entries)) && k in Keys(snap.files) + DirKeys(snap.dirs)
    ensures Key(p) == k && '\\' !in p && forall a :: a in DirSync.Ancestors(p) ==> a in snap.dirs
  {
    if k in DirKeys(snap.dirs) {
      p :| p in snap.dirs && Key(p) == k;
    } else {
      var i :| 0 <= i < |snap.files| && Key(snap.files[i].path) == k;
      assert snap.files[i] in snap.files;
      p := snap.files[i].path;
      Scanning.MapKeys(Scanning.WalkAll(cache, ignored, entries).pending, p);
    }
  }

  lemma AncestorOfKey(p: Path, a: Path) returns (above: Path)
    requires '\\' !in p && a in DirSync.Ancestors(Key(p))
    ensures above in DirSync.Ancestors(p) && Key(above) == Key(a)
  {
    assert Slashes(p) == p by { assert forall i :: 0 <= i < |p| ==> p[i] in p; }
    TrimShape(p);
    var i := |a|;
    assert a == Key(p)[..i] && Key(p)[i] == '/';
    assert p[i] == '/';
    above := p[..i];
    assert a == Lower(above);
    assert Slashes(above) == above && Slashes(a) == a;
    TrimLower(above);
    assert Lower(Lower(Trim(above))) == Lower(Trim(above));
  }
}
