/** Carrying out a directory plan: deletions longest path first, then creations. */
module DirSync {
  import SyncPlan

  type Path = string
  type Mode = SyncPlan.Mode

  /** A directory tree by relative paths; the root itself is not among them. */
  datatype Tree = Tree(dirs: set<Path>, files: set<Path>)

  /** The tree and the state manager's set of known directories. */
  datatype Dirs = Dirs(tree: Tree, known: set<Path>)

  function Nodes(t: Tree): set<Path> {
    t.dirs + t.files
  }

  predicate Under(p: Path, q: Path) {
    |q| > |p| && q[..|p|] == p && q[|p|] == '/'
  }

  predicate Below(t: Tree, p: Path) {
    exists q :: q in Nodes(t) && Under(p, q)
  }

  predicate TreeOk(t: Tree) {
    t.dirs !! t.files && forall f :: f in t.files ==> !Below(t, f)
  }

  // ---------------------------------------------------------------- steps

  function Without(t: Tree, gone: set<Path>): Tree {
    Tree(t.dirs - gone, t.files - gone)
  }

  /** Removes a file or an empty directory. */
  function RemoveOne(t: Tree, p: Path): Tree {
    if Below(t, p) then t else Without(t, {p})
  }

  function Subtree(t: Tree, p: Path): set<Path> {
    set q | q in Nodes(t) && (q == p || Under(p, q))
  }

  function RemoveStep(d: Dirs, p: Path, mode: Mode): Dirs {
    var t := if mode.OneWay? then Without(d.tree, Subtree(d.tree, p)) else RemoveOne(d.tree, p);
    Dirs(t, if mode.OneWay? || p !in Nodes(t) then d.known - {p} else d.known)
  }

  function RemoveAll(d: Dirs, order: seq<Path>, mode: Mode): Dirs {
    if order == [] then d
    else RemoveStep(RemoveAll(d, order[..|order| - 1], mode), order[|order| - 1], mode)
  }

  function Ancestors(p: Path): set<Path> {
    set k | 0 < k < |p| && p[k] == '/' :: p[..k]
  }

  /** Fails where a file stands on the path. */
  function CreateStep(d: Dirs, p: Path): Dirs {
    var needed := Ancestors(p) + {p};
    if needed !! d.tree.files
    then Dirs(d.tree.(dirs := d.tree.dirs + needed), d.known + {p})
    else d
  }

  function CreateAll(d: Dirs, paths: seq<Path>): Dirs {
    if paths == [] then d
    else CreateStep(CreateAll(d, paths[..|paths| - 1]), paths[|paths| - 1])
  }

  // ---------------------------------------------------------------- two-way deletion

  predicate LongestFirst(order: seq<Path>) {
    forall i, j :: 0 <= i < j < |order| ==> |order[i]| >= |order[j]|
  }

  /** Listed, and so is everything below it. */
  predicate WhollyListed(t: Tree, listed: seq<Path>, p: Path) {
    p in listed && forall q :: q in Nodes(t) && Under(p, q) ==> q in listed
  }

  /** The deletions have removed exactly the paths that are wholly listed, and the known
      directories have lost exactly the listed ones that are no longer there. */
  predicate RemovedExactly(before: Dirs, listed: seq<Path>, after: Dirs) {
    && after.tree.dirs == (set n | n in before.tree.dirs && !WhollyListed(before.tree, listed, n))
    && after.tree.files == (set n | n in before.tree.files && !WhollyListed(before.tree, listed, n))
    && after.known == (set n | n in before.known && !(n in listed && n !in Nodes(after.tree)))
  }

  /** Listing one more path, no longer than those before, changes which paths are wholly listed
      only for itself. */
  lemma OneMoreListed(t: Tree, listed: seq<Path>, p: Path, n: Path)
    requires forall q :: q in listed ==> |q| >= |p|
    ensures WhollyListed(t, listed + [p], n) <==>
      WhollyListed(t, listed, n) || (n == p && forall q :: q in Nodes(t) && Under(p, q) ==> q in listed)
  {
    assert n in listed ==> !Under(n, p);
  }

  lemma TreeStep(d: Dirs, listed: seq<Path>, mid: Dirs, p: Path)
    requires RemovedExactly(d, listed, mid) && forall q :: q in listed ==> |q| >= |p|
    ensures var t := RemoveOne(mid.tree, p);
      && t.dirs == (set n | n in d.tree.dirs && !WhollyListed(d.tree, listed + [p], n))
      && t.files == (set n | n in d.tree.files && !WhollyListed(d.tree, listed + [p], n))
  {
    forall n ensures WhollyListed(d.tree, listed + [p], n)
      <==> WhollyListed(d.tree, listed, n) || (n == p && !Below(mid.tree, p)) {
      OneMoreListed(d.tree, listed, p, n);
    }
  }

  lemma KnownStep(d: Dirs, listed: seq<Path>, mid: Dirs, p: Path)
    requires RemovedExactly(d, listed, mid)
    ensures var after := RemoveStep(mid, p, SyncPlan.BiDirectional);
      after.known == (set n | n in d.known && !(n in listed + [p] && n !in Nodes(after.tree)))
  {
    var after := RemoveStep(mid, p, SyncPlan.BiDirectional);
    forall n ensures n in after.known <==> n in d.known && !(n in listed + [p] && n !in Nodes(after.tree)) {
      assert n in Nodes(after.tree) <==> n in Nodes(mid.tree) && !(n == p && !Below(mid.tree, p));
    }
  }

  /** Two-way mode: over any tree and any list, deleting longest path first with
      remove-if-empty removes exactly the listed paths whose whole subtree is listed. */
  lemma {:induction false} LeafFirstRemovalIsExact(d: Dirs, order: seq<Path>)
    requires LongestFirst(order)
    ensures RemovedExactly(d, order, RemoveAll(d, order, SyncPlan.BiDirectional))
  {
    if order != [] {
      var init, p := order[..|order| - 1], order[|order| - 1];
      LeafFirstRemovalIsExact(d, init);
      var mid := RemoveAll(d, init, SyncPlan.BiDirectional);
      assert order == init + [p];
      assert forall q :: q in init ==> |q| >= |p|;
      TreeStep(d, init, mid, p);
      KnownStep(d, init, mid, p);
    }
  }

  /** When only directories are listed, no file is touched and no directory above one. */
  lemma TwoWayRemovalKeepsFiles(d: Dirs, order: seq<Path>)
    requires LongestFirst(order) && TreeOk(d.tree) && forall p :: p in order ==> p !in d.tree.files
    ensures var after := RemoveAll(d, order, SyncPlan.BiDirectional);
      && after.tree.files == d.tree.files
      && (forall f, p :: f in d.tree.files && p in d.tree.dirs && Under(p, f) ==> p in after.tree.dirs)
      && TreeOk(after.tree)
  {
    LeafFirstRemovalIsExact(d, order);
    var after := RemoveAll(d, order, SyncPlan.BiDirectional);
    forall f | f in after.tree.files ensures !Below(after.tree, f) {
      assert !Below(d.tree, f);
      assert Nodes(after.tree) <= Nodes(d.tree);
    }
  }

  // ---------------------------------------------------------------- one-way deletion

  /** Listed, or below something listed. */
  predicate Covered(order: seq<Path>, q: Path) {
    exists p :: p in order && (q == p || Under(p, q))
  }

  lemma CoveredByOneMore(order: seq<Path>, p: Path, q: Path)
    ensures Covered(order + [p], q) <==> Covered(order, q) || q == p || Under(p, q)
  {
    assert p in order + [p];
    if r :| r in order && (q == r || Under(r, q)) {
      assert r in order + [p];
    }
  }

  /** One-way mode, in any order: the listed subtrees are gone and the listed paths unknown. */
  lemma {:induction false} RecursiveRemovalIsExact(d: Dirs, order: seq<Path>)
    ensures var after := RemoveAll(d, order, SyncPlan.OneWay);
      && after.tree.dirs == (set q | q in d.tree.dirs && !Covered(order, q))
      && after.tree.files == (set q | q in d.tree.files && !Covered(order, q))
      && after.known == d.known - (set p | p in order)
  {
    if order != [] {
      var init, p := order[..|order| - 1], order[|order| - 1];
      RecursiveRemovalIsExact(d, init);
      assert order == init + [p];
      forall q ensures Covered(order, q) <==> Covered(init, q) || q == p || Under(p, q) {
        CoveredByOneMore(init, p, q);
      }
    }
  }

  // ---------------------------------------------------------------- creation

  /** A path is created and becomes known exactly when no file stands on it. */
  lemma {:induction false} CreationIsExact(d: Dirs, paths: seq<Path>)
    ensures var after := CreateAll(d, paths);
      && after.tree.files == d.tree.files
      && after.known == d.known + (set p | p in paths && Ancestors(p) + {p} !! d.tree.files)
      && (forall a :: a in after.tree.dirs <==> a in d.tree.dirs || CreatedFor(d.tree, paths, a))
  {
    if paths != [] {
      var init, p := paths[..|paths| - 1], paths[|paths| - 1];
      CreationIsExact(d, init);
      assert paths == init + [p];
      assert forall a :: CreatedFor(d.tree, paths, a) <==>
        CreatedFor(d.tree, init, a) || (Ancestors(p) + {p} !! d.tree.files && a in Ancestors(p) + {p});
    }
  }

  /** A listed path that no file stands on, or a directory above one. */
  predicate CreatedFor(t: Tree, paths: seq<Path>, a: Path) {
    exists p :: p in paths && Ancestors(p) + {p} !! t.files && a in Ancestors(p) + {p}
  }

  // ---------------------------------------------------------------- the objects

  class FileSystem {
    var dirs: set<Path>
    var files: set<Path>

    ghost function View(): Tree
      reads this
    {
      Tree(dirs, files)
    }

    method Exists(p: Path) returns (there: bool)
      ensures there == (p in Nodes(View()))
    {
      return p in dirs || p in files;
    }

    method HasBelow(p: Path) returns (below: bool)
      ensures below == Below(View(), p)
    {
      var rest := dirs + files;
      while rest != {}
        invariant rest <= Nodes(View())
        invariant forall q :: q in Nodes(View()) && q !in rest ==> !Under(p, q)
        decreases rest
      {
        var q :| q in rest;
        if Under(p, q) { return true; }
        rest := rest - {q};
      }
      return false;
    }

    /** Whether something was removed; a directory that is not empty stays. */
    method Remove(p: Path) returns (removed: bool)
      modifies this
      ensures View() == RemoveOne(old(View()), p)
      ensures removed == (p in Nodes(old(View())) && p !in Nodes(View()))
    {
      var below := HasBelow(p);
      if below { return false; }
      removed := p in dirs || p in files;
      dirs, files := dirs - {p}, files - {p};
    }

    method RemoveRecursively(p: Path)
      modifies this
      ensures View() == Without(old(View()), Subtree(old(View()), p))
    {
      dirs := set q | q in dirs && !(q == p || Under(p, q));
      files := set q | q in files && !(q == p || Under(p, q));
    }

    method CreateDirectories(p: Path) returns (ok: bool)
      modifies this
      ensures ok == (Ancestors(p) + {p} !! old(files))
      ensures files == old(files) && dirs == if ok then old(dirs) + Ancestors(p) + {p} else old(dirs)
    {
      var needed := Ancestors(p) + {p};
      ok := needed !! files;
      if ok { dirs := dirs + needed; }
    }
  }

  lemma InsertedInOrder(sorted: seq<Path>, k: nat, p: Path)
    requires LongestFirst(sorted) && k <= |sorted|
    requires forall j :: 0 <= j < k ==> |sorted[j]| >= |p|
    requires k == |sorted| || |sorted[k]| < |p|
    ensures LongestFirst(sorted[..k] + [p] + sorted[k..])
    ensures multiset(sorted[..k] + [p] + sorted[k..]) == multiset(sorted) + multiset{p}
  {
    assert sorted == sorted[..k] + sorted[k..];
  }

  method SortLongestFirst(paths: seq<Path>) returns (sorted: seq<Path>)
    ensures LongestFirst(sorted) && multiset(sorted) == multiset(paths)
  {
    sorted := [];
    for i := 0 to |paths|
      invariant LongestFirst(sorted) && multiset(sorted) == multiset(paths[..i])
    {
      var k := 0;
      while k < |sorted| && |sorted[k]| >= |paths[i]|
        invariant 0 <= k <= |sorted|
        invariant forall j :: 0 <= j < k ==> |sorted[j]| >= |paths[i]|
      {
        k := k + 1;
      }
      InsertedInOrder(sorted, k, paths[i]);
      assert paths[..i + 1] == paths[..i] + [paths[i]];
      sorted := sorted[..k] + [paths[i]] + sorted[k..];
    }
    assert paths[..|paths|] == paths;
  }

  class DirectorySync {
    const fs: FileSystem
    var known: set<Path>

    ghost function View(): Dirs
      reads this, fs
    {
      Dirs(fs.View(), known)
    }

    constructor (fs: FileSystem, known: set<Path>)
      ensures View() == Dirs(fs.View(), known)
    {
      this.fs, this.known := fs, known;
    }

    method DeleteOne(p: Path, mode: Mode)
      modifies this, fs
      ensures View() == RemoveStep(old(View()), p, mode)
    {
      var deleted := false;
      if mode.OneWay? {
        fs.RemoveRecursively(p);
        deleted := true;
      } else {
        deleted := fs.Remove(p);
      }
      var there := fs.Exists(p);
      if deleted || !there { known := known - {p}; }
    }

    method DeleteDirectories(toDelete: seq<Path>, mode: Mode) returns (ghost order: seq<Path>)
      modifies this, fs
      ensures LongestFirst(order) && multiset(order) == multiset(toDelete)
      ensures View() == RemoveAll(old(View()), order, mode)
    {
      var sorted := SortLongestFirst(toDelete);
      order := sorted;
      for i := 0 to |sorted|
        invariant View() == RemoveAll(old(View()), sorted[..i], mode)
      {
        assert sorted[..i + 1][..i] == sorted[..i];
        DeleteOne(sorted[i], mode);
      }
      assert sorted[..|sorted|] == sorted;
    }

    method CreateMissing(toCreate: seq<Path>)
      modifies this, fs
      ensures View() == CreateAll(old(View()), toCreate)
    {
      for i := 0 to |toCreate|
        invariant View() == CreateAll(old(View()), toCreate[..i])
      {
        assert toCreate[..i + 1][..i] == toCreate[..i];
        var ok := fs.CreateDirectories(toCreate[i]);
        if ok { known := known + {toCreate[i]}; }
      }
      assert toCreate[..|toCreate|] == toCreate;
    }

    method SyncDirectoryActions(toCreate: seq<Path>, toDelete: seq<Path>, mode: Mode) returns (ghost order: seq<Path>)
      modifies this, fs
      ensures LongestFirst(order) && multiset(order) == multiset(toDelete)
      ensures View() == CreateAll(RemoveAll(old(View()), order, mode), toCreate)
    {
      order := DeleteDirectories(toDelete, mode);
      CreateMissing(toCreate);
    }
  }

  /** The order chosen by the sort lists the same paths, so two-way deletion depends only on
      which directories are listed. */
  lemma SameListed(order: seq<Path>, other: seq<Path>)
    requires multiset(order) == multiset(other)
    ensures forall p :: p in order <==> p in other
  {
    forall p ensures p in order <==> p in other {
      assert p in order <==> p in multiset(order);
    }
  }

  lemma OrderDoesNotMatter(d: Dirs, order: seq<Path>, other: seq<Path>)
    requires LongestFirst(order) && LongestFirst(other) && multiset(order) == multiset(other)
    ensures RemoveAll(d, order, SyncPlan.BiDirectional) == RemoveAll(d, other, SyncPlan.BiDirectional)
  {
    SameListed(order, other);
    LeafFirstRemovalIsExact(d, order);
    LeafFirstRemovalIsExact(d, other);
    hide RemoveAll, LongestFirst;
    assert forall p :: WhollyListed(d.tree, order, p) <==> WhollyListed(d.tree, other, p);
  }
}
