/** What a batch of noticed changes turns out to be, once each path is looked at and hashed. */
module Watching {
  import opened Wrappers
  import opened Store
  import opened Scanning

  /** What is found at a changed path. A file may hide its time, and an empty content is a hash
      that failed; Failing stands for any other error on the way. */
  datatype Sight =
    | Outside
    | Gone
    | File(mtime: Option<int>, size: nat, content: string)
    | Folder
    | Other
    | Failing

  /** What is handed on to be committed. */
  datatype Found = Found(updates: seq<FileInfo>, created: seq<Path>, deleted: seq<Path>, failed: set<Path>)

  /** While looking: what was found so far, and whether any file had to be hashed. */
  datatype Batch = Batch(found: Found, hashing: bool)

  const NOTHING := Batch(Found([], [], [], {}), false)

  /** A file's entry, its hash from the cache where the time is the cached one. */
  function InfoAt(cache: Table, path: Path, mtime: int, size: nat, content: string): FileInfo {
    FileInfo(path, if Hit(cache, path, mtime) then cache[path].hash else content, mtime, size)
  }

  function LookAt(cache: Table, ignored: Path -> bool, b: Batch, path: Path, sight: Sight): Batch {
    var f := b.found;
    if sight.Failing? then b.(found := f.(failed := f.failed + {path}))
    else if path == "" || ignored(path) then b
    else match sight
      case Gone => b.(found := f.(deleted := f.deleted + [path]))
      case Folder => b.(found := f.(created := f.created + [path]))
      case File(None, _, _) => b.(found := f.(failed := f.failed + {path}))
      case File(Some(mtime), size, content) =>
        var hit := Hit(cache, path, mtime);
        var f1 := f.(updates := f.updates + [InfoAt(cache, path, mtime, size, content)]);
        Batch(if !hit && content == "" then f1.(failed := f1.failed + {path}) else f1, b.hashing || !hit)
      case _ => b
  }

  function LookAtAll(cache: Table, ignored: Path -> bool, sight: Path -> Sight, changes: seq<Path>): Batch {
    if changes == [] then NOTHING
    else
      var init, last := changes[..|changes| - 1], changes[|changes| - 1];
      LookAt(cache, ignored, LookAtAll(cache, ignored, sight, init), last, sight(last))
  }

  function Hashed(files: seq<FileInfo>): seq<FileInfo> {
    if files == [] then []
    else Hashed(files[..|files| - 1]) + if files[|files| - 1].hash == "" then [] else [files[|files| - 1]]
  }

  /** Entries without a hash are dropped when hashes were computed at all. */
  function Finished(b: Batch): Found {
    if b.hashing then b.found.(updates := Hashed(b.found.updates)) else b.found
  }

  function ChangesFound(cache: Table, ignored: Path -> bool, sight: Path -> Sight, changes: seq<Path>): Found {
    Finished(LookAtAll(cache, ignored, sight, changes))
  }

  // ---------------------------------------------------------------- where a path ends up

  predicate Distinct(paths: seq<Path>) {
    forall i, j :: 0 <= i < j < |paths| ==> paths[i] != paths[j]
  }

  /** The entry a path contributes before those without a hash are dropped. */
  function EntryFor(cache: Table, ignored: Path -> bool, path: Path, sight: Sight): Option<FileInfo> {
    if !Seen(ignored, path) || !sight.File? || sight.mtime.None? then None
    else Some(InfoAt(cache, path, sight.mtime.value, sight.size, sight.content))
  }

  predicate Seen(ignored: Path -> bool, path: Path) {
    path != "" && !ignored(path)
  }

  ghost predicate UpdatesPlaced(b: Batch, cache: Table, ignored: Path -> bool, sight: Path -> Sight,
                                changes: seq<Path>) {
    forall u ::
      u in b.found.updates <==> u.path in changes && EntryFor(cache, ignored, u.path, sight(u.path)) == Some(u)
  }

  ghost predicate CreatedPlaced(b: Batch, ignored: Path -> bool, sight: Path -> Sight, changes: seq<Path>) {
    forall p :: p in b.found.created <==> p in changes && sight(p).Folder? && Seen(ignored, p)
  }

  ghost predicate DeletedPlaced(b: Batch, ignored: Path -> bool, sight: Path -> Sight, changes: seq<Path>) {
    forall p :: p in b.found.deleted <==> p in changes && sight(p).Gone? && Seen(ignored, p)
  }

  ghost predicate FailedPlaced(b: Batch, cache: Table, ignored: Path -> bool, sight: Path -> Sight,
                               changes: seq<Path>) {
    forall p :: p in b.found.failed <==> p in changes && Fails(cache, ignored, p, sight(p))
  }

  /** Until a file had to be hashed every entry has its hash from the cache. */
  predicate HitsOnly(b: Batch, cache: Table) {
    b.hashing || forall u :: u in b.found.updates ==> Hit(cache, u.path, u.mtime)
  }

  /** Each looked-at path is in the lists its sight says, and nothing else is in any list. */
  ghost predicate Placed(b: Batch, cache: Table, ignored: Path -> bool, sight: Path -> Sight, changes: seq<Path>) {
    && UpdatesPlaced(b, cache, ignored, sight, changes) && CreatedPlaced(b, ignored, sight, changes)
    && DeletedPlaced(b, ignored, sight, changes) && FailedPlaced(b, cache, ignored, sight, changes)
    && HitsOnly(b, cache)
  }

  /** Looked at again later. */
  predicate Fails(cache: Table, ignored: Path -> bool, path: Path, sight: Sight) {
    || sight.Failing?
    || (Seen(ignored, path) && sight.File?
        && (sight.mtime.None? || (sight.content == "" && !Hit(cache, path, sight.mtime.value))))
  }

  lemma {:induction false} LookedAtAll(cache: Table, ignored: Path -> bool, sight: Path -> Sight, changes: seq<Path>)
    ensures Placed(LookAtAll(cache, ignored, sight, changes), cache, ignored, sight, changes)
  {
    if changes != [] {
      var init, last := changes[..|changes| - 1], changes[|changes| - 1];
      LookedAtAll(cache, ignored, sight, init);
      assert changes == init + [last];
      OneMoreLook(LookAtAll(cache, ignored, sight, init), cache, ignored, sight, init, last);
    }
  }

  /** What one look adds. */
  lemma LookAdds(cache: Table, ignored: Path -> bool, b: Batch, path: Path, sight: Sight)
    ensures var f, g, entry := b.found, LookAt(cache, ignored, b, path, sight), EntryFor(cache, ignored, path, sight);
      var seen := Seen(ignored, path);
      && g.found.updates == f.updates + (if entry.Some? then [entry.value] else [])
      && g.found.created == f.created + (if seen && sight.Folder? then [path] else [])
      && g.found.deleted == f.deleted + (if seen && sight.Gone? then [path] else [])
      && g.found.failed == f.failed + (if Fails(cache, ignored, path, sight) then {path} else {})
      && (g.hashing <==> b.hashing || (entry.Some? && !Hit(cache, path, entry.value.mtime)))
  {
    var f := b.found;
    assert f.updates + [] == f.updates && f.created + [] == f.created && f.deleted + [] == f.deleted;
    assert f.failed + {} == f.failed;
  }

  lemma OneMoreUpdate(b: Batch, cache: Table, ignored: Path -> bool, sight: Path -> Sight, init: seq<Path>, last: Path)
    requires UpdatesPlaced(b, cache, ignored, sight, init)
    ensures UpdatesPlaced(LookAt(cache, ignored, b, last, sight(last)), cache, ignored, sight, init + [last])
  {
    LookAdds(cache, ignored, b, last, sight(last));
    var entry := EntryFor(cache, ignored, last, sight(last));
    assert entry.Some? ==> entry.value.path == last;
    hide LookAt, EntryFor, Fails, Hit, Seen;
    assert forall p :: p in init + [last] <==> p in init || p == last;
  }

  lemma OneMoreCreated(b: Batch, cache: Table, ignored: Path -> bool, sight: Path -> Sight, init: seq<Path>, last: Path)
    requires CreatedPlaced(b, ignored, sight, init)
    ensures CreatedPlaced(LookAt(cache, ignored, b, last, sight(last)), ignored, sight, init + [last])
  {
    LookAdds(cache, ignored, b, last, sight(last));
    hide LookAt, EntryFor, Fails, Hit, Seen;
  }

  lemma OneMoreDeleted(b: Batch, cache: Table, ignored: Path -> bool, sight: Path -> Sight, init: seq<Path>, last: Path)
    requires DeletedPlaced(b, ignored, sight, init)
    ensures DeletedPlaced(LookAt(cache, ignored, b, last, sight(last)), ignored, sight, init + [last])
  {
    LookAdds(cache, ignored, b, last, sight(last));
    hide LookAt, EntryFor, Fails, Hit, Seen;
  }

  lemma OneMoreFailed(b: Batch, cache: Table, ignored: Path -> bool, sight: Path -> Sight, init: seq<Path>, last: Path)
    requires FailedPlaced(b, cache, ignored, sight, init)
    ensures FailedPlaced(LookAt(cache, ignored, b, last, sight(last)), cache, ignored, sight, init + [last])
  {
    LookAdds(cache, ignored, b, last, sight(last));
    hide LookAt, EntryFor, Fails, Hit, Seen;
  }

  lemma OneMoreHit(b: Batch, cache: Table, ignored: Path -> bool, path: Path, sight: Sight)
    requires HitsOnly(b, cache)
    ensures HitsOnly(LookAt(cache, ignored, b, path, sight), cache)
  {
    LookAdds(cache, ignored, b, path, sight);
    var entry := EntryFor(cache, ignored, path, sight);
    assert entry.Some? ==> entry.value.path == path;
    hide LookAt, EntryFor, Fails, Hit, Seen;
  }

  lemma OneMoreLook(b: Batch, cache: Table, ignored: Path -> bool, sight: Path -> Sight, init: seq<Path>, last: Path)
    requires Placed(b, cache, ignored, sight, init)
    ensures Placed(LookAt(cache, ignored, b, last, sight(last)), cache, ignored, sight, init + [last])
  {
    hide LookAt, UpdatesPlaced, CreatedPlaced, DeletedPlaced, FailedPlaced, HitsOnly;
    OneMoreUpdate(b, cache, ignored, sight, init, last);
    OneMoreCreated(b, cache, ignored, sight, init, last);
    OneMoreDeleted(b, cache, ignored, sight, init, last);
    OneMoreFailed(b, cache, ignored, sight, init, last);
    OneMoreHit(b, cache, ignored, last, sight(last));
  }

  lemma {:induction false} HashedHas(files: seq<FileInfo>, u: FileInfo)
    ensures u in Hashed(files) <==> u in files && u.hash != ""
  {
    if files != [] {
      var init, last := files[..|files| - 1], files[|files| - 1];
      HashedHas(init, u);
      assert files == init + [last];
    }
  }

  /** Every looked-at path ends up as an update with its hash, a new directory, a deletion, or is
      kept for another look; only the root, ignored paths, and what is neither a file nor a
      directory are dropped. */
  lemma WhereChangesGo(cache: Table, ignored: Path -> bool, sight: Path -> Sight, changes: seq<Path>)
    requires forall p :: p in cache ==> cache[p].hash != ""
    ensures var f := ChangesFound(cache, ignored, sight, changes);
      && (forall u :: u in f.updates <==>
            u.path in changes && EntryFor(cache, ignored, u.path, sight(u.path)) == Some(u) && u.hash != "")
      && (forall p :: p in f.created <==> p in changes && sight(p).Folder? && Seen(ignored, p))
      && (forall p :: p in f.deleted <==> p in changes && sight(p).Gone? && Seen(ignored, p))
      && (forall p :: p in f.failed <==> p in changes && Fails(cache, ignored, p, sight(p)))
  {
    LookedAtAll(cache, ignored, sight, changes);
    var b := LookAtAll(cache, ignored, sight, changes);
    forall u {:trigger u in b.found.updates}
      ensures u in ChangesFound(cache, ignored, sight, changes).updates <==> u in b.found.updates && u.hash != ""
    {
      HashedHas(b.found.updates, u);
    }
  }
}
