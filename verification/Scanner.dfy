/** The state manager: the in-memory file map, the directory map, the echo table, the changes still
    to be looked at, and the file store, changed by scans, batches of changes and removals. The
    database may refuse any statement. */
module Scanner {
  import opened Wrappers
  import opened Store
  import opened Scanning
  import opened TableWrites
  import opened Watching

  /** The hash last synchronised, for each peer and path: the sync_history table. */
  type History = map<(string, Path), string>

  /** Everything the state manager knows, the store between transactions being one table. */
  datatype Known = Known(files: FileMap, dirs: set<Path>, received: map<Path, string>, pending: set<Path>,
                         table: Table, history: History)

  function Elements(s: seq<Path>): set<Path> {
    set p | p in s
  }

  /** A scan whose root cannot be opened does nothing. The n-th window of rows meets fates(n). */
  function AfterScan(k: Known, ignored: Path -> bool, root: Option<seq<Entry>>, fates: nat -> Fate,
                     cleanup: Fate): Known {
    if root.None? then k
    else
      var w := WalkAll(k.table, ignored, root.value);
      k.(files := MapOf(w.pending), dirs := w.dirs, pending := k.pending + w.retry,
        table := ScanTable(k.table, w.pending, fates, cleanup))
  }

  function BatchOps(k: Known, found: Found): seq<PendingOp> {
    UpdateOps(found.updates) + RemoveOps(AfterDeletions(k, found).removedFiles)
  }

  function AfterDeletions(k: Known, found: Found): Deleted {
    DeleteAll(WithUpdates(k.files, found.updates), k.dirs + Elements(found.created), found.deleted)
  }

  function AfterChanges(k: Known, found: Found, fate: Fate): Known {
    var d := AfterDeletions(k, found);
    k.(files := d.files, dirs := d.dirs, received := Announce(k.received, found.updates).received,
      pending := k.pending + found.failed, table := Committed(k.table, BatchOps(k, found), fate))
  }

  function Forget(h: History, path: Path): History {
    map k | k in h && k.1 != path :: h[k]
  }

  /** The two deletions of one transaction, each of which may be refused without stopping it. */
  function AfterRemoval(k: Known, path: Path, removed: bool, forgotten: bool, committed: bool): Known {
    k.(files := k.files - {path}, table := if removed && committed then k.table - {path} else k.table,
      history := if forgotten && committed then Forget(k.history, path) else k.history)
  }

  class StateManager {
    const store: CachedFileStore
    var fileMap: FileMap
    var dirMap: set<Path>
    var received: map<Path, string>
    var pending: set<Path>
    var history: History

    /** No transaction is open and the cache is the committed table. */
    ghost predicate Quiet()
      reads this, store, store.db
    {
      store.View() == State(store.cache, None, store.cache, None)
    }

    ghost function View(): Known
      reads this, store
    {
      Known(fileMap, dirMap, received, pending, store.cache, history)
    }

    constructor (store: CachedFileStore, history: History)
      requires Agrees(store.View()) && store.guard.None?
      ensures this.store == store && Quiet() && View() == Known(map[], {}, map[], {}, store.cache, history)
    {
      this.store, this.history := store, history;
      fileMap, dirMap, received, pending := map[], {}, map[], {};
    }

    /** One guarded transaction of writes: it stops at a write that is refused, and is committed
        only when none was. */
    method InTransaction(thread: Thread, ops: seq<PendingOp>, fate: Fate)
      requires Quiet()
      modifies store, store.db
      ensures Quiet() && store.cache == Committed(old(store.cache), ops, fate)
    {
      ghost var before := store.View();
      store.BeginGuard(thread);
      var ok, j := true, 0;
      while ok && j < |ops|
        invariant 0 <= j <= |ops| && (!ok ==> fate.Refused?)
        invariant store.View() == State(before.cache, Some(Replay(before.cache, ops[..j])), before.cache,
            Some(Guard(thread, ops[..j], false)))
        decreases ok, |ops| - j
      {
        ok := store.Put(thread, ops[j], fate != Refused(j));
        if ok {
          assert ops[..j + 1] == ops[..j] + [ops[j]];
          ReplayOneMore(before.cache, ops[..j], ops[j]);
          j := j + 1;
        }
      }
      assert ops[..|ops|] == ops;
      if ok { var _ := store.CommitGuard(fate.Accepted?); }
      store.ReleaseGuard();
    }

    /** Phase 1 up to the hashes of phase 2. */
    method WalkTree(thread: Thread, ignored: Path -> bool, entries: seq<Entry>) returns (w: Walk)
      requires Quiet()
      ensures w == WalkAll(store.cache, ignored, entries)
    {
      var files: seq<PendingFile> := [];
      var dirs, retry: set<Path> := {}, {};
      var errors := 0;
      for i := 0 to |entries|
        invariant Walk(files, dirs, errors, retry) == WalkAll(store.cache, ignored, entries[..i])
      {
        assert entries[..i + 1][..i] == entries[..i];
        if errors >= MAX_ERROR_COUNT {
          AfterTooManyErrors(store.cache, ignored, entries, i);
          break;
        }
        var e := entries[i];
        if e.Unplaced? {
          errors := errors + 1;
        } else if e.path == "" || ignored(e.path) {
        } else if e.DirEntry? {
          dirs := dirs + {e.path};
        } else if e.mtime.None? {
          errors := errors + 1;
          retry := retry + {e.path};
        } else {
          var cached := store.Lookup(thread, e.path);
          if cached.Some? && cached.value.mtime == e.mtime.value {
            files := files + [PendingFile(e.path, e.mtime.value, cached.value.hash, false, false, e.size)];
          } else {
            files := files + [PendingFile(e.path, e.mtime.value, e.content, true, true, e.size)];
            if e.content == "" { retry := retry + {e.path}; }
          }
        }
      }
      assert entries[..|entries|] == entries;
      w := Walk(files, dirs, errors, retry);
    }

    static method BuildMap(pending: seq<PendingFile>) returns (m: FileMap, dirty: seq<FileInfo>)
      ensures m == MapOf(pending) && dirty == Dirty(pending)
    {
      m, dirty := map[], [];
      for i := 0 to |pending|
        invariant m == MapOf(pending[..i]) && dirty == Dirty(pending[..i])
      {
        assert pending[..i + 1][..i] == pending[..i];
        var f := pending[i];
        if f.hash != "" {
          if f.dirty { dirty := dirty + [InfoOf(f)]; }
          m := m[f.path := InfoOf(f)];
        }
      }
      assert pending[..|pending|] == pending;
    }

    /** Windows of at most DB_BATCH_WRITE_SIZE rows, a transaction each. */
    method WriteDirty(thread: Thread, dirty: seq<FileInfo>, fates: nat -> Fate)
      requires Quiet()
      modifies store, store.db
      ensures Quiet() && store.cache == WriteWindows(old(store.cache), dirty, 0, fates)
    {
      ghost var t := store.cache;
      var i, w := 0, 0;
      while i < |dirty|
        invariant 0 <= i <= |dirty| && Quiet()
        invariant WriteWindows(store.cache, dirty[i..], w, fates) == WriteWindows(t, dirty, 0, fates)
      {
        var end := if i + DB_BATCH_WRITE_SIZE < |dirty| then i + DB_BATCH_WRITE_SIZE else |dirty|;
        assert dirty[i..][..end - i] == dirty[i..end] && dirty[i..][end - i..] == dirty[end..];
        InTransaction(thread, UpdateOps(dirty[i..end]), fates(w));
        i, w := end, w + 1;
      }
    }

    /** The rows whose file is not in the file map. */
    method RemoveZombies(thread: Thread, fate: Fate)
      requires Quiet()
      modifies store, store.db
      ensures Quiet()
      ensures store.cache == if fate.Accepted? then map p | p in old(store.cache) && p in fileMap :: old(store.cache)[p]
        else old(store.cache)
    {
      ghost var t := store.cache;
      var toRemove: seq<Path> := [];
      var rest := store.cache.Keys;
      while rest != {}
        invariant rest <= store.cache.Keys && store.cache == t && Quiet()
        invariant forall p :: p in toRemove <==> p in store.cache && p !in rest && p !in fileMap
        decreases rest
      {
        var p :| p in rest;
        if p !in fileMap { toRemove := toRemove + [p]; }
        rest := rest - {p};
      }
      RemovalsRestrict(t, toRemove);
      if toRemove != [] { InTransaction(thread, RemoveOps(toRemove), fate); }
    }

    method ScanDirectory(thread: Thread, ignored: Path -> bool, root: Option<seq<Entry>>, fates: nat -> Fate,
                         cleanup: Fate)
      requires Quiet()
      modifies this, store, store.db
      ensures Quiet() && View() == AfterScan(old(View()), ignored, root, fates, cleanup)
    {
      if root.None? { return; }
      var w := WalkTree(thread, ignored, root.value);
      var m, dirty := BuildMap(w.pending);
      fileMap, dirMap := m, w.dirs;
      WriteDirty(thread, dirty, fates);
      RemoveZombies(thread, cleanup);
      pending := pending + w.retry;
    }

    /** The watcher reports a path. */
    method NotifyChangeDetected(path: Path)
      modifies this`pending
      ensures pending == old(pending) + {path}
    {
      pending := pending + {path};
    }

    /** What is to be looked at now; what is noticed from here on waits for the next time. */
    method TakeChanges() returns (changes: set<Path>)
      modifies this`pending
      ensures changes == old(pending) && pending == {}
    {
      changes := pending;
      pending := {};
    }

    /** Looks at the changed paths, in some order. */
    method ScanAndHashChanges(thread: Thread, changes: set<Path>, ignored: Path -> bool, sight: Path -> Sight)
      returns (found: Found, order: seq<Path>)
      requires Quiet()
      ensures Distinct(order) && Elements(order) == changes
      ensures found == ChangesFound(store.cache, ignored, sight, order)
    {
      hide LookAt, Hashed;
      var b := NOTHING;
      var rest := changes;
      order := [];
      while rest != {}
        invariant rest <= changes && Elements(order) == changes - rest && Distinct(order)
        invariant b == LookAtAll(store.cache, ignored, sight, order)
        decreases rest
      {
        var p :| p in rest;
        OneMoreChange(order, p);
        b := LookAtOne(thread, b, p, ignored, sight(p));
        order, rest := order + [p], rest - {p};
      }
      found := b.found;
      if b.hashing {
        var updates := DropUnhashed(found.updates);
        found := found.(updates := updates);
      }
    }

    method LookAtOne(thread: Thread, b: Batch, path: Path, ignored: Path -> bool, sight: Sight) returns (b1: Batch)
      requires Quiet()
      ensures b1 == LookAt(store.cache, ignored, b, path, sight)
    {
      var f := b.found;
      if sight.Failing? { return b.(found := f.(failed := f.failed + {path})); }
      if path == "" || ignored(path) { return b; }
      match sight
      case Gone => return b.(found := f.(deleted := f.deleted + [path]));
      case Folder => return b.(found := f.(created := f.created + [path]));
      case Outside => return b;
      case Other => return b;
      case File(mtime, size, content) =>
        if mtime.None? { return b.(found := f.(failed := f.failed + {path})); }
        var cached := store.Lookup(thread, path);
        if cached.Some? && cached.value.mtime == mtime.value {
          return b.(found := f.(updates := f.updates + [FileInfo(path, cached.value.hash, mtime.value, size)]));
        }
        f := f.(updates := f.updates + [FileInfo(path, content, mtime.value, size)]);
        if content == "" { f := f.(failed := f.failed + {path}); }
        return Batch(f, true);
    }

    static method DropUnhashed(updates: seq<FileInfo>) returns (kept: seq<FileInfo>)
      ensures kept == Hashed(updates)
    {
      kept := [];
      for i := 0 to |updates|
        invariant kept == Hashed(updates[..i])
      {
        assert updates[..i + 1][..i] == updates[..i];
        if updates[i].hash != "" { kept := kept + [updates[i]]; }
      }
      assert updates[..|updates|] == updates;
    }

    method MarkFileReceived(path: Path, hash: string)
      modifies this`received
      ensures received == old(received)[path := hash]
    {
      received := received[path := hash];
    }

    method CheckAndClearEcho(path: Path, hash: string) returns (echo: bool)
      modifies this`received
      ensures echo == (path in old(received) && old(received)[path] == hash)
      ensures received == if echo then old(received) - {path} else old(received)
    {
      if path in received && received[path] == hash {
        received := received - {path};
        return true;
      }
      return false;
    }

    method UpdateMaps(updates: seq<FileInfo>) returns (announced: seq<FileInfo>)
      modifies this`fileMap, this`received
      ensures fileMap == WithUpdates(old(fileMap), updates)
      ensures Announced(announced, received) == Announce(old(received), updates)
    {
      announced := [];
      for i := 0 to |updates|
        invariant fileMap == WithUpdates(old(fileMap), updates[..i])
        invariant Announced(announced, received) == Announce(old(received), updates[..i])
      {
        assert updates[..i + 1][..i] == updates[..i];
        fileMap := fileMap[updates[i].path := updates[i]];
        var echo := CheckAndClearEcho(updates[i].path, updates[i].hash);
        if echo { continue; }
        announced := announced + [updates[i]];
      }
      assert updates[..|updates|] == updates;
    }

    method CreateDirs(created: seq<Path>) returns (dirCreates: seq<Path>)
      modifies this`dirMap
      ensures dirMap == old(dirMap) + Elements(created)
      ensures forall p :: p in dirCreates <==> p in created && p !in old(dirMap)
    {
      dirCreates := [];
      for i := 0 to |created|
        invariant dirMap == old(dirMap) + Elements(created[..i])
        invariant forall p :: p in dirCreates <==> p in created[..i] && p !in old(dirMap)
      {
        if created[i] !in dirMap {
          dirMap := dirMap + {created[i]};
          dirCreates := dirCreates + [created[i]];
        }
      }
    }

    method DeletePaths(deleted: seq<Path>) returns (fileDeletes: seq<Path>, dirDeletes: seq<Path>)
      modifies this`fileMap, this`dirMap
      ensures Deleted(fileMap, dirMap, fileDeletes, dirDeletes) == DeleteAll(old(fileMap), old(dirMap), deleted)
    {
      fileDeletes, dirDeletes := [], [];
      for i := 0 to |deleted|
        invariant Deleted(fileMap, dirMap, fileDeletes, dirDeletes)
            == DeleteAll(old(fileMap), old(dirMap), deleted[..i])
      {
        assert deleted[..i + 1][..i] == deleted[..i];
        if deleted[i] in fileMap {
          fileMap := fileMap - {deleted[i]};
          fileDeletes := fileDeletes + [deleted[i]];
        } else if deleted[i] in dirMap {
          dirMap := dirMap - {deleted[i]};
          dirDeletes := dirDeletes + [deleted[i]];
        }
      }
      assert deleted[..|deleted|] == deleted;
    }

    /** Returns what is announced to the peers, whether or not the database took it. */
    method CommitChanges(thread: Thread, found: Found, fate: Fate)
      returns (fileUpdates: seq<FileInfo>, fileDeletes: seq<Path>, dirCreates: seq<Path>, dirDeletes: seq<Path>)
      requires Quiet()
      modifies this, store, store.db
      ensures Quiet() && View() == AfterChanges(old(View()), found, fate)
      ensures fileUpdates == Announce(old(received), found.updates).updates
      ensures var d := AfterDeletions(old(View()), found); fileDeletes == d.removedFiles && dirDeletes == d.removedDirs
      ensures forall p :: p in dirCreates <==> p in found.created && p !in old(dirMap)
    {
      fileUpdates := UpdateMaps(found.updates);
      dirCreates := CreateDirs(found.created);
      fileDeletes, dirDeletes := DeletePaths(found.deleted);
      InTransaction(thread, UpdateOps(found.updates) + RemoveOps(fileDeletes), fate);
      pending := pending + found.failed;
    }

    method RemovePathFromMap(thread: Thread, path: Path, removed: bool, forgotten: bool, committed: bool)
      requires Quiet()
      modifies this`fileMap, this`history, store, store.db
      ensures Quiet() && View() == AfterRemoval(old(View()), path, removed, forgotten, committed)
    {
      ghost var t := store.cache;
      ReplayOneMore(t, [], Remove(path));
      fileMap := fileMap - {path};
      store.BeginGuard(thread);
      var _ := store.Put(thread, Remove(path), removed);
      assert [] + [Remove(path)] == [Remove(path)];
      var left := if forgotten then Forget(history, path) else history;
      var done := store.CommitGuard(committed);
      if done { history := left; }
      store.ReleaseGuard();
    }

    method RecordSyncSuccess(peer: string, path: Path, hash: string, ok: bool)
      modifies this`history
      ensures history == if ok then old(history)[(peer, path) := hash] else old(history)
    {
      if ok { history := history[(peer, path) := hash]; }
    }
  }

  lemma OneMoreChange(order: seq<Path>, p: Path)
    ensures (order + [p])[..|order|] == order && Elements(order + [p]) == Elements(order) + {p}
    ensures Distinct(order) && p !in Elements(order) ==> Distinct(order + [p])
  {
  }

  lemma {:induction false} AfterTooManyErrors(cache: Table, ignored: Path -> bool, entries: seq<Entry>, i: nat)
    requires i <= |entries| && WalkAll(cache, ignored, entries[..i]).errors >= MAX_ERROR_COUNT
    ensures WalkAll(cache, ignored, entries) == WalkAll(cache, ignored, entries[..i])
    decreases |entries|
  {
    if i < |entries| {
      var init := entries[..|entries| - 1];
      assert init[..i] == entries[..i];
      AfterTooManyErrors(cache, ignored, init, i);
    } else {
      assert entries[..i] == entries;
    }
  }

  lemma {:induction false} RemovalsRestrict(t: Table, paths: seq<Path>)
    ensures Replay(t, RemoveOps(paths)) == map p | p in t && p !in paths :: t[p]
    decreases |paths|
  {
    if paths == [] {
      assert RemoveOps(paths) == [];
    } else {
      var init, last := paths[..|paths| - 1], paths[|paths| - 1];
      RemovalsRestrict(t, init);
      assert paths == init + [last];
      assert RemoveOps(paths)[..|paths| - 1] == RemoveOps(init);
    }
  }
}
