/** The transfer manager as the program runs it: its tables are fields that the methods
    reassign step by step, and every method is tied to its function in Receiving. */
module TransferManager {
  import opened Wrappers
  import opened KcpProto
  import opened ChunkCodec
  import opened Chunks
  import opened Bitmap
  import opened Receiving

  class TransferManager {
    const cfg: Config
    var files: map<Path, Recv>
    var disk: Disk
    var tasks: map<Path, Task>
    var synced: map<Path, Hash>
    var sending: set<(PeerId, Path)>
    ghost var uploads: nat
    var sessionTotal: nat
    var sessionDone: nat

    ghost function View(): View
      reads this
    {
      Receiving.View(files, disk, tasks, synced, sending, uploads, sessionTotal, sessionDone)
    }

    /** The constructor starts from what survived on disk and in the database and loads it. */
    constructor (cfg: Config, disk: Disk, tasks: map<Path, Task>)
      requires TasksReadable(tasks)
      ensures this.cfg == cfg
      ensures View() == Load(Receiving.View(map[], disk, tasks, map[], {}, 0, 0, 0))
    {
      this.cfg := cfg;
      this.disk, this.tasks := disk, tasks;
      files, synced, sending, uploads, sessionTotal, sessionDone := map[], map[], {}, 0, 0, 0;
      new;
      LoadDownloadState();
    }

    /** The entry for a chunk, created or brought up to date. */
    method LookupOrCreateReceiving(path: Path, total: nat, peer: PeerId, removed: bool) returns (needOpen: bool)
      modifies this`files, this`disk, this`sessionTotal
      ensures var f := Find(old(View()), path, total, peer, removed);
        needOpen == f.needOpen && View() == Located(old(View()), path, f)
    {
      var entry;
      if path !in files {
        entry := Recv(TempOf(path), total, 0, Clear(total), peer, "", 0, false, true);
        needOpen := true;
        sessionTotal := sessionTotal + 1;
      } else {
        entry := files[path].(peer := peer);
        needOpen := false;
        if entry.total == 0 {
          entry := entry.(total := total, bitmap := Resize(entry.bitmap, total));
        } else if entry.total != total {
          entry := entry.(isOpen := false);
          if entry.tempPath != [] && removed {
            disk := disk - {entry.tempPath};
          }
          entry := entry.(total := total, received := 0, bitmap := Clear(total), tempPath := TempOf(path));
          needOpen := true;
        }
        if entry.tempPath == [] {
          entry := entry.(tempPath := TempOf(path));
          needOpen := true;
          sessionTotal := sessionTotal + 1;
        }
        entry := entry.(busy := true);
      }
      files := files[path := entry];
    }

    /** Temp file to final file: renamed, or else copied and removed; when neither works the temp
        file stays. */
    method MoveIntoPlace(path: Path, temp: Path, io: Io) returns (created: bool)
      modifies this`disk
      ensures (disk, created) == Placed(old(disk), path, temp, io)
      ensures created == (temp in old(disk) && (io.rename || io.copy))
      ensures created ==> path in disk && disk[path] == old(disk)[temp]
      ensures !created && temp != path ==> (temp in disk <==> temp in old(disk))
    {
      if temp in disk && io.rename {
        disk := (disk - {temp})[path := disk[temp]];
        return true;
      }
      var source := if temp in disk then Some(disk[temp]) else None;
      if io.rmOld { disk := disk - {path}; }
      if source.None? || !io.copy { return false; }
      ghost var cleared := disk;
      disk := disk[path := source.value];
      // The copy stays; only then does the temp file go.
      if io.rmTemp {
        disk := (disk - {temp})[path := source.value];
        assert disk == (cleared - {temp})[path := source.value];
      }
      return true;
    }

    method FinalizeReceivedFile(path: Path, entry: Recv, peer: PeerId, io: Io)
      modifies this
      ensures View() == Finalize(cfg, old(View()), path, entry, peer, io)
    {
      var finalCreated := MoveIntoPlace(path, entry.tempPath, io);
      if finalCreated && peer != "" {
        var newHash := cfg.sha(disk[path]);
        if entry.hash == "" || newHash == entry.hash {
          synced := synced[path := newHash];
        } else if io.rmCorrupt {
          disk := disk - {path};
        }
      }
      sessionDone := sessionDone + 1;
      files := files - {path};
      tasks := tasks - {path};
    }

    method HandleChunk(payload: seq<byte>, peer: PeerId, io: Io)
      modifies this
      ensures View() == Receiving.HandleChunk(cfg, old(View()), payload, peer, io)
    {
      var hdr := ParseChunkPayload(cfg.snappy, payload);
      if !ValidHeader(hdr) || !io.pathSafe { return; }
      var ready := PrepareStream(hdr, peer, io);
      if ready { WriteChunk(hdr, peer, io); }
    }

    /** Entry, directories and stream: everything before the bitmap is looked at. */
    method PrepareStream(hdr: ChunkHeader, peer: PeerId, io: Io) returns (ready: bool)
      modifies this
      ensures ready ==> hdr.filePath in files
      ensures Ready(old(View()), hdr, peer, io) == (View(), if ready then Some(files[hdr.filePath]) else None)
    {
      var path := hdr.filePath;
      var needOpen := LookupOrCreateReceiving(path, hdr.totalChunks, peer, io.rmOther);
      var entry := files[path];
      if needOpen && !io.mkdir {
        sessionDone := sessionDone + 1;
        files := files - {path};
        return false;
      }
      if !entry.isOpen {
        var stream := OpenTemp(disk, entry.tempPath, needOpen, io.open);
        if stream == None {
          if io.rmTemp { disk := disk - {entry.tempPath}; }
          sessionDone := sessionDone + 1;
          files := files - {path};
          return false;
        }
        disk := stream.value;
        files := files[path := entry.(isOpen := true)];
      }
      return true;
    }

    method WriteStream(temp: Path, off: nat, data: seq<byte>)
      modifies this`disk
      ensures disk == old(disk)[temp := WriteAt(if temp in old(disk) then old(disk)[temp] else [], off, data)]
    {
      var content := if temp in disk then disk[temp] else [];
      disk := disk[temp := WriteAt(content, off, data)];
    }

    /** The locked part of handling a chunk, once the stream is open. */
    method WriteChunk(hdr: ChunkHeader, peer: PeerId, io: Io)
      requires hdr.filePath in files && hdr.chunkIndex < hdr.totalChunks
      modifies this
      ensures View() == Store(cfg, old(View()), hdr, peer, io, old(files[hdr.filePath]))
    {
      hide Finalize, WriteAt, Offset;
      var path := hdr.filePath;
      var entry := files[path];
      if |entry.bitmap| <= hdr.chunkIndex {
        entry := entry.(bitmap := Resize(entry.bitmap, hdr.totalChunks));
      }
      if entry.bitmap[hdr.chunkIndex] {
        files := files[path := entry.(busy := false)];
        return;
      }
      // What a failed write has written may stay, if the temp file cannot be removed.
      var data := if io.write then hdr.data else hdr.data[..Min(io.part, |hdr.data|)];
      WriteStream(entry.tempPath, Offset(hdr.chunkIndex, cfg.chunkSize), data);
      if !io.write {
        if io.rmTemp { disk := disk - {entry.tempPath}; }
        sessionDone := sessionDone + 1;
        files := files - {path};
        return;
      }
      entry := entry.(bitmap := entry.bitmap[hdr.chunkIndex := true], received := entry.received + 1);
      if entry.received >= entry.total {
        FinalizeReceivedFile(path, entry, peer, io);
      } else {
        files := files[path := entry.(busy := false)];
      }
    }

    method CheckResumeEligibility(path: Path, remoteHash: Hash, remoteSize: nat, removed: bool)
      returns (info: Option<ResumeInfo>)
      modifies this
      ensures (View(), info) == CheckResume(old(View()), path, remoteHash, remoteSize, removed)
    {
      if path !in files { return None; }
      var entry := files[path];
      if entry.total > 0 && entry.received >= entry.total { return None; }
      if entry.received == 0 { return None; }
      if !Exists(disk, entry.tempPath) {
        files := files - {path};
        return None;
      }
      if entry.hash != "" && remoteHash != "" && entry.hash != remoteHash {
        if removed { disk := disk - {entry.tempPath}; }
        files := files - {path};
        return None;
      }
      if entry.size > 0 && remoteSize > 0 && entry.size != remoteSize {
        if removed { disk := disk - {entry.tempPath}; }
        files := files - {path};
        return None;
      }
      var contiguous := ContiguousPrefix(entry.bitmap);
      info := Some(ResumeInfo(path, contiguous, entry.total, entry.hash, entry.size, entry.tempPath));
    }

    method RegisterExpectedMetadata(path: Path, peer: PeerId, hash: Hash, size: nat)
      modifies this`files
      ensures View() == Register(old(View()), path, peer, hash, size)
    {
      if path in files {
        var entry := files[path];
        if entry.received > 0 { return; }
        files := files[path := entry.(peer := peer, hash := hash, size := size)];
      } else {
        files := files[path := Recv([], 0, 0, [], peer, hash, size, false, false)];
      }
    }

    method CancelReceivesForPeer(peer: PeerId)
      modifies this`files
      ensures View() == Cancel(old(View()), peer)
    {
      var rest := files.Keys;
      while rest != {}
        invariant rest <= files.Keys == old(files).Keys
        invariant forall p :: p in files ==>
          files[p] == if p in rest then old(files)[p] else Released(old(files)[p], peer)
        decreases rest
      {
        var p :| p in rest;
        if files[p].peer == peer && !files[p].busy {
          files := files[p := files[p].(isOpen := false, peer := "")];
        }
        rest := rest - {p};
      }
    }

    method CleanupStaleBuffers(expired: set<Path>, saved: set<Path>)
      modifies this`files, this`tasks
      ensures View() == Cleanup(old(View()), expired, saved)
    {
      var rest := files.Keys;
      while rest != {}
        invariant rest <= files.Keys <= old(files).Keys && tasks == old(tasks)
        invariant forall p :: p in old(files) ==>
          (p in files <==> p in rest || !(p in expired && Zombie(old(files)[p])))
        invariant forall p :: p in files ==>
          files[p] == if p !in rest && p in expired then Expired(old(files)[p]) else old(files)[p]
        decreases rest
      {
        var p :| p in rest;
        if !files[p].busy && p in expired {
          if files[p].total == 0 {
            files := files - {p};
          } else {
            files := files[p := files[p].(isOpen := false)];
          }
        }
        rest := rest - {p};
      }
      assert files == Swept(old(files), expired);
      assert View() == old(View()).(files := Swept(old(files), expired));
      PersistDownloadState(saved);
    }

    static method RecordOf(entry: Recv) returns (task: Task)
      ensures task == TaskOf(entry)
    {
      var packed := SerializeBitmap(entry.bitmap);
      task := Task(entry.peer, entry.total, packed, entry.hash, entry.size, entry.tempPath);
    }

    method PersistDownloadState(saved: set<Path>)
      modifies this`tasks
      ensures View() == Persist(old(View()), saved)
    {
      var rest := files.Keys;
      while rest != {}
        invariant rest <= files.Keys
        invariant tasks.Keys == old(tasks).Keys + (files.Keys - rest) * saved
        invariant forall p :: p in tasks ==>
          tasks[p] == if p in files && p !in rest && p in saved then TaskOf(files[p]) else old(tasks)[p]
        decreases rest
      {
        var p :| p in rest;
        var task := RecordOf(files[p]);
        if p in saved { tasks := tasks[p := task]; }
        rest := rest - {p};
      }
      PersistedTable(old(View()), saved, tasks);
    }

    method LoadDownloadState()
      requires TasksReadable(tasks)
      modifies this`files, this`tasks, this`sessionTotal
      ensures View() == Load(old(View()))
    {
      var rest := tasks.Keys;
      ghost var v := View();
      LoadingStart(v);
      while rest != {}
        invariant TasksReadable(v.tasks) && Loading(v, rest, View())
        decreases rest
      {
        var p :| p in rest;
        LoadingStep(v, rest, View(), p);
        LoadOne(p);
        rest := rest - {p};
      }
      LoadingDone(v, View());
    }

    method LoadOne(p: Path)
      requires p in tasks && PackedLength(tasks[p].total) <= |tasks[p].packed|
      modifies this`files, this`tasks, this`sessionTotal
      ensures View() == LoadRow(old(View()), p)
    {
      if !Exists(disk, tasks[p].tempPath) {
        tasks := tasks - {p};
        return;
      }
      var entry := RestoreEntry(tasks[p]);
      files := files[p := entry];
      sessionTotal := sessionTotal + 1;
    }

    static method RestoreEntry(task: Task) returns (entry: Recv)
      requires PackedLength(task.total) <= |task.packed|
      ensures entry == EntryOf(task)
    {
      var bitmap := DeserializeBitmap(task.packed, task.total);
      var count := CountBits(bitmap);
      entry := Recv(task.tempPath, task.total, count, bitmap, task.peer, task.hash, task.size, false, false);
    }

    method QueueUpload(peer: PeerId, path: Path)
      modifies this`sending, this`uploads, this`sessionTotal
      ensures View() == BeginUpload(old(View()), peer, path)
    {
      sending := sending + {(peer, path)};
      sessionTotal := sessionTotal + 1;
      uploads := uploads + 1;
    }

    method FinishUpload(peer: PeerId, path: Path)
      requires uploads > 0
      modifies this`sending, this`uploads, this`sessionDone
      ensures View() == EndUpload(old(View()), peer, path)
    {
      sending := sending - {(peer, path)};
      sessionDone := sessionDone + 1;
      uploads := uploads - 1;
    }

    method CancelSendsForPeer(peer: PeerId)
      modifies this`sending
      ensures View() == CancelSends(old(View()), peer)
    {
      var rest := sending;
      while rest != {}
        invariant rest <= old(sending)
        invariant sending == set k | k in old(sending) && (k in rest || k.0 != peer)
        decreases rest
      {
        var k :| k in rest;
        if k.0 == peer { sending := sending - {k}; }
        rest := rest - {k};
      }
    }
  }
}
