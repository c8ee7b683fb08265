/** What every operation of the transfer manager keeps, over whole runs: the receive table is
    well formed, and the session counters never claim more finished work than was started. */
module ReceiveInvariant {
  import opened KcpProto
  import opened ChunkCodec
  import opened Bitmap
  import opened Receiving

  /** A mapped entry between steps. */
  predicate EntryOk(e: Recv) {
    && |e.bitmap| == e.total
    && e.received == Count(e.bitmap)
    && (e.total == 0 <==> e.tempPath == [])
    && !e.busy
  }

  predicate RowOk(t: Task) {
    && |t.packed| == PackedLength(t.total)
    && (t.total == 0 <==> t.tempPath == [])
  }

  ghost predicate EntriesOk(files: map<Path, Recv>) {
    forall p :: p in files ==> EntryOk(files[p])
  }

  ghost predicate RowsOk(tasks: map<Path, Task>) {
    forall p :: p in tasks ==> RowOk(tasks[p])
  }

  /** The entries that were counted into the session total. */
  function Begun(files: map<Path, Recv>): set<Path> {
    set p | p in files && files[p].tempPath != []
  }

  /** What the session total counts that is neither finished nor under way. */
  function Lost(v: View): int {
    v.total - v.done - v.uploads - |Begun(v.files)|
  }

  ghost predicate ViewOk(v: View) {
    EntriesOk(v.files) && RowsOk(v.tasks)
  }

  lemma RowsReadable(tasks: map<Path, Task>)
    requires RowsOk(tasks)
    ensures TasksReadable(tasks)
  {
  }

  // ---------------------------------------------------------------- counting entries

  lemma RemovedCount(files: map<Path, Recv>, p: Path)
    ensures |Begun(files - {p})| == |Begun(files)| - if p in files && files[p].tempPath != [] then 1 else 0
  {
    assert Begun(files - {p}) == Begun(files) - {p};
  }

  lemma PutCount(files: map<Path, Recv>, p: Path, e: Recv)
    ensures |Begun(files[p := e])| == |Begun(files - {p})| + if e.tempPath != [] then 1 else 0
  {
    var rest, now := Begun(files - {p}), Begun(files[p := e]);
    assert p !in rest;
    assert now == if e.tempPath != [] then rest + {p} else rest;
    hide Begun;
    OneMore(rest, p);
  }

  lemma OneMore(s: set<Path>, p: Path)
    ensures p !in s ==> |s + {p}| == |s| + 1
  {
  }

  // ---------------------------------------------------------------- one chunk

  /** The entry a chunk works on: as between steps, but busy, with a temp path, and of the
      chunk's total. */
  predicate Working(e: Recv, total: nat) {
    && EntryOk(e.(busy := false)) && e.busy
    && e.total == total && e.tempPath != []
  }

  lemma FindWorks(v: View, path: Path, total: nat, peer: PeerId, removed: bool)
    requires EntriesOk(v.files) && total > 0
    ensures Working(Find(v, path, total, peer, removed).entry, total)
    ensures Find(v, path, total, peer, removed).counted + (if path in Begun(v.files) then 1 else 0) == 1
  {
    if path in v.files {
      var e := v.files[path];
      if e.total == 0 {
        assert Resize(e.bitmap, total) == Clear(total);
      }
    }
  }

  lemma FinalizeKeeps(cfg: Config, v: View, path: Path, e: Recv, peer: PeerId, io: Io)
    requires EntriesOk(v.files - {path}) && RowsOk(v.tasks)
    requires path in Begun(v.files)
    ensures var after := Finalize(cfg, v, path, e, peer, io); ViewOk(after) && Lost(after) == Lost(v)
  {
    RemovedCount(v.files, path);
    var after := Finalize(cfg, v, path, e, peer, io);
    assert after.files == v.files - {path} && after.tasks == v.tasks - {path};
    assert after.done == v.done + 1 && after.total == v.total && after.uploads == v.uploads;
  }

  lemma StoreKeeps(cfg: Config, v: View, hdr: ChunkHeader, peer: PeerId, io: Io, e: Recv)
    requires EntriesOk(v.files - {hdr.filePath}) && RowsOk(v.tasks)
    requires hdr.filePath in v.files && v.files[hdr.filePath] == e
    requires hdr.chunkIndex < hdr.totalChunks && Working(e, hdr.totalChunks)
    ensures var after := Store(cfg, v, hdr, peer, io, e); ViewOk(after) && Lost(after) == Lost(v)
  {
    assert hdr.filePath in Begun(v.files);
    hide Finalize, Written, PartWritten, Count, Begun;
    var path := hdr.filePath;
    RemovedCount(v.files, path);
    if e.bitmap[hdr.chunkIndex] {
      PutKeeps(v, path, e.(busy := false));
    } else if !io.write {
    } else {
      CountOfSet(e.bitmap, hdr.chunkIndex);
      var disk := v.disk[e.tempPath := Written(cfg, v.disk, e, hdr)];
      var e1 := e.(bitmap := e.bitmap[hdr.chunkIndex := true], received := e.received + 1);
      if e1.received >= e1.total {
        FinalizeKeeps(cfg, v.(disk := disk), path, e1, peer, io);
      } else {
        PutKeeps(v, path, e1.(busy := false));
      }
    }
  }

  /** Replacing an entry by one that still has a temp path. */
  lemma PutKeeps(v: View, path: Path, e: Recv)
    requires EntriesOk(v.files - {path}) && RowsOk(v.tasks)
    requires path in Begun(v.files) && EntryOk(e) && e.tempPath != []
    ensures ViewOk(Put(v, path, e)) && Lost(Put(v, path, e)) == Lost(v)
  {
    RemovedCount(v.files, path);
    PutCount(v.files, path, e);
    assert forall p :: p in v.files && p != path ==> p in v.files - {path};
  }

  lemma LocatedKeeps(v: View, path: Path, total: nat, peer: PeerId, removed: bool)
    requires ViewOk(v) && total > 0
    ensures var f := Find(v, path, total, peer, removed);
      var v1 := Located(v, path, f);
      && Working(f.entry, total) && path in Begun(v1.files) && v1.files[path] == f.entry
      && EntriesOk(v1.files - {path}) && RowsOk(v1.tasks) && Lost(v1) == Lost(v)
  {
    var f := Find(v, path, total, peer, removed);
    FindWorks(v, path, total, peer, removed);
    RemovedCount(v.files, path);
    PutCount(v.files, path, f.entry);
    var v1 := Located(v, path, f);
    assert v1.files - {path} == v.files - {path};
  }

  lemma DropKeeps(v: View, path: Path)
    requires EntriesOk(v.files - {path}) && RowsOk(v.tasks) && path in Begun(v.files)
    ensures ViewOk(Drop(v, path)) && Lost(Drop(v, path)) == Lost(v)
  {
    RemovedCount(v.files, path);
  }

  lemma OpenKeeps(v: View, path: Path, e: Recv)
    requires path in Begun(v.files) && v.files[path] == e && EntriesOk(v.files - {path})
    ensures var after := Put(v, path, e.(isOpen := true));
      Lost(after) == Lost(v) && after.files - {path} == v.files - {path}
  {
    RemovedCount(v.files, path);
    PutCount(v.files, path, e.(isOpen := true));
    assert v.files[path := e.(isOpen := true)] - {path} == v.files - {path};
  }

  /** A ready entry is the located one with its stream open, and nothing else has moved. */
  lemma ReadyKeeps(v: View, hdr: ChunkHeader, peer: PeerId, io: Io)
    requires ViewOk(v) && hdr.totalChunks > 0
    ensures var (w, ready) := Ready(v, hdr, peer, io); var path := hdr.filePath;
      && Lost(w) == Lost(v)
      && if ready.None? then ViewOk(w)
      else
        && EntriesOk(w.files - {path}) && RowsOk(w.tasks)
        && path in w.files && w.files[path] == ready.value && Working(ready.value, hdr.totalChunks)
  {
    var path := hdr.filePath;
    var f := Find(v, path, hdr.totalChunks, peer, io.rmOther);
    LocatedKeeps(v, path, hdr.totalChunks, peer, io.rmOther);
    var v1 := Located(v, path, f);
    DropKeeps(v1, path);
    OpenKeeps(v1, path, f.entry);
    hide Find, Located, EntriesOk, RowsOk, Begun, Count;
  }

  lemma HandleHeaderKeeps(cfg: Config, v: View, hdr: ChunkHeader, peer: PeerId, io: Io)
    requires ViewOk(v)
    ensures var after := HandleHeader(cfg, v, hdr, peer, io); ViewOk(after) && Lost(after) == Lost(v)
  {
    if ValidHeader(hdr) && io.pathSafe {
      ReadyKeeps(v, hdr, peer, io);
      var (w, ready) := Ready(v, hdr, peer, io);
      hide Ready, Store, ViewOk;
      if ready.Some? { StoreKeeps(cfg, w, hdr, peer, io, ready.value); }
    }
  }

  // ---------------------------------------------------------------- the other operations

  lemma ForgetKeeps(v: View, path: Path)
    requires ViewOk(v) && path in v.files && v.files[path].received > 0
    ensures ViewOk(Forget(v, path)) && Lost(Forget(v, path)) == Lost(v) + 1
  {
    assert EntryOk(v.files[path]);
    RemovedCount(v.files, path);
  }

  lemma CheckResumeKeeps(v: View, path: Path, hash: Hash, size: nat, removed: bool)
    requires ViewOk(v)
    ensures var after := CheckResume(v, path, hash, size, removed).0;
      ViewOk(after) && Lost(after) == Lost(v) + if path in v.files && path !in after.files then 1 else 0
  {
    if path in v.files && v.files[path].received > 0 { ForgetKeeps(v, path); }
    hide EntriesOk, RowsOk, Begun, Contiguous;
  }

  lemma RegisterKeeps(v: View, path: Path, peer: PeerId, hash: Hash, size: nat)
    requires ViewOk(v)
    ensures var after := Register(v, path, peer, hash, size); ViewOk(after) && Lost(after) == Lost(v)
  {
    RemovedCount(v.files, path);
    if path in v.files {
      PutCount(v.files, path, v.files[path].(peer := peer, hash := hash, size := size));
    } else {
      PutCount(v.files, path, Recv([], 0, 0, [], peer, hash, size, false, false));
    }
  }

  lemma CancelKeeps(v: View, peer: PeerId)
    requires ViewOk(v)
    ensures ViewOk(Cancel(v, peer)) && Lost(Cancel(v, peer)) == Lost(v)
  {
    assert Begun(Cancel(v, peer).files) == Begun(v.files);
  }

  lemma PersistKeeps(v: View, saved: set<Path>)
    requires ViewOk(v)
    ensures ViewOk(Persist(v, saved)) && Lost(Persist(v, saved)) == Lost(v)
  {
    forall p | p in v.files ensures RowOk(TaskOf(v.files[p])) {
      assert EntryOk(v.files[p]);
    }
  }

  lemma CleanupKeeps(v: View, expired: set<Path>, saved: set<Path>)
    requires ViewOk(v)
    ensures var after := Cleanup(v, expired, saved); ViewOk(after) && Lost(after) == Lost(v)
  {
    var v1 := v.(files := Swept(v.files, expired));
    assert Begun(v1.files) == Begun(v.files);
    PersistKeeps(v1, saved);
  }

  lemma LoadedOk(t: Task)
    requires RowOk(t)
    ensures PackedLength(t.total) <= |t.packed| && EntryOk(EntryOf(t))
  {
  }

  lemma LoadedShape(v: View)
    requires TasksReadable(v.tasks)
    ensures var after, kept := Load(Crash(v)), Loadable(v.tasks, v.disk);
      && after.tasks == kept && after.files == Restored(kept)
      && after.done == 0 && after.uploads == 0 && after.total == |kept|
  {
    hide Restored;
    assert map[] + Restored(Loadable(v.tasks, v.disk)) == Restored(Loadable(v.tasks, v.disk));
  }

  lemma RestoredOk(kept: map<Path, Task>)
    requires RowsOk(kept) && forall p :: p in kept ==> kept[p].tempPath != []
    ensures TasksReadable(kept) && EntriesOk(Restored(kept)) && Begun(Restored(kept)) == kept.Keys
  {
    RowsReadable(kept);
    forall p | p in kept ensures EntryOk(Restored(kept)[p]) && Restored(kept)[p].tempPath != [] {
      LoadedOk(kept[p]);
    }
    hide EntryOf, RowOk;
  }

  lemma LoadKeeps(v: View)
    requires RowsOk(v.tasks)
    ensures ViewOk(Load(Crash(v))) && Lost(Load(Crash(v))) == 0
  {
    LoadedShape(v);
    RestoredOk(Loadable(v.tasks, v.disk));
    hide Load, Crash, Restored, RowOk, EntryOk, Begun;
  }

  // ---------------------------------------------------------------- runs

  datatype Op =
    | Chunk(payload: seq<byte>, peer: PeerId, io: Io)
    | Resume(path: Path, hash: Hash, size: nat, removed: bool)
    | Preregister(path: Path, peer: PeerId, hash: Hash, size: nat)
    | PeerLost(peer: PeerId)
    | Sweep(expired: set<Path>, saved: set<Path>)
    | Restart
    | UploadStarts(peer: PeerId, path: Path)
    | UploadEnds(peer: PeerId, path: Path)
    | UploadVanishes

  /** One atomic step; an upload can only end while one is live. */
  function Step(cfg: Config, v: View, op: Op): View
    requires TasksReadable(v.tasks)
  {
    match op
    case Chunk(payload, peer, io) => HandleChunk(cfg, v, payload, peer, io)
    case Resume(path, hash, size, removed) => CheckResume(v, path, hash, size, removed).0
    case Preregister(path, peer, hash, size) => Register(v, path, peer, hash, size)
    case PeerLost(peer) => CancelSends(Cancel(v, peer), peer)
    case Sweep(expired, saved) => Cleanup(v, expired, saved)
    case Restart => Load(Crash(v))
    case UploadStarts(peer, path) => BeginUpload(v, peer, path)
    case UploadEnds(peer, path) => if v.uploads > 0 then EndUpload(v, peer, path) else v
    case UploadVanishes => if v.uploads > 0 then LoseUpload(v) else v
  }

  /** What a step loses of the session total: an entry that is forgotten because it cannot be
      resumed, and an upload task that stops without a word. */
  function LosesOne(cfg: Config, v: View, op: Op): bool
    requires TasksReadable(v.tasks)
  {
    match op
    case Resume(path, _, _, _) => path in v.files && path !in Step(cfg, v, op).files
    case UploadVanishes => v.uploads > 0
    case _ => false
  }

  lemma UploadKeeps(cfg: Config, v: View, op: Op)
    requires ViewOk(v) && TasksReadable(v.tasks) && (op.UploadStarts? || op.UploadEnds? || op.UploadVanishes?)
    ensures ViewOk(Step(cfg, v, op)) && Lost(Step(cfg, v, op)) == Lost(v) + if LosesOne(cfg, v, op) then 1 else 0
  {
    hide EntriesOk, RowsOk, Begun;
  }

  lemma CancelSendsKeeps(v: View, peer: PeerId)
    ensures var w := CancelSends(v, peer); (ViewOk(v) ==> ViewOk(w)) && Lost(w) == Lost(v)
  {
    hide EntriesOk, RowsOk, Begun;
  }

  lemma StepKeeps(cfg: Config, v: View, op: Op)
    requires ViewOk(v) && TasksReadable(v.tasks)
    ensures ViewOk(Step(cfg, v, op))
    ensures Lost(Step(cfg, v, op))
         == if op.Restart? then 0 else Lost(v) + if LosesOne(cfg, v, op) then 1 else 0
  {
    if op.Restart? { LoadKeeps(v); }
    hide EntriesOk, RowsOk, Lost, Cancel, CancelSends, Parse, HandleHeader, Register, Cleanup, CheckResume, Load, Crash;
    match op
    case Chunk(payload, peer, io) => HandleHeaderKeeps(cfg, v, Parse(cfg.snappy, payload), peer, io);
    case Resume(path, hash, size, removed) => CheckResumeKeeps(v, path, hash, size, removed);
    case Preregister(path, peer, hash, size) => RegisterKeeps(v, path, peer, hash, size);
    case PeerLost(peer) =>
      CancelKeeps(v, peer);
      CancelSendsKeeps(Cancel(v, peer), peer);
    case Sweep(expired, saved) => CleanupKeeps(v, expired, saved);
    case Restart =>
    case _ => UploadKeeps(cfg, v, op);
  }

  /** A run from a first start on any disk, with an empty task table. */
  ghost function Run(cfg: Config, disk: Disk, ops: seq<Op>): (v: View)
    ensures ViewOk(v)
  {
    if ops == [] then View(map[], disk, map[], map[], {}, 0, 0, 0)
    else
      var v := Run(cfg, disk, ops[..|ops| - 1]);
      RowsReadable(v.tasks);
      StepKeeps(cfg, v, ops[|ops| - 1]);
      Step(cfg, v, ops[|ops| - 1])
  }

  /** How many steps of a run have lost one since its last restart. */
  ghost function Losses(cfg: Config, disk: Disk, ops: seq<Op>): nat {
    if ops == [] || ops[|ops| - 1].Restart? then 0
    else
      var v := Run(cfg, disk, ops[..|ops| - 1]);
      RowsReadable(v.tasks);
      Losses(cfg, disk, ops[..|ops| - 1]) + if LosesOne(cfg, v, ops[|ops| - 1]) then 1 else 0
  }

  /** Conservation: in every run the session total is what is finished, what is under way, and
      what was lost by a forgotten entry or a vanished upload, and nothing else. */
  lemma {:induction false} SessionExactly(cfg: Config, disk: Disk, ops: seq<Op>)
    ensures var v := Run(cfg, disk, ops);
      v.total == v.done + v.uploads + |Begun(v.files)| + Losses(cfg, disk, ops)
    decreases |ops|
  {
    if ops != [] {
      var init, op := ops[..|ops| - 1], ops[|ops| - 1];
      var v := Run(cfg, disk, init);
      SessionExactly(cfg, disk, init);
      RowsReadable(v.tasks);
      StepKeeps(cfg, v, op);
      hide Step, LosesOne, ViewOk;
    }
  }

  /** In every reachable state the counter of each entry is the number of its set bits, the
      bitmap has the entry's length, a nonzero total means a temp path, nothing is left busy. */
  lemma ReceiveTableIsWellFormed(cfg: Config, disk: Disk, ops: seq<Op>, path: Path)
    requires path in Run(cfg, disk, ops).files
    ensures var e := Run(cfg, disk, ops).files[path];
      && e.received == Count(e.bitmap) && |e.bitmap| == e.total
      && (e.total > 0 <==> e.tempPath != []) && !e.busy
  {
  }

  /** Finished tasks, live uploads and begun receives never exceed the session total. */
  lemma SessionNeverOverrun(cfg: Config, disk: Disk, ops: seq<Op>)
    ensures var v := Run(cfg, disk, ops);
      v.done + v.uploads + |set p | p in v.files && v.files[p].tempPath != []| <= v.total && v.done <= v.total
  {
    SessionExactly(cfg, disk, ops);
    var v := Run(cfg, disk, ops);
    assert Begun(v.files) == set p | p in v.files && v.files[p].tempPath != [];
  }

  /** Whether an upload was started for a peer and path, and since then neither ended, nor lost with
      its peer or in a restart. */
  ghost predicate Uploading(cfg: Config, disk: Disk, ops: seq<Op>, peer: PeerId, path: Path) {
    if ops == [] then false
    else
      var before := Uploading(cfg, disk, ops[..|ops| - 1], peer, path);
      match ops[|ops| - 1]
      case UploadStarts(q, p) => before || (q == peer && p == path)
      case UploadEnds(q, p) => before && !(q == peer && p == path && Run(cfg, disk, ops[..|ops| - 1]).uploads > 0)
      case PeerLost(q) => before && q != peer
      case Restart => false
      case _ => before
  }

  /** In every run the sending records are those uploads. */
  lemma {:induction false} SendingExactly(cfg: Config, disk: Disk, ops: seq<Op>, peer: PeerId, path: Path)
    ensures (peer, path) in Run(cfg, disk, ops).sending <==> Uploading(cfg, disk, ops, peer, path)
    decreases |ops|
  {
    if ops != [] {
      var init, op := ops[..|ops| - 1], ops[|ops| - 1];
      SendingExactly(cfg, disk, init, peer, path);
      RowsReadable(Run(cfg, disk, init).tasks);
      StepSends(cfg, Run(cfg, disk, init), op);
      hide Step, ViewOk;
    }
  }

  /** What a step does to the sending records. */
  lemma StepSends(cfg: Config, v: View, op: Op)
    requires TasksReadable(v.tasks)
    ensures Step(cfg, v, op).sending == match op
      case UploadStarts(peer, path) => v.sending + {(peer, path)}
      case UploadEnds(peer, path) => if v.uploads > 0 then v.sending - {(peer, path)} else v.sending
      case PeerLost(peer) => set k | k in v.sending && k.0 != peer
      case Restart => {}
      case _ => v.sending
  {
    if op.Chunk? { ChunkSends(cfg, v, Parse(cfg.snappy, op.payload), op.peer, op.io); }
    hide HandleHeader, Parse, Contiguous;
  }

  lemma ReadySends(v: View, hdr: ChunkHeader, peer: PeerId, io: Io)
    ensures Ready(v, hdr, peer, io).0.sending == v.sending
  {
    hide Find, OpenTemp;
  }

  lemma StoreSends(cfg: Config, v: View, hdr: ChunkHeader, peer: PeerId, io: Io, e: Recv)
    requires hdr.chunkIndex < hdr.totalChunks
    ensures Store(cfg, v, hdr, peer, io, e).sending == v.sending
  {
    hide Written, PartWritten, Resize, Placed;
  }

  lemma ChunkSends(cfg: Config, v: View, hdr: ChunkHeader, peer: PeerId, io: Io)
    ensures HandleHeader(cfg, v, hdr, peer, io).sending == v.sending
  {
    ReadySends(v, hdr, peer, io);
    var (w, ready) := Ready(v, hdr, peer, io);
    if ValidHeader(hdr) && ready.Some? { StoreSends(cfg, w, hdr, peer, io, ready.value); }
    hide Ready, Store;
  }

  /** Persisting and then restarting restores bitmap, count, totals and expected metadata of
      every task whose temp file is there. */
  lemma PersistThenLoadRestores(v: View, saved: set<Path>, path: Path)
    requires ViewOk(v) && path in v.files && path in saved
    requires Exists(v.disk, v.files[path].tempPath)
    ensures RowsOk(Persist(v, saved).tasks) && TasksReadable(Persist(v, saved).tasks)
    ensures var after := Load(Crash(Persist(v, saved)));
      path in after.files && after.files[path] == v.files[path].(isOpen := false)
  {
    PersistKeeps(v, saved);
    var e := v.files[path];
    assert EntryOk(e);
    PackingRoundTrips(e.bitmap);
    assert Persist(v, saved).tasks[path] == TaskOf(e);
    assert path in Loadable(Persist(v, saved).tasks, v.disk);
  }

  /** All that is there after saving and restarting: the saved entries and the older rows that have
      their temp file, closed, with a row for each and nothing else, and all of it in the total. */
  lemma PersistThenLoadExactly(v: View, saved: set<Path>, path: Path)
    requires ViewOk(v)
    ensures TasksReadable(v.tasks) && TasksReadable(Persist(v, saved).tasks)
    ensures var after := Load(Crash(Persist(v, saved)));
      var now := path in v.files && path in saved;
      && (path in after.files <==>
            if now then Exists(v.disk, v.files[path].tempPath)
            else path in v.tasks && Exists(v.disk, v.tasks[path].tempPath))
      && (path in after.files ==>
            after.files[path] == if now then v.files[path].(isOpen := false) else EntryOf(v.tasks[path]))
      && (path in after.tasks <==> path in after.files)
      && after.disk == v.disk && after.total == |after.files| && after.done == 0 && after.uploads == 0
  {
    PersistKeeps(v, saved);
    RowsReadable(v.tasks);
    RowsReadable(Persist(v, saved).tasks);
    LoadedShape(Persist(v, saved));
    var kept := Loadable(Persist(v, saved).tasks, v.disk);
    assert Load(Crash(Persist(v, saved))).files.Keys == kept.Keys;
    if path in v.files && path in saved {
      assert Persist(v, saved).tasks[path] == TaskOf(v.files[path]);
      SavedIsRestored(v.files[path]);
    }
    hide Load, Crash, EntryOf, Unpacked, Count;
  }

  lemma SavedIsRestored(e: Recv)
    requires EntryOk(e)
    ensures RowOk(TaskOf(e)) && EntryOf(TaskOf(e)) == e.(isOpen := false)
  {
    PackingRoundTrips(e.bitmap);
  }

  // ---------------------------------------------------------------- losing a peer, sweeping

  /** Losing a peer closes its entries and leaves them without a peer; a sweep closes the expired
      ones and takes those that no chunk has reached. No other entry is touched. */
  lemma InterruptedExactly(v: View, lost: PeerId, expired: set<Path>, saved: set<Path>, path: Path)
    requires ViewOk(v) && path in v.files
    ensures var e, w, swept := v.files[path], Cancel(v, lost), Cleanup(v, expired, saved);
      && path in w.files
      && w.files[path] == (if e.peer == lost then e.(isOpen := false, peer := "") else e)
      && (path in swept.files <==> path !in expired || e.tempPath != [])
      && (path in swept.files ==> swept.files[path] == if path in expired then e.(isOpen := false) else e)
  {
    assert EntryOk(v.files[path]);
  }

  /** Entries alike but for their stream and their peer. */
  predicate SameProgress(a: Recv, b: Recv) {
    a.(isOpen := b.isOpen, peer := b.peer) == b
  }

  lemma SameResume(v: View, w: View, path: Path, hash: Hash, size: nat, removed: bool)
    requires w.disk == v.disk
    requires path in w.files ==> path in v.files && SameProgress(v.files[path], w.files[path])
    requires path in v.files && path !in w.files ==>
      v.files[path].received == 0 || !Exists(v.disk, v.files[path].tempPath)
    ensures CheckResume(w, path, hash, size, removed).1 == CheckResume(v, path, hash, size, removed).1
  {
  }

  /** No interruption costs progress: what can be resumed, and from where, is the same after losing
      any peer, after any sweep, and after a restart if the sweep has left and saved the entry. */
  lemma ResumeSurvives(v: View, lost: PeerId, expired: set<Path>, saved: set<Path>, path: Path, hash: Hash, size: nat,
                       removed: bool)
    requires ViewOk(v)
    ensures RowsOk(Cleanup(v, expired, saved).tasks) && TasksReadable(Cleanup(v, expired, saved).tasks)
    ensures var info, swept := CheckResume(v, path, hash, size, removed).1, Cleanup(v, expired, saved);
      && CheckResume(CancelSends(Cancel(v, lost), lost), path, hash, size, removed).1 == info
      && CheckResume(swept, path, hash, size, removed).1 == info
      && (path in swept.files && path in saved ==>
            CheckResume(Load(Crash(swept)), path, hash, size, removed).1 == info)
  {
    CleanupKeeps(v, expired, saved);
    RowsReadable(Cleanup(v, expired, saved).tasks);
    if path in v.files {
      InterruptedExactly(v, lost, expired, saved, path);
      if v.files[path].tempPath == [] { NoTempNoProgress(v.files[path]); }
      if path in saved && path in Cleanup(v, expired, saved).files {
        SweptThenLoaded(v, expired, saved, path);
        hide Load, Crash, Cleanup, CheckResume;
        SameResume(v, Load(Crash(Cleanup(v, expired, saved))), path, hash, size, removed);
      }
    }
    hide Load, Crash, CheckResume, EntryOk, Swept;
    SameResume(v, CancelSends(Cancel(v, lost), lost), path, hash, size, removed);
    SameResume(v, Cleanup(v, expired, saved), path, hash, size, removed);
  }

  lemma NoTempNoProgress(e: Recv)
    requires EntryOk(e) && e.tempPath == []
    ensures e.received == 0
  {
  }

  lemma SweptThenLoaded(v: View, expired: set<Path>, saved: set<Path>, path: Path)
    requires ViewOk(v) && path in v.files && path in saved && path in Cleanup(v, expired, saved).files
    ensures RowsOk(Cleanup(v, expired, saved).tasks) && TasksReadable(Cleanup(v, expired, saved).tasks)
    ensures var e, after := v.files[path], Load(Crash(Cleanup(v, expired, saved)));
      && (path in after.files <==> Exists(v.disk, e.tempPath))
      && (path in after.files ==> after.files[path] == e.(isOpen := false)) && after.disk == v.disk
  {
    CleanupKeeps(v, expired, saved);
    InterruptedExactly(v, "", expired, saved, path);
    var v1 := v.(files := Swept(v.files, expired));
    assert EntriesOk(v1.files);
    hide Load, Crash, Swept, EntryOk, Unpacked;
    PersistThenLoadExactly(v1, saved, path);
  }
}
