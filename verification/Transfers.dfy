/** Whole transfers: runs with interruptions and failures of every kind, and what is in the temp
    file when one is finalized. */
module Transfers {
  import opened Wrappers
  import opened KcpProto
  import opened ChunkCodec
  import opened Bitmap
  import opened Receiving
  import opened Content
  import opened Reassembly

  // ---------------------------------------------------------------- the other operations

  lemma ReadableRows(sh: Share, v: View)
    requires Honest(sh, v)
    ensures TasksReadable(v.tasks)
  {
    forall p | p in v.tasks ensures PackedLength(v.tasks[p].total) <= |v.tasks[p].packed| {
      assert RowTrue(sh, p, v.tasks[p], TempAt(v.disk, p));
    }
  }

  /** With the source unchanged a resume check removes no temp file. */
  lemma ResumeHonest(sh: Share, v: View, p: Path, removed: bool)
    requires Honest(sh, v) && sh.Shared(p)
    ensures Honest(sh, CheckResume(v, p, sh.cfg.sha(sh.source(p)), |sh.source(p)|, removed).0)
  {
    if p in v.files {
      assert MappedTrue(sh, p, v.files[p], TempAt(v.disk, p));
      HonestElsewhere(sh, v, Forget(v, p), p);
    }
  }

  lemma RegisterHonest(sh: Share, v: View, p: Path, peer: PeerId)
    requires Honest(sh, v) && sh.Shared(p)
    ensures Honest(sh, Register(v, p, peer, sh.cfg.sha(sh.source(p)), |sh.source(p)|))
  {
    var hash, size := sh.cfg.sha(sh.source(p)), |sh.source(p)|;
    if p in v.files {
      assert MappedTrue(sh, p, v.files[p], TempAt(v.disk, p));
      PutHonest(sh, v, v, p, v.files[p].(peer := peer, hash := hash, size := size));
    } else {
      PutHonest(sh, v, v, p, Recv([], 0, 0, [], peer, hash, size, false, false));
    }
  }

  lemma CancelHonest(sh: Share, v: View, peer: PeerId)
    requires Honest(sh, v)
    ensures Honest(sh, Cancel(v, peer))
  {
    var w := Cancel(v, peer);
    forall p | p in w.files ensures MappedTrue(sh, p, w.files[p], TempAt(w.disk, p)) {
      assert MappedTrue(sh, p, v.files[p], TempAt(v.disk, p));
    }
  }

  lemma SweptHonest(sh: Share, v: View, expired: set<Path>)
    requires Honest(sh, v)
    ensures Honest(sh, v.(files := Swept(v.files, expired)))
  {
    var w := v.(files := Swept(v.files, expired));
    forall p | p in w.files ensures MappedTrue(sh, p, w.files[p], TempAt(w.disk, p)) {
      assert MappedTrue(sh, p, v.files[p], TempAt(v.disk, p));
    }
  }

  lemma RowOfEntry(sh: Share, p: Path, e: Recv, t: Option<seq<byte>>)
    requires EntryTrue(sh, p, e, t)
    ensures RowTrue(sh, p, TaskOf(e), t)
  {
    PackingRoundTrips(e.bitmap);
  }

  lemma PersistHonest(sh: Share, v: View, saved: set<Path>)
    requires Honest(sh, v)
    ensures Honest(sh, Persist(v, saved))
  {
    var w := Persist(v, saved);
    forall p | p in w.tasks ensures RowTrue(sh, p, w.tasks[p], TempAt(w.disk, p)) {
      if p in v.files && p in saved {
        RowOfEntry(sh, p, v.files[p], TempAt(v.disk, p));
      }
    }
  }

  lemma RestartHonest(sh: Share, v: View)
    requires Honest(sh, v) && TasksReadable(v.tasks)
    ensures Honest(sh, Load(Crash(v)))
  {
    var w := Load(Crash(v));
    forall p | p in w.tasks ensures RowTrue(sh, p, w.tasks[p], TempAt(w.disk, p)) {
      assert RowTrue(sh, p, v.tasks[p], TempAt(v.disk, p));
    }
    forall p | p in w.files ensures MappedTrue(sh, p, w.files[p], TempAt(w.disk, p)) {
      assert RowTrue(sh, p, v.tasks[p], TempAt(v.disk, p));
    }
  }

  // ---------------------------------------------------------------- stored rows apart

  /** The view without the stored rows of some paths. */
  function Cleansed(v: View, stale: set<Path>): View {
    v.(tasks := v.tasks - stale)
  }

  lemma FewerRows(sh: Share, v: View, stale: set<Path>)
    requires Honest(sh, v)
    ensures Honest(sh, Cleansed(v, stale))
  {
  }

  lemma FindAside(v: View, stale: set<Path>, path: Path, total: nat, peer: PeerId, removed: bool)
    ensures Find(Cleansed(v, stale), path, total, peer, removed) == Find(v, path, total, peer, removed)
  {
  }

  lemma MoreAside(v: View, stale: set<Path>, more: set<Path>)
    ensures Cleansed(Cleansed(v, stale), more) == Cleansed(v, stale + more)
  {
    assert (v.tasks - stale) - more == v.tasks - (stale + more);
  }

  lemma ReadyAside(v: View, stale: set<Path>, hdr: ChunkHeader, peer: PeerId, io: Io)
    ensures var (w, ready) := Ready(v, hdr, peer, io);
      Ready(Cleansed(v, stale), hdr, peer, io) == (Cleansed(w, stale), ready)
    ensures Ready(v, hdr, peer, io).0.tasks == v.tasks
  {
    FindAside(v, stale, hdr.filePath, hdr.totalChunks, peer, io.rmOther);
    hide Find, OpenTemp;
    var f := Find(v, hdr.filePath, hdr.totalChunks, peer, io.rmOther);
    assert Located(Cleansed(v, stale), hdr.filePath, f) == Cleansed(Located(v, hdr.filePath, f), stale);
    assert Located(v, hdr.filePath, f).tasks == v.tasks;
    hide Located;
  }

  lemma FinalizeAside(cfg: Config, v: View, stale: set<Path>, path: Path, e: Recv, peer: PeerId, io: Io)
    ensures Finalize(cfg, Cleansed(v, stale), path, e, peer, io) == Cleansed(Finalize(cfg, v, path, e, peer, io), stale)
    ensures Finalize(cfg, v, path, e, peer, io).tasks == v.tasks - {path}
  {
    assert (v.tasks - stale) - {path} == (v.tasks - {path}) - stale;
  }

  lemma StoreAside(cfg: Config, v: View, stale: set<Path>, hdr: ChunkHeader, peer: PeerId, io: Io, e: Recv)
    requires hdr.chunkIndex < hdr.totalChunks
    ensures Store(cfg, Cleansed(v, stale), hdr, peer, io, e) == Cleansed(Store(cfg, v, hdr, peer, io, e), stale)
    ensures var w := Store(cfg, v, hdr, peer, io, e); w.tasks == v.tasks || w.tasks == v.tasks - {hdr.filePath}
  {
    hide WriteAt, Clear, Finalize;
    var bitmap := if |e.bitmap| <= hdr.chunkIndex then Resize(e.bitmap, hdr.totalChunks) else e.bitmap;
    var e1 := e.(bitmap := bitmap[hdr.chunkIndex := true], received := e.received + 1);
    var disk := v.disk[e.tempPath := Written(cfg, v.disk, e, hdr)];
    FinalizeAside(cfg, v.(disk := disk), stale, hdr.filePath, e1, peer, io);
  }

  /** Handling a chunk never looks at the stored rows, and removes at most that of its path. */
  lemma RowsAside(cfg: Config, v: View, stale: set<Path>, hdr: ChunkHeader, peer: PeerId, io: Io)
    ensures HandleHeader(cfg, Cleansed(v, stale), hdr, peer, io) == Cleansed(HandleHeader(cfg, v, hdr, peer, io), stale)
    ensures AtFinalize(cfg, Cleansed(v, stale), hdr, peer, io) == AtFinalize(cfg, v, hdr, peer, io)
    ensures var w := HandleHeader(cfg, v, hdr, peer, io); w.tasks == v.tasks || w.tasks == v.tasks - {hdr.filePath}
  {
    if ValidHeader(hdr) {
      ReadyAside(v, stale, hdr, peer, io);
      var (w, ready) := Ready(v, hdr, peer, io);
      hide Ready, Store;
      if ready.Some? { StoreAside(cfg, w, stale, hdr, peer, io, ready.value); }
    }
  }

  // ---------------------------------------------------------------- runs with interruptions

  datatype Op =
    | Deliver(path: Path, index: nat, peer: PeerId, io: Io)
    | Resume(path: Path, removed: bool)
    | Preregister(path: Path, peer: PeerId)
    | PeerLost(peer: PeerId)
    | Sweep(expired: set<Path>, saved: set<Path>)
    | Restart

  /** The state, and the paths whose stored row claims chunks of a temp file that was given up
      after it was stored. */
  datatype History = History(now: View, stale: set<Path>)

  /** Chunks and metadata are those of the unchanged sources. Any open, write or rename may fail.
      A restart finds no new temp file for a path whose row is stale, or one that holds again what
      the row claims. */
  ghost predicate Allowed(sh: Share, h: History, op: Op) {
    match op
    case Deliver(p, i, _, _) => sh.Shared(p) && i < sh.Total(p)
    case Resume(p, _) => sh.Shared(p)
    case Preregister(p, _) => sh.Shared(p)
    case Restart => forall q :: q in h.stale && q in h.now.tasks && Exists(h.now.disk, h.now.tasks[q].tempPath) ==>
      RowTrue(sh, q, h.now.tasks[q], TempAt(h.now.disk, q))
    case _ => true
  }

  function ViewAfter(sh: Share, v: View, op: Op): View
    requires TasksReadable(v.tasks)
    requires op.Deliver? ==> sh.Shared(op.path)
  {
    match op
    case Deliver(p, i, peer, io) => HandleHeader(sh.cfg, v, sh.Header(p, i), peer, io)
    case Resume(p, removed) => CheckResume(v, p, sh.cfg.sha(sh.source(p)), |sh.source(p)|, removed).0
    case Preregister(p, peer) => Register(v, p, peer, sh.cfg.sha(sh.source(p)), |sh.source(p)|)
    case PeerLost(peer) => Cancel(v, peer)
    case Sweep(expired, saved) => Cleanup(v, expired, saved)
    case Restart => Load(Crash(v))
  }

  /** A sweep that stores the path's row anew, or a restart that loads it. */
  predicate Rewrites(v: View, op: Op, q: Path) {
    (op.Sweep? && q in op.saved && q in Swept(v.files, op.expired)) || op.Restart?
  }

  function StaleAfter(h: History, op: Op, w: View): set<Path> {
    set q | q in w.tasks && Vouched(w, q) && (TempOf(q) !in w.disk || (q in h.stale && !Rewrites(h.now, op, q)))
  }

  ghost function Step(sh: Share, h: History, op: Op): History
    requires TasksReadable(h.now.tasks) && Allowed(sh, h, op)
  {
    var w := ViewAfter(sh, h.now, op);
    History(w, StaleAfter(h, op, w))
  }

  /** A stored row of the right shape that claims some chunks, though not all. */
  predicate Claims(sh: Share, v: View, q: Path) {
    q in v.tasks && sh.Shared(q) &&
    var row := v.tasks[q];
    && |row.packed| == PackedLength(row.total) && row.total == sh.Total(q) && row.tempPath == TempOf(q)
    && 0 < Count(Unpacked(row.packed, row.total)) < row.total && MetaTrue(sh, q, row.hash, row.size)
  }

  /** Entries and temp files are true to the sources, and so are all rows but the stale ones. */
  ghost predicate Truthful(sh: Share, h: History) {
    && Honest(sh, Cleansed(h.now, h.stale)) && TasksReadable(h.now.tasks)
    && forall q :: q in h.stale ==> Claims(sh, h.now, q)
  }

  /** When all rows but those of some paths are true, and those are stale, they are the stale ones. */
  lemma StaleSettles(sh: Share, h: History, op: Op, w: View, gone: set<Path>)
    requires Honest(sh, Cleansed(w, gone))
    requires forall q :: q in gone && q in w.tasks ==>
      Claims(sh, w, q) && (TempOf(q) !in w.disk || (q in h.stale && !Rewrites(h.now, op, q)))
    requires forall q :: q in h.stale && q in w.tasks && !Rewrites(h.now, op, q) ==> q in gone
    requires TasksReadable(w.tasks)
    ensures Truthful(sh, History(w, StaleAfter(h, op, w)))
  {
    var c := Cleansed(w, gone);
    forall q | q in w.tasks ensures q in gone <==> q in StaleAfter(h, op, w) {
      if q !in gone { assert RowTrue(sh, q, c.tasks[q], TempAt(c.disk, q)); }
    }
    hide Honest, Vouched, Claims;
    assert w.tasks - gone == w.tasks - StaleAfter(h, op, w);
  }

  /** What holds after a chunk of p of everything but its row. */
  lemma DeliverWithout(sh: Share, h: History, p: Path, i: nat, peer: PeerId, io: Io)
    requires Truthful(sh, h) && sh.Shared(p) && i < sh.Total(p)
    ensures Honest(sh, Cleansed(HandleHeader(sh.cfg, h.now, sh.Header(p, i), peer, io), h.stale + {p}))
    ensures var done := AtFinalize(sh.cfg, h.now, sh.Header(p, i), peer, io);
      done.Some? ==> done.value == Rebuilt(sh, p, done.value)
  {
    var more := h.stale + {p};
    hide Honest, HandleHeader, AtFinalize, TasksReadable;
    RowsAside(sh.cfg, h.now, more, sh.Header(p, i), peer, io);
    FewerRows(sh, Cleansed(h.now, h.stale), {p});
    MoreAside(h.now, h.stale, {p});
    assert !Vouched(Cleansed(h.now, more), p);
    hide Vouched, Cleansed;
    DeliverHonest(sh, Cleansed(h.now, more), p, i, peer, io);
    FinalizedIsRebuilt(sh, Cleansed(h.now, more), p, i, peer, io);
  }

  /** A chunk of any shared path, whatever fails: only its own row can become stale. */
  lemma DeliverTruthful(sh: Share, h: History, p: Path, i: nat, peer: PeerId, io: Io)
    requires Truthful(sh, h) && sh.Shared(p) && i < sh.Total(p)
    ensures var op := Deliver(p, i, peer, io); var w := HandleHeader(sh.cfg, h.now, sh.Header(p, i), peer, io);
      Truthful(sh, History(w, StaleAfter(h, op, w)))
  {
    var op := Deliver(p, i, peer, io);
    var w := HandleHeader(sh.cfg, h.now, sh.Header(p, i), peer, io);
    var more := h.stale + {p};
    hide Honest, HandleHeader, AtFinalize;
    DeliverWithout(sh, h, p, i, peer, io);
    RowsAside(sh.cfg, h.now, h.stale, sh.Header(p, i), peer, io);
    RowsAreThere(sh, h, w, p);
    if p in w.tasks && Vouched(w, p) && p !in h.stale { NewlyStale(sh, h, w, p); }
    hide Vouched, TasksReadable, Claims;
    if p in w.tasks && (TempOf(p) in w.disk || !Vouched(w, p)) && p !in h.stale {
      RowStays(sh, h, p, i, peer, io);
      StaleSettles(sh, h, op, w, h.stale);
    } else {
      StaleSettles(sh, h, op, w, more);
    }
  }

  lemma RowsAreThere(sh: Share, h: History, w: View, p: Path)
    requires TasksReadable(h.now.tasks) && forall q :: q in h.stale ==> Claims(sh, h.now, q)
    requires w.tasks == h.now.tasks || w.tasks == h.now.tasks - {p}
    ensures TasksReadable(w.tasks) && forall q :: q in h.stale && q in w.tasks ==> Claims(sh, w, q) && Vouched(w, q)
  {
    hide Unpacked, PackedLength;
  }

  lemma NewlyStale(sh: Share, h: History, w: View, p: Path)
    requires Honest(sh, Cleansed(h.now, h.stale)) && p in h.now.tasks && p !in h.stale
    requires p in w.tasks && w.tasks[p] == h.now.tasks[p] && Vouched(w, p)
    ensures Claims(sh, w, p)
  {
    var c := Cleansed(h.now, h.stale);
    assert RowTrue(sh, p, c.tasks[p], TempAt(c.disk, p));
    hide Honest, Holds, Unpacked;
  }

  lemma RowStays(sh: Share, h: History, p: Path, i: nat, peer: PeerId, io: Io)
    requires Truthful(sh, h) && sh.Shared(p) && i < sh.Total(p)
    requires var w := HandleHeader(sh.cfg, h.now, sh.Header(p, i), peer, io);
      p in w.tasks && (TempOf(p) in w.disk || !Vouched(w, p)) && p !in h.stale
    ensures Honest(sh, Cleansed(HandleHeader(sh.cfg, h.now, sh.Header(p, i), peer, io), h.stale))
  {
    RowsAside(sh.cfg, h.now, h.stale, sh.Header(p, i), peer, io);
    hide Honest, HandleHeader, AtFinalize, PackedLength, Unpacked, TasksReadable;
    DeliverHonest(sh, Cleansed(h.now, h.stale), p, i, peer, io);
  }

  lemma SweepAside(v: View, stale: set<Path>, expired: set<Path>, saved: set<Path>)
    ensures var gone := set q | q in stale && !Rewrites(v, Sweep(expired, saved), q);
      Cleansed(Cleanup(v, expired, saved), gone) == Cleanup(Cleansed(v, stale), expired, saved)
  {
    var gone := set q | q in stale && !Rewrites(v, Sweep(expired, saved), q);
    var files := Swept(v.files, expired);
    var rows := map p | p in files && p in saved :: TaskOf(files[p]);
    assert (v.tasks + rows) - gone == (v.tasks - stale) + rows;
  }

  lemma SweepTruthful(sh: Share, h: History, expired: set<Path>, saved: set<Path>)
    requires Truthful(sh, h)
    ensures var op, w := Sweep(expired, saved), Cleanup(h.now, expired, saved);
        Truthful(sh, History(w, StaleAfter(h, op, w)))
  {
    var op, c := Sweep(expired, saved), Cleansed(h.now, h.stale);
    var w := Cleanup(h.now, expired, saved);
    var gone := set q | q in h.stale && !Rewrites(h.now, op, q);
    SweptHonest(sh, c, expired);
    PersistHonest(sh, c.(files := Swept(c.files, expired)), saved);
    SweepAside(h.now, h.stale, expired, saved);
    hide Honest;
    ReadableRows(sh, Cleansed(w, gone));
    RowsKept(sh, h.now, h.stale, expired, saved);
    hide Cleanup, Swept, Vouched, Claims, Persist, PackedLength, Unpacked;
    assert TasksReadable(w.tasks) by {
      assert forall q :: q in w.tasks && q !in gone ==> q in Cleansed(w, gone).tasks;
    }
    StaleSettles(sh, h, op, w, gone);
  }

  lemma RowsKept(sh: Share, v: View, stale: set<Path>, expired: set<Path>, saved: set<Path>)
    requires TasksReadable(v.tasks) && forall q :: q in stale ==> Claims(sh, v, q)
    ensures var w := Cleanup(v, expired, saved);
      forall q :: q in stale && !Rewrites(v, Sweep(expired, saved), q) ==>
        q in w.tasks && PackedLength(w.tasks[q].total) <= |w.tasks[q].packed| && Claims(sh, w, q)
  {
    hide Unpacked, PackedLength, Packed;
  }

  lemma LoadAside(v: View, stale: set<Path>)
    requires TasksReadable(v.tasks)
    requires forall q :: q in stale && q in v.tasks ==> !Exists(v.disk, v.tasks[q].tempPath)
    ensures Load(Crash(v)) == Load(Crash(Cleansed(v, stale)))
    ensures forall q :: q in Load(Crash(v)).tasks ==> q !in stale
  {
    assert Loadable(v.tasks, v.disk) == Loadable(v.tasks - stale, v.disk);
    hide Loadable, Restored;
    assert TasksReadable(v.tasks - stale);
  }

  /** The stale rows that a restart throws away. */
  function Lost(h: History): set<Path> {
    set q | q in h.stale && q in h.now.tasks && !Exists(h.now.disk, h.now.tasks[q].tempPath)
  }

  lemma OthersTrueAgain(sh: Share, h: History)
    requires Truthful(sh, h) && Allowed(sh, h, Restart)
    ensures Honest(sh, Cleansed(h.now, Lost(h)))
  {
    var c, d := Cleansed(h.now, h.stale), Cleansed(h.now, Lost(h));
    forall q | q in d.tasks ensures RowTrue(sh, q, d.tasks[q], TempAt(d.disk, q)) {
      if q !in h.stale { assert RowTrue(sh, q, c.tasks[q], TempAt(c.disk, q)); }
    }
  }

  lemma LoadedHonest(sh: Share, h: History)
    requires Truthful(sh, h) && Allowed(sh, h, Restart)
    ensures var w := Load(Crash(h.now)); Honest(sh, Cleansed(w, {})) && TasksReadable(w.tasks)
  {
    var c := Cleansed(h.now, Lost(h));
    OthersTrueAgain(sh, h);
    LoadAside(h.now, Lost(h));
    ReadableRows(sh, c);
    hide Honest, PackedLength, Truthful, Load, Crash, Cleansed, Lost, Allowed;
    RestartHonest(sh, c);
    NothingAside(Load(Crash(h.now)));
    ReadableRows(sh, Load(Crash(h.now)));
  }

  lemma NothingAside(v: View)
    ensures Cleansed(v, {}) == v
  {
    assert v.tasks - {} == v.tasks;
  }

  lemma RestartTruthful(sh: Share, h: History)
    requires Truthful(sh, h) && Allowed(sh, h, Restart)
    ensures var w := Load(Crash(h.now)); Truthful(sh, History(w, StaleAfter(h, Restart, w)))
  {
    LoadedHonest(sh, h);
    hide Honest, Load, Vouched, Claims, TasksReadable;
    StaleSettles(sh, h, Restart, Load(Crash(h.now)), {});
  }

  /** A step that changes neither rows nor disk. */
  lemma QuietTruthful(sh: Share, h: History, op: Op, w: View)
    requires Truthful(sh, h) && Honest(sh, Cleansed(w, h.stale)) && !op.Sweep? && !op.Restart?
    requires w.tasks == h.now.tasks && w.disk == h.now.disk
    ensures Truthful(sh, History(w, StaleAfter(h, op, w)))
  {
    hide Honest, Vouched;
    assert forall q :: q in h.stale ==> Claims(sh, w, q) by { RowsAreThere(sh, h, w, []); }
    hide Claims;
    StaleSettles(sh, h, op, w, h.stale);
  }

  /** With the source unchanged a resume check removes no temp file, whatever the rows say. */
  lemma ResumeQuiet(sh: Share, h: History, p: Path, removed: bool)
    requires Truthful(sh, h) && sh.Shared(p)
    ensures var w := CheckResume(h.now, p, sh.cfg.sha(sh.source(p)), |sh.source(p)|, removed).0;
      w.tasks == h.now.tasks && w.disk == h.now.disk && Honest(sh, Cleansed(w, h.stale))
  {
    var c := Cleansed(h.now, h.stale);
    ResumeHonest(sh, c, p, removed);
    if p in c.files { assert MappedTrue(sh, p, c.files[p], TempAt(c.disk, p)); }
  }

  lemma StepTruthful(sh: Share, h: History, op: Op)
    requires Truthful(sh, h) && Allowed(sh, h, op)
    ensures Truthful(sh, Step(sh, h, op))
  {
    hide Truthful, StaleAfter, HandleHeader, Cleanup, Load, CheckResume, Register, Cancel;
    match op
    case Deliver(p, i, peer, io) => DeliverTruthful(sh, h, p, i, peer, io);
    case Resume(_, _) => ResumeTruthful(sh, h, op);
    case Preregister(_, _) => RegisterTruthful(sh, h, op);
    case PeerLost(_) => CancelTruthful(sh, h, op);
    case Sweep(expired, saved) => SweepTruthful(sh, h, expired, saved);
    case Restart => RestartTruthful(sh, h);
  }

  lemma ResumeTruthful(sh: Share, h: History, op: Op)
    requires Truthful(sh, h) && op.Resume? && sh.Shared(op.path)
    ensures var w := CheckResume(h.now, op.path, sh.cfg.sha(sh.source(op.path)), |sh.source(op.path)|, op.removed).0;
      Truthful(sh, History(w, StaleAfter(h, op, w)))
  {
    ResumeQuiet(sh, h, op.path, op.removed);
    hide Honest, CheckResume;
    QuietTruthful(sh, h, op, CheckResume(h.now, op.path, sh.cfg.sha(sh.source(op.path)), |sh.source(op.path)|,
      op.removed).0);
  }

  lemma RegisterTruthful(sh: Share, h: History, op: Op)
    requires Truthful(sh, h) && op.Preregister? && sh.Shared(op.path)
    ensures var w := Register(h.now, op.path, op.peer, sh.cfg.sha(sh.source(op.path)), |sh.source(op.path)|);
      Truthful(sh, History(w, StaleAfter(h, op, w)))
  {
    hide Honest;
    RegisterHonest(sh, Cleansed(h.now, h.stale), op.path, op.peer);
    QuietTruthful(sh, h, op, Register(h.now, op.path, op.peer, sh.cfg.sha(sh.source(op.path)), |sh.source(op.path)|));
  }

  lemma CancelTruthful(sh: Share, h: History, op: Op)
    requires Truthful(sh, h) && op.PeerLost?
    ensures var w := Cancel(h.now, op.peer); Truthful(sh, History(w, StaleAfter(h, op, w)))
  {
    hide Honest;
    CancelHonest(sh, Cleansed(h.now, h.stale), op.peer);
    QuietTruthful(sh, h, op, Cancel(h.now, op.peer));
  }

  ghost predicate TempsTrue(sh: Share, disk: Disk) {
    forall p :: TempTrue(sh, p, TempAt(disk, p))
  }

  /** A run from a disk whose temp files hold no more than the tails of the share; a step
      that is not allowed does nothing. */
  ghost function Run(sh: Share, disk: Disk, ops: seq<Op>): (h: History)
    requires TempsTrue(sh, disk)
    ensures Truthful(sh, h)
  {
    if ops == [] then History(View(map[], disk, map[], map[], {}, 0, 0, 0), {})
    else
      var h := Run(sh, disk, ops[..|ops| - 1]);
      var op := ops[|ops| - 1];
      if Allowed(sh, h, op) then
        StepTruthful(sh, h, op);
        Step(sh, h, op)
      else h
  }

  /** No temp file of a shared path is there to begin with. */
  ghost predicate NoTemps(sh: Share, disk: Disk) {
    forall p :: sh.Shared(p) ==> TempAt(disk, p).None?
  }

  lemma NoTempsTrue(sh: Share, disk: Disk)
    requires NoTemps(sh, disk)
    ensures TempsTrue(sh, disk)
  {
    forall q ensures TempTrue(sh, q, TempAt(disk, q)) {
      if sh.Shared(q) { assert TempAt(disk, q).None?; }
    }
  }

  /** Whenever finalize is reached, in any run with any interruptions and any failures of the
      disk, the temp file is the source byte for byte. */
  lemma FinalizeReachesSource(sh: Share, disk: Disk, ops: seq<Op>, p: Path, i: nat, peer: PeerId, io: Io)
    requires NoTemps(sh, disk) && sh.tail(p) == [] && sh.Shared(p) && i < sh.Total(p)
    ensures TempsTrue(sh, disk)
    ensures var done := AtFinalize(sh.cfg, Run(sh, disk, ops).now, sh.Header(p, i), peer, io);
      done.Some? ==> done.value == sh.source(p)
  {
    NoTempsTrue(sh, disk);
    DeliverWithout(sh, Run(sh, disk, ops), p, i, peer, io);
  }
}
