/** What comes between the chunks of a download: its peer is lost, its file is cut into another
    number of chunks by now, or its end cannot be carried out. */
module Interruptions {
  import opened Wrappers
  import opened ChunkCodec
  import opened Receiving
  import opened Reassembly
  import opened Completion
  import opened TempContents

  // ---------------------------------------------------------------- the peer is lost

  /** A download under way, with its temp file there. */
  predicate UnderWay(v: View, p: Path, total: nat) {
    && p in v.files && v.files[p].total == total > 0 && v.files[p].tempPath != []
    && v.files[p].tempPath in v.disk && !v.files[p].busy
  }

  /** Alike but for the entries of other paths. */
  predicate SameFor(p: Path, a: View, b: View) {
    && a.disk == b.disk && a.tasks == b.tasks && a.synced == b.synced && a.total == b.total && a.done == b.done
    && (p in a.files <==> p in b.files) && (p in a.files ==> a.files[p] == b.files[p])
  }

  lemma ReadyAfterLoss(v: View, hdr: ChunkHeader, lost: PeerId, peer: PeerId, io: Io)
    requires UnderWay(v, hdr.filePath, hdr.totalChunks) && io.open
    ensures var (a, ea) := Ready(v, hdr, peer, io); var (b, eb) := Ready(Cancel(v, lost), hdr, peer, io);
      && ea == eb == Some(v.files[hdr.filePath].(peer := peer, isOpen := true, busy := true))
      && SameFor(hdr.filePath, a, b)
  {
  }

  lemma FinalizeAlike(cfg: Config, a: View, b: View, p: Path, e: Recv, peer: PeerId, io: Io)
    requires SameFor(p, a, b)
    ensures SameFor(p, Finalize(cfg, a, p, e, peer, io), Finalize(cfg, b, p, e, peer, io))
    ensures p !in Finalize(cfg, a, p, e, peer, io).files
  {
    hide Placed;
  }

  lemma StoreAlike(cfg: Config, a: View, b: View, hdr: ChunkHeader, peer: PeerId, io: Io, e: Recv)
    requires hdr.chunkIndex < hdr.totalChunks && SameFor(hdr.filePath, a, b)
    ensures SameFor(hdr.filePath, Store(cfg, a, hdr, peer, io, e), Store(cfg, b, hdr, peer, io, e))
  {
    hide Written, PartWritten, Resize, Finalize;
    var p, disk := hdr.filePath, a.disk[e.tempPath := Written(cfg, a.disk, e, hdr)];
    var bitmap := if |e.bitmap| <= hdr.chunkIndex then Resize(e.bitmap, hdr.totalChunks) else e.bitmap;
    var e1 := e.(bitmap := bitmap[hdr.chunkIndex := true], received := e.received + 1);
    FinalizeAlike(cfg, a.(disk := disk), b.(disk := disk), p, e1, peer, io);
  }

  /** The entry keeps its peer and its stream while it is there. */
  lemma StoreKeepsPeer(cfg: Config, v: View, hdr: ChunkHeader, peer: PeerId, io: Io, e: Recv)
    requires hdr.chunkIndex < hdr.totalChunks && e.peer == peer && e.isOpen
    ensures var w := Store(cfg, v, hdr, peer, io, e);
      hdr.filePath in w.files ==> w.files[hdr.filePath].peer == peer && w.files[hdr.filePath].isOpen
  {
    hide Written, PartWritten, Resize, Placed;
  }

  /** Whatever peer has been lost, a chunk is handled as if it had not been, and the download is
      then that of the peer the chunk came from. */
  lemma LostPeerGoesOn(cfg: Config, v: View, hdr: ChunkHeader, lost: PeerId, peer: PeerId, io: Io)
    requires UnderWay(v, hdr.filePath, hdr.totalChunks) && io.open && io.pathSafe && ValidHeader(hdr)
    ensures var a, b := HandleHeader(cfg, v, hdr, peer, io), HandleHeader(cfg, Cancel(v, lost), hdr, peer, io);
      && SameFor(hdr.filePath, a, b)
      && (hdr.filePath in a.files ==> a.files[hdr.filePath].peer == peer && a.files[hdr.filePath].isOpen)
  {
    ReadyAfterLoss(v, hdr, lost, peer, io);
    var (a, e) := Ready(v, hdr, peer, io);
    var (b, _) := Ready(Cancel(v, lost), hdr, peer, io);
    StoreAlike(cfg, a, b, hdr, peer, io, e.value);
    StoreKeepsPeer(cfg, a, hdr, peer, io, e.value);
    hide Ready, Cancel, Store, SameFor, UnderWay;
  }

  // ---------------------------------------------------------------- another number of chunks

  /** The entry as if nothing of it had been received: a registration that keeps the hash. */
  function StartedOver(v: View, p: Path): View
    requires p in v.files
  {
    var e := v.files[p];
    v.(files := v.files[p := Recv([], 0, 0, [], e.peer, e.hash, e.size, false, false)], disk := v.disk - {TempOf(p)})
  }

  function OneMore(v: View): View {
    v.(total := v.total + 1)
  }

  predicate OtherTotal(v: View, p: Path, total: nat) {
    p in v.files && v.files[p].total != 0 && v.files[p].total != total && v.files[p].tempPath == TempOf(p)
  }

  lemma FoundOver(v: View, p: Path, total: nat, peer: PeerId)
    requires OtherTotal(v, p, total) && total > 0
    ensures var f, g := Find(v, p, total, peer, true), Find(StartedOver(v, p), p, total, peer, true);
      && f == g.(counted := 0) && g.counted == 1 && f.needOpen
      && Located(OneMore(v), p, f) == Located(StartedOver(v, p), p, g)
      && Find(OneMore(v), p, total, peer, true) == f
  {
    assert Resize([], total) == Clear(total);
    assert v.files[p := Find(v, p, total, peer, true).entry]
      == StartedOver(v, p).files[p := Find(v, p, total, peer, true).entry];
  }

  lemma HandledOver(sh: Share, v: View, p: Path, i: nat, peer: PeerId)
    requires sh.Shared(p) && OtherTotal(v, p, sh.Total(p))
    ensures DeliverOne(sh, OneMore(v), p, i, peer) == DeliverOne(sh, StartedOver(v, p), p, i, peer)
        || !ValidHeader(sh.Header(p, i))
  {
    SharedTotal(sh, p);
    FoundOver(v, p, sh.Total(p), peer);
    hide Find, Located, Store, StartedOver, OneMore, OtherTotal;
  }

  lemma LocatedCounted(v: View, p: Path, f: Found)
    ensures Located(OneMore(v), p, f) == OneMore(Located(v, p, f))
  {
  }

  lemma MovedCounted(v: View, p: Path, e: Recv, temp: Path, disk: Disk)
    ensures forall removed :: GiveUp(OneMore(v), p, temp, removed) == OneMore(GiveUp(v, p, temp, removed))
    ensures Drop(OneMore(v), p) == OneMore(Drop(v, p))
    ensures Put(OneMore(v), p, e).(disk := disk) == OneMore(Put(v, p, e).(disk := disk))
  {
  }

  lemma ReadyCounted(v: View, hdr: ChunkHeader, peer: PeerId, io: Io)
    ensures Ready(OneMore(v), hdr, peer, io) == (OneMore(Ready(v, hdr, peer, io).0), Ready(v, hdr, peer, io).1)
  {
    var f := Find(v, hdr.filePath, hdr.totalChunks, peer, io.rmOther);
    FindCounted(v, hdr.filePath, hdr.totalChunks, peer, io.rmOther);
    LocatedCounted(v, hdr.filePath, f);
    var v1, temp := Located(v, hdr.filePath, f), OpenTemp(f.disk, f.entry.tempPath, f.needOpen, io.open);
    MovedCounted(v1, hdr.filePath, f.entry.(isOpen := true), f.entry.tempPath,
      if temp.Some? then temp.value else f.disk);
    hide Find, OpenTemp, Located, OneMore, GiveUp, Drop, Put;
  }

  lemma FindCounted(v: View, p: Path, total: nat, peer: PeerId, removed: bool)
    ensures Find(OneMore(v), p, total, peer, removed) == Find(v, p, total, peer, removed)
  {
  }

  lemma FinalizeCounted(cfg: Config, v: View, p: Path, e: Recv, peer: PeerId, io: Io)
    requires e.tempPath in v.disk
    ensures Finalize(cfg, OneMore(v), p, e, peer, io) == OneMore(Finalize(cfg, v, p, e, peer, io))
  {
    hide Placed;
  }

  lemma StoreCounted(cfg: Config, v: View, hdr: ChunkHeader, peer: PeerId, io: Io, e: Recv)
    requires hdr.chunkIndex < hdr.totalChunks
    ensures Store(cfg, OneMore(v), hdr, peer, io, e) == OneMore(Store(cfg, v, hdr, peer, io, e))
  {
    hide Written, PartWritten, Resize, Finalize;
    var p, disk := hdr.filePath, v.disk[e.tempPath := Written(cfg, v.disk, e, hdr)];
    var bitmap := if |e.bitmap| <= hdr.chunkIndex then Resize(e.bitmap, hdr.totalChunks) else e.bitmap;
    var e1 := e.(bitmap := bitmap[hdr.chunkIndex := true], received := e.received + 1);
    FinalizeCounted(cfg, v.(disk := disk), p, e1, peer, io);
  }

  lemma CountedAlike(sh: Share, v: View, p: Path, i: nat, peer: PeerId)
    requires 0 < sh.cfg.chunkSize
    ensures DeliverOne(sh, OneMore(v), p, i, peer) == OneMore(DeliverOne(sh, v, p, i, peer))
  {
    var hdr := sh.Header(p, i);
    ReadyCounted(v, hdr, peer, ALL_GOOD);
    var (a, e) := Ready(v, hdr, peer, ALL_GOOD);
    if ValidHeader(hdr) && e.Some? { StoreCounted(sh.cfg, a, hdr, peer, ALL_GOOD, e.value); }
    hide Ready, Store, OneMore;
  }

  lemma {:induction false} AllCountedAlike(sh: Share, v: View, p: Path, indices: seq<nat>, peer: PeerId)
    requires 0 < sh.cfg.chunkSize
    ensures DeliverAll(sh, OneMore(v), p, indices, peer) == OneMore(DeliverAll(sh, v, p, indices, peer))
    decreases |indices|
  {
    hide DeliverOne, OneMore;
    if indices != [] {
      CountedAlike(sh, v, p, indices[0], peer);
      AllCountedAlike(sh, DeliverOne(sh, v, p, indices[0], peer), p, indices[1..], peer);
    }
  }

  /** Chunks of a file that is cut into another number of chunks than the entry has: everything that
      was received is dropped with its temp file, and all the chunks, in any order, make the file.
      It is put in place if it has the hash recorded in the entry, or none is; else it is thrown
      away. The session counts one task for it all. */
  lemma OtherTotalStartsOver(sh: Share, v: View, p: Path, indices: seq<nat>, peer: PeerId)
    requires sh.Shared(p) && OtherTotal(v, p, sh.Total(p))
    requires Within(indices, sh.Total(p)) && Distinct(indices)
    requires forall i: nat :: i < sh.Total(p) ==> i in indices
    ensures var d, hash := DeliverAll(sh, v, p, indices, peer), v.files[p].hash;
      var kept := hash == "" || sh.cfg.sha(sh.source(p)) == hash;
      && p !in d.files && p !in d.tasks && TempOf(p) !in d.disk && d.done == v.done + 1 && d.total == v.total
      && (if peer == "" || kept then p in d.disk && d.disk[p] == sh.source(p) else p !in d.disk)
      && d.synced == if peer != "" && kept then v.synced[p := sh.cfg.sha(sh.source(p))] else v.synced
  {
    SharedTotal(sh, p);
    assert 0 in indices;
    var over := StartedOver(v, p);
    assert Carries(sh, over, p, Clear(sh.Total(p)), []) && ExpectedHash(over, p) == v.files[p].hash
      && NewTask(over, p) == 1;
    AllWritten(sh.source(p), sh.cfg.chunkSize, [], indices);
    EachMissingFinishes(sh, over, p, indices, peer, Clear(sh.Total(p)), []);
    SameFromOver(sh, v, p, indices, peer);
    hide WriteAll, DeliverAll, Clear, Carries;
    assert sh.source(p) + [] == sh.source(p);
  }

  lemma SameFromOver(sh: Share, v: View, p: Path, indices: seq<nat>, peer: PeerId)
    requires sh.Shared(p) && OtherTotal(v, p, sh.Total(p)) && Within(indices, sh.Total(p)) && indices != []
    ensures DeliverAll(sh, StartedOver(v, p), p, indices, peer) == OneMore(DeliverAll(sh, v, p, indices, peer))
  {
    SharedTotal(sh, p);
    HandledOver(sh, v, p, indices[0], peer);
    AllCountedAlike(sh, v, p, indices, peer);
    hide DeliverOne, OneMore, StartedOver, OtherTotal;
  }

  // ---------------------------------------------------------------- the end

  /** The end of a download for every answer of the file system. What was received is put in place
      if it can be moved or copied, and then its temp file is gone unless it was copied and cannot
      be removed; if it can be neither moved nor copied it is still there. It is recorded if it has
      the expected hash and the peer is known, and thrown away if it has another and can be. */
  lemma FinalizeExactly(cfg: Config, v: View, p: Path, e: Recv, peer: PeerId, io: Io)
    requires e.tempPath in v.disk && e.tempPath != p
    ensures var w, content := Finalize(cfg, v, p, e, peer, io), v.disk[e.tempPath];
      var placed, expected := io.rename || io.copy, e.hash == "" || cfg.sha(v.disk[e.tempPath]) == e.hash;
      var corrupt := placed && peer != "" && !expected;
      && w.files == v.files - {p} && w.tasks == v.tasks - {p} && w.done == v.done + 1 && w.total == v.total
      && (e.tempPath in w.disk <==> !io.rename && !(io.copy && io.rmTemp))
      && (e.tempPath in w.disk ==> w.disk[e.tempPath] == content)
      && (p in w.disk <==> if placed then !(corrupt && io.rmCorrupt) else p in v.disk && !io.rmOld)
      && (p in w.disk ==> w.disk[p] == if placed then content else v.disk[p])
      && w.disk - {p, e.tempPath} == v.disk - {p, e.tempPath}
      && w.synced == if placed && peer != "" && expected then v.synced[p := cfg.sha(content)] else v.synced
  {
  }
}
