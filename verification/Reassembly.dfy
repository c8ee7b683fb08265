/** Reassembly over whole runs: chunks of unchanged sources in any order, duplicated, with
    peers lost, entries swept and persisted, and restarts from what the database kept. */
module Reassembly {
  import opened Wrappers
  import opened KcpProto
  import opened ChunkCodec
  import opened Chunks
  import opened Bitmap
  import opened Receiving
  import opened Content

  /** What the peer shares, and what a stale temp file may hold past the source's length. */
  datatype Share = Share(cfg: Config, source: Path -> seq<byte>, tail: Path -> seq<byte>) {
    function Total(p: Path): nat
      requires 0 < cfg.chunkSize
    {
      TotalChunks(|source(p)|, cfg.chunkSize)
    }

    function Chunk(p: Path, i: nat): seq<byte> {
      ChunkOf(source(p), cfg.chunkSize, i)
    }

    function Header(p: Path, i: nat): ChunkHeader
      requires 0 < cfg.chunkSize
    {
      ChunkHeader(p, i, Total(p), Chunk(p, i), true)
    }

    /** A path the engine would transfer: not itself a temp file name, and of a size the
        receiver accepts. */
    predicate Shared(p: Path) {
      0 < |p| <= MAX_ALLOWED_RELATIVE_PATH_LEN && !IsTemp(p) && Sized(source(p), cfg.chunkSize)
    }
  }

  predicate IsTemp(p: Path) {
    |p| >= |TEMP_SUFFIX| && p[|p| - |TEMP_SUFFIX|..] == TEMP_SUFFIX
  }

  lemma TempNames(p: Path, q: Path)
    ensures IsTemp(TempOf(p))
    ensures TempOf(p) == TempOf(q) ==> p == q
  {
    assert TempOf(p)[|p|..] == TEMP_SUFFIX;
    assert TempOf(p)[..|TempOf(p)| - |TEMP_SUFFIX|] == p;
    assert TempOf(q)[..|TempOf(q)| - |TEMP_SUFFIX|] == q;
  }

  lemma SharedTotal(sh: Share, p: Path)
    requires sh.Shared(p)
    ensures 0 < sh.Total(p) <= MAX_ALLOWED_TOTAL_CHUNKS
  {
    TotalIsPieces(|sh.source(p)|, sh.cfg.chunkSize);
    hide Pieces, TotalChunks;
  }

  // ---------------------------------------------------------------- the invariant

  function TempAt(disk: Disk, p: Path): Option<seq<byte>> {
    if TempOf(p) in disk then Some(disk[TempOf(p)]) else None
  }

  /** Bits that tell the truth about a temp file: every set bit is backed by the chunk, and
      not all are set. */
  ghost predicate BitsTrue(sh: Share, p: Path, total: nat, bits: seq<bool>, temp: Path, t: Option<seq<byte>>) {
    && sh.Shared(p)
    && |bits| == total && (total == 0 || (total == sh.Total(p) && Count(bits) < total))
    && (temp == [] || temp == TempOf(p)) && (total != 0 ==> temp != [])
    && (Count(bits) > 0 ==> t.Some?)
    && (t.Some? ==> Holds(t.value, sh.source(p), sh.cfg.chunkSize, bits))
  }

  predicate MetaTrue(sh: Share, p: Path, hash: Hash, size: nat) {
    (hash == "" || hash == sh.cfg.sha(sh.source(p))) && (size == 0 || size == |sh.source(p)|)
  }

  ghost predicate EntryTrue(sh: Share, p: Path, e: Recv, t: Option<seq<byte>>) {
    && BitsTrue(sh, p, e.total, e.bitmap, e.tempPath, t)
    && MetaTrue(sh, p, e.hash, e.size)
    && e.received == Count(e.bitmap)
    && (e.isOpen ==> t.Some?)
  }

  /** A mapped entry: one with a temp path has its temp file. */
  ghost predicate MappedTrue(sh: Share, p: Path, e: Recv, t: Option<seq<byte>>) {
    EntryTrue(sh, p, e, t) && (e.tempPath != [] ==> t.Some?)
  }

  ghost predicate RowTrue(sh: Share, p: Path, r: Task, t: Option<seq<byte>>) {
    && |r.packed| == PackedLength(r.total)
    && BitsTrue(sh, p, r.total, Unpacked(r.packed, r.total), r.tempPath, t)
    && MetaTrue(sh, p, r.hash, r.size)
  }

  ghost predicate TempTrue(sh: Share, p: Path, t: Option<seq<byte>>) {
    sh.Shared(p) && t.Some? ==> Tailed(t.value, sh.source(p), sh.tail(p))
  }

  ghost predicate Honest(sh: Share, v: View) {
    && (forall p :: p in v.files ==> MappedTrue(sh, p, v.files[p], TempAt(v.disk, p)))
    && (forall p :: p in v.tasks ==> RowTrue(sh, p, v.tasks[p], TempAt(v.disk, p)))
    && (forall p :: TempTrue(sh, p, TempAt(v.disk, p)))
  }

  /** Nothing but path p and its temp file differs between two views. */
  ghost predicate OnlyAt(v: View, w: View, p: Path) {
    && (forall q :: q != p && q in w.files ==> q in v.files && w.files[q] == v.files[q])
    && (forall q :: q != p && q in w.tasks ==> q in v.tasks && w.tasks[q] == v.tasks[q])
    && (forall q :: q != p ==> TempAt(w.disk, q) == TempAt(v.disk, q))
  }

  /** What Honest says of p apart from its entry. */
  ghost predicate Local(sh: Share, w: View, p: Path) {
    && (p in w.tasks ==> RowTrue(sh, p, w.tasks[p], TempAt(w.disk, p)))
    && TempTrue(sh, p, TempAt(w.disk, p))
  }

  /** A persisted row claims chunks of p. */
  predicate Vouched(v: View, p: Path) {
    && p in v.tasks && PackedLength(v.tasks[p].total) <= |v.tasks[p].packed|
    && Count(Unpacked(v.tasks[p].packed, v.tasks[p].total)) > 0
  }

  lemma HonestElsewhere(sh: Share, v: View, w: View, p: Path)
    requires Honest(sh, v) && OnlyAt(v, w, p)
    requires p in w.files ==> MappedTrue(sh, p, w.files[p], TempAt(w.disk, p))
    requires Local(sh, w, p)
    ensures Honest(sh, w)
  {
  }

  lemma TempPut(disk: Disk, p: Path, content: seq<byte>)
    ensures TempAt(disk[TempOf(p) := content], p) == Some(content)
    ensures forall q :: q != p ==> TempAt(disk[TempOf(p) := content], q) == TempAt(disk, q)
  {
    forall q | q != p ensures TempOf(q) != TempOf(p) { TempNames(p, q); }
  }

  lemma TempRemoved(disk: Disk, p: Path)
    ensures TempAt(disk - {TempOf(p)}, p) == None
    ensures forall q :: q != p ==> TempAt(disk - {TempOf(p)}, q) == TempAt(disk, q)
  {
    forall q | q != p ensures TempOf(q) != TempOf(p) { TempNames(p, q); }
  }

  lemma FinalTouched(disk: Disk, p: Path, content: seq<byte>)
    requires !IsTemp(p)
    ensures forall q :: TempAt(disk[p := content], q) == TempAt(disk, q)
    ensures forall q :: TempAt(disk - {p}, q) == TempAt(disk, q)
  {
    forall q ensures TempOf(q) != p { TempNames(q, q); }
  }

  /** Storing an entry for p. */
  lemma PutHonest(sh: Share, v: View, w: View, p: Path, e: Recv)
    requires Honest(sh, v) && OnlyAt(v, w, p) && Local(sh, w, p)
    requires MappedTrue(sh, p, e, TempAt(w.disk, p))
    ensures Honest(sh, Put(w, p, e))
  {
    HonestElsewhere(sh, v, Put(w, p, e), p);
  }

  /** Giving up on p while its temp file stays. */
  lemma DropHonest(sh: Share, v: View, w: View, p: Path)
    requires Honest(sh, v) && OnlyAt(v, w, p) && Local(sh, w, p)
    ensures Honest(sh, Drop(w, p))
  {
    HonestElsewhere(sh, v, Drop(w, p), p);
  }

  // ---------------------------------------------------------------- one chunk

  lemma ClearTrue(sh: Share, p: Path, t: Option<seq<byte>>)
    requires sh.Shared(p)
    ensures BitsTrue(sh, p, sh.Total(p), Clear(sh.Total(p)), TempOf(p), t)
  {
    SharedTotal(sh, p);
    CountZero(Clear(sh.Total(p)));
  }

  /** Writing a chunk unsets no bit's truth. */
  lemma BitsAfterWrite(sh: Share, p: Path, total: nat, bits: seq<bool>, temp: Path, t: Option<seq<byte>>, i: nat)
    requires BitsTrue(sh, p, total, bits, temp, t) && i < sh.Total(p) && t.Some?
    ensures
      var after := Some(WriteAt(t.value, Offset(i, sh.cfg.chunkSize), sh.Chunk(p, i)));
      && BitsTrue(sh, p, total, bits, temp, after)
      && (total != 0 ==> Holds(after.value, sh.source(p), sh.cfg.chunkSize, bits[i := true]))
  {
    if total != 0 {
      WriteHolds(t.value, sh.source(p), sh.cfg.chunkSize, bits, i);
      var after := WriteAt(t.value, Offset(i, sh.cfg.chunkSize), sh.Chunk(p, i));
      forall j | 0 <= j < |bits| && bits[j] ensures HoldsChunk(after, sh.source(p), sh.cfg.chunkSize, j) {
        assert bits[i := true][j];
      }
    }
  }

  /** Neither does a write that fails half way. */
  lemma BitsAfterPart(sh: Share, p: Path, total: nat, bits: seq<bool>, temp: Path, content: seq<byte>, i: nat, n: nat)
    requires BitsTrue(sh, p, total, bits, temp, Some(content)) && i < sh.Total(p) && n <= |sh.Chunk(p, i)|
    ensures BitsTrue(sh, p, total, bits, temp, Some(WritePart(content, sh.source(p), sh.cfg.chunkSize, i, n)))
  {
    hide WritePart, Sized, HoldsChunk;
    if total != 0 { PartHolds(content, sh.source(p), sh.cfg.chunkSize, bits, i, n); }
  }

  lemma BitsWithoutTemp(sh: Share, p: Path, total: nat, bits: seq<bool>, temp: Path, t: Option<seq<byte>>)
    requires BitsTrue(sh, p, total, bits, temp, None)
    ensures BitsTrue(sh, p, total, bits, temp, t)
  {
    CountZero(bits);
  }

  /** The entry a chunk of p finds or makes is truthful, and finding it resets nothing. */
  lemma FindTrue(sh: Share, v: View, p: Path, peer: PeerId, removed: bool)
    requires Honest(sh, v) && sh.Shared(p)
    ensures var f := Find(v, p, sh.Total(p), peer, removed);
      && f.disk == v.disk && f.entry.total == sh.Total(p) && f.entry.tempPath == TempOf(p)
      && EntryTrue(sh, p, f.entry, TempAt(v.disk, p))
      && (TempAt(v.disk, p).None? ==> f.needOpen)
      && (p in v.files && v.files[p].total != 0 ==> f.entry.bitmap == v.files[p].bitmap)
      && (p !in v.files || v.files[p].total == 0 ==> f.entry.bitmap == Clear(sh.Total(p)))
      && (p !in v.files ==> f.needOpen && f.entry.hash == "")
      && (p in v.files ==> f.entry.hash == v.files[p].hash)
  {
    SharedTotal(sh, p);
    ClearTrue(sh, p, TempAt(v.disk, p));
    if p in v.files {
      var e := v.files[p];
      assert MappedTrue(sh, p, e, TempAt(v.disk, p));
      if e.total == 0 {
        assert Resize(e.bitmap, sh.Total(p)) == Clear(sh.Total(p));
      }
    }
  }

  /** A row that claims chunks of p loses its temp file. */
  predicate Loses(v: View, w: View, p: Path) {
    Vouched(v, p) && p in w.tasks && TempOf(p) !in w.disk
  }

  /** Giving up on p, its temp file removed if it can be: harmless unless a row claims chunks
      of it. */
  lemma GiveUpHonest(sh: Share, v: View, w: View, p: Path, removed: bool)
    requires Honest(sh, v) && OnlyAt(v, w, p) && w.tasks == v.tasks && Local(sh, w, p)
    requires !Loses(v, GiveUp(w, p, TempOf(p), removed), p)
    ensures Honest(sh, GiveUp(w, p, TempOf(p), removed))
  {
    var gone := GiveUp(w, p, TempOf(p), removed);
    if removed {
      TempRemoved(w.disk, p);
      if p in v.tasks {
        assert RowTrue(sh, p, v.tasks[p], TempAt(v.disk, p));
      }
      HonestElsewhere(sh, v, gone, p);
    } else {
      DropHonest(sh, v, w, p);
    }
  }

  /** A ready entry of p: truthful, open, and of the source's total. */
  ghost predicate ReadyTrue(sh: Share, v: View, w: View, p: Path, e: Recv) {
    && sh.Shared(p) && OnlyAt(v, w, p) && w.tasks == v.tasks && Local(sh, w, p)
    && e.total == sh.Total(p) && e.tempPath == TempOf(p)
    && EntryTrue(sh, p, e, TempAt(w.disk, p)) && TempAt(w.disk, p).Some?
  }

  /** An entry and a row that do without the temp file are true of an empty one. */
  lemma EmptyTempTrue(sh: Share, p: Path, e: Recv)
    requires EntryTrue(sh, p, e, None)
    ensures EntryTrue(sh, p, e.(isOpen := true), Some([]))
  {
    BitsWithoutTemp(sh, p, e.total, e.bitmap, e.tempPath, Some([]));
  }

  lemma EmptyTempLocal(sh: Share, v: View, p: Path)
    requires Local(sh, v, p) && TempAt(v.disk, p).None?
    ensures p in v.tasks ==> RowTrue(sh, p, v.tasks[p], Some([]))
    ensures TempTrue(sh, p, Some([]))
  {
    if p in v.tasks {
      var r := v.tasks[p];
      BitsWithoutTemp(sh, p, r.total, Unpacked(r.packed, r.total), r.tempPath, Some([]));
    }
  }

  lemma CreateTempHonest(sh: Share, v: View, w: View, p: Path, e: Recv)
    requires sh.Shared(p) && TempAt(v.disk, p).None? && Local(sh, w, p)
    requires OnlyAt(v, w, p) && w.disk == v.disk && w.tasks == v.tasks
    requires e.total == sh.Total(p) && e.tempPath == TempOf(p) && EntryTrue(sh, p, e, TempAt(v.disk, p))
    ensures ReadyTrue(sh, v, Put(w, p, e.(isOpen := true)).(disk := v.disk[TempOf(p) := []]), p, e.(isOpen := true))
  {
    TempPut(v.disk, p, []);
    EmptyTempTrue(sh, p, e);
    EmptyTempLocal(sh, w, p);
    hide EntryTrue, RowTrue, TempTrue, TempAt;
  }

  lemma LocatedHonest(sh: Share, v: View, p: Path, f: Found)
    requires Honest(sh, v) && f.disk == v.disk
    ensures var w := Located(v, p, f); OnlyAt(v, w, p) && Local(sh, w, p) && w.tasks == v.tasks && w.disk == v.disk
  {
    hide RowTrue, MappedTrue, TempTrue;
  }

  lemma ReadyHonest(sh: Share, v: View, p: Path, i: nat, peer: PeerId, io: Io)
    requires Honest(sh, v) && sh.Shared(p) && i < sh.Total(p)
    requires var (w, ready) := Ready(v, sh.Header(p, i), peer, io); ready.None? ==> !Loses(v, w, p)
    ensures var (w, ready) := Ready(v, sh.Header(p, i), peer, io);
      if ready.None? then Honest(sh, w) else ReadyTrue(sh, v, w, p, ready.value)
  {
    var f := Find(v, p, sh.Total(p), peer, io.rmOther);
    FindTrue(sh, v, p, peer, io.rmOther);
    var v1 := Located(v, p, f);
    LocatedHonest(sh, v, p, f);
    hide Find, Honest, EntryTrue, Located, OnlyAt, Local, Vouched;
    if f.needOpen && !io.mkdir {
      DropHonest(sh, v, v1, p);
    } else if f.entry.isOpen {
    } else if !io.open {
      GiveUpHonest(sh, v, v1, p, io.rmTemp);
    } else if TempOf(p) !in v.disk {
      CreateTempHonest(sh, v, v1, p, f.entry);
    } else {
      OpenTempHonest(sh, v, v1, p, f.entry);
    }
  }

  lemma OpenTempHonest(sh: Share, v: View, w: View, p: Path, e: Recv)
    requires Honest(sh, v) && sh.Shared(p) && TempAt(v.disk, p).Some?
    requires OnlyAt(v, w, p) && w.disk == v.disk && w.tasks == v.tasks
    requires e.total == sh.Total(p) && e.tempPath == TempOf(p) && EntryTrue(sh, p, e, TempAt(v.disk, p))
    ensures ReadyTrue(sh, v, Put(w, p, e.(isOpen := true)), p, e.(isOpen := true))
  {
  }

  lemma ReadyShape(v: View, hdr: ChunkHeader, peer: PeerId, io: Io)
    requires var f := Find(v, hdr.filePath, hdr.totalChunks, peer, io.rmOther);
        f.disk == v.disk && f.entry.tempPath == TempOf(hdr.filePath)
    requires Ready(v, hdr, peer, io).1.Some?
        && (TempAt(v.disk, hdr.filePath).None? ==> Find(v, hdr.filePath, hdr.totalChunks, peer, io.rmOther).needOpen)
    ensures var (w, ready) := Ready(v, hdr, peer, io); var p := hdr.filePath;
      && ready.value == Find(v, p, hdr.totalChunks, peer, io.rmOther).entry.(isOpen := true)
      && w.files == v.files[p := ready.value] && w.tasks == v.tasks
      && (TempAt(v.disk, p).Some? ==> w.disk == v.disk)
      && (TempAt(v.disk, p).None? ==> w.disk == v.disk || w.disk == v.disk[TempOf(p) := []])
  {
    hide Find;
  }

  /** What a ready entry keeps of the entry and the temp file that were there. */
  lemma ReadyFrom(sh: Share, v: View, p: Path, i: nat, peer: PeerId, io: Io)
    requires Honest(sh, v) && sh.Shared(p) && i < sh.Total(p)
    requires Ready(v, sh.Header(p, i), peer, io).1.Some?
    ensures var (w, ready) := Ready(v, sh.Header(p, i), peer, io);
      && ready.value == Find(v, p, sh.Total(p), peer, io.rmOther).entry.(isOpen := true)
      && w.files == v.files[p := ready.value] && w.tasks == v.tasks
      && (TempAt(v.disk, p).Some? ==> w.disk == v.disk)
      && (TempAt(v.disk, p).None? ==> w.disk == v.disk || w.disk == v.disk[TempOf(p) := []])
  {
    FindTrue(sh, v, p, peer, io.rmOther);
    hide Honest, EntryTrue, Find;
    ReadyShape(v, sh.Header(p, i), peer, io);
  }

  /** What is in the temp file when finalize is reached, if this chunk reaches it. */
  function AtFinalize(cfg: Config, v: View, hdr: ChunkHeader, peer: PeerId, io: Io): Option<seq<byte>> {
    if !ValidHeader(hdr) || !io.pathSafe then None
    else
      var (w, ready) := Ready(v, hdr, peer, io);
      match ready
      case None => None
      case Some(e) =>
        if hdr.chunkIndex < |e.bitmap| && !e.bitmap[hdr.chunkIndex] && io.write && e.received + 1 >= e.total
        then Some(Written(cfg, w.disk, e, hdr)) else None
  }

  function Rebuilt(sh: Share, p: Path, content: seq<byte>): seq<byte> {
    sh.source(p) + if |content| > |sh.source(p)| then sh.tail(p) else []
  }

  /** The state of p once a ready entry has written chunk i. */
  lemma WrittenTrue(sh: Share, w: View, p: Path, i: nat, e: Recv)
    requires sh.Shared(p) && i < sh.Total(p) && e.total == sh.Total(p) && e.tempPath == TempOf(p)
    requires EntryTrue(sh, p, e, TempAt(w.disk, p)) && TempAt(w.disk, p).Some? && !e.bitmap[i]
    requires Local(sh, w, p)
    ensures
      var content := Written(sh.cfg, w.disk, e, sh.Header(p, i));
      var e1 := e.(bitmap := e.bitmap[i := true], received := e.received + 1);
      && e1.received == Count(e1.bitmap) <= e1.total
      && TempTrue(sh, p, Some(content))
      && (p in w.tasks ==> RowTrue(sh, p, w.tasks[p], Some(content)))
      && (e1.received < e1.total ==> EntryTrue(sh, p, e1, Some(content)))
      && (e1.received >= e1.total ==> content == Rebuilt(sh, p, content))
      && (|content| > |sh.source(p)| <==> |TempAt(w.disk, p).value| > |sh.source(p)|)
  {
    var t := TempAt(w.disk, p);
    var content := Written(sh.cfg, w.disk, e, sh.Header(p, i));
    CountOfSet(e.bitmap, i);
    BitsAfterWrite(sh, p, e.total, e.bitmap, e.tempPath, t, i);
    var n := |sh.Chunk(p, i)|;
    assert sh.Chunk(p, i)[..n] == sh.Chunk(p, i);
    PartTailed(t.value, sh.source(p), sh.cfg.chunkSize, i, n, sh.tail(p));
    if p in w.tasks {
      var r := w.tasks[p];
      BitsAfterWrite(sh, p, r.total, Unpacked(r.packed, r.total), r.tempPath, t, i);
    }
    if e.received + 1 >= e.total {
      AllChunksMakeSource(content, sh.source(p), sh.cfg.chunkSize, e.bitmap[i := true], sh.tail(p));
    }
  }

  /** The state of p once a write of chunk i has failed after some bytes. */
  lemma PartTrue(sh: Share, w: View, p: Path, i: nat, e: Recv, part: nat)
    requires sh.Shared(p) && i < sh.Total(p) && e.tempPath == TempOf(p)
    requires TempAt(w.disk, p).Some? && Local(sh, w, p)
    ensures var content := PartWritten(sh.cfg, w.disk, e, sh.Header(p, i), part);
      TempTrue(sh, p, Some(content)) && (p in w.tasks ==> RowTrue(sh, p, w.tasks[p], Some(content)))
  {
    var n := Min(part, |sh.Chunk(p, i)|);
    var t := TempAt(w.disk, p).value;
    assert PartWritten(sh.cfg, w.disk, e, sh.Header(p, i), part) == WritePart(t, sh.source(p), sh.cfg.chunkSize, i, n);
    PartTailed(t, sh.source(p), sh.cfg.chunkSize, i, n, sh.tail(p));
    hide WritePart, PartWritten, Tailed;
    if p in w.tasks {
      var r := w.tasks[p];
      BitsAfterPart(sh, p, r.total, Unpacked(r.packed, r.total), r.tempPath, t, i, n);
    }
  }

  /** Finalizing touches the temp file of p, and no other temp file. */
  lemma FinalizeTemps(cfg: Config, w: View, p: Path, e: Recv, peer: PeerId, io: Io)
    requires !IsTemp(p) && e.tempPath == TempOf(p)
    ensures var after := Finalize(cfg, w, p, e, peer, io);
      && after.files == w.files - {p} && after.tasks == w.tasks - {p}
      && (TempAt(after.disk, p) == None || TempAt(after.disk, p) == TempAt(w.disk, p))
      && (forall q :: q != p ==> TempAt(after.disk, q) == TempAt(w.disk, q))
  {
    var (disk, created) := Placed(w.disk, p, TempOf(p), io);
    PlacedTemps(w.disk, p, io);
    hide Placed;
    FinalTouched(disk, p, []);
  }

  lemma PlacedTemps(disk: Disk, p: Path, io: Io)
    requires !IsTemp(p)
    ensures var after := Placed(disk, p, TempOf(p), io).0;
      && (TempAt(after, p) == None || TempAt(after, p) == TempAt(disk, p))
      && (forall q :: q != p ==> TempAt(after, q) == TempAt(disk, q))
  {
    var cleared := if io.rmOld && !(TempOf(p) in disk && io.rename) then disk - {p} else disk;
    FinalTouched(disk, p, []);
    TempRemoved(cleared, p);
    if TempOf(p) in disk {
      FinalTouched(cleared, p, disk[TempOf(p)]);
      FinalTouched(cleared - {TempOf(p)}, p, disk[TempOf(p)]);
    }
  }

  lemma FinalizeHonest(sh: Share, v: View, w: View, p: Path, e: Recv, peer: PeerId, io: Io)
    requires Honest(sh, v) && OnlyAt(v, w, p) && sh.Shared(p) && e.tempPath == TempOf(p)
    requires TempTrue(sh, p, TempAt(w.disk, p))
    ensures Honest(sh, Finalize(sh.cfg, w, p, e, peer, io))
  {
    FinalizeTemps(sh.cfg, w, p, e, peer, io);
    HonestElsewhere(sh, v, Finalize(sh.cfg, w, p, e, peer, io), p);
  }

  lemma StoreHonest(sh: Share, v: View, w: View, p: Path, i: nat, peer: PeerId, io: Io, e: Recv)
    requires Honest(sh, v) && sh.Shared(p) && i < sh.Total(p) && ReadyTrue(sh, v, w, p, e)
    requires !Loses(v, Store(sh.cfg, w, sh.Header(p, i), peer, io, e), p)
    ensures Honest(sh, Store(sh.cfg, w, sh.Header(p, i), peer, io, e))
  {
    if e.bitmap[i] {
      PutHonest(sh, v, w, p, e.(busy := false));
    } else if !io.write {
      FailHonest(sh, v, w, p, i, peer, io, e);
    } else {
      WriteHonest(sh, v, w, p, i, peer, io, e);
    }
  }

  lemma FailHonest(sh: Share, v: View, w: View, p: Path, i: nat, peer: PeerId, io: Io, e: Recv)
    requires Honest(sh, v) && sh.Shared(p) && i < sh.Total(p) && ReadyTrue(sh, v, w, p, e)
    requires !e.bitmap[i] && !io.write && !Loses(v, Store(sh.cfg, w, sh.Header(p, i), peer, io, e), p)
    ensures Honest(sh, Store(sh.cfg, w, sh.Header(p, i), peer, io, e))
  {
    PartTrue(sh, w, p, i, e, io.part);
    var content := PartWritten(sh.cfg, w.disk, e, sh.Header(p, i), io.part);
    TempPut(w.disk, p, content);
    hide PartWritten, Honest, EntryTrue, RowTrue, TempTrue;
    GiveUpHonest(sh, v, w.(disk := w.disk[TempOf(p) := content]), p, io.rmTemp);
  }

  lemma WriteHonest(sh: Share, v: View, w: View, p: Path, i: nat, peer: PeerId, io: Io, e: Recv)
    requires Honest(sh, v) && sh.Shared(p) && i < sh.Total(p) && ReadyTrue(sh, v, w, p, e)
    requires !e.bitmap[i] && io.write
    ensures Honest(sh, Store(sh.cfg, w, sh.Header(p, i), peer, io, e))
  {
    WrittenTrue(sh, w, p, i, e);
    var content := Written(sh.cfg, w.disk, e, sh.Header(p, i));
    var w1 := w.(disk := w.disk[TempOf(p) := content]);
    TempPut(w.disk, p, content);
    var e1 := e.(bitmap := e.bitmap[i := true], received := e.received + 1);
    if e1.received >= e1.total {
      FinalizeHonest(sh, v, w1, p, e1, peer, io);
    } else {
      PutHonest(sh, v, w1, p, e1.(busy := false));
    }
  }

  lemma HeaderIsValid(sh: Share, p: Path, i: nat)
    requires sh.Shared(p) && i < sh.Total(p)
    ensures ValidHeader(sh.Header(p, i))
  {
    SharedTotal(sh, p);
  }

  /** Handling a valid chunk step by step. */
  lemma Handled(cfg: Config, v: View, hdr: ChunkHeader, peer: PeerId, io: Io)
    requires ValidHeader(hdr)
    ensures var after := HandleHeader(cfg, v, hdr, peer, io);
      if !io.pathSafe then after == v
      else
        var (w, ready) := Ready(v, hdr, peer, io);
        after == if ready.None? then w else Store(cfg, w, hdr, peer, io, ready.value)
  {
    hide Ready, Store;
  }

  /** A chunk of an unchanged source, whatever the disk answers, as long as no row loses its temp
      file. */
  lemma DeliverHonest(sh: Share, v: View, p: Path, i: nat, peer: PeerId, io: Io)
    requires Honest(sh, v) && sh.Shared(p) && i < sh.Total(p)
    requires !Loses(v, HandleHeader(sh.cfg, v, sh.Header(p, i), peer, io), p)
    ensures Honest(sh, HandleHeader(sh.cfg, v, sh.Header(p, i), peer, io))
  {
    HeaderIsValid(sh, p, i);
    Handled(sh.cfg, v, sh.Header(p, i), peer, io);
    hide Honest, HandleHeader, Ready, Store, EntryTrue, OnlyAt, Local, Loses, ValidHeader;
    if io.pathSafe {
      ReadyHonest(sh, v, p, i, peer, io);
      var (w, ready) := Ready(v, sh.Header(p, i), peer, io);
      if ready.Some? { StoreHonest(sh, v, w, p, i, peer, io, ready.value); }
    }
  }

  /** What reaches finalize is the source, and after it no more than the old tail. */
  lemma FinalizedIsRebuilt(sh: Share, v: View, p: Path, i: nat, peer: PeerId, io: Io)
    requires Honest(sh, v) && sh.Shared(p) && i < sh.Total(p)
    ensures var done := AtFinalize(sh.cfg, v, sh.Header(p, i), peer, io);
      done.Some? ==> done.value == Rebuilt(sh, p, done.value)
  {
    var (w, ready) := Ready(v, sh.Header(p, i), peer, io);
    if AtFinalize(sh.cfg, v, sh.Header(p, i), peer, io).Some? {
      assert ready.Some?;
      hide Ready, Honest, ReadyTrue, Written, Rebuilt;
      ReadyHonest(sh, v, p, i, peer, io);
      ReadyRebuilds(sh, v, w, p, i, ready.value);
    }
  }

  lemma ReadyRebuilds(sh: Share, v: View, w: View, p: Path, i: nat, e: Recv)
    requires sh.Shared(p) && i < sh.Total(p) && ReadyTrue(sh, v, w, p, e)
    ensures |e.bitmap| == sh.Total(p)
    ensures var content := Written(sh.cfg, w.disk, e, sh.Header(p, i));
      !e.bitmap[i] && e.received + 1 >= e.total ==> content == Rebuilt(sh, p, content)
  {
    if !e.bitmap[i] { WrittenTrue(sh, w, p, i, e); }
  }
}
