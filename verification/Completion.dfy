/** Completing a transfer: what delivering the missing chunks does. */
module Completion {
  import opened KcpProto
  import opened ChunkCodec
  import opened Bitmap
  import opened Receiving
  import opened Reassembly
  import opened Transfers

  // ---------------------------------------------------------------- completing a transfer

  function BitsOf(sh: Share, v: View, p: Path): seq<bool>
    requires 0 < sh.cfg.chunkSize
  {
    if p in v.files && v.files[p].total != 0 then v.files[p].bitmap else Clear(sh.Total(p))
  }

  /** The temp file is longer than the source. */
  predicate Over(sh: Share, v: View, p: Path) {
    TempAt(v.disk, p).Some? && |TempAt(v.disk, p).value| > |sh.source(p)|
  }

  function Outcome(sh: Share, v: View, p: Path): seq<byte> {
    sh.source(p) + if Over(sh, v, p) then sh.tail(p) else []
  }

  /** No recorded hash will have the finished file thrown away. */
  predicate HashFits(sh: Share, v: View, p: Path) {
    p in v.files && v.files[p].hash != "" ==> !Over(sh, v, p)
  }

  function DeliverOne(sh: Share, v: View, p: Path, i: nat, peer: PeerId): View
    requires 0 < sh.cfg.chunkSize
  {
    HandleHeader(sh.cfg, v, sh.Header(p, i), peer, ALL_GOOD)
  }

  /** With everything on the disk going well the stream becomes ready. */
  lemma ReadyGoesOn(sh: Share, v: View, p: Path, i: nat, peer: PeerId)
    requires Honest(sh, v) && sh.Shared(p) && i < sh.Total(p)
    ensures var (w, ready) := Ready(v, sh.Header(p, i), peer, ALL_GOOD);
      && ready.Some? && ready.value.bitmap == BitsOf(sh, v, p)
      && ready.value.hash == (if p in v.files then v.files[p].hash else "")
      && ReadyTrue(sh, v, w, p, ready.value)
      && p in w.files && (Over(sh, w, p) <==> Over(sh, v, p))
      && (p in v.disk ==> p in w.disk && w.disk[p] == v.disk[p])
  {
    SharedTotal(sh, p);
    FindTrue(sh, v, p, peer, true);
    ReadyHonest(sh, v, p, i, peer, ALL_GOOD);
    ReadyFrom(sh, v, p, i, peer, ALL_GOOD);
    TempPut(v.disk, p, []);
    TempNames(p, p);
  }

  /** Finalizing with a file that is not thrown away puts the content in place. */
  lemma FinalizeDelivers(sh: Share, w: View, p: Path, e: Recv, peer: PeerId)
    requires e.tempPath == TempOf(p) && TempOf(p) in w.disk && !IsTemp(p)
    requires e.hash == "" || sh.cfg.sha(w.disk[TempOf(p)]) == e.hash
    ensures var after := Finalize(sh.cfg, w, p, e, peer, ALL_GOOD);
      p !in after.files && p in after.disk && after.disk[p] == w.disk[TempOf(p)] && TempAt(after.disk, p).None?
  {
    TempNames(p, p);
  }

  /** A ready entry takes a chunk: the last missing one completes the file, any other one adds
      its bit. */
  lemma StoreProgress(sh: Share, v: View, w: View, p: Path, i: nat, peer: PeerId, e: Recv)
    requires sh.Shared(p) && i < sh.Total(p) && ReadyTrue(sh, v, w, p, e)
    requires e.hash != "" ==> !Over(sh, w, p)
    ensures |e.bitmap| == sh.Total(p) && Count(e.bitmap) < sh.Total(p)
    ensures var after, bits := Store(sh.cfg, w, sh.Header(p, i), peer, ALL_GOOD, e), e.bitmap[i := true];
      && HashFits(sh, after, p)
      && if Count(bits) == sh.Total(p) then
           p !in after.files && p in after.disk && after.disk[p] == Outcome(sh, w, p)
         else
           && p in after.files && BitsOf(sh, after, p) == bits
           && (Over(sh, after, p) <==> Over(sh, w, p))
           && (p in w.disk ==> p in after.disk && after.disk[p] == w.disk[p])
  {
    SharedTotal(sh, p);
    ReadyCount(sh, v, w, p, e);
    if e.bitmap[i] {
      assert e.bitmap[i := true] == e.bitmap;
      hide ReadyTrue, Count, Over, Outcome;
    } else {
      CountOfSet(e.bitmap, i);
      WriteProgress(sh, v, w, p, i, peer, e);
      hide ReadyTrue, Store, Over, Outcome, Count;
    }
  }

  /** One chunk that the disk takes. */
  lemma DeliverProgress(sh: Share, v: View, p: Path, i: nat, peer: PeerId)
    requires Honest(sh, v) && sh.Shared(p) && i < sh.Total(p) && HashFits(sh, v, p)
    ensures |BitsOf(sh, v, p)| == sh.Total(p) && Count(BitsOf(sh, v, p)) < sh.Total(p)
    ensures var w, bits := DeliverOne(sh, v, p, i, peer), BitsOf(sh, v, p)[i := true];
      && HashFits(sh, w, p)
      && if Count(bits) == sh.Total(p) then
           p !in w.files && p in w.disk && w.disk[p] == Outcome(sh, v, p)
         else
           && p in w.files && BitsOf(sh, w, p) == bits
           && (Over(sh, w, p) <==> Over(sh, v, p))
           && (p in v.disk ==> p in w.disk && w.disk[p] == v.disk[p])
  {
    HeaderIsValid(sh, p, i);
    Handled(sh.cfg, v, sh.Header(p, i), peer, ALL_GOOD);
    ReadyGoesOn(sh, v, p, i, peer);
    hide Honest, Ready, HandleHeader, ReadyTrue, Count, Store, Over, ValidHeader, BitsOf;
    var (w, ready) := Ready(v, sh.Header(p, i), peer, ALL_GOOD);
    StoreProgress(sh, v, w, p, i, peer, ready.value);
  }

  lemma ReadyCount(sh: Share, v: View, w: View, p: Path, e: Recv)
    requires ReadyTrue(sh, v, w, p, e)
    ensures |e.bitmap| == e.total == sh.Total(p) && Count(e.bitmap) < sh.Total(p)
  {
  }

  lemma WriteProgress(sh: Share, v: View, w: View, p: Path, i: nat, peer: PeerId, e: Recv)
    requires sh.Shared(p) && i < sh.Total(p) && ReadyTrue(sh, v, w, p, e) && !e.bitmap[i]
    requires e.hash != "" ==> !Over(sh, w, p)
    ensures var after, bits := Store(sh.cfg, w, sh.Header(p, i), peer, ALL_GOOD, e), e.bitmap[i := true];
      if Count(bits) == sh.Total(p) then
        p !in after.files && p in after.disk && after.disk[p] == Outcome(sh, w, p)
      else
        && p in after.files && after.files[p] == e.(bitmap := bits, received := e.received + 1, busy := false)
        && (Over(sh, after, p) <==> Over(sh, w, p))
        && (p in w.disk ==> p in after.disk && after.disk[p] == w.disk[p])
  {
    WrittenTrue(sh, w, p, i, e);
    var content := Written(sh.cfg, w.disk, e, sh.Header(p, i));
    var w1 := w.(disk := w.disk[TempOf(p) := content]);
    TempPut(w.disk, p, content);
    TempNames(p, p);
    var e1 := e.(bitmap := e.bitmap[i := true], received := e.received + 1);
    if e1.received >= e1.total {
      assert content == Outcome(sh, w, p);
      if e.hash != "" { assert content == sh.source(p); }
      FinalizeDelivers(sh, w1, p, e1, peer);
    }
  }

  lemma StoreKeepsTemp(cfg: Config, w: View, hdr: ChunkHeader, peer: PeerId, e: Recv)
    requires hdr.chunkIndex < hdr.totalChunks && e.tempPath in w.disk
    ensures var after := Store(cfg, w, hdr, peer, ALL_GOOD, e); hdr.filePath in after.tasks ==> e.tempPath in after.disk
  {
    hide Placed, Written, Resize;
  }

  /** With everything going well no row loses its temp file. */
  lemma DeliverGood(sh: Share, v: View, p: Path, i: nat, peer: PeerId)
    requires Honest(sh, v) && sh.Shared(p) && i < sh.Total(p)
    ensures Honest(sh, DeliverOne(sh, v, p, i, peer))
  {
    var hdr := sh.Header(p, i);
    HeaderIsValid(sh, p, i);
    Handled(sh.cfg, v, hdr, peer, ALL_GOOD);
    ReadyGoesOn(sh, v, p, i, peer);
    var (w, ready) := Ready(v, hdr, peer, ALL_GOOD);
    StoreKeepsTemp(sh.cfg, w, hdr, peer, ready.value);
    hide Honest, Ready, Store, HandleHeader, ValidHeader, EntryTrue, OnlyAt, Local, Vouched;
    DeliverHonest(sh, v, p, i, peer, ALL_GOOD);
  }

  function DeliverAll(sh: Share, v: View, p: Path, indices: seq<nat>, peer: PeerId): View
    requires 0 < sh.cfg.chunkSize
    decreases |indices|
  {
    if indices == [] then v else DeliverAll(sh, DeliverOne(sh, v, p, indices[0], peer), p, indices[1..], peer)
  }

  predicate Covers(indices: seq<nat>, bits: seq<bool>) {
    forall i: nat :: i < |bits| && !bits[i] ==> i in indices
  }

  predicate Within(indices: seq<nat>, total: nat) {
    forall k :: 0 <= k < |indices| ==> indices[k] < total
  }

  lemma {:induction false} StaysDelivered(sh: Share, v: View, p: Path, indices: seq<nat>, peer: PeerId)
    requires Honest(sh, v) && sh.Shared(p) && sh.tail(p) == [] && Within(indices, sh.Total(p))
    requires p in v.disk && v.disk[p] == sh.source(p)
    ensures var w := DeliverAll(sh, v, p, indices, peer);
      p in w.disk && w.disk[p] == sh.source(p)
    decreases |indices|
  {
    if indices != [] {
      NeverOver(sh, v, p);
      DeliverProgress(sh, v, p, indices[0], peer);
      DeliverGood(sh, v, p, indices[0], peer);
      hide Honest, DeliverOne;
      StaysDelivered(sh, DeliverOne(sh, v, p, indices[0], peer), p, indices[1..], peer);
    }
  }

  lemma NeverOver(sh: Share, v: View, p: Path)
    requires Honest(sh, v) && sh.Shared(p) && sh.tail(p) == []
    ensures !Over(sh, v, p)
  {
    assert TempTrue(sh, p, TempAt(v.disk, p));
  }

  lemma SomethingMissing(sh: Share, v: View, p: Path, indices: seq<nat>, peer: PeerId)
    requires Honest(sh, v) && sh.Shared(p) && HashFits(sh, v, p) && Covers(indices, BitsOf(sh, v, p))
    ensures indices != []
  {
    SharedTotal(sh, p);
    DeliverProgress(sh, v, p, 0, peer);
    CountIsFull(BitsOf(sh, v, p));
  }

  lemma {:induction false} MissingComplete(sh: Share, v: View, p: Path, indices: seq<nat>, peer: PeerId)
    requires Honest(sh, v) && sh.Shared(p) && sh.tail(p) == [] && Within(indices, sh.Total(p))
    requires Covers(indices, BitsOf(sh, v, p))
    ensures var w := DeliverAll(sh, v, p, indices, peer);
      p in w.disk && w.disk[p] == sh.source(p)
    decreases |indices|
  {
    NeverOver(sh, v, p);
    SomethingMissing(sh, v, p, indices, peer);
    var bits, i := BitsOf(sh, v, p), indices[0];
    DeliverProgress(sh, v, p, i, peer);
    DeliverGood(sh, v, p, i, peer);
    var w := DeliverOne(sh, v, p, i, peer);
    hide Honest, DeliverOne;
    if Count(bits[i := true]) == sh.Total(p) {
      StaysDelivered(sh, w, p, indices[1..], peer);
    } else {
      assert Covers(indices[1..], bits[i := true]) by {
        forall j: nat | j < |bits| && !bits[i := true][j] ensures j in indices[1..] {
          assert !bits[j] && j in indices && j != i;
        }
      }
      MissingComplete(sh, w, p, indices[1..], peer);
    }
  }

  lemma {:induction false} DeliverAllAside(sh: Share, v: View, stale: set<Path>, p: Path, indices: seq<nat>,
                                           peer: PeerId)
    requires 0 < sh.cfg.chunkSize
    ensures DeliverAll(sh, Cleansed(v, stale), p, indices, peer) == Cleansed(DeliverAll(sh, v, p, indices, peer), stale)
    decreases |indices|
  {
    if indices != [] {
      RowsAside(sh.cfg, v, stale, sh.Header(p, indices[0]), peer, ALL_GOOD);
      hide HandleHeader, Cleansed;
      DeliverAllAside(sh, DeliverOne(sh, v, p, indices[0], peer), stale, p, indices[1..], peer);
    }
  }

  /** From any state a run can reach, stale rows or not, delivering every missing chunk, in any
      order and with any repetitions, leaves the source in the final file. */
  lemma MissingChunksComplete(sh: Share, h: History, p: Path, indices: seq<nat>, peer: PeerId)
    requires Truthful(sh, h) && sh.Shared(p) && sh.tail(p) == [] && Within(indices, sh.Total(p))
    requires Covers(indices, BitsOf(sh, h.now, p))
    ensures var w := DeliverAll(sh, h.now, p, indices, peer);
      p in w.disk && w.disk[p] == sh.source(p)
  {
    hide Honest, DeliverAll;
    MissingComplete(sh, Cleansed(h.now, h.stale), p, indices, peer);
    DeliverAllAside(sh, h.now, h.stale, p, indices, peer);
  }

  /** All chunks from any point within the contiguous prefix on, in any order, complete the file. */
  lemma FromStartCompletes(sh: Share, h: History, p: Path, start: nat, indices: seq<nat>, peer: PeerId)
    requires Truthful(sh, h) && sh.Shared(p) && sh.tail(p) == [] && Within(indices, sh.Total(p))
    requires start <= Contiguous(BitsOf(sh, h.now, p))
    requires forall i: nat :: start <= i < sh.Total(p) ==> i in indices
    ensures var w := DeliverAll(sh, h.now, p, indices, peer);
      p in w.disk && w.disk[p] == sh.source(p)
  {
    BitsLength(sh, h, p);
    ResumeCoversMissing(BitsOf(sh, h.now, p), start);
    hide Truthful, DeliverAll;
    MissingChunksComplete(sh, h, p, indices, peer);
  }

  lemma BitsLength(sh: Share, h: History, p: Path)
    requires Truthful(sh, h) && sh.Shared(p)
    ensures |BitsOf(sh, h.now, p)| == sh.Total(p)
  {
    if p in h.now.files {
      assert MappedTrue(sh, p, h.now.files[p], TempAt(h.now.disk, p));
    }
  }
}
