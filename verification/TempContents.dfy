/** What chunks make of a temp file whatever it held before: its bytes, its length, and what is
    finalized in the end. */
module TempContents {
  import opened Wrappers
  import opened KcpProto
  import opened ChunkCodec
  import opened Chunks
  import opened Bitmap
  import opened Receiving
  import opened Content
  import opened Reassembly
  import opened Completion

  // ---------------------------------------------------------------- bytes

  function WriteChunk(src: seq<byte>, c: nat, content: seq<byte>, i: nat): seq<byte> {
    WriteAt(content, Offset(i, c), ChunkOf(src, c, i))
  }

  function WriteAll(src: seq<byte>, c: nat, content: seq<byte>, indices: seq<nat>): seq<byte>
    decreases |indices|
  {
    if indices == [] then content else WriteAll(src, c, WriteChunk(src, c, content, indices[0]), indices[1..])
  }

  /** A byte of a file that reads as zero past its end. */
  function Padded(content: seq<byte>, k: nat): byte {
    if k < |content| then content[k] else 0
  }

  /** Byte k of the source is in its own chunk and in no other. */
  lemma ByteOfChunk(src: seq<byte>, c: nat, i: nat, k: nat)
    requires Sized(src, c) && i < TotalChunks(|src|, c)
    ensures var off, chunk := Offset(i, c), ChunkOf(src, c, i);
      && (off <= k < off + |chunk| <==> k < |src| && PieceOf(k, c) == i)
      && (off <= k < off + |chunk| ==> chunk[k - off] == src[k])
      && off + |chunk| <= |src|
  {
    ChunkInside(src, c, i);
    var off, chunk := Offset(i, c), ChunkOf(src, c, i);
    if k < |src| { ByteInChunk(src, c, k); }
    hide Offset, PieceOf, TotalChunks, Sized;
    if off <= k < off + |chunk| { OnePiece(k, c, i); }
  }

  lemma WriteChunkBytes(src: seq<byte>, c: nat, content: seq<byte>, i: nat, k: nat)
    requires Sized(src, c) && i < TotalChunks(|src|, c)
    ensures var after := WriteChunk(src, c, content, i);
      && |content| <= |after| && (|content| <= |src| ==> |after| <= |src|)
        && (|content| >= |src| ==> |after| == |content|)
      && (k < |src| && PieceOf(k, c) == i ==> k < |after|)
      && Padded(after, k) == if k < |src| && PieceOf(k, c) == i then src[k] else Padded(content, k)
  {
    var off, chunk := Offset(i, c), ChunkOf(src, c, i);
    ByteOfChunk(src, c, i, k);
    var after := WriteAt(content, off, chunk);
    if k < |after| { WriteAtByte(content, off, chunk, k); }
  }

  predicate WithinChunks(indices: seq<nat>, src: seq<byte>, c: nat)
    requires 0 < c
  {
    Within(indices, TotalChunks(|src|, c))
  }

  lemma {:induction false} WriteAllBytes(src: seq<byte>, c: nat, content: seq<byte>, indices: seq<nat>, k: nat)
    requires Sized(src, c) && WithinChunks(indices, src, c)
    ensures var after := WriteAll(src, c, content, indices);
      && |content| <= |after| && (|content| <= |src| ==> |after| <= |src|)
        && (|content| >= |src| ==> |after| == |content|)
      && (k < |src| && PieceOf(k, c) in indices ==> k < |after|)
      && Padded(after, k) == if k < |src| && PieceOf(k, c) in indices then src[k] else Padded(content, k)
    decreases |indices|
  {
    if indices != [] {
      var i, rest := indices[0], indices[1..];
      assert indices == [i] + rest;
      WriteChunkBytes(src, c, content, i, k);
      hide WriteChunk;
      WriteAllBytes(src, c, WriteChunk(src, c, content, i), rest, k);
    }
  }

  lemma LastByte(src: seq<byte>, c: nat)
    requires Sized(src, c) && src != []
    ensures PieceOf(|src| - 1, c) == TotalChunks(|src|, c) - 1
  {
    var i, last := PieceOf(|src| - 1, c), TotalChunks(|src|, c) - 1;
    ByteInChunk(src, c, |src| - 1);
    PieceHolds(|src| - 1, c);
    ChunkStartsInside(src, c, last);
    OffsetStep(i, c);
    hide PieceOf, TotalChunks, Offset, Sized;
    if i < last { OffsetMonotone(i + 1, last, c); }
  }

  lemma WriteStaysShort(src: seq<byte>, c: nat, content: seq<byte>, i: nat)
    requires Sized(src, c) && src != [] && i < TotalChunks(|src|, c) && PieceOf(|src| - 1, c) != i
    requires |content| < |src|
    ensures |WriteChunk(src, c, content, i)| < |src|
  {
    ByteOfChunk(src, c, i, |src| - 1);
    hide Sized, TotalChunks, PieceOf, Offset, ChunkOf;
  }

  /** Without its last chunk a file does not grow to its full length. */
  lemma {:induction false} WriteAllStaysShort(src: seq<byte>, c: nat, content: seq<byte>, indices: seq<nat>)
    requires Sized(src, c) && WithinChunks(indices, src, c) && src != []
    requires TotalChunks(|src|, c) - 1 !in indices && |content| < |src|
    ensures |WriteAll(src, c, content, indices)| < |src|
    decreases |indices|
  {
    if indices != [] {
      var i, rest := indices[0], indices[1..];
      assert indices == [i] + rest;
      LastByte(src, c);
      WriteStaysShort(src, c, content, i);
      hide WriteChunk, Sized, TotalChunks, PieceOf;
      WriteAllStaysShort(src, c, WriteChunk(src, c, content, i), rest);
    }
  }

  lemma AllWrittenByte(src: seq<byte>, c: nat, content: seq<byte>, indices: seq<nat>, k: nat)
    requires Sized(src, c) && WithinChunks(indices, src, c)
    requires forall i: nat :: i < TotalChunks(|src|, c) ==> i in indices
    ensures var after := WriteAll(src, c, content, indices);
      && (k < |src| ==> k < |after| && after[k] == src[k])
      && (|src| <= k < |after| ==> k < |content| && after[k] == content[k])
  {
    WriteAllBytes(src, c, content, indices, k);
    if k < |src| { ByteInChunk(src, c, k); }
    hide WriteAll;
  }

  /** Writing every chunk over an old file gives the source, and after it what was longer. */
  lemma AllWritten(src: seq<byte>, c: nat, content: seq<byte>, indices: seq<nat>)
    requires Sized(src, c) && WithinChunks(indices, src, c)
    requires forall i: nat :: i < TotalChunks(|src|, c) ==> i in indices
    ensures WriteAll(src, c, content, indices) == src + if |content| > |src| then content[|src|..] else []
  {
    hide WriteAll, WithinChunks, Sized, TotalChunks;
    var after := WriteAll(src, c, content, indices);
    forall k: nat
      ensures k < |src| ==> k < |after| && after[k] == src[k]
      ensures |src| <= k < |after| ==> k < |content| && after[k] == content[k]
    {
      AllWrittenByte(src, c, content, indices, k);
    }
    WriteAllBytes(src, c, content, indices, 0);
    if src != [] { AllWrittenByte(src, c, content, indices, |src| - 1); }
    assert |after| == if |content| > |src| then |content| else |src|;
  }

  /** The file is no longer than the source, every claimed byte is right, a missing one reading as
      zero, and the end of the file is there or still to come. */
  predicate Recoverable(src: seq<byte>, c: nat, bits: seq<bool>, content: seq<byte>)
    requires 0 < c
  {
    && (forall k :: 0 <= k < |src| && PieceOf(k, c) < |bits| && bits[PieceOf(k, c)] ==> Padded(content, k) == src[k])
    && (|content| == |src| || (|content| < |src| && bits != [] && !bits[|bits| - 1]))
  }

  predicate Missing(indices: seq<nat>, bits: seq<bool>) {
    forall i: nat :: i < |bits| ==> (i in indices <==> !bits[i])
  }

  lemma MissingWritten(src: seq<byte>, c: nat, bits: seq<bool>, content: seq<byte>, indices: seq<nat>)
    requires Sized(src, c) && |bits| == TotalChunks(|src|, c)
    requires WithinChunks(indices, src, c) && Missing(indices, bits) && Recoverable(src, c, bits, content)
    ensures WriteAll(src, c, content, indices) == src
  {
    var after := WriteAll(src, c, content, indices);
    forall k | 0 <= k < |src| ensures Padded(after, k) == src[k] {
      RecoveredByte(src, c, bits, content, indices, k);
    }
    WriteAllBytes(src, c, content, indices, 0);
    if src != [] && |content| < |src| {
      LastByte(src, c);
      WriteAllBytes(src, c, content, indices, |src| - 1);
    }
    hide WriteAll, Recoverable, Missing, WithinChunks, Sized, TotalChunks;
    assert |after| == |src|;
  }

  lemma RecoveredByte(src: seq<byte>, c: nat, bits: seq<bool>, content: seq<byte>, indices: seq<nat>, k: nat)
    requires Sized(src, c) && |bits| == TotalChunks(|src|, c) && k < |src|
    requires WithinChunks(indices, src, c) && Missing(indices, bits) && Recoverable(src, c, bits, content)
    ensures Padded(WriteAll(src, c, content, indices), k) == src[k]
  {
    ByteInChunk(src, c, k);
    WriteAllBytes(src, c, content, indices, k);
    hide WriteAll, Padded;
  }

  lemma NeededByte(src: seq<byte>, c: nat, bits: seq<bool>, content: seq<byte>, indices: seq<nat>, k: nat)
    requires Sized(src, c) && |bits| == TotalChunks(|src|, c) && k < |src|
    requires WithinChunks(indices, src, c) && Missing(indices, bits) && WriteAll(src, c, content, indices) == src
    requires PieceOf(k, c) < |bits| && bits[PieceOf(k, c)]
    ensures Padded(content, k) == src[k]
  {
    WriteAllBytes(src, c, content, indices, k);
    hide WriteAll;
  }

  lemma MissingNeeded(src: seq<byte>, c: nat, bits: seq<bool>, content: seq<byte>, indices: seq<nat>)
    requires Sized(src, c) && |bits| == TotalChunks(|src|, c)
    requires WithinChunks(indices, src, c) && Missing(indices, bits) && WriteAll(src, c, content, indices) == src
    ensures Recoverable(src, c, bits, content)
  {
    WriteAllBytes(src, c, content, indices, 0);
    if |content| < |src| && bits[|bits| - 1] { WriteAllStaysShort(src, c, content, indices); }
    hide WriteAll, Sized, TotalChunks, Missing, WithinChunks, PieceOf;
    forall k | 0 <= k < |src| && PieceOf(k, c) < |bits| && bits[PieceOf(k, c)] ensures Padded(content, k) == src[k] {
      NeededByte(src, c, bits, content, indices, k);
    }
  }

  /** Writing the missing chunks gives the source exactly when the file is recoverable. */
  lemma MissingWrittenExactly(src: seq<byte>, c: nat, bits: seq<bool>, content: seq<byte>, indices: seq<nat>)
    requires Sized(src, c) && |bits| == TotalChunks(|src|, c)
    requires WithinChunks(indices, src, c) && Missing(indices, bits)
    ensures WriteAll(src, c, content, indices) == src <==> Recoverable(src, c, bits, content)
  {
    if WriteAll(src, c, content, indices) == src {
      MissingNeeded(src, c, bits, content, indices);
    }
    if Recoverable(src, c, bits, content) {
      MissingWritten(src, c, bits, content, indices);
    }
  }

  // ---------------------------------------------------------------- deliveries

  /** No chunk of the path has been handled: no entry, or a registration only. */
  predicate Untouched(v: View, p: Path) {
    p in v.files ==>
      var e := v.files[p];
      e.tempPath == [] && e.total == 0 && e.received == 0 && e.bitmap == [] && !e.isOpen
  }

  function ExpectedHash(v: View, p: Path): Hash {
    if p in v.files then v.files[p].hash else ""
  }

  /** An entry of the source's total with these bits. */
  predicate Underway(sh: Share, v: View, p: Path, bits: seq<bool>)
    requires 0 < sh.cfg.chunkSize
  {
    p in v.files &&
    var e := v.files[p];
    e.tempPath == TempOf(p) && e.total == sh.Total(p) && e.bitmap == bits && e.received == Count(bits)
  }

  /** The next chunk of p finds these bits and this content of the temp file; a new one is empty. */
  predicate Carries(sh: Share, v: View, p: Path, bits: seq<bool>, content: seq<byte>)
    requires 0 < sh.cfg.chunkSize
  {
    && |bits| == sh.Total(p)
    && ((TempAt(v.disk, p) == Some(content) && Underway(sh, v, p, bits))
        || (Untouched(v, p) && bits == Clear(sh.Total(p)) && content == TempOr(v.disk, p)))
  }

  function TempOr(disk: Disk, p: Path): seq<byte> {
    if TempOf(p) in disk then disk[TempOf(p)] else []
  }

  /** Nothing but p, its entry, row, files and record differs. */
  predicate Apart(v: View, w: View, p: Path) {
    && v.files - {p} == w.files - {p} && v.tasks - {p} == w.tasks - {p} && v.synced - {p} == w.synced - {p}
    && v.disk - {p, TempOf(p)} == w.disk - {p, TempOf(p)} && v.sending == w.sending && v.uploads == w.uploads
  }

  function NewTask(v: View, p: Path): nat {
    if p in v.files && v.files[p].tempPath != [] then 0 else 1
  }

  /** Some chunks of p later: its task is counted, and nothing is done, recorded or in place yet. */
  predicate Progressed(v: View, w: View, p: Path) {
    && Apart(v, w, p) && p in w.files && w.files[p].tempPath != []
    && w.total == v.total + NewTask(v, p) && w.done == v.done && w.tasks == v.tasks && w.synced == v.synced
    && (p in w.disk <==> p in v.disk) && (p in v.disk ==> w.disk[p] == v.disk[p])
  }

  predicate Accepted(sh: Share, content: seq<byte>, hash: Hash) {
    hash == "" || sh.cfg.sha(content) == hash
  }

  /** The file is in place, and recorded if the peer is known; or, where that peer's file does not
      have the expected hash, thrown away and not recorded. Entry, row and temp file are gone, and
      one more task is done. */
  predicate Finished(sh: Share, v: View, w: View, p: Path, content: seq<byte>, peer: PeerId, hash: Hash) {
    && Apart(v, w, p) && p !in w.files && p !in w.tasks && TempAt(w.disk, p).None?
    && w.done == v.done + 1 && w.total == v.total + NewTask(v, p)
    && (if peer == "" || Accepted(sh, content, hash) then p in w.disk && w.disk[p] == content else p !in w.disk)
    && w.synced == (if peer != "" && Accepted(sh, content, hash) then v.synced[p := sh.cfg.sha(content)] else v.synced)
  }

  lemma ProgressGoesOn(v: View, w: View, d: View, p: Path)
    requires Progressed(v, w, p) && Progressed(w, d, p)
    ensures Progressed(v, d, p)
  {
  }

  lemma ProgressFinishes(sh: Share, v: View, w: View, d: View, p: Path, content: seq<byte>, peer: PeerId, hash: Hash)
    requires Progressed(v, w, p) && Finished(sh, w, d, p, content, peer, hash)
    ensures Finished(sh, v, d, p, content, peer, hash)
  {
  }

  lemma OpenedApart(v: View, p: Path, f: Found, disk: Disk)
    requires f.entry.tempPath == TempOf(p) && f.disk == v.disk && f.counted == NewTask(v, p) && !IsTemp(p)
    requires disk == v.disk || disk == v.disk[TempOf(p) := []]
    ensures Progressed(v, Put(Located(v, p, f), p, f.entry.(isOpen := true)).(disk := disk), p)
    ensures Progressed(v, Located(v, p, f), p)
  {
    TempNames(p, p);
  }

  lemma CarriedReady(sh: Share, v: View, p: Path, i: nat, peer: PeerId, bits: seq<bool>, content: seq<byte>)
    requires sh.Shared(p) && i < sh.Total(p) && Carries(sh, v, p, bits, content)
    ensures var (w, ready) := Ready(v, sh.Header(p, i), peer, ALL_GOOD);
      && ready.Some? && TempAt(w.disk, p) == Some(content) && Progressed(v, w, p)
      && var e := ready.value;
      && p in w.files && w.files[p] == e
      && e.tempPath == TempOf(p) && e.total == sh.Total(p) && e.bitmap == bits && e.received == Count(bits)
      && e.hash == ExpectedHash(v, p)
  {
    var f := Find(v, p, sh.Total(p), peer, true);
    FoundCarried(sh, v, p, peer, bits, content);
    var v1 := Located(v, p, f);
    hide Find, Carries, ExpectedHash, Count;
    OpenedApart(v, p, f, v.disk);
    OpenedApart(v, p, f, v.disk[TempOf(p) := []]);
    hide Progressed;
  }

  lemma FoundCarried(sh: Share, v: View, p: Path, peer: PeerId, bits: seq<bool>, content: seq<byte>)
    requires sh.Shared(p) && Carries(sh, v, p, bits, content)
    ensures var f := Find(v, p, sh.Total(p), peer, true);
      && f.disk == v.disk && f.counted == NewTask(v, p) && content == TempOr(v.disk, p)
      && (TempOf(p) !in v.disk ==> f.needOpen && !f.entry.isOpen)
      && var e := f.entry;
      && e.tempPath == TempOf(p) && e.total == sh.Total(p) && e.bitmap == bits && e.received == Count(bits)
      && e.hash == ExpectedHash(v, p)
  {
    SharedTotal(sh, p);
    assert Resize([], sh.Total(p)) == Clear(sh.Total(p));
    hide Clear;
  }

  /** One missing chunk: its bytes are written, and the last one finishes the file. */
  lemma CarryOne(sh: Share, v: View, p: Path, i: nat, peer: PeerId, bits: seq<bool>, content: seq<byte>)
    requires sh.Shared(p) && i < sh.Total(p) && Carries(sh, v, p, bits, content) && !bits[i]
    ensures var w, after := DeliverOne(sh, v, p, i, peer), WriteChunk(sh.source(p), sh.cfg.chunkSize, content, i);
      if Count(bits[i := true]) < sh.Total(p) then
        && Carries(sh, w, p, bits[i := true], after) && ExpectedHash(w, p) == ExpectedHash(v, p)
        && Progressed(v, w, p)
      else
        Finished(sh, v, w, p, after, peer, ExpectedHash(v, p))
  {
    HeaderIsValid(sh, p, i);
    Handled(sh.cfg, v, sh.Header(p, i), peer, ALL_GOOD);
    CarriedReady(sh, v, p, i, peer, bits, content);
    CountOfSet(bits, i);
    var (w, ready) := Ready(v, sh.Header(p, i), peer, ALL_GOOD);
    var after := WriteChunk(sh.source(p), sh.cfg.chunkSize, content, i);
    var d := Store(sh.cfg, w, sh.Header(p, i), peer, ALL_GOOD, ready.value);
    hide Ready, WriteAt, HandleHeader, ValidHeader, Store, Progressed, Finished, TotalChunks, Count;
    StoreCarried(sh, w, p, i, peer, ready.value, content);
    if Count(bits[i := true]) < sh.Total(p) {
      ProgressGoesOn(v, w, d, p);
    } else {
      ProgressFinishes(sh, v, w, d, p, after, peer, ready.value.hash);
    }
  }

  lemma StoreCarried(sh: Share, w: View, p: Path, i: nat, peer: PeerId, e: Recv, content: seq<byte>)
    requires sh.Shared(p) && i < sh.Total(p) && TempAt(w.disk, p) == Some(content) && p in w.files && w.files[p] == e
    requires e.tempPath == TempOf(p) && e.total == sh.Total(p) == |e.bitmap| && e.received == Count(e.bitmap)
        && !e.bitmap[i]
    ensures var d := Store(sh.cfg, w, sh.Header(p, i), peer, ALL_GOOD, e);
      var after := WriteChunk(sh.source(p), sh.cfg.chunkSize, content, i);
      if e.received + 1 < e.total then
        && Underway(sh, d, p, e.bitmap[i := true]) && TempAt(d.disk, p) == Some(after) && d.files[p].hash == e.hash
        && Progressed(w, d, p)
      else
        Finished(sh, w, d, p, after, peer, e.hash)
  {
    CountOfSet(e.bitmap, i);
    TempNames(p, p);
    var after := WriteChunk(sh.source(p), sh.cfg.chunkSize, content, i);
    var w1 := w.(disk := w.disk[TempOf(p) := after]);
    var e1 := e.(bitmap := e.bitmap[i := true], received := e.received + 1);
    assert Written(sh.cfg, w.disk, e, sh.Header(p, i)) == after;
    hide WriteAt, Count, TotalChunks;
    if e1.received >= e1.total {
      FinalizeCarried(sh, w1, p, e1, peer);
      assert w1.disk - {p, TempOf(p)} == w.disk - {p, TempOf(p)};
    } else {
      assert w1.disk - {p, TempOf(p)} == w.disk - {p, TempOf(p)};
    }
  }

  lemma FinalizeCarried(sh: Share, w: View, p: Path, e: Recv, peer: PeerId)
    requires !IsTemp(p) && e.tempPath == TempOf(p) && TempOf(p) in w.disk && p in w.files && w.files[p].tempPath != []
    ensures Finished(sh, w, Finalize(sh.cfg, w, p, e, peer, ALL_GOOD), p, w.disk[TempOf(p)], peer, e.hash)
  {
    TempNames(p, p);
  }

  predicate Distinct(indices: seq<nat>) {
    forall a, b :: 0 <= a < b < |indices| ==> indices[a] != indices[b]
  }

  /** The indices are the missing chunks, each once. */
  predicate EachMissing(indices: seq<nat>, bits: seq<bool>) {
    Distinct(indices) && Within(indices, |bits|) && Missing(indices, bits)
  }

  lemma OneLessMissing(indices: seq<nat>, bits: seq<bool>)
    requires indices != [] && EachMissing(indices, bits)
    ensures indices[0] < |bits| && !bits[indices[0]] && EachMissing(indices[1..], bits[indices[0] := true])
  {
    var i, rest := indices[0], indices[1..];
    assert i in indices;
    forall j: nat | j < |bits| ensures j in rest <==> !bits[i := true][j] {
      if j in rest {
        var k :| 0 <= k < |rest| && rest[k] == j;
        assert indices[0] != indices[k + 1] && indices[k + 1] in indices;
      } else if !bits[j] {
        assert j in indices;
      }
    }
  }

  /** Each missing chunk delivered once, in any order: the last one finishes the file with what
      all of them have made of the temp file. */
  lemma {:induction false} EachMissingFinishes(sh: Share, v: View, p: Path, indices: seq<nat>, peer: PeerId,
                                               bits: seq<bool>, content: seq<byte>)
    requires sh.Shared(p) && Carries(sh, v, p, bits, content) && EachMissing(indices, bits) && indices != []
    ensures Finished(sh, v, DeliverAll(sh, v, p, indices, peer), p,
        WriteAll(sh.source(p), sh.cfg.chunkSize, content, indices), peer, ExpectedHash(v, p))
    decreases |indices|
  {
    var i, rest := indices[0], indices[1..];
    OneLessMissing(indices, bits);
    CarryOne(sh, v, p, i, peer, bits, content);
    CountIsFull(bits[i := true]);
    hide Carries, Finished, Progressed, DeliverOne, WriteChunk, ExpectedHash;
    var w, after := DeliverOne(sh, v, p, i, peer), WriteChunk(sh.source(p), sh.cfg.chunkSize, content, i);
    if rest == [] {
      NoneMissing(bits[i := true]);
      assert DeliverAll(sh, w, p, [], peer) == w && WriteAll(sh.source(p), sh.cfg.chunkSize, after, []) == after;
    } else {
      assert !bits[i := true][rest[0]] by { assert rest[0] in rest; }
      EachMissingFinishes(sh, w, p, rest, peer, bits[i := true], after);
      ProgressFinishes(sh, v, w, DeliverAll(sh, w, p, rest, peer), p,
        WriteAll(sh.source(p), sh.cfg.chunkSize, after, rest), peer, ExpectedHash(v, p));
    }
  }

  lemma NoneMissing(bits: seq<bool>)
    requires Missing([], bits)
    ensures Count(bits) == |bits|
  {
    CountIsFull(bits);
  }
}
