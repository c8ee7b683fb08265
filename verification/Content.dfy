/** Chunked content: what a partly written file holds of its source, whatever order the
    chunks came in. */
module Content {
  import opened KcpProto
  import opened ChunkCodec
  import opened Chunks
  import opened Bitmap
  import opened Receiving

  /** The source fits the receiver's chunk limit. */
  predicate Sized(src: seq<byte>, c: nat) {
    0 < c && Pieces(|src|, c) <= MAX_ALLOWED_TOTAL_CHUNKS
  }

  lemma SizedExactly(src: seq<byte>, c: nat)
    ensures Sized(src, c) <==> 0 < c && |src| <= 8388608 * c
  {
    if 0 < c { PiecesWithin(|src|, c, 8388608); }
    hide Pieces;
  }

  predicate HoldsChunk(content: seq<byte>, src: seq<byte>, c: nat, i: nat) {
    var off, chunk := Offset(i, c), ChunkOf(src, c, i);
    off + |chunk| <= |content| && (chunk == [] || content[off..off + |chunk|] == chunk)
  }

  predicate Holds(content: seq<byte>, src: seq<byte>, c: nat, bits: seq<bool>) {
    forall i :: 0 <= i < |bits| && bits[i] ==> HoldsChunk(content, src, c, i)
  }

  /** Past the end of the source there is nothing, or what was there before. */
  predicate Tailed(content: seq<byte>, src: seq<byte>, tail: seq<byte>) {
    |content| <= |src| || content[|src|..] == tail
  }

  lemma WriteAtByte(content: seq<byte>, off: nat, data: seq<byte>, k: nat)
    requires k < |WriteAt(content, off, data)|
    ensures WriteAt(content, off, data)[k] ==
      if off <= k < off + |data| then data[k - off] else if k < |content| then content[k] else 0
  {
  }

  /** A chunk of the source lies in it. */
  lemma ChunkInside(src: seq<byte>, c: nat, i: nat)
    requires Sized(src, c) && i < TotalChunks(|src|, c)
    ensures var off, chunk := Offset(i, c), ChunkOf(src, c, i);
      off + |chunk| <= |src| && chunk == src[off..off + |chunk|]
  {
    ChunkStartsInside(src, c, i);
    hide TotalChunks, Offset, Sized;
  }

  /** Any first part of a chunk, written in its place. */
  function WritePart(content: seq<byte>, src: seq<byte>, c: nat, i: nat, n: nat): (after: seq<byte>)
    requires n <= |ChunkOf(src, c, i)|
    ensures |after| >= |content|
  {
    WriteAt(content, Offset(i, c), ChunkOf(src, c, i)[..n])
  }

  lemma PartByte(content: seq<byte>, src: seq<byte>, c: nat, i: nat, n: nat, k: nat)
    requires Sized(src, c) && i < TotalChunks(|src|, c) && n <= |ChunkOf(src, c, i)|
    requires k < |WritePart(content, src, c, i, n)|
    ensures var off := Offset(i, c);
      && off + n <= |src|
      && WritePart(content, src, c, i, n)[k]
        == if off <= k < off + n then src[k] else if k < |content| then content[k] else 0
  {
    ChunkInside(src, c, i);
    WriteAtByte(content, Offset(i, c), ChunkOf(src, c, i)[..n], k);
    hide WriteAt, ChunkOf, Offset, Sized, TotalChunks;
  }

  /** Writing any first part of a chunk takes no chunk from the file. */
  lemma PartKeepsChunk(content: seq<byte>, src: seq<byte>, c: nat, i: nat, n: nat, j: nat)
    requires Sized(src, c) && i < TotalChunks(|src|, c) && n <= |ChunkOf(src, c, i)|
    requires j < TotalChunks(|src|, c) && HoldsChunk(content, src, c, j)
    ensures HoldsChunk(WritePart(content, src, c, i, n), src, c, j)
  {
    var after, off, chunk := WritePart(content, src, c, i, n), Offset(j, c), ChunkOf(src, c, j);
    ChunkInside(src, c, j);
    hide WritePart, ChunkOf, Offset, Sized, TotalChunks;
    if chunk != [] {
      forall m | 0 <= m < |chunk| ensures after[off..off + |chunk|][m] == chunk[m] {
        PartByte(content, src, c, i, n, off + m);
        assert content[off..off + |chunk|][m] == content[off + m] && src[off..off + |chunk|][m] == src[off + m];
      }
    }
  }

  lemma WholeAddsChunk(content: seq<byte>, src: seq<byte>, c: nat, i: nat)
    requires Sized(src, c) && i < TotalChunks(|src|, c)
    ensures HoldsChunk(WritePart(content, src, c, i, |ChunkOf(src, c, i)|), src, c, i)
  {
    var off, chunk := Offset(i, c), ChunkOf(src, c, i);
    var after := WritePart(content, src, c, i, |chunk|);
    ChunkInside(src, c, i);
    if chunk == [] {
      EmptyChunkIsFirst(src, c, i);
    } else {
      assert |after| >= off + |chunk|;
      hide WritePart, ChunkOf, Offset, Sized, TotalChunks;
      forall k | off <= k < off + |chunk| ensures after[k] == src[k] {
        PartByte(content, src, c, i, |chunk|, k);
      }
      assert after[off..off + |chunk|] == chunk;
    }
  }

  /** Only an empty source has an empty chunk. */
  lemma EmptyChunkIsFirst(src: seq<byte>, c: nat, i: nat)
    requires Sized(src, c) && i < TotalChunks(|src|, c) && ChunkOf(src, c, i) == []
    ensures Offset(i, c) == 0
  {
    ChunkStartsInside(src, c, i);
    if src == [] {
      assert i == 0;
    } else {
      hide Offset, TotalChunks, Sized;
    }
  }

  lemma PartHolds(content: seq<byte>, src: seq<byte>, c: nat, bits: seq<bool>, i: nat, n: nat)
    requires Sized(src, c) && i < |bits| == TotalChunks(|src|, c) && n <= |ChunkOf(src, c, i)|
    requires Holds(content, src, c, bits)
    ensures Holds(WritePart(content, src, c, i, n), src, c, bits)
  {
    hide WritePart, ChunkOf, Offset, Sized, TotalChunks, HoldsChunk;
    forall j | 0 <= j < |bits| && bits[j] ensures HoldsChunk(WritePart(content, src, c, i, n), src, c, j) {
      PartKeepsChunk(content, src, c, i, n, j);
    }
  }

  /** Writing one chunk adds it and takes no other. */
  lemma WriteHolds(content: seq<byte>, src: seq<byte>, c: nat, bits: seq<bool>, i: nat)
    requires Sized(src, c) && i < |bits| == TotalChunks(|src|, c)
    requires Holds(content, src, c, bits)
    ensures Holds(WriteAt(content, Offset(i, c), ChunkOf(src, c, i)), src, c, bits[i := true])
  {
    var n := |ChunkOf(src, c, i)|;
    assert ChunkOf(src, c, i)[..n] == ChunkOf(src, c, i);
    assert WritePart(content, src, c, i, n) == WriteAt(content, Offset(i, c), ChunkOf(src, c, i));
    PartHolds(content, src, c, bits, i, n);
    WholeAddsChunk(content, src, c, i);
    hide WritePart, ChunkOf, Offset, Sized, TotalChunks, HoldsChunk;
  }

  lemma PartTailed(content: seq<byte>, src: seq<byte>, c: nat, i: nat, n: nat, tail: seq<byte>)
    requires Sized(src, c) && i < TotalChunks(|src|, c) && n <= |ChunkOf(src, c, i)| && Tailed(content, src, tail)
    ensures var after := WritePart(content, src, c, i, n);
      Tailed(after, src, tail) && (|after| > |src| <==> |content| > |src|)
  {
    var after := WritePart(content, src, c, i, n);
    ChunkInside(src, c, i);
    if |content| > |src| {
      assert |after| == |content|;
      hide WritePart, ChunkOf, Offset, Sized, TotalChunks;
      forall k | |src| <= k < |after| ensures after[k] == content[k] {
        PartByte(content, src, c, i, n, k);
      }
      assert after[|src|..] == content[|src|..];
    }
  }

  /** The chunk that byte k belongs to. */
  lemma ByteInChunk(src: seq<byte>, c: nat, k: nat)
    requires Sized(src, c) && k < |src|
    ensures var i := PieceOf(k, c);
      && i < TotalChunks(|src|, c)
      && Offset(i, c) <= k < Offset(i, c) + |ChunkOf(src, c, i)|
      && ChunkOf(src, c, i)[k - Offset(i, c)] == src[k]
  {
    PieceCounted(|src|, c, k);
    PieceHolds(k, c);
    TotalIsPieces(|src|, c);
    hide Pieces, PieceOf, Offset, TotalChunks;
  }

  lemma HeldByte(content: seq<byte>, src: seq<byte>, c: nat, bits: seq<bool>, k: nat)
    requires Sized(src, c) && |bits| == TotalChunks(|src|, c) && Holds(content, src, c, bits)
    requires k < |src| && forall i :: 0 <= i < |bits| ==> bits[i]
    ensures k < |content| && content[k] == src[k]
  {
    ByteInChunk(src, c, k);
    var i := PieceOf(k, c);
    var off, chunk := Offset(i, c), ChunkOf(src, c, i);
    hide Offset, ChunkOf, Sized, TotalChunks, PieceOf;
    assert bits[i] && HoldsChunk(content, src, c, i);
    assert content[off..off + |chunk|][k - off] == content[k];
  }

  /** The file begins with the source. */
  predicate BeginsWith(content: seq<byte>, src: seq<byte>) {
    |src| <= |content| && forall k :: 0 <= k < |src| ==> content[k] == src[k]
  }

  lemma HeldBytes(content: seq<byte>, src: seq<byte>, c: nat, bits: seq<bool>)
    requires Sized(src, c) && |bits| == TotalChunks(|src|, c) && Holds(content, src, c, bits)
    requires forall i :: 0 <= i < |bits| ==> bits[i]
    ensures BeginsWith(content, src)
  {
    hide Sized, TotalChunks, Holds;
    if src != [] { HeldByte(content, src, c, bits, |src| - 1); }
    forall k | 0 <= k < |src| ensures content[k] == src[k] {
      HeldByte(content, src, c, bits, k);
    }
  }

  /** A file that holds every chunk is its source, followed by what was there before. */
  lemma AllChunksMakeSource(content: seq<byte>, src: seq<byte>, c: nat, bits: seq<bool>, tail: seq<byte>)
    requires Sized(src, c) && |bits| == TotalChunks(|src|, c) && Count(bits) == |bits|
    requires Holds(content, src, c, bits) && Tailed(content, src, tail)
    ensures content == src + if |content| > |src| then tail else []
  {
    hide Sized, TotalChunks, Holds, BeginsWith;
    CountIsFull(bits);
    hide Count;
    HeldBytes(content, src, c, bits);
    SourceThenTail(content, src, tail);
  }

  lemma SourceThenTail(content: seq<byte>, src: seq<byte>, tail: seq<byte>)
    requires BeginsWith(content, src) && Tailed(content, src, tail)
    ensures content == src + if |content| > |src| then tail else []
  {
    assert content[..|src|] == src;
    assert content == content[..|src|] + content[|src|..];
  }
}
