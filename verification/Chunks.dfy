/** How a file is cut into chunks. */
module Chunks {
  import opened KcpProto

  /** Pieces of a size that cover so many bytes. */
  function Pieces(size: nat, chunkSize: nat): nat
    requires 0 < chunkSize
  {
    (size + chunkSize - 1) / chunkSize
  }

  /** The piece that a byte is in. */
  function PieceOf(k: nat, chunkSize: nat): nat
    requires 0 < chunkSize
  {
    k / chunkSize
  }

  /** The sender's chunk count: at least one chunk even for an empty file, and cut to 32 bits. */
  function TotalChunks(size: nat, chunkSize: nat): (total: nat)
    requires 0 < chunkSize
    ensures total < UINT32_LIMIT
  {
    if size > 0 then Pieces(size, chunkSize) % UINT32_LIMIT else 1
  }

  function Min(a: int, b: int): int {
    if a <= b then a else b
  }

  /** What reading up to chunkSize bytes at pos returns. */
  function ReadAt(src: seq<byte>, pos: nat, chunkSize: nat): (data: seq<byte>)
    ensures |data| <= chunkSize
  {
    src[Min(pos, |src|)..Min(pos + chunkSize, |src|)]
  }

  function Offset(i: nat, chunkSize: nat): nat {
    i * chunkSize
  }

  function ChunkOf(src: seq<byte>, chunkSize: nat, i: nat): seq<byte> {
    ReadAt(src, Offset(i, chunkSize), chunkSize)
  }

  lemma OffsetStep(i: nat, chunkSize: nat)
    ensures Offset(i + 1, chunkSize) == Offset(i, chunkSize) + chunkSize
  {
  }

  lemma {:induction false} OffsetMonotone(i: nat, j: nat, chunkSize: nat)
    requires i <= j
    ensures Offset(i, chunkSize) <= Offset(j, chunkSize)
    decreases j
  {
    if i < j { OffsetMonotone(i, j - 1, chunkSize); OffsetStep(j - 1, chunkSize); }
  }

  lemma PiecesCover(size: nat, chunkSize: nat)
    requires 0 < chunkSize
    ensures size <= Offset(Pieces(size, chunkSize), chunkSize) < size + chunkSize
  {
  }

  /** So many pieces are enough exactly for so many times the size of one. */
  lemma {:induction false} PiecesWithin(size: nat, chunkSize: nat, n: nat)
    requires 0 < chunkSize
    ensures Pieces(size, chunkSize) <= n <==> size <= n * chunkSize
  {
    var pieces := Pieces(size, chunkSize);
    PiecesCover(size, chunkSize);
    if pieces <= n { OffsetMonotone(pieces, n, chunkSize); } else { OffsetMonotone(n + 1, pieces, chunkSize); }
    OffsetStep(n, chunkSize);
    hide Pieces;
  }

  lemma PieceHolds(k: nat, chunkSize: nat)
    requires 0 < chunkSize
    ensures Offset(PieceOf(k, chunkSize), chunkSize) <= k < Offset(PieceOf(k, chunkSize), chunkSize) + chunkSize
  {
  }

  /** A byte is in one piece only. */
  lemma OnePiece(k: nat, chunkSize: nat, i: nat)
    requires 0 < chunkSize && Offset(i, chunkSize) <= k < Offset(i, chunkSize) + chunkSize
    ensures PieceOf(k, chunkSize) == i
  {
    var j := PieceOf(k, chunkSize);
    PieceHolds(k, chunkSize);
    hide PieceOf, Offset;
    OffsetStep(i, chunkSize);
    OffsetStep(j, chunkSize);
    if i < j {
      OffsetMonotone(i + 1, j, chunkSize);
    } else if j < i {
      OffsetMonotone(j + 1, i, chunkSize);
    }
  }

  /** The pieces of so many bytes are those their bytes are in. */
  lemma PieceCounted(size: nat, chunkSize: nat, k: nat)
    requires 0 < chunkSize && k < size
    ensures PieceOf(k, chunkSize) < Pieces(size, chunkSize)
  {
    var n, i := Pieces(size, chunkSize), PieceOf(k, chunkSize);
    PiecesCover(size, chunkSize);
    PieceHolds(k, chunkSize);
    hide Pieces, PieceOf, Offset;
    if n <= i { OffsetMonotone(n, i, chunkSize); }
  }

  /** When the pieces fit 32 bits all of them are counted. */
  lemma TotalIsPieces(size: nat, chunkSize: nat)
    requires 0 < chunkSize && Pieces(size, chunkSize) < UINT32_LIMIT
    ensures TotalChunks(size, chunkSize) == if size > 0 then Pieces(size, chunkSize) else 1
    ensures 0 < TotalChunks(size, chunkSize)
  {
    if size > 0 {
      PiecesCover(size, chunkSize);
      hide Pieces;
      assert Offset(0, chunkSize) == 0;
    }
  }

  /** No chunk the sender counts starts past the end of the file. */
  lemma ChunkStartsInside(src: seq<byte>, chunkSize: nat, i: nat)
    requires 0 < chunkSize && i < TotalChunks(|src|, chunkSize)
    ensures Offset(i, chunkSize) <= |src|
    ensures src != [] ==> Offset(i, chunkSize) < |src|
    ensures Offset(i, chunkSize) + |ChunkOf(src, chunkSize, i)| <= |src|
  {
    if src != [] {
      var count := Pieces(|src|, chunkSize);
      PiecesCover(|src|, chunkSize);
      hide Pieces;
      assert i + 1 <= count;
      OffsetStep(i, chunkSize);
      hide Offset;
      OffsetMonotone(i + 1, count, chunkSize);
    } else {
      assert Offset(0, chunkSize) == 0;
    }
  }

  /** The chunks reach the end of the file when the count fits 32 bits. */
  lemma ChunksReachEnd(size: nat, chunkSize: nat)
    requires 0 < chunkSize && Pieces(size, chunkSize) < UINT32_LIMIT
    ensures size <= Offset(TotalChunks(size, chunkSize), chunkSize)
  {
    TotalIsPieces(size, chunkSize);
    PiecesCover(size, chunkSize);
    hide Pieces, TotalChunks;
  }
}
