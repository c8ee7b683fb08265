/** Receive bitmaps: counting, the contiguous prefix a resume starts from, and the packing
    into bytes that the database stores. */
module Bitmap {

  /** The number of set bits. */
  function Count(bits: seq<bool>): (n: nat)
    ensures n <= |bits|
  {
    if bits == [] then 0 else Count(bits[..|bits| - 1]) + if bits[|bits| - 1] then 1 else 0
  }

  lemma {:induction false} CountOfSet(bits: seq<bool>, i: nat)
    requires i < |bits| && !bits[i]
    ensures Count(bits[i := true]) == Count(bits) + 1
  {
    var last := |bits| - 1;
    if i == last {
      assert bits[i := true][..last] == bits[..last];
    } else {
      assert bits[i := true][..last] == bits[..last][i := true];
      CountOfSet(bits[..last], i);
    }
  }

  /** A full count means every bit is set, and only then. */
  lemma {:induction false} CountIsFull(bits: seq<bool>)
    ensures Count(bits) == |bits| <==> forall i :: 0 <= i < |bits| ==> bits[i]
  {
    if bits != [] {
      var init := bits[..|bits| - 1];
      CountIsFull(init);
      assert bits == init + [bits[|bits| - 1]];
      assert forall i :: 0 <= i < |init| ==> init[i] == bits[i];
    }
  }

  lemma {:induction false} CountOfClear(n: nat)
    ensures Count(seq(n, _ => false)) == 0
  {
    if n > 0 {
      assert seq(n, _ => false)[..n - 1] == seq(n - 1, _ => false);
      CountOfClear(n - 1);
    }
  }

  lemma {:induction false} CountZero(bits: seq<bool>)
    requires Count(bits) == 0
    ensures forall i :: 0 <= i < |bits| ==> !bits[i]
  {
    if bits != [] {
      var init := bits[..|bits| - 1];
      CountZero(init);
      forall i | 0 <= i < |bits| ensures !bits[i] {
        if i < |init| { assert init[i] == bits[i]; }
      }
    }
  }

  method CountBits(bits: seq<bool>) returns (count: nat)
    ensures count == Count(bits)
  {
    count := 0;
    for i := 0 to |bits|
      invariant count == Count(bits[..i])
    {
      assert bits[..i + 1][..i] == bits[..i];
      if bits[i] { count := count + 1; }
    }
    assert bits[..|bits|] == bits;
  }

  /** The chunks received without a hole from the start of the file. */
  function Contiguous(bits: seq<bool>): (n: nat)
    ensures n <= |bits|
    ensures forall i :: 0 <= i < n ==> bits[i]
    ensures n < |bits| ==> !bits[n]
  {
    ContiguousFrom(bits, 0)
  }

  function ContiguousFrom(bits: seq<bool>, from: nat): (n: nat)
    requires from <= |bits|
    ensures from <= n <= |bits|
    ensures forall i :: from <= i < n ==> bits[i]
    ensures n < |bits| ==> !bits[n]
    decreases |bits| - from
  {
    if from < |bits| && bits[from] then ContiguousFrom(bits, from + 1) else from
  }

  method ContiguousPrefix(bits: seq<bool>) returns (contiguous: nat)
    ensures contiguous == Contiguous(bits)
  {
    contiguous := 0;
    for i := 0 to |bits|
      invariant contiguous == i && ContiguousFrom(bits, i) == Contiguous(bits)
    {
      if !bits[i] { break; }
      contiguous := contiguous + 1;
    }
  }

  /** The prefix together with everything from the resume point on leaves nothing out, and
      no later resume point would do. */
  lemma ResumeCoversMissing(bits: seq<bool>, start: nat)
    requires start <= |bits|
    ensures (forall i :: 0 <= i < |bits| && !bits[i] ==> start <= i) <==> start <= Contiguous(bits)
  {
    var c := Contiguous(bits);
    if c < start { assert !bits[c]; }
  }

  // ---------------------------------------------------------------- packing

  /** The byte 1 << k. */
  function Bit(k: nat): (b: bv8)
    requires k < 8
  {
    1 as bv8 << k
  }

  lemma BitValues()
    ensures Bit(0) == 1 && Bit(1) == 2 && Bit(2) == 4 && Bit(3) == 8
    ensures Bit(4) == 16 && Bit(5) == 32 && Bit(6) == 64 && Bit(7) == 128
  {
  }

  predicate Has(b: bv8, k: nat)
    requires k < 8
  {
    b & Bit(k) != 0
  }

  lemma OrSetsOneBit(b: bv8, k: nat, j: nat)
    requires k < 8 && j < 8
    ensures Has(b | Bit(k), j) <==> Has(b, j) || j == k
  {
    BitValues();
  }

  lemma ZeroHasNoBit(j: nat)
    requires j < 8
    ensures !Has(0, j)
  {
  }

  /** Bit i of the packed form. */
  predicate PackedBit(data: seq<bv8>, i: nat)
    requires i / 8 < |data|
  {
    Has(data[i / 8], i % 8)
  }

  function PackedLength(count: nat): nat {
    (count + 7) / 8
  }

  method SerializeBitmap(bits: seq<bool>) returns (data: seq<bv8>)
    ensures |data| == PackedLength(|bits|)
    ensures forall i :: 0 <= i < |bits| ==> PackedBit(data, i) == bits[i]
    ensures data == Packed(bits)
  {
    if bits == [] {
      PackedUnique(bits, []);
      return [];
    }
    data := seq(PackedLength(|bits|), _ => 0);
    forall j | 0 <= j < |data| * 8 ensures !PackedBit(data, j) {
      ZeroHasNoBit(j % 8);
    }
    for i := 0 to |bits|
      invariant |data| == PackedLength(|bits|)
      invariant forall j :: 0 <= j < |data| * 8 ==> PackedBit(data, j) == (j < i && bits[j])
    {
      if bits[i] {
        ghost var before := data;
        data := data[i / 8 := data[i / 8] | Bit(i % 8)];
        forall j | 0 <= j < |data| * 8 ensures PackedBit(data, j) == (j < i + 1 && bits[j]) {
          OrSetsOneBit(before[i / 8], i % 8, j % 8);
          assert PackedBit(before, j) == (j < i && bits[j]);
        }
      } else {
        forall j | 0 <= j < |data| * 8 ensures PackedBit(data, j) == (j < i + 1 && bits[j]) {
          assert PackedBit(data, j) == (j < i && bits[j]);
        }
      }
    }
    PackedUnique(bits, data);
  }

  method DeserializeBitmap(data: seq<bv8>, count: nat) returns (bits: seq<bool>)
    requires PackedLength(count) <= |data|
    ensures bits == Unpacked(data, count)
  {
    bits := seq(count, _ => false);
    for i := 0 to count
      invariant |bits| == count
      invariant forall j :: 0 <= j < count ==> bits[j] == (j < i && PackedBit(data, j))
    {
      if data[i / 8] & Bit(i % 8) != 0 { bits := bits[i := true]; }
    }
  }

  /** The packed byte that holds eight given bits. */
  function PackedByte(bits: seq<bool>): (b: bv8)
    requires |bits| <= 8
    ensures forall j :: 0 <= j < 8 ==> Has(b, j) == (j < |bits| && bits[j])
  {
    if bits == [] then
      assert forall j :: 0 <= j < 8 ==> !Has(0, j);
      0
    else
      var last := |bits| - 1;
      var b := PackedByte(bits[..last]);
      var r := if bits[last] then b | Bit(last) else b;
      assert forall j :: 0 <= j < 8 ==> Has(r, j) == (j < |bits| && bits[j]) by {
        forall j | 0 <= j < 8 ensures Has(r, j) == (j < |bits| && bits[j]) {
          OrSetsOneBit(b, last, j);
          assert Has(b, j) == (j < last && bits[..last][j]);
        }
      }
      r
  }

  function Packed(bits: seq<bool>): (data: seq<bv8>)
    ensures |data| == PackedLength(|bits|)
    decreases |bits|
  {
    if |bits| == 0 then []
    else if |bits| <= 8 then [PackedByte(bits)]
    else [PackedByte(bits[..8])] + Packed(bits[8..])
  }

  function Unpacked(data: seq<bv8>, count: nat): (bits: seq<bool>)
    requires PackedLength(count) <= |data|
  {
    seq(count, i requires 0 <= i < count => PackedBit(data, i))
  }

  /** A byte is determined by its bits. */
  lemma ByteExtensional(a: bv8, b: bv8)
    requires forall j :: 0 <= j < 8 ==> Has(a, j) == Has(b, j)
    ensures a == b
  {
    BitValues();
    assert Has(a, 0) == Has(b, 0) && Has(a, 1) == Has(b, 1) && Has(a, 2) == Has(b, 2) && Has(a, 3) == Has(b, 3);
    assert Has(a, 4) == Has(b, 4) && Has(a, 5) == Has(b, 5) && Has(a, 6) == Has(b, 6) && Has(a, 7) == Has(b, 7);
  }

  lemma FirstByteUnique(bits: seq<bool>, data: seq<bv8>)
    requires |bits| > 0 && |data| == PackedLength(|bits|)
    requires forall j :: 0 <= j < |data| * 8 ==> PackedBit(data, j) == (j < |bits| && bits[j])
    ensures data[0] == PackedByte(if |bits| <= 8 then bits else bits[..8])
  {
    var head := if |bits| <= 8 then bits else bits[..8];
    forall j | 0 <= j < 8 ensures Has(data[0], j) == Has(PackedByte(head), j) {
      BitOfFirst(data, j);
      assert PackedBit(data, j) == (j < |bits| && bits[j]);
      hide PackedBit, Has;
    }
    ByteExtensional(data[0], PackedByte(head));
  }

  lemma BitOfFirst(data: seq<bv8>, j: nat)
    requires j < 8 && data != []
    ensures PackedBit(data, j) == Has(data[0], j)
  {
  }

  lemma RestOfBits(bits: seq<bool>, data: seq<bv8>)
    requires |bits| > 8 && |data| == PackedLength(|bits|)
    requires forall j :: 0 <= j < |data| * 8 ==> PackedBit(data, j) == (j < |bits| && bits[j])
    ensures |data[1..]| == PackedLength(|bits[8..]|)
    ensures forall j :: 0 <= j < |data[1..]| * 8 ==> PackedBit(data[1..], j) == (j < |bits[8..]| && bits[8..][j])
  {
    forall j | 0 <= j < |data[1..]| * 8
      ensures PackedBit(data[1..], j) == (j < |bits[8..]| && bits[8..][j])
    {
      assert PackedBit(data, j + 8) == (j + 8 < |bits| && bits[j + 8]);
      assert (j + 8) / 8 == j / 8 + 1 && (j + 8) % 8 == j % 8;
    }
  }

  lemma {:induction false} PackedUnique(bits: seq<bool>, data: seq<bv8>)
    requires |data| == PackedLength(|bits|)
    requires forall j :: 0 <= j < |data| * 8 ==> PackedBit(data, j) == (j < |bits| && bits[j])
    ensures data == Packed(bits)
    decreases |bits|
  {
    if |bits| > 0 {
      var head := if |bits| <= 8 then bits else bits[..8];
      FirstByteUnique(bits, data);
      if |bits| > 8 {
        RestOfBits(bits, data);
        hide PackedBit, PackedByte;
        PackedUnique(bits[8..], data[1..]);
        assert data == [data[0]] + data[1..];
      } else {
        assert data == [data[0]];
      }
    }
  }

  lemma {:induction false} PackedBits(bits: seq<bool>, i: nat)
    requires i < |bits|
    ensures i / 8 < PackedLength(|bits|) && PackedBit(Packed(bits), i) == bits[i]
    decreases |bits|
  {
    if |bits| > 8 {
      if i < 8 {
        assert bits[..8][i] == bits[i];
      } else {
        PackedBits(bits[8..], i - 8);
        assert i / 8 == (i - 8) / 8 + 1 && i % 8 == (i - 8) % 8;
        assert Packed(bits)[1..] == Packed(bits[8..]);
      }
    }
  }

  /** Unpacking the stored bytes at the bitmap's own length gives the bitmap back. */
  lemma PackingRoundTrips(bits: seq<bool>)
    ensures Unpacked(Packed(bits), |bits|) == bits
  {
    forall i | 0 <= i < |bits| ensures PackedBit(Packed(bits), i) == bits[i] {
      PackedBits(bits, i);
    }
  }
}
