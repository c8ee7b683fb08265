/** Binary framing helpers of the KCP layer: big-endian integers appended to a packet
    in place, and a reader that advances a cursor and shrinks the remaining length. */
module KcpProto {

  newtype byte = b: int | 0 <= b < 256

  const MSG_TYPE_BINARY_CHUNK: byte := 0x80
  const UINT16_LIMIT := 0x1_0000
  const UINT32_LIMIT := 0x1_0000_0000

  function Be16(v: nat): (bytes: seq<byte>)
    requires v < UINT16_LIMIT
    ensures |bytes| == 2
  {
    [(v / 256) as byte, (v % 256) as byte]
  }

  function Be32(v: nat): (bytes: seq<byte>)
    requires v < UINT32_LIMIT
    ensures |bytes| == 4
  {
    Be16(v / UINT16_LIMIT) + Be16(v % UINT16_LIMIT)
  }

  /** The value of two bytes in network order. */
  function Value16(bytes: seq<byte>): nat
    requires |bytes| == 2
  {
    bytes[0] as nat * 256 + bytes[1] as nat
  }

  function Value32(bytes: seq<byte>): nat
    requires |bytes| == 4
  {
    Value16(bytes[..2]) * UINT16_LIMIT + Value16(bytes[2..])
  }

  lemma Value16OfBe16(v: nat)
    requires v < UINT16_LIMIT
    ensures Value16(Be16(v)) == v
  {
  }

  lemma Value32OfBe32(v: nat)
    requires v < UINT32_LIMIT
    ensures Value32(Be32(v)) == v
  {
    assert Be32(v)[..2] == Be16(v / UINT16_LIMIT);
    assert Be32(v)[2..] == Be16(v % UINT16_LIMIT);
  }

  /** The packet a sender assembles by appending. */
  class Packet {
    var bytes: seq<byte>

    constructor ()
      ensures bytes == []
    {
      bytes := [];
    }

    method PushBack(b: byte)
      modifies this
      ensures bytes == old(bytes) + [b]
    {
      bytes := bytes + [b];
    }

    method Append(more: seq<byte>)
      modifies this
      ensures bytes == old(bytes) + more
    {
      bytes := bytes + more;
    }

    method AppendUint16(v: nat)
      requires v < UINT16_LIMIT
      modifies this
      ensures bytes == old(bytes) + Be16(v)
    {
      bytes := bytes + Be16(v);
    }

    method AppendUint32(v: nat)
      requires v < UINT32_LIMIT
      modifies this
      ensures bytes == old(bytes) + Be32(v)
    {
      bytes := bytes + Be32(v);
    }
  }

  /** The reader's pointer and length pair over one received payload. */
  class Cursor {
    const payload: seq<byte>
    var pos: nat
    var len: nat

    constructor (payload: seq<byte>)
      ensures this.payload == payload && pos == 0 && len == |payload|
    {
      this.payload := payload;
      pos, len := 0, |payload|;
    }

    /** The pointer never leaves the payload and the length is what is left of it. */
    ghost predicate Valid()
      reads this
    {
      pos + len == |payload|
    }

    /** What is still unread. */
    function Rest(): (rest: seq<byte>)
      requires Valid()
      reads this
      ensures |rest| == len
    {
      payload[pos..]
    }

    method ReadUint16() returns (v: nat)
      requires Valid()
      modifies this
      ensures Valid() && v < UINT16_LIMIT
      ensures old(len) < 2 ==> v == 0 && unchanged(this)
      ensures old(len) >= 2 ==> v == Value16(old(Rest())[..2]) && Rest() == old(Rest())[2..]
    {
      if len < 2 { return 0; }
      v := Value16(payload[pos..pos + 2]);
      assert payload[pos..][..2] == payload[pos..pos + 2];
      pos, len := pos + 2, len - 2;
    }

    method ReadUint32() returns (v: nat)
      requires Valid()
      modifies this
      ensures Valid() && v < UINT32_LIMIT
      ensures old(len) < 4 ==> v == 0 && unchanged(this)
      ensures old(len) >= 4 ==> v == Value32(old(Rest())[..4]) && Rest() == old(Rest())[4..]
    {
      if len < 4 { return 0; }
      v := Value32(payload[pos..pos + 4]);
      assert payload[pos..][..4] == payload[pos..pos + 4];
      pos, len := pos + 4, len - 4;
    }

    method Take(n: nat) returns (taken: seq<byte>)
      requires Valid() && n <= len
      modifies this
      ensures Valid()
      ensures taken == old(Rest())[..n] && Rest() == old(Rest())[n..]
    {
      taken := payload[pos..pos + n];
      pos, len := pos + n, len - n;
    }
  }
}
