/** Chunk packets: the sender's assembly, the receiver's parsing and validation, and the
    round trip between the two. Snappy is a pair of functions of which only the inverse law
    is known. */
module ChunkCodec {
  import opened Wrappers
  import opened KcpProto

  const MAX_ALLOWED_TOTAL_CHUNKS := 8 * 1024 * 1024
  const MAX_ALLOWED_RELATIVE_PATH_LEN := 4096

  type Path = seq<byte>

  datatype Snappy = Snappy(compress: seq<byte> -> seq<byte>, uncompress: seq<byte> -> Option<seq<byte>>) {
    /** Uncompressing inverts compressing, and only empty data may compress to nothing. */
    ghost predicate Inverts() {
      && (forall d :: uncompress(compress(d)) == Some(d))
      && (forall d :: compress(d) == [] ==> d == [])
    }
  }

  datatype ChunkHeader = ChunkHeader(filePath: Path, chunkIndex: nat, totalChunks: nat, data: seq<byte>, valid: bool)

  const NO_HEADER := ChunkHeader([], 0, 0, [], false)

  /** What the packet builder puts on the wire after the type byte; the path length is cut
      to sixteen bits. */
  function Frame(path: Path, index: nat, total: nat, compressed: seq<byte>): (payload: seq<byte>)
    requires index < UINT32_LIMIT && total < UINT32_LIMIT
    ensures |payload| == 2 + |path| + 8 + |compressed|
  {
    Be16(|path| % UINT16_LIMIT) + path + Be32(index) + Be32(total) + compressed
  }

  method BuildChunkPacket(snappy: Snappy, path: Path, index: nat, total: nat, data: seq<byte>)
    returns (packet: seq<byte>)
    requires index < UINT32_LIMIT && total < UINT32_LIMIT
    ensures packet == [MSG_TYPE_BINARY_CHUNK] + Frame(path, index, total, snappy.compress(data))
  {
    var compressed := snappy.compress(data);
    var p := new Packet();
    p.PushBack(MSG_TYPE_BINARY_CHUNK);
    p.AppendUint16(|path| % UINT16_LIMIT);
    p.Append(path);
    p.AppendUint32(index);
    p.AppendUint32(total);
    p.Append(compressed);
    packet := p.bytes;
  }

  function Parse(snappy: Snappy, payload: seq<byte>): (hdr: ChunkHeader)
    ensures hdr.valid ==> 0 < |hdr.filePath| && 2 + |hdr.filePath| + 8 <= |payload|
  {
    if |payload| < 2 then NO_HEADER
    else
      var pathLen := Value16(payload[..2]);
      var rest := payload[2..];
      if pathLen == 0 || |rest| < pathLen then NO_HEADER else ParseBody(snappy, rest[..pathLen], rest[pathLen..])
  }

  /** What follows the path: index, total and data. */
  function ParseBody(snappy: Snappy, path: Path, body: seq<byte>): (hdr: ChunkHeader)
    ensures hdr.filePath == path && (hdr.valid ==> 8 <= |body|)
  {
    if |body| < 8 then NO_HEADER.(filePath := path)
    else
      var hdr := ChunkHeader(path, Value32(body[..4]), Value32(body[4..8]), [], true);
      if body[8..] == [] then hdr
      else match snappy.uncompress(body[8..])
        case None => hdr.(valid := false)
        case Some(data) => hdr.(data := data)
  }

  /** The parser as the receiver runs it, over a cursor: every read stays inside the payload
      whatever the payload holds. */
  method ParseChunkPayload(snappy: Snappy, payload: seq<byte>) returns (hdr: ChunkHeader)
    ensures hdr == Parse(snappy, payload)
  {
    hide ParseBody;
    hdr := NO_HEADER;
    var c := new Cursor(payload);
    var pathLen := c.ReadUint16();
    assert c.Rest() == if |payload| < 2 then payload else payload[2..];
    if pathLen == 0 || c.len < pathLen { return; }
    var path := c.Take(pathLen);
    hdr := ParseFields(snappy, path, c);
  }

  method ParseFields(snappy: Snappy, path: Path, c: Cursor) returns (hdr: ChunkHeader)
    requires c.Valid()
    modifies c
    ensures hdr == ParseBody(snappy, path, old(c.Rest()))
  {
    hdr := NO_HEADER.(filePath := path);
    if c.len < 8 { return; }
    ghost var body := c.Rest();
    var index := c.ReadUint32();
    var total := c.ReadUint32();
    assert body[4..][..4] == body[4..8] && body[4..][4..] == body[8..];
    hdr := hdr.(chunkIndex := index, totalChunks := total);
    if c.len > 0 {
      match snappy.uncompress(c.Rest())
      case None => return;
      case Some(data) => hdr := hdr.(data := data);
    }
    hdr := hdr.(valid := true);
  }

  predicate ValidHeader(hdr: ChunkHeader) {
    && hdr.valid
    && 0 < |hdr.filePath| <= MAX_ALLOWED_RELATIVE_PATH_LEN
    && 0 < hdr.totalChunks <= MAX_ALLOWED_TOTAL_CHUNKS
    && hdr.chunkIndex < hdr.totalChunks
  }

  lemma FrameParts(path: Path, index: nat, total: nat, compressed: seq<byte>)
    requires index < UINT32_LIMIT && total < UINT32_LIMIT
    ensures
      var payload := Frame(path, index, total, compressed);
      && Value16(payload[..2]) == |path| % UINT16_LIMIT
      && payload[2..] == path + Be32(index) + Be32(total) + compressed
  {
    var payload := Frame(path, index, total, compressed);
    assert payload[..2] == Be16(|path| % UINT16_LIMIT);
    Value16OfBe16(|path| % UINT16_LIMIT);
  }

  /** What the receiver makes of the data of a packet: none is read as empty. */
  predicate Carried(snappy: Snappy, compressed: seq<byte>, data: seq<byte>) {
    if compressed == [] then data == [] else snappy.uncompress(compressed) == Some(data)
  }

  lemma FrameParses(snappy: Snappy, path: Path, index: nat, total: nat, compressed: seq<byte>, data: seq<byte>)
    requires 1 <= |path| < UINT16_LIMIT && index < UINT32_LIMIT && total < UINT32_LIMIT
    requires Carried(snappy, compressed, data)
    ensures Parse(snappy, Frame(path, index, total, compressed)) == ChunkHeader(path, index, total, data, true)
  {
    var payload := Frame(path, index, total, compressed);
    FrameParts(path, index, total, compressed);
    var rest := payload[2..];
    var body := rest[|path|..];
    assert rest[..|path|] == path;
    assert body == Be32(index) + Be32(total) + compressed;
    assert body[..4] == Be32(index) && body[4..8] == Be32(total) && body[8..] == compressed;
    Value32OfBe32(index);
    Value32OfBe32(total);
    hide Value16, Value32, Be32, Frame;
  }

  /** Parsing a built packet gives back the four values exactly when the path length fits
      the sixteen-bit field and is not zero. */
  lemma FramingRoundTrips(snappy: Snappy, path: Path, index: nat, total: nat, data: seq<byte>)
    requires snappy.Inverts()
    requires index < UINT32_LIMIT && total < UINT32_LIMIT
    ensures
      Parse(snappy, Frame(path, index, total, snappy.compress(data))) == ChunkHeader(path, index, total, data, true)
      <==> 1 <= |path| < UINT16_LIMIT
  {
    var compressed := snappy.compress(data);
    var payload := Frame(path, index, total, compressed);
    if 1 <= |path| < UINT16_LIMIT {
      FrameParses(snappy, path, index, total, compressed, data);
    } else if Parse(snappy, payload).valid {
      FrameParts(path, index, total, compressed);
      assert |Parse(snappy, payload).filePath| == |path| % UINT16_LIMIT;
    }
  }

  /** What is behind the path, index and total of a payload. */
  function Rest(payload: seq<byte>): seq<byte>
    requires |payload| >= 2
  {
    var n := Value16(payload[..2]);
    if |payload| >= 10 + n then payload[10 + n..] else []
  }

  lemma BytesOf16(bytes: seq<byte>)
    requires |bytes| == 2
    ensures Value16(bytes) < UINT16_LIMIT && Be16(Value16(bytes)) == bytes
  {
  }

  lemma BytesOf32(bytes: seq<byte>)
    requires |bytes| == 4
    ensures Value32(bytes) < UINT32_LIMIT && Be32(Value32(bytes)) == bytes
  {
    BytesOf16(bytes[..2]);
    BytesOf16(bytes[2..]);
    assert bytes == bytes[..2] + bytes[2..];
  }

  lemma PayloadParts(payload: seq<byte>, n: nat)
    requires |payload| >= 10 + n
    ensures var body := payload[2..][n..];
      && body[..4] == payload[2 + n..6 + n] && body[4..8] == payload[6 + n..10 + n] && body[8..] == payload[10 + n..]
    ensures payload
         == payload[..2] + payload[2..][..n] + payload[2..][n..][..4] + payload[2..][n..][4..8] + payload[10 + n..]
  {
  }

  lemma ValidIsFramed(snappy: Snappy, payload: seq<byte>)
    requires Parse(snappy, payload).valid
    ensures var hdr := Parse(snappy, payload);
      && 1 <= |hdr.filePath| < UINT16_LIMIT && hdr.chunkIndex < UINT32_LIMIT && hdr.totalChunks < UINT32_LIMIT
      && |payload| >= 2 && payload == Frame(hdr.filePath, hdr.chunkIndex, hdr.totalChunks, Rest(payload))
      && Carried(snappy, Rest(payload), hdr.data)
  {
    var n := |Parse(snappy, payload).filePath|;
    BytesOf16(payload[..2]);
    PayloadParts(payload, n);
    BytesOf32(payload[2..][n..][..4]);
    BytesOf32(payload[2..][n..][4..8]);
    hide Value16, Value32, Be32, Be16;
  }

  /** A payload is read as a valid chunk if and only if it is the frame of just these values: a path
      that is not empty, an index, a total, and what uncompresses to the data, or nothing for none. */
  lemma ValidExactly(snappy: Snappy, payload: seq<byte>, path: Path, index: nat, total: nat, data: seq<byte>)
    ensures Parse(snappy, payload) == ChunkHeader(path, index, total, data, true) <==>
        && 1 <= |path| < UINT16_LIMIT && index < UINT32_LIMIT && total < UINT32_LIMIT && |payload| >= 2
        && payload == Frame(path, index, total, Rest(payload)) && Carried(snappy, Rest(payload), data)
  {
    if Parse(snappy, payload) == ChunkHeader(path, index, total, data, true) {
      ValidIsFramed(snappy, payload);
    }
    hide Parse, Frame, Rest, Carried;
    if 1 <= |path| < UINT16_LIMIT && index < UINT32_LIMIT && total < UINT32_LIMIT && |payload| >= 2
      && payload == Frame(path, index, total, Rest(payload)) && Carried(snappy, Rest(payload), data)
    {
      FrameParses(snappy, path, index, total, Rest(payload), data);
    }
  }
}
