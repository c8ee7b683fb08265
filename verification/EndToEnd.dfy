/** Sender to receiver: a request for a file, the upload that answers it, and what arrives. */
module EndToEnd {
  import opened KcpProto
  import opened ChunkCodec
  import opened Chunks
  import opened Bitmap
  import opened Receiving
  import opened Reassembly
  import opened Transfers
  import opened Completion
  import opened Upload
  import Tables = TransferManager

  // ---------------------------------------------------------------- the request

  /** What a file request carries besides the path; a plain one asks for everything. */
  datatype Request = Request(start: nat, hash: Hash, size: nat)

  /** The receiver's state after building a request, and the request: a resume if one can be had,
      else a registration of the expected metadata and a plain request. */
  function Requested(v: View, p: Path, peer: PeerId, hash: Hash, size: nat, removed: bool): (View, Request) {
    match CheckResume(v, p, hash, size, removed)
    case (w, Some(info)) => (w, Request(info.start, info.hash, info.size))
    case (w, None) => (Register(w, p, peer, hash, size), Request(0, "", 0))
  }

  method BuildFileRequest(tables: Tables.TransferManager, p: Path, peer: PeerId, hash: Hash, size: nat,
                          removed: bool) returns (request: Request)
    modifies tables
    ensures (tables.View(), request) == Requested(old(tables.View()), p, peer, hash, size, removed)
  {
    var info := tables.CheckResumeEligibility(p, hash, size, removed);
    if info.Some? {
      return Request(info.value.start, info.value.hash, info.value.size);
    }
    tables.RegisterExpectedMetadata(p, peer, hash, size);
    return Request(0, "", 0);
  }

  // ---------------------------------------------------------------- sender to receiver

  function JobOf(sh: Share, p: Path, retries: nat): Job {
    Job(p, sh.source(p), sh.cfg.chunkSize, retries, sh.cfg.snappy)
  }

  /** Packets arriving at the receiver, each handed over without its type byte. */
  function ReceiveAll(sh: Share, v: View, packets: seq<seq<byte>>, peer: PeerId): View
    requires forall k :: 0 <= k < |packets| ==> packets[k] != []
    decreases |packets|
  {
    if packets == [] then v
    else ReceiveAll(sh, HandleChunk(sh.cfg, v, packets[0][1..], peer, ALL_GOOD), packets[1..], peer)
  }

  lemma PacketIsDelivery(sh: Share, v: View, p: Path, retries: nat, i: nat, peer: PeerId)
    requires sh.Shared(p) && sh.cfg.snappy.Inverts() && i < sh.Total(p)
    ensures var packet := JobOf(sh, p, retries).PacketOf(i);
      packet != [] && HandleChunk(sh.cfg, v, packet[1..], peer, ALL_GOOD) == DeliverOne(sh, v, p, i, peer)
  {
    SentPacketParses(JobOf(sh, p, retries), i);
  }

  lemma WhichChunk(sh: Share, p: Path, retries: nat, start: nat, packet: seq<byte>) returns (i: nat)
    requires sh.Shared(p) && packet in JobOf(sh, p, retries).Packets(start, sh.Total(p))
    ensures start <= i < sh.Total(p) && packet == JobOf(sh, p, retries).PacketOf(i)
  {
    var sent := JobOf(sh, p, retries).Packets(start, sh.Total(p));
    var k :| 0 <= k < |sent| && sent[k] == packet;
    i := start + k;
  }

  predicate FromUpload(sh: Share, p: Path, retries: nat, start: nat, packets: seq<seq<byte>>)
    requires sh.Shared(p)
  {
    forall k :: 0 <= k < |packets| ==> packets[k] in JobOf(sh, p, retries).Packets(start, sh.Total(p))
  }

  lemma RestFromUpload(sh: Share, p: Path, retries: nat, start: nat, packets: seq<seq<byte>>)
    requires sh.Shared(p) && FromUpload(sh, p, retries, start, packets) && packets != []
    ensures packets[0] in JobOf(sh, p, retries).Packets(start, sh.Total(p))
    ensures FromUpload(sh, p, retries, start, packets[1..])
  {
    hide TotalChunks;
  }

  /** The packets are those of the chunks, one by one. */
  predicate AreChunks(sh: Share, p: Path, retries: nat, packets: seq<seq<byte>>, indices: seq<nat>)
    requires sh.Shared(p)
  {
    && |indices| == |packets| && Within(indices, sh.Total(p))
    && forall k :: 0 <= k < |packets| ==> packets[k] == JobOf(sh, p, retries).PacketOf(indices[k])
  }

  lemma OneMoreChunk(sh: Share, p: Path, retries: nat, packets: seq<seq<byte>>, i: nat, rest: seq<nat>)
    requires sh.Shared(p) && packets != [] && i < sh.Total(p) && packets[0] == JobOf(sh, p, retries).PacketOf(i)
    requires AreChunks(sh, p, retries, packets[1..], rest)
    ensures AreChunks(sh, p, retries, packets, [i] + rest) && ([i] + rest)[1..] == rest
  {
    hide TotalChunks;
    forall k | 0 <= k < |packets| ensures packets[k] == JobOf(sh, p, retries).PacketOf(([i] + rest)[k]) {
      assert k > 0 ==> packets[k] == packets[1..][k - 1];
    }
  }

  /** Packets of an upload are deliveries of its chunks. */
  lemma {:induction false} PacketsAreDeliveries(sh: Share, v: View, p: Path, retries: nat, start: nat,
                                                packets: seq<seq<byte>>, peer: PeerId)
    returns (indices: seq<nat>)
    requires sh.Shared(p) && sh.cfg.snappy.Inverts() && FromUpload(sh, p, retries, start, packets)
    requires forall k :: 0 <= k < |packets| ==> packets[k] != []
    ensures AreChunks(sh, p, retries, packets, indices)
    ensures ReceiveAll(sh, v, packets, peer) == DeliverAll(sh, v, p, indices, peer)
    decreases |packets|
  {
    indices := [];
    if packets != [] {
      RestFromUpload(sh, p, retries, start, packets);
      var i := WhichChunk(sh, p, retries, start, packets[0]);
      PacketIsDelivery(sh, v, p, retries, i, peer);
      assert forall k :: 0 <= k < |packets| - 1 ==> packets[1..][k] == packets[k + 1];
      hide HandleChunk, HandleHeader, DeliverOne, FromUpload, TotalChunks, AreChunks;
      var rest := PacketsAreDeliveries(sh, DeliverOne(sh, v, p, i, peer), p, retries, start, packets[1..], peer);
      OneMoreChunk(sh, p, retries, packets, i, rest);
      indices := [i] + rest;
    }
  }

  /** Two chunks with the same packet are the same chunk. */
  lemma PacketsDiffer(sh: Share, p: Path, retries: nat, i: nat, j: nat)
    requires sh.Shared(p) && sh.cfg.snappy.Inverts() && i < sh.Total(p) && j < sh.Total(p)
    requires JobOf(sh, p, retries).PacketOf(i) == JobOf(sh, p, retries).PacketOf(j)
    ensures i == j
  {
    SentPacketParses(JobOf(sh, p, retries), i);
    SentPacketParses(JobOf(sh, p, retries), j);
  }

  /** Every packet sent has arrived, so every chunk from the start on was delivered. */
  lemma AllSentAllDelivered(sh: Share, p: Path, retries: nat, start: nat, packets: seq<seq<byte>>, indices: seq<nat>)
    requires sh.Shared(p) && sh.cfg.snappy.Inverts() && AreChunks(sh, p, retries, packets, indices)
    requires forall packet :: packet in JobOf(sh, p, retries).Packets(start, sh.Total(p)) ==> packet in packets
    ensures forall i: nat :: start <= i < sh.Total(p) ==> i in indices
  {
    var job := JobOf(sh, p, retries);
    var sent := job.Packets(start, sh.Total(p));
    forall i: nat | start <= i < sh.Total(p) ensures i in indices {
      assert sent[i - start] == job.PacketOf(i) && sent[i - start] in sent;
      var k :| 0 <= k < |packets| && packets[k] == job.PacketOf(i);
      PacketsDiffer(sh, p, retries, i, indices[k]);
    }
  }

  /** Requesting keeps the state truthful, and asks to start within the contiguous prefix. */
  lemma RequestedTruthful(sh: Share, h: History, p: Path, peer: PeerId, removed: bool)
    requires Truthful(sh, h) && sh.Shared(p)
    ensures var (w, request) := Requested(h.now, p, peer, sh.cfg.sha(sh.source(p)), |sh.source(p)|, removed);
      && Truthful(sh, History(w, StaleAfter(h, Resume(p, removed), w)))
      && request.start <= Contiguous(BitsOf(sh, w, p))
  {
    var hash, size := sh.cfg.sha(sh.source(p)), |sh.source(p)|;
    var (w, info) := CheckResume(h.now, p, hash, size, removed);
    ResumeQuiet(sh, h, p, removed);
    if info.None? {
      hide Honest;
      RegisterHonest(sh, Cleansed(w, h.stale), p, peer);
      QuietTruthful(sh, h, Resume(p, removed), Register(w, p, peer, hash, size));
    } else {
      assert h.now.files[p].total != 0 by {
        assert MappedTrue(sh, p, Cleansed(h.now, h.stale).files[p], TempAt(h.now.disk, p));
      }
      hide Honest;
      QuietTruthful(sh, h, Resume(p, removed), w);
    }
  }

  /** End to end, for a first download as for a resumed one: a receiver in any state that a run
      can reach builds its request; the sender grants a start, whatever hash it has on record; the
      upload is paused and reopened any number of times but completes; its packets arrive in any
      order, any of them more than once. Then the receiver has the source. */
  lemma RequestUploadReceive(sh: Share, h: History, p: Path, retries: nat, currentHash: Hash, answers: seq<Answer>,
                             packets: seq<seq<byte>>, peer: PeerId, removed: bool)
    requires Truthful(sh, h) && sh.Shared(p) && sh.tail(p) == [] && sh.cfg.snappy.Inverts()
    requires
      var request := Requested(h.now, p, peer, sh.cfg.sha(sh.source(p)), |sh.source(p)|, removed).1;
      var start := GrantedStart(request.start, request.hash, currentHash, request.size, |sh.source(p)|);
      var c := Upload.Run(JobOf(sh, p, retries), start, answers);
      c.status == Completed && forall packet :: packet in packets <==> packet in c.sent
    ensures forall k :: 0 <= k < |packets| ==> packets[k] != []
    ensures var w := ReceiveAll(sh, Requested(h.now, p, peer, sh.cfg.sha(sh.source(p)), |sh.source(p)|, removed).0,
        packets, peer);
      p in w.disk && w.disk[p] == sh.source(p)
  {
    var (w, request) := Requested(h.now, p, peer, sh.cfg.sha(sh.source(p)), |sh.source(p)|, removed);
    var start := GrantedStart(request.start, request.hash, currentHash, request.size, |sh.source(p)|);
    RequestedTruthful(sh, h, p, peer, removed);
    hide Truthful, Requested;
    UploadThenReceive(sh, History(w, StaleAfter(h, Resume(p, removed), w)), p, retries, start, answers, packets, peer);
  }

  /** So a download completes: from any state a run can reach, when the peer stays and its file
      opens in time, the upload that answers the request completes, however congested it was, and
      once each of its packets has arrived the receiver has the source. */
  lemma DownloadCompletes(sh: Share, h: History, p: Path, retries: nat, currentHash: Hash, answers: seq<Answer>,
                          packets: seq<seq<byte>>, peer: PeerId, removed: bool)
    requires Truthful(sh, h) && sh.Shared(p) && sh.tail(p) == [] && sh.cfg.snappy.Inverts()
    requires PeerStays(answers) && OpensInTime(JobOf(sh, p, retries), answers)
    requires
      var request := Requested(h.now, p, peer, sh.cfg.sha(sh.source(p)), |sh.source(p)|, removed).1;
      var start := GrantedStart(request.start, request.hash, currentHash, request.size, |sh.source(p)|);
      && |answers| >= Patience(JobOf(sh, p, retries), Fresh(start))
      && forall packet :: packet in packets <==> packet in Upload.Run(JobOf(sh, p, retries), start, answers).sent
    ensures forall k :: 0 <= k < |packets| ==> packets[k] != []
    ensures var w := ReceiveAll(sh, Requested(h.now, p, peer, sh.cfg.sha(sh.source(p)), |sh.source(p)|, removed).0,
        packets, peer);
      p in w.disk && w.disk[p] == sh.source(p)
  {
    var (w, request) := Requested(h.now, p, peer, sh.cfg.sha(sh.source(p)), |sh.source(p)|, removed);
    var start := GrantedStart(request.start, request.hash, currentHash, request.size, |sh.source(p)|);
    RequestedTruthful(sh, h, p, peer, removed);
    BitsLength(sh, History(w, StaleAfter(h, Resume(p, removed), w)), p);
    assert sh.Total(p) < UINT32_LIMIT;
    hide Truthful, Requested;
    UploadCompletes(JobOf(sh, p, retries), start, answers);
    RequestUploadReceive(sh, h, p, retries, currentHash, answers, packets, peer, removed);
  }

  /** An upload from any point within the receiver's contiguous prefix. */
  lemma UploadThenReceive(sh: Share, h: History, p: Path, retries: nat, start: nat, answers: seq<Answer>,
                          packets: seq<seq<byte>>, peer: PeerId)
    requires Truthful(sh, h) && sh.Shared(p) && sh.tail(p) == [] && sh.cfg.snappy.Inverts()
    requires start <= Contiguous(BitsOf(sh, h.now, p))
    requires
      var c := Upload.Run(JobOf(sh, p, retries), start, answers);
      c.status == Completed && forall packet :: packet in packets <==> packet in c.sent
    ensures forall k :: 0 <= k < |packets| ==> packets[k] != []
    ensures var w := ReceiveAll(sh, h.now, packets, peer);
      p in w.disk && w.disk[p] == sh.source(p)
  {
    SharedTotal(sh, p);
    hide Truthful;
    UploadSendsEachChunkOnce(JobOf(sh, p, retries), start, answers);
    assert FromUpload(sh, p, retries, start, packets);
    var indices := PacketsAreDeliveries(sh, h.now, p, retries, start, packets, peer);
    AllSentAllDelivered(sh, p, retries, start, packets, indices);
    FromStartCompletes(sh, h, p, start, indices, peer);
  }
}
