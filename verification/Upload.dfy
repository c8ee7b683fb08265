/** The upload loop: opened, suspended under congestion, reopened and resumed, one
    activation at a time. */
module Upload {
  import opened KcpProto
  import opened ChunkCodec
  import opened Chunks

  const CONGESTION_THRESHOLD := 256

  /** What one upload is about: fixed while it runs. */
  datatype Job = Job(path: Path, source: seq<byte>, chunkSize: nat, maxOpenRetries: nat, snappy: Snappy) {
    function Total(): nat
      requires 0 < chunkSize
    {
      TotalChunks(|source|, chunkSize)
    }

    /** The packet that carries chunk i. */
    function PacketOf(i: nat): seq<byte>
      requires 0 < chunkSize && i < UINT32_LIMIT
    {
      MakePacket(this, i, Total(), ChunkOf(source, chunkSize, i))
    }

    /** The packets of chunks from, from + 1, ..., to - 1. */
    function Packets(from: nat, to: nat): (packets: seq<seq<byte>>)
      requires 0 < chunkSize && to <= UINT32_LIMIT
      ensures |packets| == if from < to then to - from else 0
      ensures forall k :: 0 <= k < |packets| ==> packets[k] == PacketOf(from + k)
    {
      if to <= from then [] else Packets(from, to - 1) + [PacketOf(to - 1)]
    }
  }

  function MakePacket(job: Job, index: nat, total: nat, data: seq<byte>): seq<byte>
    requires index < UINT32_LIMIT && total < UINT32_LIMIT
  {
    [MSG_TYPE_BINARY_CHUNK] + Frame(job.path, index, total, job.snappy.compress(data))
  }

  datatype Status = Running | GaveUp | Disconnected | Completed

  datatype Context = Context(total: nat, current: nat, retries: nat, isOpen: bool, pos: nat,
                             status: Status, sent: seq<seq<byte>>)

  /** The start chunk a request is granted: the requested one only if nothing the requester
      remembers about the file contradicts it. */
  function GrantedStart(startChunk: nat, expectedHash: string, currentHash: string,
                        expectedSize: nat, currentSize: nat): (granted: nat)
    ensures granted == startChunk || granted == 0
    ensures granted != 0 ==> (expectedHash == "" || expectedHash == currentHash)
                             && (expectedSize == 0 || expectedSize == currentSize)
    ensures (expectedHash == "" || expectedHash == currentHash) ==>
      (expectedSize == 0 || expectedSize == currentSize) ==> granted == startChunk
  {
    if startChunk == 0 then 0
    else if expectedHash != "" && currentHash != expectedHash then 0
    else if expectedSize != 0 && currentSize != expectedSize then 0
    else startChunk
  }

  function Fresh(start: nat): Context {
    Context(0, start, 0, false, 0, Running, [])
  }

  /** Read the next chunk at the file position and hand its packet to the send callback. */
  function SendOne(job: Job, c: Context): (after: Context)
    requires c.current < c.total < UINT32_LIMIT
    ensures after == c.(sent := after.sent, pos := after.pos)
  {
    var data := ReadAt(job.source, c.pos, job.chunkSize);
    c.(sent := c.sent + [MakePacket(job, c.current, c.total, data)], pos := c.pos + |data|)
  }

  /** The send loop from an open file: pending(i) is the backlog the send callback reports
      for chunk i, negative when the peer is gone. */
  function SendLoop(job: Job, c: Context, pending: nat -> int): Context
    requires 0 < job.chunkSize && c.total < UINT32_LIMIT
    decreases c.total - c.current
  {
    if c.current < c.total then
      var sent := SendOne(job, c);
      if pending(c.current) < 0 then sent.(isOpen := false, status := Disconnected)
      else if pending(c.current) > CONGESTION_THRESHOLD then sent.(current := c.current + 1, isOpen := false)
      else SendLoop(job, sent.(current := c.current + 1), pending)
    else
      c.(isOpen := false, status := Completed)
  }

  function Opened(job: Job, c: Context): Context
    requires 0 < job.chunkSize
  {
    var total := if c.total == 0 then job.Total() else c.total;
    c.(isOpen := true, retries := 0, total := total, pos := Offset(c.current, job.chunkSize))
  }

  /** One activation by the worker pool; openOk says whether opening the file would work. */
  function Activate(job: Job, c: Context, openOk: bool, pending: nat -> int): Context
    requires 0 < job.chunkSize && c.total < UINT32_LIMIT
  {
    if c.status != Running then c
    else if c.isOpen then SendLoop(job, c, pending)
    else if openOk then SendLoop(job, Opened(job, c), pending)
    else if c.retries < job.maxOpenRetries then c.(retries := c.retries + 1)
    else c.(status := GaveUp)
  }

  class UploadContext {
    const job: Job
    var total: nat
    var current: nat
    var retries: nat
    var isOpen: bool
    var pos: nat
    var status: Status
    var sent: seq<seq<byte>>

    function View(): Context
      reads this
    {
      Context(total, current, retries, isOpen, pos, status, sent)
    }

    constructor (job: Job, start: nat)
      ensures this.job == job && View() == Fresh(start)
    {
      this.job := job;
      total, current, retries, isOpen, pos, status, sent := 0, start, 0, false, 0, Running, [];
    }

    method SendOneChunk(pending: nat -> int) returns (backlog: int)
      requires 0 < job.chunkSize && current < total < UINT32_LIMIT
      modifies `pos, `sent
      ensures backlog == pending(current)
      ensures View() == SendOne(job, old(View()))
    {
      var data := ReadAt(job.source, pos, job.chunkSize);
      pos := pos + |data|;
      var packet := BuildChunkPacket(job.snappy, job.path, current, total, data);
      sent := sent + [packet];
      backlog := pending(current);
    }

    /** Reopening: the retry counter starts over, the chunk count is taken on the first
        successful open, and the position is the current chunk's. */
    method OpenFile()
      requires 0 < job.chunkSize
      modifies this
      ensures View() == Opened(job, old(View()))
    {
      isOpen := true;
      retries := 0;
      if total == 0 { total := TotalChunks(|job.source|, job.chunkSize); }
      pos := Offset(current, job.chunkSize);
    }

    method SendUntilPause(pending: nat -> int)
      requires 0 < job.chunkSize && total < UINT32_LIMIT && isOpen && status == Running
      modifies this
      ensures View() == SendLoop(job, old(View()), pending)
    {
      hide ReadAt, MakePacket;
      while current < total
        invariant total < UINT32_LIMIT && isOpen && status == Running
        invariant SendLoop(job, View(), pending) == SendLoop(job, old(View()), pending)
      {
        ghost var before := View();
        var backlog := SendOneChunk(pending);
        ghost var after := SendOne(job, before);
        if backlog < 0 {
          isOpen := false;
          status := Disconnected;
          assert View() == after.(isOpen := false, status := Disconnected);
          return;
        }
        current := current + 1;
        if backlog > CONGESTION_THRESHOLD {
          isOpen := false;
          assert View() == after.(current := before.current + 1, isOpen := false);
          return;
        }
        assert View() == after.(current := before.current + 1);
      }
      isOpen := false;
      status := Completed;
    }

    method RunOnce(openOk: bool, pending: nat -> int)
      requires 0 < job.chunkSize && total < UINT32_LIMIT && status == Running
      modifies this
      ensures View() == Activate(job, old(View()), openOk, pending)
    {
      if !isOpen {
        if !openOk {
          if retries < job.maxOpenRetries {
            retries := retries + 1;
          } else {
            status := GaveUp;
          }
          return;
        }
        OpenFile();
      }
      SendUntilPause(pending);
    }
  }

  // ---------------------------------------------------------------- whole runs

  /** One answer of the environment per activation. */
  datatype Answer = Answer(openOk: bool, pending: nat -> int)

  function Run(job: Job, start: nat, answers: seq<Answer>): (c: Context)
    requires 0 < job.chunkSize
    ensures c.total < UINT32_LIMIT
  {
    if answers == [] then Fresh(start)
    else
      var last := answers[|answers| - 1];
      var c := Run(job, start, answers[..|answers| - 1]);
      ActivateKeepsTotal(job, c, last.openOk, last.pending);
      Activate(job, c, last.openOk, last.pending)
  }

  lemma ActivateKeepsTotal(job: Job, c: Context, openOk: bool, pending: nat -> int)
    requires 0 < job.chunkSize && c.total < UINT32_LIMIT
    ensures Activate(job, c, openOk, pending).total < UINT32_LIMIT
  {
    if c.status == Running && c.isOpen {
      SendLoopKeepsTotal(job, c, pending);
    } else if c.status == Running && openOk {
      SendLoopKeepsTotal(job, Opened(job, c), pending);
    }
  }

  lemma {:induction false} SendLoopKeepsTotal(job: Job, c: Context, pending: nat -> int)
    requires 0 < job.chunkSize && c.total < UINT32_LIMIT
    ensures SendLoop(job, c, pending).total == c.total
    decreases c.total - c.current
  {
    if c.current < c.total && 0 <= pending(c.current) <= CONGESTION_THRESHOLD {
      SendLoopKeepsTotal(job, SendOne(job, c).(current := c.current + 1), pending);
    }
  }

  /** Which chunks have been handed to the send callback, seen from the context. */
  function SentUpTo(c: Context): nat {
    if c.status == Disconnected then c.current + 1 else c.current
  }

  ghost predicate InOrder(job: Job, start: nat, c: Context)
    requires 0 < job.chunkSize
  {
    && start <= c.current
    && (c.total == 0 || c.total == job.Total())
    && (SentUpTo(c) <= c.total || (c.current == start && c.status != Disconnected))
    && (c.isOpen && c.current < c.total ==> c.pos == Offset(c.current, job.chunkSize))
    && SentUpTo(c) <= UINT32_LIMIT + start
    && c.sent == (if SentUpTo(c) <= UINT32_LIMIT then job.Packets(start, SentUpTo(c)) else [])
    && (c.status == Completed ==> c.total == job.Total() <= c.current)
    && c.retries <= job.maxOpenRetries
  }

  lemma {:induction false} SendLoopInOrder(job: Job, start: nat, c: Context, pending: nat -> int)
    requires 0 < job.chunkSize && InOrder(job, start, c)
    requires c.isOpen && c.status == Running && c.total == job.Total()
    ensures InOrder(job, start, SendLoop(job, c, pending))
    decreases c.total - c.current
  {
    hide InOrder, SendOne, TotalChunks;
    if c.current >= c.total {
      LoopStopsInOrder(job, start, c);
    } else {
      SendOneInOrder(job, start, c);
      var next := SendOne(job, c).(current := c.current + 1);
      LoopStopsInOrder(job, start, next);
      if 0 <= pending(c.current) <= CONGESTION_THRESHOLD {
        SendLoopInOrder(job, start, next, pending);
      }
    }
  }

  /** Closing the file, for a pause or at the end. */
  lemma LoopStopsInOrder(job: Job, start: nat, c: Context)
    requires 0 < job.chunkSize && InOrder(job, start, c) && c.status == Running && c.total == job.Total()
    ensures InOrder(job, start, c.(isOpen := false))
    ensures c.current >= c.total ==> InOrder(job, start, c.(isOpen := false, status := Completed))
  {
  }

  lemma SendOneInOrder(job: Job, start: nat, c: Context)
    requires 0 < job.chunkSize && InOrder(job, start, c)
    requires c.isOpen && c.status == Running && c.current < c.total == job.Total()
    ensures InOrder(job, start, SendOne(job, c).(current := c.current + 1))
    ensures InOrder(job, start, SendOne(job, c).(isOpen := false, status := Disconnected))
  {
    OneMorePacket(job, start, c);
    OneChunkRead(job, c);
    hide ChunkOf, MakePacket, TotalChunks, Offset, ReadAt;
  }

  lemma OneMorePacket(job: Job, start: nat, c: Context)
    requires 0 < job.chunkSize && start <= c.current < c.total == job.Total()
        && c.pos == Offset(c.current, job.chunkSize)
    requires c.sent == job.Packets(start, c.current)
    ensures SendOne(job, c).sent == job.Packets(start, c.current + 1)
  {
    hide MakePacket, Offset, ReadAt, TotalChunks;
  }

  /** Reading a chunk that is not the last leaves the file at the next. */
  lemma OneChunkRead(job: Job, c: Context)
    requires 0 < job.chunkSize && c.current < c.total == job.Total() && c.pos == Offset(c.current, job.chunkSize)
    ensures c.current + 1 < c.total ==> SendOne(job, c).pos == Offset(c.current + 1, job.chunkSize)
  {
    hide MakePacket;
    if c.current + 1 < c.total {
      ChunkStartsInside(job.source, job.chunkSize, c.current + 1);
      OffsetStep(c.current, job.chunkSize);
      hide Offset, TotalChunks;
    }
  }

  lemma {:induction false} RunInOrder(job: Job, start: nat, answers: seq<Answer>)
    requires 0 < job.chunkSize
    ensures InOrder(job, start, Run(job, start, answers))
    ensures Run(job, start, answers).status == Running ==> !Run(job, start, answers).isOpen
  {
    if answers != [] {
      var last := answers[|answers| - 1];
      RunInOrder(job, start, answers[..|answers| - 1]);
      var c := Run(job, start, answers[..|answers| - 1]);
      if c.status == Running && last.openOk {
        SendLoopInOrder(job, start, Opened(job, c), last.pending);
        SendLoopCloses(job, Opened(job, c), last.pending);
      }
    }
  }

  lemma {:induction false} SendLoopCloses(job: Job, c: Context, pending: nat -> int)
    requires 0 < job.chunkSize && c.total < UINT32_LIMIT
    ensures var d := SendLoop(job, c, pending);
      && !d.isOpen
      && (d.status == Running ==> c.current < d.current <= c.total && d.retries == c.retries)
    decreases c.total - c.current
  {
    if c.current < c.total && 0 <= pending(c.current) <= CONGESTION_THRESHOLD {
      SendLoopCloses(job, SendOne(job, c).(current := c.current + 1), pending);
    }
  }

  /** Across any number of pauses, failed opens and reopens, the send callback has seen the
      chunks from the start on, each once, in order, with the file's bytes; and an upload
      that completes has sent every chunk from start to total - 1. */
  lemma UploadSendsEachChunkOnce(job: Job, start: nat, answers: seq<Answer>)
    requires 0 < job.chunkSize && start < UINT32_LIMIT
    ensures var c := Run(job, start, answers);
      && SentUpTo(c) <= UINT32_LIMIT
      && c.sent == job.Packets(start, SentUpTo(c))
      && (SentUpTo(c) <= start || SentUpTo(c) <= job.Total())
      && (c.status == Completed ==> c.sent == job.Packets(start, job.Total()))
  {
    RunInOrder(job, start, answers);
  }

  /** How many more activations an upload can take. */
  function Patience(job: Job, c: Context): (n: nat)
    requires 0 < job.chunkSize
    ensures n >= 1
  {
    var left := if c.current < job.Total() then job.Total() - c.current else 0;
    var retries := if c.retries <= job.maxOpenRetries then job.maxOpenRetries - c.retries else 0;
    Offset(left, job.maxOpenRetries + 1) + retries + 1
  }

  lemma SendingUsesUpPatience(job: Job, c: Context, next: Context)
    requires 0 < job.chunkSize
    requires c.current < next.current <= job.Total() && next.retries == 0
    ensures Patience(job, next) < Patience(job, c)
  {
    var left, left' := job.Total() - c.current, job.Total() - next.current;
    OffsetMonotone(left', left - 1, job.maxOpenRetries + 1);
    OffsetStep(left - 1, job.maxOpenRetries + 1);
  }

  /** Each activation ends the upload, or leaves fewer chunks, or as many chunks and fewer
      open retries. */
  lemma ActivationMakesProgress(job: Job, start: nat, c: Context, answer: Answer)
    requires 0 < job.chunkSize && c.total < UINT32_LIMIT
    requires InOrder(job, start, c) && c.status == Running && !c.isOpen
    ensures
      var next := Activate(job, c, answer.openOk, answer.pending);
      next.status != Running
      || (next.current <= job.Total() && next.current > c.current && next.retries == 0)
      || (next.current == c.current && c.retries < next.retries <= job.maxOpenRetries)
    ensures
      var next := Activate(job, c, answer.openOk, answer.pending);
      next.status != Running || Patience(job, next) < Patience(job, c)
  {
    var next := Activate(job, c, answer.openOk, answer.pending);
    if answer.openOk {
      SendLoopCloses(job, Opened(job, c), answer.pending);
      if next.status == Running { SendingUsesUpPatience(job, c, next); }
    }
  }

  lemma {:induction false} PatienceRunsOut(job: Job, start: nat, answers: seq<Answer>)
    requires 0 < job.chunkSize
    ensures var c := Run(job, start, answers);
      c.status != Running || Patience(job, c) + |answers| <= Patience(job, Fresh(start))
  {
    if answers != [] {
      var init := answers[..|answers| - 1];
      PatienceRunsOut(job, start, init);
      RunInOrder(job, start, init);
      if Run(job, start, init).status == Running {
        ActivationMakesProgress(job, start, Run(job, start, init), answers[|answers| - 1]);
      }
    }
  }

  /** Every upload stops: no run outlives its patience. */
  lemma UploadTerminates(job: Job, start: nat, answers: seq<Answer>)
    requires 0 < job.chunkSize && |answers| >= Patience(job, Fresh(start))
    ensures Run(job, start, answers).status != Running
  {
    PatienceRunsOut(job, start, answers);
  }

  // ---------------------------------------------------------------- how an upload ends

  /** Where an open file stops being sent: at the first backlog that is negative or more than 256,
      and else at the end. A negative one ends the upload, a large one only pauses it. */
  lemma {:induction false} LoopStopsExactly(job: Job, c: Context, pending: nat -> int) returns (i: nat)
    requires 0 < job.chunkSize && c.total < UINT32_LIMIT && c.status == Running
    ensures c.current <= i && forall j :: c.current <= j < i ==> 0 <= pending(j) <= 256
    ensures var d := SendLoop(job, c, pending);
      && d.total == c.total && d.retries == c.retries && !d.isOpen
      && if i >= c.total then
           d.status == Completed && d.current == i && (i == c.current || i == c.total)
         else if pending(i) < 0 then
           d.status == Disconnected && d.current == i
         else
           pending(i) > 256 && d.status == Running && d.current == i + 1
    decreases c.total - c.current
  {
    i := c.current;
    if c.current < c.total && 0 <= pending(c.current) <= CONGESTION_THRESHOLD {
      i := LoopStopsExactly(job, SendOne(job, c).(current := c.current + 1), pending);
    }
  }

  /** How many of the last activations, one after another, could not open the file. */
  function Failures(answers: seq<Answer>): nat {
    if answers == [] || answers[|answers| - 1].openOk then 0 else 1 + Failures(answers[..|answers| - 1])
  }

  /** A running upload has counted them, and there are no more than it retries. */
  lemma {:induction false} RetriesAreFailures(job: Job, start: nat, answers: seq<Answer>)
    requires 0 < job.chunkSize && Run(job, start, answers).status == Running
    ensures Run(job, start, answers).retries == Failures(answers) <= job.maxOpenRetries
  {
    if answers != [] {
      var init, last := answers[..|answers| - 1], answers[|answers| - 1];
      RetriesAreFailures(job, start, init);
      RunInOrder(job, start, init);
      if last.openOk {
        SendLoopCloses(job, Opened(job, Run(job, start, init)), last.pending);
      }
    }
  }

  /** The activation that ends an upload, or does not: it is given up when that many opens in a row
      have failed; an open one stops as the send loop does; an ended one stays as it is. */
  lemma EndsExactly(job: Job, start: nat, answers: seq<Answer>) returns (i: nat)
    requires 0 < job.chunkSize && answers != []
    ensures var last, before, after := answers[|answers| - 1], Run(job, start, answers[..|answers| - 1]),
        Run(job, start, answers);
      var total := if before.total == 0 then job.Total() else before.total;
      if before.status != Running then after == before
      else if !last.openOk then
        && after.current == before.current && after.sent == before.sent
        && (after.status == GaveUp <==> Failures(answers) == job.maxOpenRetries + 1)
        && (after.status == Running <==> Failures(answers) <= job.maxOpenRetries)
      else
        && before.current <= i && (forall j :: before.current <= j < i ==> 0 <= last.pending(j) <= 256)
        && (i < total ==> last.pending(i) < 0 || last.pending(i) > 256)
        && (after.status == Completed <==> i >= total)
        && (after.status == Disconnected <==> i < total && last.pending(i) < 0)
        && (after.status == Running <==> i < total && last.pending(i) > 256)
        && after.current == if after.status == Running then i + 1 else i
  {
    var last, before := answers[|answers| - 1], Run(job, start, answers[..|answers| - 1]);
    i := 0;
    if before.status == Running {
      RetriesAreFailures(job, start, answers[..|answers| - 1]);
      RunInOrder(job, start, answers[..|answers| - 1]);
      if last.openOk { i := LoopStopsExactly(job, Opened(job, before), last.pending); }
    }
  }

  ghost predicate PeerStays(answers: seq<Answer>) {
    forall k, i: nat :: 0 <= k < |answers| ==> answers[k].pending(i) >= 0
  }

  /** The file never fails to open more often in a row than is retried. */
  predicate OpensInTime(job: Job, answers: seq<Answer>) {
    forall n :: 0 <= n <= |answers| ==> Failures(answers[..n]) <= job.maxOpenRetries
  }

  lemma OpensSoFar(job: Job, answers: seq<Answer>)
    requires OpensInTime(job, answers) && answers != []
    ensures Failures(answers) <= job.maxOpenRetries && OpensInTime(job, answers[..|answers| - 1])
  {
    var init := answers[..|answers| - 1];
    assert answers[..|answers|] == answers;
    forall n | 0 <= n <= |init| ensures Failures(init[..n]) <= job.maxOpenRetries {
      assert init[..n] == answers[..n];
    }
  }

  /** An upload whose peer stays, and whose file opens in time, has not ended, or has completed. */
  lemma {:induction false} OnlyCompletes(job: Job, start: nat, answers: seq<Answer>)
    requires 0 < job.chunkSize && PeerStays(answers) && OpensInTime(job, answers)
    ensures var c := Run(job, start, answers); c.status == Running || c.status == Completed
  {
    if answers != [] {
      OpensSoFar(job, answers);
      OnlyCompletes(job, start, answers[..|answers| - 1]);
      hide Run, OpensInTime, Failures;
      var i := EndsExactly(job, start, answers);
      assert answers[|answers| - 1].pending(i) >= 0;
    }
  }

  /** So whatever the backlog, it completes within its patience, and all its chunks are sent. */
  lemma UploadCompletes(job: Job, start: nat, answers: seq<Answer>)
    requires 0 < job.chunkSize && start < UINT32_LIMIT && |answers| >= Patience(job, Fresh(start))
    requires PeerStays(answers) && OpensInTime(job, answers)
    ensures var c := Run(job, start, answers);
      c.status == Completed && c.sent == job.Packets(start, job.Total())
  {
    OnlyCompletes(job, start, answers);
    UploadTerminates(job, start, answers);
    UploadSendsEachChunkOnce(job, start, answers);
  }

  /** What the receiver reads in the packet of chunk i is chunk i. */
  lemma SentPacketParses(job: Job, i: nat)
    requires 0 < job.chunkSize && i < job.Total() && job.snappy.Inverts()
    requires 1 <= |job.path| <= MAX_ALLOWED_RELATIVE_PATH_LEN
    ensures Parse(job.snappy, job.PacketOf(i)[1..])
         == ChunkHeader(job.path, i, job.Total(), ChunkOf(job.source, job.chunkSize, i), true)
  {
    var data := ChunkOf(job.source, job.chunkSize, i);
    assert job.PacketOf(i)[1..] == Frame(job.path, i, job.Total(), job.snappy.compress(data));
    FramingRoundTrips(job.snappy, job.path, i, job.Total(), data);
  }

  /** The receiver accepts a file's packets exactly if its path is no longer than 4096 bytes and the
      file no larger than 8388608 chunks. */
  lemma SentPacketAccepted(job: Job, i: nat)
    requires 0 < job.chunkSize && i < job.Total() && job.snappy.Inverts() && 1 <= |job.path| < UINT16_LIMIT
    requires |job.source| <= (UINT32_LIMIT - 1) * job.chunkSize
    ensures ValidHeader(Parse(job.snappy, job.PacketOf(i)[1..]))
       <==> |job.path| <= 4096 && |job.source| <= 8388608 * job.chunkSize
  {
    var data := ChunkOf(job.source, job.chunkSize, i);
    assert job.PacketOf(i)[1..] == Frame(job.path, i, job.Total(), job.snappy.compress(data));
    FramingRoundTrips(job.snappy, job.path, i, job.Total(), data);
    TotalWithin(|job.source|, job.chunkSize);
    hide Parse, Frame, ChunkOf, TotalChunks;
  }

  /** A chunk count that is not cut off is not zero, and small exactly for small files. */
  lemma TotalWithin(size: nat, chunkSize: nat)
    requires 0 < chunkSize && size <= (UINT32_LIMIT - 1) * chunkSize
    ensures 0 < TotalChunks(size, chunkSize)
    ensures TotalChunks(size, chunkSize) <= 8388608 <==> size <= 8388608 * chunkSize
  {
    PiecesWithin(size, chunkSize, UINT32_LIMIT - 1);
    PiecesWithin(size, chunkSize, 8388608);
    PiecesWithin(size, chunkSize, 0);
    hide Pieces;
  }
}
