/** Where reassembly does not hold, and exactly when. */
module StaleTemp {
  import opened Wrappers
  import opened KcpProto
  import opened ChunkCodec
  import opened Bitmap
  import opened Receiving
  import opened Reassembly
  import opened Transfers
  import opened Completion
  import opened TempContents

  // ---------------------------------------------------------------- a temp file from before

  /** A new download opens a temp file that is already there without truncating it. When every
      chunk is delivered once, whether the metadata was registered or not, what is finalized is
      the source and after it the rest of the old file if that was longer: the source ends up in
      place exactly when it was not. Otherwise the longer file is in place if nothing is expected
      of its hash, and else thrown away. */
  lemma StaleTempExactly(sh: Share, v: View, p: Path, indices: seq<nat>, peer: PeerId, stale: seq<byte>)
    requires sh.Shared(p) && Untouched(v, p) && TempAt(v.disk, p) == Some(stale)
    requires ExpectedHash(v, p) == "" || ExpectedHash(v, p) == sh.cfg.sha(sh.source(p))
    requires Within(indices, sh.Total(p)) && Distinct(indices)
    requires forall i: nat :: i < sh.Total(p) ==> i in indices
    ensures var w := DeliverAll(sh, v, p, indices, peer);
      var longer := sh.source(p) + if |stale| > |sh.source(p)| then stale[|sh.source(p)|..] else [];
      && Finished(sh, v, w, p, longer, peer, ExpectedHash(v, p))
      && (p in w.disk && w.disk[p] == sh.source(p) <==> |stale| <= |sh.source(p)|)
  {
    SharedTotal(sh, p);
    assert 0 in indices;
    AllWritten(sh.source(p), sh.cfg.chunkSize, stale, indices);
    EachMissingFinishes(sh, v, p, indices, peer, Clear(sh.Total(p)), stale);
    hide WriteAll, DeliverAll, Clear, Carries, Untouched;
    assert sh.source(p) + [] == sh.source(p);
  }

  // ---------------------------------------------------------------- a row from before

  /** A program restarts with a row that claims chunks of p, though not all, and with any temp file;
      then the chunks that the row does not claim are delivered, each once. The source ends up in
      place exactly when the temp file is no longer than it and right in every claimed byte. */
  lemma RestartExactly(sh: Share, v: View, p: Path, indices: seq<nat>, peer: PeerId, content: seq<byte>)
    requires TasksReadable(v.tasks) && Claims(sh, v, p)
    requires TempAt(v.disk, p) == Some(content)
    requires EachMissing(indices, Unpacked(v.tasks[p].packed, v.tasks[p].total))
    ensures var bits, w := Unpacked(v.tasks[p].packed, v.tasks[p].total),
        DeliverAll(sh, Load(Crash(v)), p, indices, peer);
      var made := WriteAll(sh.source(p), sh.cfg.chunkSize, content, indices);
      && Finished(sh, Load(Crash(v)), w, p, made, peer, v.tasks[p].hash)
      && (made == sh.source(p) <==> Recoverable(sh.source(p), sh.cfg.chunkSize, bits, content))
      && (p in w.disk && w.disk[p] == sh.source(p) <==> Recoverable(sh.source(p), sh.cfg.chunkSize, bits, content))
  {
    var bits := Unpacked(v.tasks[p].packed, v.tasks[p].total);
    var w := Load(Crash(v));
    assert p in Loadable(v.tasks, v.disk);
    assert Carries(sh, w, p, bits, content) && ExpectedHash(w, p) == v.tasks[p].hash;
    SomeMissing(bits, indices);
    hide Load, Loadable, Restored, Carries, ExpectedHash, Claims;
    EachMissingFinishes(sh, w, p, indices, peer, bits, content);
    MissingWrittenExactly(sh.source(p), sh.cfg.chunkSize, bits, content, indices);
    hide WriteAll, Recoverable, DeliverAll;
  }

  lemma SomeMissing(bits: seq<bool>, indices: seq<nat>)
    requires Count(bits) < |bits| && Missing(indices, bits)
    ensures indices != []
  {
    CountIsFull(bits);
  }

  /** So it is for every stale row that a run can lead to: a restart that finds a new temp file for
      it ends with the source exactly when the claimed bytes are there again, or are zeroes past the
      end of it. The runs allow the restart in the first case. */
  lemma StaleRestartExactly(sh: Share, h: History, p: Path, indices: seq<nat>, peer: PeerId, content: seq<byte>)
    requires Truthful(sh, h) && p in h.stale && TempAt(h.now.disk, p) == Some(content)
    requires EachMissing(indices, Unpacked(h.now.tasks[p].packed, h.now.tasks[p].total))
    ensures var w := DeliverAll(sh, Load(Crash(h.now)), p, indices, peer);
      var bits := Unpacked(h.now.tasks[p].packed, h.now.tasks[p].total);
      p in w.disk && w.disk[p] == sh.source(p) <==> Recoverable(sh.source(p), sh.cfg.chunkSize, bits, content)
  {
    assert Claims(sh, h.now, p) && TasksReadable(h.now.tasks);
    hide Truthful, Claims, TasksReadable, Load, Crash, DeliverAll, Recoverable, EachMissing, Finished, WriteAll;
    hide Unpacked;
    RestartExactly(sh, h.now, p, indices, peer, content);
  }

  // ---------------------------------------------------------------- a failed write

  const DEMO: Path := [0x61]

  predicate TwoBytes(sh: Share, a: byte, b: byte) {
    sh.cfg.chunkSize == 1 && sh.source(DEMO) == [a, b] && a != 0
  }

  function Entry(bits: seq<bool>, peer: PeerId): Recv {
    Recv(TempOf(DEMO), 2, 1, bits, peer, "", 0, true, false)
  }

  lemma DemoChunk(sh: Share, a: byte, b: byte)
    requires TwoBytes(sh, a, b)
    ensures sh.Total(DEMO) == 2 && sh.Chunk(DEMO, 0) == [a] && sh.Chunk(DEMO, 1) == [b]
    ensures Clear(2) == [false, false]
  {
  }

  /** A first chunk i arriving for the two-byte file. */
  lemma DemoFirst(sh: Share, a: byte, b: byte, v: View, i: nat, peer: PeerId)
    requires TwoBytes(sh, a, b) && i < 2 && DEMO !in v.files && TempOf(DEMO) !in v.disk
    ensures var w := DeliverOne(sh, v, DEMO, i, peer);
      && w.files == v.files[DEMO := Entry([i == 0, i == 1], peer)] && w.tasks == v.tasks
      && w.disk == v.disk[TempOf(DEMO) := if i == 0 then [a] else [0, b]]
  {
    DemoChunk(sh, a, b);
    assert ValidHeader(sh.Header(DEMO, i));
    var e := Recv(TempOf(DEMO), 2, 0, [false, false], peer, "", 0, true, true);
    var w := Put(v.(total := v.total + 1), DEMO, e).(disk := v.disk[TempOf(DEMO) := []]);
    var found := e.(isOpen := false);
    assert Find(v, DEMO, 2, peer, true) == Found(found, v.disk, 1, true);
    assert v.files[DEMO := found][DEMO := e] == v.files[DEMO := e];
    assert Ready(v, sh.Header(DEMO, i), peer, ALL_GOOD) == (w, Some(e));
    assert Written(sh.cfg, w.disk, e, sh.Header(DEMO, i)) == if i == 0 then [a] else [0, b];
    assert [false, false][i := true] == [i == 0, i == 1];
  }

  /** Chunk 0 is received and persisted; writing chunk 1 fails and the temp file is removed;
      chunk 1 arrives again in a new temp file; then the program restarts. The row still
      claims chunk 0, so the next chunk 1 finalizes a file whose first byte was never there. */
  lemma FailedWriteThenRestart(sh: Share, a: byte, b: byte, peer: PeerId)
    requires TwoBytes(sh, a, b)
    ensures
      var v1 := DeliverOne(sh, View(map[], map[], map[], map[], {}, 0, 0, 0), DEMO, 0, peer);
      var v2 := Persist(v1, {DEMO});
      var v3 := HandleHeader(sh.cfg, v2, sh.Header(DEMO, 1), peer, ALL_GOOD.(write := false));
      var v4 := DeliverOne(sh, v3, DEMO, 1, peer);
      TasksReadable(v4.tasks) &&
      AtFinalize(sh.cfg, Load(Crash(v4)), sh.Header(DEMO, 1), peer, ALL_GOOD) == Some([0, b]) != Some(sh.source(DEMO))
  {
    var v0 := View(map[], map[], map[], map[], {}, 0, 0, 0);
    DemoChunk(sh, a, b);
    DemoFirst(sh, a, b, v0, 0, peer);
    var v1 := DeliverOne(sh, v0, DEMO, 0, peer);
    var v2 := Persist(v1, {DEMO});
    var row := TaskOf(Entry([true, false], peer));
    assert v2.tasks == map[DEMO := row];
    var v3 := HandleHeader(sh.cfg, v2, sh.Header(DEMO, 1), peer, ALL_GOOD.(write := false));
    assert v3.files == map[] && v3.disk == map[] && v3.tasks == v2.tasks;
    DemoFirst(sh, a, b, v3, 1, peer);
    var v4 := DeliverOne(sh, v3, DEMO, 1, peer);
    DemoRestart(sh, a, b, v4, peer);
  }

  /** What is loaded for the two-byte file. */
  lemma DemoLoaded(sh: Share, a: byte, b: byte, v: View, peer: PeerId)
    requires TwoBytes(sh, a, b)
    requires v.tasks == map[DEMO := TaskOf(Entry([true, false], peer))]
        && v.disk == map[TempOf(DEMO) := [0, b]]
    ensures TasksReadable(v.tasks)
    ensures var w := Load(Crash(v));
      w.disk == v.disk && DEMO in w.files && w.files[DEMO] == Entry([true, false], peer).(isOpen := false)
  {
    PackingRoundTrips([true, false]);
    assert Count([true, false]) == 1;
    hide Packed, Unpacked;
  }

  lemma DemoRestart(sh: Share, a: byte, b: byte, v: View, peer: PeerId)
    requires TwoBytes(sh, a, b)
    requires v.tasks == map[DEMO := TaskOf(Entry([true, false], peer))]
        && v.disk == map[TempOf(DEMO) := [0, b]]
    ensures TasksReadable(v.tasks)
    ensures AtFinalize(sh.cfg, Load(Crash(v)), sh.Header(DEMO, 1), peer, ALL_GOOD) == Some([0, b])
  {
    DemoLoaded(sh, a, b, v, peer);
    DemoChunk(sh, a, b);
    var w := Load(Crash(v));
    hide Load, Crash, TaskOf, TasksReadable;
    DemoLast(sh, a, b, w, peer);
  }

  lemma DemoLast(sh: Share, a: byte, b: byte, w: View, peer: PeerId)
    requires TwoBytes(sh, a, b) && w.disk == map[TempOf(DEMO) := [0, b]]
    requires DEMO in w.files && w.files[DEMO] == Entry([true, false], peer).(isOpen := false)
    ensures AtFinalize(sh.cfg, w, sh.Header(DEMO, 1), peer, ALL_GOOD) == Some([0, b])
  {
    DemoChunk(sh, a, b);
    var ready := Entry([true, false], peer).(busy := true);
    assert Ready(w, sh.Header(DEMO, 1), peer, ALL_GOOD).1 == Some(ready);
    hide Ready;
    assert Written(sh.cfg, w.disk, ready, sh.Header(DEMO, 1)) == [0, b];
  }
}
