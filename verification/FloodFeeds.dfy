/** A flood that goes on, batch by batch, into whatever accumulator the other side is counting
    into, until that one is full. */
module FloodFeeds {
  import opened Wrappers
  import opened FloodPeer
  import opened FloodSync
  import opened FloodIds
  import opened FloodSafety
  import opened FloodRace

  lemma {:induction false} RunConcat(w: World, a: seq<Op>, b: seq<Op>)
    ensures Run(w, a + b) == Run(Run(w, a), b)
    decreases |b|
  {
    if b == [] {
      assert a + b == a;
    } else {
      assert (a + b)[..|a + b| - 1] == a + b[..|b| - 1];
      RunConcat(w, a, b[..|b| - 1]);
    }
  }

  lemma OneOp(w: World, op: Op)
    requires Allowed(w, op)
    ensures Run(w, [op]) == Step(w, op)
  {
    assert [op][..0] == [] && Run(w, []) == w;
  }

  lemma TwoOps(w: World, a: Op, b: Op)
    requires Allowed(w, a) && Allowed(Step(w, a), b)
    ensures Run(w, [a, b]) == Step(Step(w, a), b)
  {
    hide Step, Allowed;
    OneOp(w, a);
    OneOp(Step(w, a), b);
    RunConcat(w, [a], [b]);
    assert [a] + [b] == [a, b];
  }

  // ---------------------------------------------------------------- the receiver

  /** Batches are counted into this accumulator. */
  predicate Counts(p: Peer, acc: Acc) {
    p.receives && acc.session != 0 && p.progress.session == acc.session && p.acc == Some(acc)
  }

  lemma DirsCounted(p: Peer, acc: Acc, creates: seq<Path>, tag: Session)
    requires Counts(p, acc) && acc.receivedFiles < acc.expectedFiles
    ensures var p1 := Handle(p, Dirs(creates, tag));
      Counts(p1, CountDirs(acc, creates, 0)) && p1.completed == p.completed
  {
  }

  lemma FilesCounted(p: Peer, acc: Acc, snap: Snapshot, n: nat, tag: Session)
    requires Counts(p, acc) && SnapshotOk(snap)
    ensures var p1, acc1 := Handle(p, Files(Batch(snap.files, n), tag)), CountFiles(acc, Batch(snap.files, n));
      && p1.completed == (if Complete(acc1) then p.completed + [acc1] else p.completed)
      && (!Complete(acc1) ==> Counts(p1, acc1))
  {
    BatchIsNamed(snap, n);
    hide Named, Batch;
  }

  // ---------------------------------------------------------------- one batch after another

  /** Everything sent has arrived, and flood m of the side, of its current session, is about to send
      batch n. */
  predicate Feeding(w: World, side: bool, m: nat, session: Session, snap: Snapshot, n: nat, acc: Acc) {
    var floods := At(w, side).floods;
    && m < |floods| && floods[m] == Streaming(session, snap, n) && At(w, side).peer.progress.session == session
    && At(w, side).out == [] && Counts(At(w, !side).peer, acc)
  }

  predicate Beyond(w: World, session: Session) {
    session != 0 && forall s :: s in w.owner ==> s < session
  }

  /** A message that is no acknowledgement arrives. */
  lemma Arrives(w: World, side: bool, m: Msg, rest: seq<Msg>, next: Session)
    requires At(w, side).out == [m] + rest && !m.Ack? && Beyond(w, next)
    ensures Allowed(w, Deliver(!side, next))
    ensures var w1 := Step(w, Deliver(!side, next));
      && At(w1, side) == At(w, side).(out := rest) && At(w1, !side).peer == Handle(At(w, !side).peer, m)
      && Beyond(w1, next + 1)
  {
    hide Handle;
  }

  lemma RanOn(n: Node, k: nat, task: Task)
    requires k < |n.floods| && task.flood.Some?
    ensures Ran(n, k, task) == n.(out := n.out + task.sent, floods := n.floods[k := task.flood.value])
  {
  }

  /** A batch is sent. */
  lemma BatchSent(w: World, side: bool, m: nat, session: Session, snap: Snapshot, n: nat, acc: Acc)
    requires Feeding(w, side, m, session, snap, n, acc) && Unsent(snap, n)
    ensures Allowed(w, SendBatch(side, m))
    ensures var w1, s := Step(w, SendBatch(side, m)), At(w, side);
      && w1.owner == w.owner && At(w1, !side) == At(w, !side)
      && At(w1, side) == s.(out := [BatchOf(session, snap, n)],
        floods := s.floods[m := Streaming(session, snap, n + 1)])
  {
    RanOn(At(w, side), m, AfterBatch(session, session, snap, n));
    hide Ran, Batch;
  }

  lemma Round(w: World, side: bool, m: nat, session: Session, snap: Snapshot, n: nat, acc: Acc, next: Session)
    requires Feeding(w, side, m, session, snap, n, acc) && SnapshotOk(snap) && Unsent(snap, n) && Beyond(w, next)
    ensures var w1 := Run(w, [SendBatch(side, m), Deliver(!side, next)]);
      var acc1, before := CountFiles(acc, Batch(snap.files, n)), At(w, !side).peer.completed;
      && Beyond(w1, next + 1)
      && At(w1, !side).peer.completed == (if Complete(acc1) then before + [acc1] else before)
      && (!Complete(acc1) ==> Feeding(w1, side, m, session, snap, n + 1, acc1))
  {
    hide SnapshotOk, Batch;
    BatchSent(w, side, m, session, snap, n, acc);
    var w0 := Step(w, SendBatch(side, m));
    assert [BatchOf(session, snap, n)] == [BatchOf(session, snap, n)] + [];
    FilesCounted(At(w, !side).peer, acc, snap, n, session);
    hide Handle, CountFiles, Complete, Allowed, Step, Counts;
    Arrives(w0, side, BatchOf(session, snap, n), [], next);
    TwoOps(w, SendBatch(side, m), Deliver(!side, next));
  }

  function Rounds(side: bool, m: nat, next: Session, count: nat): seq<Op>
    decreases count
  {
    if count == 0 then [] else [SendBatch(side, m), Deliver(!side, next)] + Rounds(side, m, next + 1, count - 1)
  }

  /** The files of so many batches from batch n on. */
  function Part(files: seq<FileInfo>, n: nat, count: nat): seq<FileInfo> {
    files[Offset(files, n)..Offset(files, n + count)]
  }

  lemma PartOfMore(files: seq<FileInfo>, n: nat, count: nat)
    requires count >= 1
    ensures Part(files, n, count) == Batch(files, n) + Part(files, n + 1, count - 1)
    ensures Part(files, n, 1) == Batch(files, n)
        && |Part(files, n, count)| == Offset(files, n + count) - Offset(files, n)
    ensures |Batch(files, n)| == Offset(files, n + 1) - Offset(files, n)
  {
  }

  /** The accumulator becomes full with batch n + count - 1. */
  predicate FullAfter(acc: Acc, files: seq<FileInfo>, n: nat, count: nat) {
    && count >= 1 && acc.receivedDirs >= acc.expectedDirs
    && acc.receivedFiles + |Part(files, n, count - 1)| < acc.expectedFiles
    && acc.expectedFiles <= acc.receivedFiles + |Part(files, n, count)|
  }

  /** Whoever expects no more than is left to send becomes full. */
  lemma FullInTime(acc: Acc, files: seq<FileInfo>, n: nat) returns (count: nat)
    requires acc.receivedFiles < acc.expectedFiles && acc.receivedDirs >= acc.expectedDirs
    requires acc.expectedFiles - acc.receivedFiles <= |files| - Offset(files, n)
    ensures FullAfter(acc, files, n, count)
    ensures (count - 1) * FILE_UPDATE_BATCH_SIZE < acc.expectedFiles - acc.receivedFiles
  {
    count := (acc.expectedFiles - acc.receivedFiles + FILE_UPDATE_BATCH_SIZE - 1) / FILE_UPDATE_BATCH_SIZE;
    PartOfMore(files, n, count);
    if count > 1 { PartOfMore(files, n, count - 1); }
  }

  lemma StillToSend(acc: Acc, snap: Snapshot, n: nat, count: nat)
    requires FullAfter(acc, snap.files, n, count)
    ensures Unsent(snap, n)
    ensures var acc1 := CountFiles(acc, Batch(snap.files, n));
      if count == 1 then Complete(acc1) else !Complete(acc1) && FullAfter(acc1, snap.files, n + 1, count - 1)
  {
    PartOfMore(snap.files, n, count);
    if count > 1 { PartOfMore(snap.files, n, count - 1); }
  }

  /** Batches are counted until the expected number is reached. */
  lemma {:induction false} Fills(w: World, side: bool, m: nat, session: Session, snap: Snapshot, n: nat, acc: Acc,
                                 next: Session, count: nat)
    requires Feeding(w, side, m, session, snap, n, acc) && SnapshotOk(snap) && Beyond(w, next)
    requires FullAfter(acc, snap.files, n, count)
    ensures At(Run(w, Rounds(side, m, next, count)), !side).peer.completed
         == At(w, !side).peer.completed + [CountFiles(acc, Part(snap.files, n, count))]
    decreases count
  {
    hide Run, Feeding, FullAfter, Unsent, Complete, SnapshotOk, Batch, Part, Beyond;
    StillToSend(acc, snap, n, count);
    Round(w, side, m, session, snap, n, acc, next);
    PartOfMore(snap.files, n, count);
    var first, batch := [SendBatch(side, m), Deliver(!side, next)], Batch(snap.files, n);
    var w1 := Run(w, first);
    RunConcat(w, first, Rounds(side, m, next + 1, count - 1));
    if count == 1 {
      RanNothing(w1);
    } else {
      Fills(w1, side, m, session, snap, n + 1, CountFiles(acc, batch), next + 1, count - 1);
      CountedTwice(acc, batch, Part(snap.files, n + 1, count - 1));
    }
  }

  lemma RanNothing(w: World)
    ensures Run(w, []) == w
  {
  }

  lemma CountedTwice(acc: Acc, a: seq<FileInfo>, b: seq<FileInfo>)
    ensures CountFiles(CountFiles(acc, a), b) == CountFiles(acc, a + b)
  {
    assert (acc.files + a) + b == acc.files + (a + b);
  }
}
