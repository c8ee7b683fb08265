/** What a timer can do, over all runs: it ends and acknowledges a session of the other side's, and
    never one that its own side asked for. */
module FloodTimers {
  import opened FloodPeer
  import opened FloodSync
  import opened FloodIds
  import opened FloodRuns

  predicate AskedBy(owner: map<Session, bool>, session: Session, side: bool) {
    session in owner && owner[session] == side
  }

  /** Acknowledgements under way are of sessions that side asked for. */
  predicate AcksOf(owner: map<Session, bool>, out: seq<Msg>, side: bool) {
    forall k :: 0 <= k < |out| && out[k].Ack? ==> AskedBy(owner, out[k].reply.session, side)
  }

  /** A timer, and what a side has acknowledged, is of the other side's sessions. */
  predicate TimerOk(w: World, side: bool) {
    var n := At(w, side);
    (n.peer.timer != 0 ==> AskedBy(w.owner, n.peer.timer, !side)) && AcksOf(w.owner, n.out, !side)
  }

  ghost predicate Timed(w: World) {
    Ids(w) && TimerOk(w, true) && TimerOk(w, false)
  }

  /** Of a message only a beginning sets the timer, to its session. */
  lemma HandledTimer(p: Peer, m: Msg)
    ensures Handle(p, m).timer == p.timer || (m.Begin? && Handle(p, m).timer == m.session)
  {
  }

  lemma TaskIsNoAck(w: World, side: bool, k: nat, task: Task)
    requires TimerOk(w, side) && k < |At(w, side).floods| && forall i :: 0 <= i < |task.sent| ==> !task.sent[i].Ack?
    ensures TimerOk(With(w, side, Ran(At(w, side), k, task)), side)
  {
  }

  /** What a delivery is for the side that takes the message, and for the other. */
  lemma DeliverParts(w: World, side: bool, newSession: Session)
    requires Allowed(w, Deliver(side, newSession))
    ensures var m, w1 := At(w, !side).out[0], Step(w, Deliver(side, newSession));
      && At(w1, side) == Received(At(w, side), m, newSession)
      && At(w1, !side) == At(w, !side).(out := At(w, !side).out[1..])
      && w1.owner == w.owner[newSession := side]
  {
    hide Received;
  }

  lemma ReceivedTimer(n: Node, m: Msg, newSession: Session)
    ensures Received(n, m, newSession).out == n.out
    ensures var timer := Received(n, m, newSession).peer.timer;
      timer == n.peer.timer || (m.Begin? && timer == m.session)
  {
    HandledTimer(n.peer, m);
    hide Handle;
  }

  lemma AcksRest(owner: map<Session, bool>, owner1: map<Session, bool>, out: seq<Msg>, side: bool)
    requires AcksOf(owner, out, side) && forall s :: s in owner ==> s in owner1 && owner1[s] == owner[s]
    ensures AcksOf(owner1, out, side) && (out != [] ==> AcksOf(owner1, out[1..], side))
  {
  }

  lemma DeliverTimed(w: World, side: bool, newSession: Session)
    requires Timed(w) && Allowed(w, Deliver(side, newSession))
    ensures TimerOk(Step(w, Deliver(side, newSession)), true) && TimerOk(Step(w, Deliver(side, newSession)), false)
  {
    var m := At(w, !side).out[0];
    if m.Begin? { BeginFacts(w, !side); }
    DeliverParts(w, side, newSession);
    ReceivedTimer(At(w, side), m, newSession);
    hide Ids, Step, Received;
    var w1 := Step(w, Deliver(side, newSession));
    assert TimerOk(w, side) && TimerOk(w, !side);
    AcksRest(w.owner, w1.owner, At(w, side).out, !side);
    AcksRest(w.owner, w1.owner, At(w, !side).out, side);
    hide AcksOf;
  }

  lemma SendTimed(w: World, op: Op)
    requires Timed(w) && Allowed(w, op) && (op.SendBegin? || op.SendBatch?)
    ensures TimerOk(Step(w, op), true) && TimerOk(Step(w, op), false)
  {
    hide Ids;
    var n := At(w, op.side);
    var f := n.floods[op.k];
    var task := if op.SendBegin? then AfterBegin(f.session, f.snap)
      else AfterBatch(n.peer.progress.session, f.session, f.snap, f.next);
    TaskIsNoAck(w, op.side, op.k, task);
    hide Ran, AfterBegin, AfterBatch;
    assert TimerOk(w, !op.side);
  }

  lemma ScanTimed(w: World, side: bool, k: nat, snap: Snapshot)
    requires Timed(w) && Allowed(w, Scan(side, k, snap))
    ensures TimerOk(Step(w, Scan(side, k, snap)), true) && TimerOk(Step(w, Scan(side, k, snap)), false)
  {
    hide Ids;
    TaskIsNoAck(w, side, k, AfterScan(At(w, side).peer.progress.session, At(w, side).floods[k].session, snap));
    hide Ran, AfterScan;
    assert TimerOk(w, !side);
  }

  lemma TimeoutParts(n: Node)
    ensures var p := n.peer.progress;
      var fires := n.peer.timer != 0 && p.session == n.peer.timer;
      TimedOut(n) == if fires
        then n.(peer := n.peer.(timer := 0, progress := p.(session := 0)),
                out := n.out + [Ack(Reply(p.session, p.receivedFiles, p.receivedDirs))])
        else n.(peer := n.peer.(timer := 0))
  {
    assert n.out + [] == n.out;
  }

  lemma OthersTimed(w: World, op: Op)
    requires Timed(w) && Allowed(w, op) && (op.Start? || op.Timeout? || op.Reconnect?)
    ensures TimerOk(Step(w, op), true) && TimerOk(Step(w, op), false)
  {
    hide Ids, TimedOut;
    if op.Timeout? { TimeoutParts(At(w, op.side)); }
    assert TimerOk(w, true) && TimerOk(w, false);
  }

  lemma StepTimed(w: World, op: Op)
    requires Timed(w) && Allowed(w, op)
    ensures Timed(Step(w, op))
  {
    StepKeepsIds(w, op);
    match op
    case Scan(side, k, snap) => ScanTimed(w, side, k, snap);
    case Deliver(side, newSession) => DeliverTimed(w, side, newSession);
    case SendBegin(_, _) => SendTimed(w, op);
    case SendBatch(_, _) => SendTimed(w, op);
    case _ => OthersTimed(w, op);
  }

  lemma {:induction false} RunTimed(w: World, ops: seq<Op>)
    requires Timed(w)
    ensures Timed(Run(w, ops))
  {
    if ops != [] {
      var w1 := Run(w, ops[..|ops| - 1]);
      RunTimed(w, ops[..|ops| - 1]);
      if Allowed(w1, ops[|ops| - 1]) { StepTimed(w1, ops[|ops| - 1]); }
    }
  }

  // ---------------------------------------------------------------- in every run

  ghost predicate Reachable(w: World) {
    exists leftReceives: bool, rightReceives: bool, ops: seq<Op> :: w == Run(Initial(leftReceives, rightReceives), ops)
  }

  lemma ReachableIsTimed(w: World)
    requires Reachable(w)
    ensures Timed(w)
  {
    var leftReceives: bool, rightReceives: bool, ops: seq<Op> :| w == Run(Initial(leftReceives, rightReceives), ops);
    hide Ids, Run, Initial, TimerOk;
    StartsTimed(leftReceives, rightReceives);
    RunTimed(Initial(leftReceives, rightReceives), ops);
  }

  lemma StartsTimed(leftReceives: bool, rightReceives: bool)
    ensures Timed(Initial(leftReceives, rightReceives))
  {
    InitialIds(leftReceives, rightReceives);
    hide Ids;
  }

  /** In every run, races included: a timer of another session than the current one changes
      nothing; one of the current session acknowledges it with what was counted and leaves it, and
      that session was asked for by the other side. */
  lemma TimerExactly(w: World, side: bool)
    requires Reachable(w)
    ensures var n, p := At(w, side), At(w, side).peer.progress;
      var fires := n.peer.timer != 0 && p.session == n.peer.timer;
      && (fires ==> AskedBy(w.owner, p.session, !side))
      && Step(w, Timeout(side)) == With(w, side, if fires
           then n.(peer := n.peer.(timer := 0, progress := p.(session := 0)),
                   out := n.out + [Ack(Reply(p.session, p.receivedFiles, p.receivedDirs))])
           else n.(peer := n.peer.(timer := 0)))
  {
    hide Reachable, Ids;
    ReachableIsTimed(w);
    assert TimerOk(w, side);
    TimeoutParts(At(w, side));
    hide TimedOut, TimerOk;
  }

  /** In every run an acknowledgement makes a side flood again only if it is of its own current
      session, and that session it asked for itself. */
  lemma AckRestartsOwnFlood(w: World, side: bool, newSession: Session)
    requires Reachable(w) && Allowed(w, Deliver(side, newSession)) && At(w, !side).out[0].Ack?
    ensures var w1, p := Step(w, Deliver(side, newSession)), At(w, side).peer;
      var mine := At(w, !side).out[0].reply.session == p.progress.session;
      && (mine ==> AskedBy(w.owner, p.progress.session, side))
      && At(w1, side).floods == At(w, side).floods + (if mine then [Waiting(newSession)] else [])
      && At(w1, side).peer == p.(progress := p.progress.(session := if mine then newSession else p.progress.session))
  {
    hide Reachable, Ids;
    ReachableIsTimed(w);
    assert TimerOk(w, !side);
    DeliverParts(w, side, newSession);
    AckTaken(At(w, side), At(w, !side).out[0], newSession);
    hide Step, Received, TimerOk;
  }

  lemma AckTaken(n: Node, m: Msg, newSession: Session)
    requires m.Ack?
    ensures var n1, p := Received(n, m, newSession), n.peer;
      var mine := m.reply.session == p.progress.session;
      && n1.floods == n.floods + (if mine then [Waiting(newSession)] else [])
      && n1.peer == p.(progress := p.progress.(session := if mine then newSession else p.progress.session))
  {
    assert n.floods + [] == n.floods;
  }

  // ---------------------------------------------------------------- what is acknowledged

  /** While it counts, what a side would acknowledge is what its accumulator has. */
  predicate Counted(p: Peer) {
    p.receives && Live(p) ==>
      var acc := p.acc.value;
      && p.progress.receivedFiles == acc.receivedFiles && p.progress.receivedDirs == acc.receivedDirs
      && p.progress.expectedFiles == acc.expectedFiles && p.progress.expectedDirs == acc.expectedDirs
  }

  predicate BothCounted(w: World) {
    Counted(w.left.peer) && Counted(w.right.peer)
  }

  /** A batch, one that also deletes directories included, is counted alike by both. */
  lemma BatchCounted(p: Peer, files: seq<FileInfo>, creates: seq<Path>, deletes: nat)
    requires Counted(p)
    ensures Counted(OnFiles(p, files)) && Counted(OnDirs(p, creates, deletes))
  {
    hide Named;
  }

  lemma HandledCounted(p: Peer, m: Msg)
    requires Counted(p)
    ensures Counted(Handle(p, m))
  {
    BatchCounted(p, if m.Files? then m.batch else [], if m.Dirs? then m.creates else [], 0);
    hide OnFiles, OnDirs;
  }

  /** A new session is no accumulator's. */
  lemma RestartCounted(p: Peer, session: Session)
    requires p.acc.Some? ==> p.acc.value.session != session
    ensures Counted(WithSession(p, session))
  {
  }

  lemma HandledAcc(p: Peer, m: Msg)
    ensures Handle(p, m).acc.Some? ==>
      (p.acc.Some? && Handle(p, m).acc.value.session == p.acc.value.session)
      || (m.Begin? && Handle(p, m).acc.value.session == m.session)
  {
    hide Named;
  }

  lemma DeliverCounted(w: World, side: bool, newSession: Session)
    requires Ids(w) && BothCounted(w) && Allowed(w, Deliver(side, newSession))
    ensures BothCounted(Step(w, Deliver(side, newSession)))
  {
    var m, n := At(w, !side).out[0], At(w, side);
    DeliverParts(w, side, newSession);
    HandledCounted(n.peer, m);
    HandledAcc(n.peer, m);
    FreshIsUnused(w, side, newSession);
    if m.Ack? { RestartCounted(Handle(n.peer, m), newSession); }
    hide Ids, Step, Handle, Counted, WithSession;
  }

  lemma StepCounted(w: World, op: Op)
    requires Ids(w) && BothCounted(w) && Allowed(w, op)
    ensures BothCounted(Step(w, op))
  {
    match op
    case Deliver(side, newSession) => DeliverCounted(w, side, newSession);
    case Start(side, session) =>
      FreshIsUnused(w, side, session);
      RestartCounted(At(w, side).peer, session);
      hide Ids, Counted, WithSession;
    case Timeout(side) => hide Ids;
    case Reconnect => hide Ids;
    case _ => hide Ids, Counted, AfterScan, AfterBegin, AfterBatch;
  }

  lemma {:induction false} RunCounted(w: World, ops: seq<Op>)
    requires Ids(w) && BothCounted(w)
    ensures BothCounted(Run(w, ops))
  {
    if ops != [] {
      hide Ids, BothCounted, Step, Allowed;
      var init, op := ops[..|ops| - 1], ops[|ops| - 1];
      RunCounted(w, init);
      RunKeepsIds(w, init);
      if Allowed(Run(w, init), op) { StepCounted(Run(w, init), op); }
    }
  }

  lemma StartsCounted(leftReceives: bool, rightReceives: bool)
    ensures Ids(Initial(leftReceives, rightReceives)) && BothCounted(Initial(leftReceives, rightReceives))
  {
    InitialIds(leftReceives, rightReceives);
    hide Ids;
  }

  lemma ReachableIsCounted(w: World)
    requires Reachable(w)
    ensures BothCounted(w)
  {
    var leftReceives: bool, rightReceives: bool, ops: seq<Op> :| w == Run(Initial(leftReceives, rightReceives), ops);
    hide Ids, Run, Initial, BothCounted;
    StartsCounted(leftReceives, rightReceives);
    RunCounted(Initial(leftReceives, rightReceives), ops);
  }

  /** In every run what is acknowledged of a session that is being counted is what has been counted
      of it, and what was announced of it is what is waited for. */
  lemma AckCountsExactly(w: World, side: bool)
    requires Reachable(w) && At(w, side).peer.receives && Live(At(w, side).peer)
    ensures var p, acc := At(w, side).peer.progress, At(w, side).peer.acc.value;
      && p == Progress(acc.session, acc.expectedFiles, acc.expectedDirs, acc.receivedFiles, acc.receivedDirs)
  {
    hide Reachable;
    ReachableIsCounted(w);
  }
}
