/** Runs of the flood protocol: the invariant, exactly which steps keep it, and what a run of
    such steps guarantees. */
module FloodRuns {
  import opened Wrappers
  import opened FloodPeer
  import opened FloodSync
  import opened FloodIds
  import opened FloodSafety

  ghost predicate Good(w: World) {
    && Ids(w)
    && InStep(w.snaps, LaneOf(w, true)) && InStep(w.snaps, LaneOf(w, false))
    && AllExact(w.snaps, w.left.peer.completed) && AllExact(w.snaps, w.right.peer.completed)
  }

  /** The two races: a beginning sent into the middle of another flood, and a beginning ignored
      by an offer side that is itself counting. */
  predicate Guarded(w: World, op: Op)
    requires Allowed(w, op)
  {
    match op
    case SendBegin(side, _) => !MidStream(LaneOf(w, side))
    case Deliver(side, _) => !Misses(At(w, side).peer, At(w, !side).out[0])
    case _ => true
  }

  // ---------------------------------------------------------------- the steps

  lemma RanFloods(n: Node, k: nat, task: Task)
    requires k < |n.floods| && forall i, j :: 0 <= i < j < |n.floods| ==> n.floods[i].session != n.floods[j].session
    ensures forall g :: g in Ran(n, k, task).floods <==> (g in n.floods && g != n.floods[k]) || Some(g) == task.flood
    ensures forall g :: g in n.floods && g != n.floods[k] ==> g.session != n.floods[k].session
  {
    assert n.floods == n.floods[..k] + [n.floods[k]] + n.floods[k + 1..];
  }

  lemma SideFloods(w: World, side: bool)
    requires Ids(w)
    ensures forall i, j :: 0 <= i < j < |At(w, side).floods| ==>
        At(w, side).floods[i].session != At(w, side).floods[j].session
    ensures forall f :: f in At(w, side).floods ==>
        f.session in w.owner && w.owner[f.session] == side && f.session != 0 && FloodOk(w.snaps, f)
  {
    forall f | f in At(w, side).floods ensures f.session in w.owner && w.owner[f.session] == side
      && FloodOk(w.snaps, f) {
      var k :| 0 <= k < |At(w, side).floods| && At(w, side).floods[k] == f;
    }
  }

  /** An accumulator was asked for by the other side, and no beginning under way is of its session. */
  lemma AccFacts(w: World, side: bool)
    requires Ids(w) && At(w, side).peer.acc.Some?
    ensures var s := At(w, side).peer.acc.value.session;
      s in w.owner && w.owner[s] == !side
        && (At(w, !side).out != [] && At(w, !side).out[0].Begin? ==> At(w, !side).out[0].session != s)
  {
    var s := At(w, side).peer.acc.value.session;
    assert Tokens(LaneOf(w, !side), s) >= 1;
  }

  lemma BeginFacts(w: World, side: bool)
    requires Ids(w) && At(w, side).out != [] && At(w, side).out[0].Begin?
    ensures At(w, side).out[0].session in w.owner && w.owner[At(w, side).out[0].session] == side
  {
    assert Tokens(LaneOf(w, side), At(w, side).out[0].session) >= 1;
  }

  lemma StartLanes(w: World, side: bool, session: Session)
    requires FreshSession(w, session)
    ensures var w1, n := Step(w, Start(side, session)), At(w, side);
      && LaneOf(w1, side) == LaneOf(w, side).(sigma := session, floods := n.floods + [Waiting(session)])
      && LaneOf(w1, !side) == LaneOf(w, !side).(rcv := WithSession(n.peer, session))
      && w1.snaps == w.snaps && w1.left.peer.completed == w.left.peer.completed
      && w1.right.peer.completed == w.right.peer.completed
  {
  }

  /** A session that nobody has asked for is neither a flood's nor the accumulator's. */
  lemma FreshIsUnused(w: World, side: bool, session: Session)
    requires Ids(w) && FreshSession(w, session)
    ensures forall f :: f in At(w, side).floods ==> f.session != session
    ensures At(w, side).peer.acc.Some? ==> At(w, side).peer.acc.value.session != session
  {
    SideFloods(w, side);
    if At(w, side).peer.acc.Some? { AccFacts(w, side); }
    hide Ids;
  }

  lemma StartIsGood(w: World, side: bool, session: Session)
    requires Good(w) && FreshSession(w, session)
    ensures Good(Step(w, Start(side, session)))
  {
    hide Ids, InStep, AllExact;
    FreshIsUnused(w, side, session);
    StartLanes(w, side, session);
    StepKeepsIds(w, Start(side, session));
    hide Step;
    SenderRestarts(w.snaps, LaneOf(w, side), session, [Waiting(session)]);
    ReceiverLeaves(w.snaps, LaneOf(w, !side), WithSession(At(w, side).peer, session));
  }

  lemma MoreSnapsExact(snaps: map<Session, Snapshot>, completed: seq<Acc>, s: Session, snap: Snapshot)
    requires AllExact(snaps, completed) && s !in snaps
    ensures AllExact(snaps[s := snap], completed)
  {
  }

  lemma ScanIsGood(w: World, side: bool, k: nat, snap: Snapshot)
    requires Good(w) && Allowed(w, Scan(side, k, snap))
    ensures Good(Step(w, Scan(side, k, snap)))
  {
    var n := At(w, side);
    var s := n.floods[k].session;
    SideFloods(w, side);
    assert n.floods[k] in n.floods;
    RanFloods(n, k, AfterScan(n.peer.progress.session, s, snap));
    hide Ids, InStep, AllExact;
    StepKeepsIds(w, Scan(side, k, snap));
    var w1 := Step(w, Scan(side, k, snap));
    SenderScans(w.snaps, LaneOf(w, side), At(w1, side).floods, s, snap);
    SenderScans(w.snaps, LaneOf(w, !side), At(w, !side).floods, s, snap);
    MoreSnapsExact(w.snaps, w.left.peer.completed, s, snap);
    MoreSnapsExact(w.snaps, w.right.peer.completed, s, snap);
    assert n.out + [] == n.out;
  }

  lemma SendBeginIsGoodExactly(w: World, side: bool, k: nat)
    requires Good(w) && Allowed(w, SendBegin(side, k))
    ensures Good(Step(w, SendBegin(side, k))) <==> !MidStream(LaneOf(w, side))
  {
    var n := At(w, side);
    var f := n.floods[k];
    SideFloods(w, side);
    assert f in n.floods;
    RanFloods(n, k, AfterBegin(f.session, f.snap));
    hide Ids, InStep, AllExact, AfterBegin, MidStream;
    StepKeepsIds(w, SendBegin(side, k));
    var w1 := Step(w, SendBegin(side, k));
    SenderBegins(w.snaps, LaneOf(w, side), At(w1, side).floods, f);
  }

  lemma SendBatchIsGood(w: World, side: bool, k: nat)
    requires Good(w) && Allowed(w, SendBatch(side, k))
    ensures Good(Step(w, SendBatch(side, k)))
  {
    var n := At(w, side);
    var f := n.floods[k];
    SideFloods(w, side);
    assert f in n.floods;
    RanFloods(n, k, AfterBatch(n.peer.progress.session, f.session, f.snap, f.next));
    hide Ids, InStep, AllExact, AfterBatch;
    StepKeepsIds(w, SendBatch(side, k));
    var w1 := Step(w, SendBatch(side, k));
    SenderStreams(w.snaps, LaneOf(w, side), At(w1, side).floods, f);
  }

  /** Taking a message, before any answer to it. */
  function Took(w: World, side: bool): World
    requires At(w, !side).out != []
  {
    var m, n := At(w, !side).out[0], At(w, side);
    With(With(w, !side, At(w, !side).(out := At(w, !side).out[1..])), side,
      n.(peer := Handle(n.peer, m), seen := Advance(n.seen, m)))
  }

  /** The session a side has after a message is its own, none, or one the other side asked for. */
  lemma HandledSession(p: Peer, m: Msg)
    ensures Handle(p, m).progress.session == p.progress.session
        || (m.Begin? && Handle(p, m).progress.session == m.session)
  {
  }

  lemma TookIsGoodExactly(w: World, side: bool)
    requires Good(w) && At(w, !side).out != []
    ensures Good(Took(w, side)) <==> !Misses(At(w, side).peer, At(w, !side).out[0])
  {
    var m, n := At(w, !side).out[0], At(w, side);
    var w1 := Took(w, side);
    if n.peer.acc.Some? { AccFacts(w, side); }
    if m.Begin? { BeginFacts(w, !side); }
    SideFloods(w, side);
    HandledSession(n.peer, m);
    assert SnapsOk(w) && Unfinished(n.peer);
    hide Ids, InStep, AllExact, Handle, Misses, SnapsOk;
    ReceivedKeepsIds(w, side, w1);
    assert forall s :: s in w.snaps ==> SnapshotOk(w.snaps[s]) by { SnapsAreOk(w); }
    TakeKeepsStep(w.snaps, LaneOf(w, !side));
    SenderRestarts(w.snaps, LaneOf(w, side), SessionAfter(w, side), []);
    assert LaneOf(w, side).floods + [] == LaneOf(w, side).floods;
    assert LaneOf(w1, !side) == Taken(LaneOf(w, !side));
    assert LaneOf(w1, side) == LaneOf(w, side).(sigma := SessionAfter(w, side));
  }

  function SessionAfter(w: World, side: bool): Session
    requires At(w, !side).out != []
  {
    Handle(At(w, side).peer, At(w, !side).out[0]).progress.session
  }

  lemma SnapsAreOk(w: World)
    requires SnapsOk(w)
    ensures forall s :: s in w.snaps ==> SnapshotOk(w.snaps[s])
  {
  }

  lemma SpareOwnerIsGoodExactly(w: World, session: Session, side: bool)
    requires FreshSession(w, session) && Ids(w)
    ensures Good(w.(owner := w.owner[session := side])) <==> Good(w)
  {
    SpareOwner(w, session, side);
    hide Ids;
  }

  lemma DeliverIsGoodExactly(w: World, side: bool, newSession: Session)
    requires Good(w) && Allowed(w, Deliver(side, newSession))
    ensures Good(Step(w, Deliver(side, newSession))) <==> !Misses(At(w, side).peer, At(w, !side).out[0])
  {
    var m, n := At(w, !side).out[0], At(w, side);
    ReceivedKeepsIds(w, side, Took(w, side));
    TookIsGoodExactly(w, side);
    if m.Ack? && m.reply.session == n.peer.progress.session {
      StartIsGood(Took(w, side), side, newSession);
    } else {
      SpareOwnerIsGoodExactly(Took(w, side), newSession, side);
    }
    hide Ids, InStep, AllExact, Handle;
  }

  lemma TimeoutIsGood(w: World, side: bool)
    requires Good(w)
    ensures Good(Step(w, Timeout(side)))
  {
    SideFloods(w, side);
    var n, w1 := At(w, side), Step(w, Timeout(side));
    var p := n.peer.progress;
    hide Ids, InStep, AllExact;
    StepKeepsIds(w, Timeout(side));
    if TimesOut(n.peer) {
      SenderAcknowledges(w.snaps, LaneOf(w, side), Reply(p.session, p.receivedFiles, p.receivedDirs));
    } else {
      assert n.out + [] == n.out;
    }
    ReceiverLeaves(w.snaps, LaneOf(w, !side), At(w1, side).peer);
  }

  lemma NothingInStep(snaps: map<Session, Snapshot>, l: Lane)
    requires l.floods == [] && l.out == [] && l.rcv.progress.session == 0
    ensures InStep(snaps, l)
  {
  }

  lemma ReconnectIsGood(w: World)
    requires Good(w)
    ensures Good(Step(w, Reconnect))
  {
    StepKeepsIds(w, Reconnect);
    hide Ids, AllExact;
    NothingInStep(w.snaps, LaneOf(Step(w, Reconnect), true));
    NothingInStep(w.snaps, LaneOf(Step(w, Reconnect), false));
    hide InStep;
  }

  /** From any state in the invariant, a step keeps the invariant exactly when it is guarded. */
  lemma StepIsGoodExactly(w: World, op: Op)
    requires Good(w) && Allowed(w, op)
    ensures Good(Step(w, op)) <==> Guarded(w, op)
  {
    hide Good;
    match op
    case Start(side, session) => StartIsGood(w, side, session);
    case Scan(side, k, snap) => ScanIsGood(w, side, k, snap);
    case SendBegin(side, k) => SendBeginIsGoodExactly(w, side, k);
    case SendBatch(side, k) => SendBatchIsGood(w, side, k);
    case Deliver(side, newSession) => DeliverIsGoodExactly(w, side, newSession);
    case Timeout(side) => TimeoutIsGood(w, side);
    case Reconnect => ReconnectIsGood(w);
  }

  /** A flood of the current session never cuts into another. */
  lemma CurrentFloodCutsNothing(w: World, side: bool, k: nat)
    requires Ids(w) && k < |At(w, side).floods| && At(w, side).floods[k].Scanned?
    requires At(w, side).floods[k].session == At(w, side).peer.progress.session
    ensures !MidStream(LaneOf(w, side))
  {
    var floods := At(w, side).floods;
    forall f | f in floods && f.Streaming? ensures f.session != floods[k].session {
      var i :| 0 <= i < |floods| && floods[i] == f;
      assert i != k;
    }
  }

  // ---------------------------------------------------------------- runs

  /** Every step that the run takes is guarded where it is taken. */
  predicate GuardedRun(w: World, ops: seq<Op>) {
    ops != [] ==>
      var init, op := ops[..|ops| - 1], ops[|ops| - 1];
      GuardedRun(w, init) && (Allowed(Run(w, init), op) ==> Guarded(Run(w, init), op))
  }

  lemma InitialIsGood(leftReceives: bool, rightReceives: bool)
    ensures Good(Initial(leftReceives, rightReceives))
  {
    InitialIds(leftReceives, rightReceives);
    hide Ids;
  }

  lemma {:induction false} RunIsGood(w: World, ops: seq<Op>)
    requires Good(w) && GuardedRun(w, ops)
    ensures Good(Run(w, ops))
  {
    if ops != [] {
      hide Good, Allowed, Guarded, Step;
      var init, op := ops[..|ops| - 1], ops[|ops| - 1];
      RunIsGood(w, init);
      if Allowed(Run(w, init), op) { StepIsGoodExactly(Run(w, init), op); }
    }
  }

  /** In every run without the two races, over any floods, losses of connection, timeouts and
      session changes: whatever is handed on for reconciliation is exactly, and never less than,
      what the scan for its session found; it is not empty; and no session is handed on twice. */
  lemma FloodSyncIsSafe(leftReceives: bool, rightReceives: bool, ops: seq<Op>, side: bool, i: nat)
    requires GuardedRun(Initial(leftReceives, rightReceives), ops)
    requires i < |At(Run(Initial(leftReceives, rightReceives), ops), side).peer.completed|
    ensures var w := Run(Initial(leftReceives, rightReceives), ops);
      var completed := At(w, side).peer.completed;
      && ExactlyOf(w.snaps, completed[i])
      && completed[i].session in w.owner && w.owner[completed[i].session] == !side
      && forall j :: 0 <= j < |completed| && j != i ==> completed[j].session != completed[i].session
  {
    var w0 := Initial(leftReceives, rightReceives);
    InitialIsGood(leftReceives, rightReceives);
    RunIsGood(w0, ops);
    hide Ids, InStep, ExactlyOf;
    EachSessionCompletesAtMostOnce(leftReceives, rightReceives, ops, side);
  }
}
