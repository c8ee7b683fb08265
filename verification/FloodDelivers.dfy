/** That a flood gets through: of any size, with or without directories, from any state in which
    the other side takes it. */
module FloodDelivers {
  import opened FloodPeer
  import opened FloodSync
  import opened FloodIds
  import opened FloodRace
  import opened FloodFeeds
  import opened FloodStale

  /** Everything sent so far has arrived, and the other side receives and does not insist on a
      flood of its own. */
  predicate Open(w: World, side: bool) {
    At(w, side).out == [] && At(w, !side).peer.receives && !Ignores(At(w, !side).peer)
  }

  /** All of a snapshot. */
  function Whole(session: Session, snap: Snapshot): Acc {
    Acc(session, snap.files, set d | d in snap.dirs, |snap.files|, |snap.dirs|, |snap.files|, |snap.dirs|)
  }

  predicate Announceable(snap: Snapshot) {
    SnapshotOk(snap) && (snap.files != [] || snap.dirs != [])
  }

  // ---------------------------------------------------------------- the sender

  function Begun(side: bool, k: nat, session: Session, snap: Snapshot): seq<Op> {
    [Start(side, session), Scan(side, k, snap), SendBegin(side, k)]
  }

  lemma StartScan(w: World, side: bool, session: Session, snap: Snapshot)
    requires FreshSession(w, session) && Announceable(snap)
    ensures var k, n := |At(w, side).floods|, At(w, side);
      var w2 := Run(w, [Start(side, session), Scan(side, k, snap)]);
      && At(w2, side) == n.(peer := WithSession(n.peer, session), floods := n.floods + [Scanned(session, snap)])
      && At(w2, !side) == At(w, !side) && w2.owner == w.owner[session := side]
  {
    var k, n := |At(w, side).floods|, At(w, side);
    var w1 := Step(w, Start(side, session));
    RanOne(At(w1, side), n.floods, Waiting(session), AfterScan(session, session, snap));
    assert n.out + [] == n.out;
    TwoOps(w, Start(side, session), Scan(side, k, snap));
  }

  lemma BeginningSent(w: World, side: bool, session: Session, snap: Snapshot)
    requires FreshSession(w, session) && Announceable(snap) && At(w, side).out == []
    ensures var k, n := |At(w, side).floods|, At(w, side);
      var w3 := Run(w, Begun(side, k, session, snap));
      && At(w3, side) == Node(WithSession(n.peer, session),
          n.floods + (if snap.files == [] then [] else [Streaming(session, snap, 0)]),
          [Opening(session, snap)] + Directories(session, snap), n.seen)
      && At(w3, !side) == At(w, !side) && w3.owner == w.owner[session := side]
  {
    var k, n := |At(w, side).floods|, At(w, side);
    StartScan(w, side, session, snap);
    var two := [Start(side, session), Scan(side, k, snap)];
    var w2 := Run(w, two);
    RanOne(At(w2, side), n.floods, Scanned(session, snap), AfterBegin(session, snap));
    assert Begun(side, k, session, snap) == two + [SendBegin(side, k)];
    RunConcat(w, two, [SendBegin(side, k)]);
    OneOp(w2, SendBegin(side, k));
  }

  // ---------------------------------------------------------------- the receiver

  lemma OpeningTaken(p: Peer, session: Session, snap: Snapshot)
    requires p.receives && !Ignores(p) && session != 0 && Announceable(snap)
    ensures var p1 := Handle(p, Opening(session, snap));
      Counts(p1, Opened(session, snap)) && p1.completed == p.completed
  {
  }

  lemma DirsTaken(p: Peer, session: Session, snap: Snapshot, tag: Session)
    requires Counts(p, Opened(session, snap))
    ensures var p1, acc := Handle(p, Dirs(snap.dirs, tag)), Followed(session, snap);
      if snap.files == [] then p1.completed == p.completed + [Whole(session, snap)]
      else Counts(p1, acc) && p1.completed == p.completed
  {
    assert {} + (set d | d in snap.dirs) == set d | d in snap.dirs;
    assert snap.files == [] ==> CountDirs(Opened(session, snap), snap.dirs, 0) == Whole(session, snap);
  }

  /** The beginning arrives, and the directories if there are any. */
  lemma HeadArrives(w: World, side: bool, session: Session, snap: Snapshot, next: Session)
    requires At(w, side).out == [Opening(session, snap)] + Directories(session, snap) && Beyond(w, next)
    requires At(w, !side).peer.receives && !Ignores(At(w, !side).peer) && session != 0 && Announceable(snap)
    ensures var w1 := Run(w, [Deliver(!side, next)]);
      && At(w1, side) == At(w, side).(out := Directories(session, snap)) && Beyond(w1, next + 1)
      && Counts(At(w1, !side).peer, Opened(session, snap))
      && At(w1, !side).peer.completed == At(w, !side).peer.completed
  {
    OpeningTaken(At(w, !side).peer, session, snap);
    hide Handle, Counts, Ignores, Step, Allowed, Run, Directories;
    Arrives(w, side, Opening(session, snap), Directories(session, snap), next);
    OneOp(w, Deliver(!side, next));
  }

  lemma DirsArrive(w: World, side: bool, session: Session, snap: Snapshot, next: Session)
    requires At(w, side).out == Directories(session, snap) && snap.dirs != [] && Beyond(w, next)
    requires Counts(At(w, !side).peer, Opened(session, snap))
    ensures var w1, before := Run(w, [Deliver(!side, next)]), At(w, !side).peer.completed;
      && At(w1, side) == At(w, side).(out := []) && Beyond(w1, next + 1)
      && (if snap.files == [] then At(w1, !side).peer.completed == before + [Whole(session, snap)]
          else Counts(At(w1, !side).peer, Followed(session, snap)) && At(w1, !side).peer.completed == before)
  {
    DirsTaken(At(w, !side).peer, session, snap, session);
    assert Directories(session, snap) == [Dirs(snap.dirs, session)] + [];
    hide Handle, Counts, Step, Allowed, Run, Directories;
    Arrives(w, side, Dirs(snap.dirs, session), [], next);
    OneOp(w, Deliver(!side, next));
  }

  function Head(side: bool, snap: Snapshot, next: Session): seq<Op> {
    [Deliver(!side, next)] + if snap.dirs == [] then [] else [Deliver(!side, next + 1)]
  }

  /** After the beginning and the directories what is missing is the files. */
  lemma HeadCounted(w: World, side: bool, session: Session, snap: Snapshot, next: Session)
    requires At(w, side).out == [Opening(session, snap)] + Directories(session, snap) && Beyond(w, next)
    requires At(w, !side).peer.receives && !Ignores(At(w, !side).peer) && session != 0 && Announceable(snap)
    ensures var w1, before := Run(w, Head(side, snap, next)), At(w, !side).peer.completed;
      && At(w1, side) == At(w, side).(out := []) && Beyond(w1, next + 2)
      && (if snap.files == [] then At(w1, !side).peer.completed == before + [Whole(session, snap)]
          else Counts(At(w1, !side).peer, Followed(session, snap)) && At(w1, !side).peer.completed == before)
  {
    HeadArrives(w, side, session, snap, next);
    var w1 := Run(w, [Deliver(!side, next)]);
    RunConcat(w, [Deliver(!side, next)], if snap.dirs == [] then [] else [Deliver(!side, next + 1)]);
    hide Counts, Run, Ignores;
    if snap.dirs == [] {
      RanNothing(w1);
      assert Opened(session, snap) == Followed(session, snap);
    } else {
      DirsArrive(w1, side, session, snap, next + 1);
    }
  }

  // ---------------------------------------------------------------- the whole flood

  /** A task of this flood, or a delivery to the other side. */
  predicate Own(op: Op, side: bool, k: nat, session: Session, snap: Snapshot) {
    match op
    case Start(s, id) => s == side && id == session
    case Scan(s, j, found) => s == side && j == k && found == snap
    case SendBegin(s, j) => s == side && j == k
    case SendBatch(s, j) => s == side && j == k
    case Deliver(s, _) => s == !side
    case _ => false
  }

  lemma {:induction false} RoundsOwn(side: bool, k: nat, session: Session, snap: Snapshot, next: Session, count: nat)
    ensures forall op :: op in Rounds(side, k, next, count) ==> Own(op, side, k, session, snap)
    decreases count
  {
    if count > 0 { RoundsOwn(side, k, session, snap, next + 1, count - 1); }
  }

  /** The schedule, with so many batches. */
  function Carried(side: bool, k: nat, session: Session, snap: Snapshot, count: nat): seq<Op> {
    Begun(side, k, session, snap) + Head(side, snap, session + 1)
    + if snap.files == [] then [] else Rounds(side, k, session + 3, count)
  }

  lemma CarriedOwn(side: bool, k: nat, session: Session, snap: Snapshot, count: nat)
    ensures forall op :: op in Carried(side, k, session, snap, count) ==> Own(op, side, k, session, snap)
  {
    RoundsOwn(side, k, session, snap, session + 3, count);
    hide Rounds;
  }

  lemma CarriedThrough(w: World, side: bool, session: Session, snap: Snapshot) returns (count: nat)
    requires Open(w, side) && Beyond(w, session) && Announceable(snap)
    ensures At(Run(w, Carried(side, |At(w, side).floods|, session, snap, count)), !side).peer.completed
         == At(w, !side).peer.completed + [Whole(session, snap)]
  {
    var k := |At(w, side).floods|;
    var begun, head := Begun(side, k, session, snap), Head(side, snap, session + 1);
    BeginningSent(w, side, session, snap);
    var w1 := Run(w, begun);
    hide Run, Ignores, Begun, Head, SnapshotOk, Counts, Directories;
    HeadCounted(w1, side, session, snap, session + 1);
    var w2 := Run(w1, head);
    RunConcat(w, begun, head);
    if snap.files == [] {
      count := 0;
      assert begun + head + [] == begun + head;
    } else {
      hide Part, FullAfter;
      count := FullInTime(Followed(session, snap), snap.files, 0);
      Fills(w2, side, k, session, snap, 0, Followed(session, snap), session + 3, count);
      AllOfIt(session, snap, count);
      RunConcat(w, begun + head, Rounds(side, k, session + 3, count));
    }
  }

  /** Whatever was done before, a flood that is asked for in such a state gets through by its own
      tasks: it is handed on once, whole, under its own session. */
  lemma FloodDelivers(w: World, side: bool, session: Session, snap: Snapshot) returns (ops: seq<Op>)
    requires Open(w, side) && Beyond(w, session) && Announceable(snap)
    ensures At(Run(w, ops), !side).peer.completed == At(w, !side).peer.completed + [Whole(session, snap)]
    ensures forall op :: op in ops ==> Own(op, side, |At(w, side).floods|, session, snap)
  {
    hide Run, Carried, Own, Beyond, Open;
    var count := CarriedThrough(w, side, session, snap);
    ops := Carried(side, |At(w, side).floods|, session, snap, count);
    CarriedOwn(side, |At(w, side).floods|, session, snap, count);
  }

  /** The tie-break: the offer side's flood gets through whatever flood of its own the other side is
      in the middle of. */
  lemma OfferSideGetsThrough(w: World, side: bool, session: Session, snap: Snapshot) returns (ops: seq<Op>)
    requires At(w, side).out == [] && At(w, !side).peer.receives && !At(w, !side).peer.offerSide
    requires Beyond(w, session) && Announceable(snap)
    ensures At(Run(w, ops), !side).peer.completed == At(w, !side).peer.completed + [Whole(session, snap)]
  {
    hide Run;
    ops := FloodDelivers(w, side, session, snap);
  }

  lemma AllOfIt(session: Session, snap: Snapshot, count: nat)
    requires FullAfter(Followed(session, snap), snap.files, 0, count)
    ensures CountFiles(Followed(session, snap), Part(snap.files, 0, count)) == Whole(session, snap)
  {
    PartOfMore(snap.files, 0, count);
    assert Part(snap.files, 0, count) == snap.files;
  }

  /** Batches hold fifty files, except that the last may hold fewer. */
  lemma BatchesOfFifty(snap: Snapshot, n: nat)
    ensures Unsent(snap, n) <==> 50 * n < |snap.files|
    ensures Batch(snap.files, n) ==
      if 50 * n >= |snap.files| then [] else if 50 * n + 50 >= |snap.files| then snap.files[50 * n..]
      else snap.files[50 * n..50 * n + 50]
  {
  }

  /** An announcement of nothing is complete at once. */
  lemma NothingAnnounced(p: Peer, session: Session)
    requires !Ignores(p)
    ensures var q := Handle(p, Begin(session, 0, 0));
      q.acc.None? && q.completed == p.completed + [Whole(session, Snapshot([], []))]
  {
    assert (set d | d in Snapshot([], []).dirs) == {};
  }

  // ---------------------------------------------------------------- when a flood goes on

  /** A flood is dropped at its scan exactly if its session is over by then or there is nothing to
      announce; and a batch is sent exactly if its session is not over and there is one. */
  lemma FloodGoesOnExactly(w: World, side: bool, k: nat, snap: Snapshot)
    requires k < |At(w, side).floods|
    ensures var n, f := At(w, side), At(w, side).floods[k];
      && (Allowed(w, Scan(side, k, snap)) ==>
            var n1 := At(Step(w, Scan(side, k, snap)), side);
            var goesOn := f.session == n.peer.progress.session && (snap.files != [] || snap.dirs != []);
            n1 == n.(floods := n.floods[..k] + (if goesOn then [Scanned(f.session, snap)] else []) + n.floods[k + 1..]))
      && (Allowed(w, SendBatch(side, k)) ==>
            var n1 := At(Step(w, SendBatch(side, k)), side);
            var goesOn := f.session == n.peer.progress.session && 50 * f.next < |f.snap.files|;
            n1.out == n.out + if goesOn then [Files(Batch(f.snap.files, f.next), f.session)] else [])
  {
    assert At(w, side).out + [] == At(w, side).out;
  }
}
