/** The second race from any state: a beginning whose session is over cuts into a flood, and the
    rest of that flood fills the accumulator it starts. */
module FloodStale {
  import opened Wrappers
  import opened FloodPeer
  import opened FloodSync
  import opened FloodIds
  import opened FloodRuns
  import opened FloodRace
  import opened FloodFeeds
  import opened PathUtils
  import opened Reconciliation
  import SyncPlan

  /** Flood m of the current session still has files to send, flood k is one whose session is over
      and whose beginning is posted, and everything sent has arrived at a side that will take it. */
  predicate StaleAhead(w: World, side: bool, m: nat, k: nat) {
    var s, floods := At(w, side), At(w, side).floods;
    && m < |floods| && floods[m].Streaming? && floods[m].session == s.peer.progress.session
    && Unsent(floods[m].snap, floods[m].next)
    && k < |floods| && floods[k].Scanned? && floods[k].session != s.peer.progress.session
    && s.out == [] && At(w, !side).peer.receives && !Ignores(At(w, !side).peer)
  }

  /** The accumulator that a stale beginning and its directories start. */
  function Followed(session: Session, early: Snapshot): Acc {
    Acc(session, [], set d | d in early.dirs, |early.files|, |early.dirs|, 0, |early.dirs|)
  }

  function Opened(session: Session, early: Snapshot): Acc {
    Acc(session, [], {}, |early.files|, |early.dirs|, 0, 0)
  }

  lemma BeginTaken(p: Peer, session: Session, early: Snapshot)
    requires p.receives && !Ignores(p) && session != 0 && early.files != []
    ensures var p1 := Handle(p, Opening(session, early));
        Counts(p1, Opened(session, early)) && p1.completed == p.completed
  {
  }

  /** The stale beginning is sent and arrives. */
  function Cut(side: bool, k: nat, early: Snapshot, next: Session): seq<Op> {
    [SendBegin(side, k), Deliver(!side, next)] + if early.dirs == [] then [] else [Deliver(!side, next + 1)]
  }

  lemma BeginSent(w: World, side: bool, m: nat, k: nat)
    requires StaleAhead(w, side, m, k) && At(w, side).floods[k].snap.files != []
    ensures Allowed(w, SendBegin(side, k)) && !Guarded(w, SendBegin(side, k))
    ensures var w1, s := Step(w, SendBegin(side, k)), At(w, side);
      var over, early := s.floods[k].session, s.floods[k].snap;
      && w1.owner == w.owner && At(w1, !side) == At(w, !side)
      && At(w1, side) == s.(out := [Opening(over, early)] + (if early.dirs == [] then [] else [Dirs(early.dirs, over)]),
           floods := s.floods[k := Streaming(over, early, 0)])
  {
    var s := At(w, side);
    RanOn(s, k, AfterBegin(s.floods[k].session, s.floods[k].snap));
    assert s.floods[m] in LaneOf(w, side).floods;
    hide Ran;
  }

  function Directories(over: Session, early: Snapshot): seq<Msg> {
    if early.dirs == [] then [] else [Dirs(early.dirs, over)]
  }

  lemma BeginArrives(w: World, side: bool, m: nat, k: nat, next: Session)
    requires StaleAhead(w, side, m, k) && Beyond(w, next)
    requires At(w, side).floods[k].session != 0 && At(w, side).floods[k].snap.files != []
    ensures var s, over, early := At(w, side), At(w, side).floods[k].session, At(w, side).floods[k].snap;
      var w1 := Run(w, [SendBegin(side, k), Deliver(!side, next)]);
      && At(w1, side) == s.(out := Directories(over, early), floods := s.floods[k := Streaming(over, early, 0)])
      && Counts(At(w1, !side).peer, Opened(over, early))
      && At(w1, !side).peer.completed == At(w, !side).peer.completed && Beyond(w1, next + 1)
  {
    var over, early := At(w, side).floods[k].session, At(w, side).floods[k].snap;
    BeginSent(w, side, m, k);
    var w0 := Step(w, SendBegin(side, k));
    BeginTaken(At(w, !side).peer, over, early);
    hide Handle, Step, Allowed, Counts, Ignores, Guarded, Unsent, Run;
    Arrives(w0, side, Opening(over, early), Directories(over, early), next);
    TwoOps(w, SendBegin(side, k), Deliver(!side, next));
  }

  lemma CutIn(w: World, side: bool, m: nat, k: nat, next: Session)
    requires StaleAhead(w, side, m, k) && Beyond(w, next)
    requires At(w, side).floods[k].session != 0 && At(w, side).floods[k].snap.files != []
    ensures var f, over, early := At(w, side).floods[m], At(w, side).floods[k].session, At(w, side).floods[k].snap;
      var w1 := Run(w, Cut(side, k, early, next));
      && Feeding(w1, side, m, f.session, f.snap, f.next, Followed(over, early)) && Beyond(w1, next + 2)
      && At(w1, !side).peer.completed == At(w, !side).peer.completed
  {
    var over, early := At(w, side).floods[k].session, At(w, side).floods[k].snap;
    var first := [SendBegin(side, k), Deliver(!side, next)];
    BeginArrives(w, side, m, k, next);
    var w1 := Run(w, first);
    RunConcat(w, first, if early.dirs == [] then [] else [Deliver(!side, next + 1)]);
    hide Handle, Step, Allowed, Run, Ignores, Unsent;
    if early.dirs == [] {
      RanNothing(w1);
      assert Opened(over, early) == Followed(over, early);
    } else {
      DirsCounted(At(w1, !side).peer, Opened(over, early), early.dirs, over);
      assert Directories(over, early) == [Dirs(early.dirs, over)] + [];
      Arrives(w1, side, Dirs(early.dirs, over), [], next + 1);
      OneOp(w1, Deliver(!side, next + 1));
      assert {} + (set d | d in early.dirs) == set d | d in early.dirs;
    }
  }

  /** What is handed on: files of the rest of the flood, under the session that is over. */
  lemma StaleBeginCompletes(w: World, side: bool, m: nat, k: nat, next: Session) returns (ops: seq<Op>, count: nat)
    requires StaleAhead(w, side, m, k) && Beyond(w, next) && At(w, side).floods[k].session != 0
    requires var flood, early := At(w, side).floods[m], At(w, side).floods[k].snap;
      && SnapshotOk(flood.snap) && 0 < |early.files| <= |flood.snap.files| - Offset(flood.snap.files, flood.next)
    ensures var flood, stale := At(w, side).floods[m], At(w, side).floods[k];
      At(Run(w, ops), !side).peer.completed == At(w, !side).peer.completed
        + [CountFiles(Followed(stale.session, stale.snap), Part(flood.snap.files, flood.next, count))]
  {
    var flood, over, early := At(w, side).floods[m], At(w, side).floods[k].session, At(w, side).floods[k].snap;
    var acc := Followed(over, early);
    hide SnapshotOk, Run, Beyond, Unsent, Feeding, Batch, Part, CountFiles, FullAfter;
    count := FullInTime(acc, flood.snap.files, flood.next);
    ops := Cut(side, k, early, next) + Rounds(side, m, next + 2, count);
    CutIn(w, side, m, k, next);
    RunConcat(w, Cut(side, k, early, next), Rounds(side, m, next + 2, count));
    Fills(Run(w, Cut(side, k, early, next)), side, m, flood.session, flood.snap, flood.next, acc, next + 2, count);
  }

  /** From every state in the invariant in which a flood is in the middle of being sent, one whose
      session is over is about to begin with no more files than are left of the first, and everything
      sent has arrived: the rest of the first flood is handed on as the second, and the other side
      deletes its files that are not in that rest. */
  lemma StaleBeginAlwaysDeletes(w: World, side: bool, m: nat, k: nat, next: Session, local: seq<FileInfo>,
                                history: SyncPlan.History, f: FileInfo) returns (ops: seq<Op>)
    requires Good(w) && StaleAhead(w, side, m, k) && Beyond(w, next)
    requires var flood, early := At(w, side).floods[m], At(w, side).floods[k].snap;
      var rest := flood.snap.files[Offset(flood.snap.files, flood.next)..];
      && 0 < |early.files| <= |rest|
      && f in local && forall g :: g in rest ==> Key(g.path) != Key(f.path)
    ensures var before, after := At(w, !side).peer.completed, At(Run(w, ops), !side).peer.completed;
      && |after| == |before| + 1 && after[..|before|] == before
      && after[|before|].session == At(w, side).floods[k].session
      && f.path in FilesDeleted(local, after[|before|].files, history, SyncPlan.OneWay)
      && (history(f.path) == Some(f.hash) ==>
        f.path in FilesDeleted(local, after[|before|].files, history, SyncPlan.BiDirectional))
  {
    var flood, stale := At(w, side).floods[m], At(w, side).floods[k];
    var files := flood.snap.files;
    BothFloods(w, side, m, k);
    var count: nat;
    hide Good, SnapshotOk, Run, StaleAhead, Beyond, FilesDeleted;
    ops, count := StaleBeginCompletes(w, side, m, k, next);
    var full := CountFiles(Followed(stale.session, stale.snap), Part(files, flood.next, count));
    NotAmong(full.files, files[Offset(files, flood.next)..], f);
    MissingIsDeleted(local, full, history, f);
  }

  lemma BothFloods(w: World, side: bool, m: nat, k: nat)
    requires Good(w) && m < |At(w, side).floods| && k < |At(w, side).floods|
    requires At(w, side).floods[m].Streaming?
    ensures SnapshotOk(At(w, side).floods[m].snap) && At(w, side).floods[k].session != 0
  {
    SideFloods(w, side);
    SnapsAreOk(w);
    assert At(w, side).floods[m] in At(w, side).floods && At(w, side).floods[k] in At(w, side).floods;
  }
}
