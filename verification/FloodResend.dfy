/** The first race from any state: a flood announced again while the offer side is in the middle
    of counting it completes an accumulator without the last files. */
module FloodResend {
  import opened Wrappers
  import opened FloodPeer
  import opened FloodSync
  import opened FloodIds
  import opened FloodSafety
  import opened FloodRuns
  import opened FloodRace
  import opened FloodFeeds
  import opened PathUtils
  import opened Reconciliation
  import SyncPlan

  // ---------------------------------------------------------------- the second announcement

  /** The answer side asks for a flood, scans what it scanned before, and its announcement
      arrives. */
  function Announce(k: nat, session: Session, snap: Snapshot): seq<Op> {
    [Start(false, session), Scan(false, k, snap)] + [SendBegin(false, k), Deliver(true, session + 1)]
    + if snap.dirs == [] then [] else [Deliver(true, session + 2)]
  }

  function Reannounced(acc: Acc, snap: Snapshot): Acc {
    if snap.dirs == [] then acc else CountDirs(acc, snap.dirs, 0)
  }

  /** Scanned anew, and about to be begun. */
  lemma ScannedAnew(w: World, session: Session, snap: Snapshot)
    requires Beyond(w, session) && SnapshotOk(snap) && snap.files != []
    ensures var k := |w.right.floods|;
      var w1 := Run(w, [Start(false, session), Scan(false, k, snap)]);
      && w1.left == w.left && Beyond(w1, session + 1) && w1.right.floods == w.right.floods + [Scanned(session, snap)]
      && w1.right.out == w.right.out && w1.right.peer.progress.session == session
  {
    hide SnapshotOk;
    var k := |w.right.floods|;
    var w0 := Step(w, Start(false, session));
    TwoOps(w, Start(false, session), Scan(false, k, snap));
  }

  lemma Begun(w: World, earlier: seq<Flood>, session: Session, snap: Snapshot, acc: Acc)
    requires w.right.floods == earlier + [Scanned(session, snap)] && w.right.out == [] && snap.files != []
    requires w.right.peer.progress.session == session && Beyond(w, session + 1)
    requires Counts(w.left.peer, acc) && w.left.peer.offerSide
    ensures var w1 := Run(w, [SendBegin(false, |earlier|), Deliver(true, session + 1)]);
      && w1.left.peer == w.left.peer && Beyond(w1, session + 2)
      && w1.right.floods == earlier + [Streaming(session, snap, 0)] && w1.right.peer == w.right.peer
      && w1.right.out == if snap.dirs == [] then [] else [Dirs(snap.dirs, session)]
  {
    RanOne(w.right, earlier, Scanned(session, snap), AfterBegin(session, snap));
    var w0 := Step(w, SendBegin(false, |earlier|));
    var rest := if snap.dirs == [] then [] else [Dirs(snap.dirs, session)];
    assert w0.right.out == [Opening(session, snap)] + rest;
    hide Handle;
    TwoOps(w, SendBegin(false, |earlier|), Deliver(true, session + 1));
  }

  lemma AnnouncedAgain(w: World, session: Session, snap: Snapshot, acc: Acc)
    requires Beyond(w, session) && SnapshotOk(snap) && snap.files != [] && w.right.out == []
    requires Counts(w.left.peer, acc) && w.left.peer.offerSide && acc.receivedFiles < acc.expectedFiles
    ensures var k := |w.right.floods|;
      var w1 := Run(w, Announce(k, session, snap));
      && Feeding(w1, false, k, session, snap, 0, Reannounced(acc, snap)) && Beyond(w1, session + 3)
      && w1.left.peer.completed == w.left.peer.completed
  {
    hide SnapshotOk, Handle;
    var k := |w.right.floods|;
    var a, b := [Start(false, session), Scan(false, k, snap)], [SendBegin(false, k), Deliver(true, session + 1)];
    var c := if snap.dirs == [] then [] else [Deliver(true, session + 2)];
    ScannedAnew(w, session, snap);
    var w1 := Run(w, a);
    Begun(w1, w.right.floods, session, snap, acc);
    var w2 := Run(w1, b);
    RunConcat(w, a, b);
    RunConcat(w, a + b, c);
    hide Run, Step, Allowed, Unsent;
    if snap.dirs == [] {
      RanNothing(w2);
    } else {
      DirsCounted(w.left.peer, acc, snap.dirs, session);
      assert w2.right.out == [Dirs(snap.dirs, session)] + [];
      Arrives(w2, false, Dirs(snap.dirs, session), [], session + 2);
      OneOp(w2, Deliver(true, session + 2));
    }
  }

  // ---------------------------------------------------------------- from any state

  /** The accumulator that results: what was counted of the flood and its first batches again, as
      many files as were expected or a few more, but not the last one. */
  lemma ReannouncementCompletes(w: World, session: Session, acc: Acc, snap: Snapshot) returns (ops: seq<Op>, end: nat)
    requires Counts(w.left.peer, acc) && w.left.peer.offerSide && w.right.out == [] && Beyond(w, session)
    requires SnapshotOk(snap) && acc.receivedDirs >= acc.expectedDirs
    requires 0 < acc.receivedFiles < acc.expectedFiles == |snap.files|
    requires acc.receivedFiles % FILE_UPDATE_BATCH_SIZE == 0
    ensures end < |snap.files| <= acc.receivedFiles + end
    ensures Run(w, ops).left.peer.completed
         == w.left.peer.completed + [CountFiles(Reannounced(acc, snap), snap.files[..end])]
  {
    var k, again := |w.right.floods|, Reannounced(acc, snap);
    assert Offset(snap.files, 0) == 0;
    hide SnapshotOk, Run, Counts, Beyond;
    var count := FullInTime(again, snap.files, 0);
    end := Offset(snap.files, count);
    var first := Announce(k, session, snap);
    ops := first + Rounds(false, k, session + 3, count);
    AnnouncedAgain(w, session, snap, acc);
    RunConcat(w, first, Rounds(false, k, session + 3, count));
    Fills(Run(w, first), false, k, session, snap, 0, again, session + 3, count);
    assert Part(snap.files, 0, count) == snap.files[..end];
  }

  /** From every state in the invariant in which the offer side has counted some of a flood's files but
      not all, and everything sent has arrived: when the other side announces the same state again,
      an accumulator without its last file is handed on, and the offer side deletes that file. */
  lemma ReannouncementDeletesFiles(w: World, session: Session, local: seq<FileInfo>, history: SyncPlan.History,
                                   f: FileInfo) returns (ops: seq<Op>)
    requires Good(w) && Counting(w.left.peer) && w.left.peer.offerSide && w.right.out == [] && Beyond(w, session)
    requires 0 < w.left.peer.acc.value.receivedFiles < w.left.peer.acc.value.expectedFiles
    requires var s := w.left.peer.acc.value.session;
      s in w.snaps && w.snaps[s].files != [] && LastFile(w.snaps[s].files, f) && f in local
    ensures var before, after := w.left.peer.completed, Run(w, ops).left.peer.completed;
      && |after| == |before| + 1 && after[..|before|] == before
      && f.path in FilesDeleted(local, after[|before|].files, history, SyncPlan.OneWay)
      && (history(f.path) == Some(f.hash) ==>
        f.path in FilesDeleted(local, after[|before|].files, history, SyncPlan.BiDirectional))
  {
    var acc := w.left.peer.acc.value;
    var snap := w.snaps[acc.session];
    SnapsAreOk(w);
    var end: nat;
    hide Run, FilesDeleted, Good, Counting, SnapshotOk, Beyond, Counts;
    ops, end := ReannouncementCompletes(w, session, acc, snap);
    MissingIsDeleted(local, CountFiles(Reannounced(acc, snap), snap.files[..end]), history, f);
  }

  /** The last of a list of files, its path unlike all others. */
  predicate LastFile(files: seq<FileInfo>, f: FileInfo)
    requires files != []
  {
    f == files[|files| - 1] && forall g :: g in files[..|files| - 1] ==> Key(g.path) != Key(f.path)
  }
}
