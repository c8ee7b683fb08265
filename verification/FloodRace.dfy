/** What reconciliation does with a completed flood, and the two races that make it delete files
    the sender has. */
module FloodRace {
  import opened Wrappers
  import opened FloodPeer
  import opened FloodSync
  import opened FloodIds
  import opened FloodSafety
  import opened FloodRuns
  import opened PathUtils
  import opened Reconciliation
  import DirSync
  import SyncPlan

  // ---------------------------------------------------------------- reconciliation

  /** The tree after the whole reconciliation with an accumulated state, its directories in the
      order their set is iterated. */
  function TreeAfter(d: DirSync.Dirs, local: seq<FileInfo>, localDirs: seq<Path>, acc: Acc, remoteDirs: seq<Path>,
                     order: seq<Path>, history: SyncPlan.History, mode: SyncPlan.Mode): DirSync.Tree
  {
    DirSync.CreateAll(Cleared(d, FilesDeleted(local, acc.files, history, mode), order, mode),
                      SyncPlan.Missing(remoteDirs, SyncPlan.DirKeys(localDirs))).tree
  }

  lemma SameDirKeys(dirs: seq<Path>, other: seq<Path>, same: set<Path>)
    requires same == (set d | d in dirs) && same == (set d | d in other)
    ensures SyncPlan.DirKeys(dirs) == SyncPlan.DirKeys(other)
  {
    assert forall d :: d in dirs <==> d in same;
    assert forall d :: d in other <==> d in same;
  }

  /** In every run without the two races, the reconciliation that a completed flood triggers
      takes no file and no directory that its snapshot has from the local tree, from any local
      state: in two-way mode always, in one-way mode if the snapshot is rooted, as scanned ones
      are. */
  lemma ReconciliationKeepsSnapshot(leftReceives: bool, rightReceives: bool, ops: seq<Op>, side: bool, i: nat,
                                    d: DirSync.Dirs, local: seq<FileInfo>, localDirs: seq<Path>,
                                    remoteDirs: seq<Path>, order: seq<Path>, history: SyncPlan.History)
    requires GuardedRun(Initial(leftReceives, rightReceives), ops)
    requires i < |At(Run(Initial(leftReceives, rightReceives), ops), side).peer.completed|
    requires At(Run(Initial(leftReceives, rightReceives), ops), side).peer.completed[i].dirs == set e | e in remoteDirs
    requires AsScanned(d, local, localDirs) && OrderOf(order, DirsDeleted(localDirs, remoteDirs))
    ensures var w := Run(Initial(leftReceives, rightReceives), ops);
      var acc := At(w, side).peer.completed[i];
      && acc.session in w.snaps
      && var snap := w.snaps[acc.session];
      && Keeps(snap, d.tree, TreeAfter(d, local, localDirs, acc, remoteDirs, order, history, SyncPlan.BiDirectional))
      && (KeyRooted(snap) ==>
            Keeps(snap, d.tree, TreeAfter(d, local, localDirs, acc, remoteDirs, order, history, SyncPlan.OneWay)))
  {
    FloodSyncIsSafe(leftReceives, rightReceives, ops, side, i);
    var w := Run(Initial(leftReceives, rightReceives), ops);
    hide Run, GuardedRun;
    var acc := At(w, side).peer.completed[i];
    ExactSnapshotIsKept(d, local, localDirs, acc, remoteDirs, order, w.snaps[acc.session], history);
  }

  lemma ExactSnapshotIsKept(d: DirSync.Dirs, local: seq<FileInfo>, localDirs: seq<Path>, acc: Acc,
                            remoteDirs: seq<Path>, order: seq<Path>, snap: Snapshot, history: SyncPlan.History)
    requires acc.files == snap.files && acc.dirs == (set e | e in snap.dirs) && acc.dirs == (set e | e in remoteDirs)
    requires AsScanned(d, local, localDirs) && OrderOf(order, DirsDeleted(localDirs, remoteDirs))
    ensures Keeps(snap, d.tree, TreeAfter(d, local, localDirs, acc, remoteDirs, order, history, SyncPlan.BiDirectional))
    ensures KeyRooted(snap) ==>
      Keeps(snap, d.tree, TreeAfter(d, local, localDirs, acc, remoteDirs, order, history, SyncPlan.OneWay))
  {
    SameDirKeys(remoteDirs, snap.dirs, acc.dirs);
    var two := Cleared(d, FilesDeleted(local, snap.files, history, SyncPlan.BiDirectional), order,
      SyncPlan.BiDirectional);
    var one := Cleared(d, FilesDeleted(local, snap.files, history, SyncPlan.OneWay), order, SyncPlan.OneWay);
    var toCreate := SyncPlan.Missing(remoteDirs, SyncPlan.DirKeys(localDirs));
    TwoWayKeeps(d, local, localDirs, order, snap, history);
    CreationKeeps(snap, d.tree, two, toCreate);
    if KeyRooted(snap) {
      OneWayKeeps(d, local, localDirs, order, snap, history);
      CreationKeeps(snap, d.tree, one, toCreate);
    }
  }

  /** A file that both sides have, but the accumulator does not, is deleted. */
  lemma MissingIsDeleted(local: seq<FileInfo>, acc: Acc, history: SyncPlan.History, f: FileInfo)
    requires f in local && Key(f.path) !in SyncPlan.Keys(acc.files)
    ensures f.path in FilesDeleted(local, acc.files, history, SyncPlan.OneWay)
    ensures history(f.path) == Some(f.hash) ==>
        f.path in FilesDeleted(local, acc.files, history, SyncPlan.BiDirectional)
  {
    SyncPlan.DeletesExactly(local, SyncPlan.Keys(acc.files), history, SyncPlan.OneWay, f.path);
    SyncPlan.DeletesExactly(local, SyncPlan.Keys(acc.files), history, SyncPlan.BiDirectional, f.path);
  }

  // ---------------------------------------------------------------- the races

  lemma OneStep(w: World, ops: seq<Op>, op: Op)
    requires Allowed(Run(w, ops), op)
    ensures Run(w, ops + [op]) == Step(Run(w, ops), op)
  {
    assert (ops + [op])[..|ops|] == ops;
  }

  /** Between one and two batches of files, and no directories. */
  predicate TwoBatches(snap: Snapshot) {
    SnapshotOk(snap) && FILE_UPDATE_BATCH_SIZE < |snap.files| <= 2 * FILE_UPDATE_BATCH_SIZE && snap.dirs == []
  }

  function Idle(offerSide: bool): Node {
    Node(Peer(offerSide, true, IDLE, 0, None, []), [], [], NOWHERE)
  }

  function Opening(session: Session, snap: Snapshot): Msg {
    Begin(session, |snap.files|, |snap.dirs|)
  }

  function BatchOf(session: Session, snap: Snapshot, n: nat): Msg {
    Files(Batch(snap.files, n), session)
  }

  lemma RanOne(n: Node, earlier: seq<Flood>, f: Flood, task: Task)
    requires n.floods == earlier + [f]
    ensures Ran(n, |earlier|, task) ==
      n.(out := n.out + task.sent, floods := earlier + if task.flood.Some? then [task.flood.value] else [])
  {
    assert n.floods[..|earlier|] == earlier && n.floods[|earlier| + 1..] == [];
  }

  /** One side asks for a flood, scans, begins it and sends one batch. */
  function FloodOps(side: bool, k: nat, session: Session, snap: Snapshot): seq<Op> {
    [Start(side, session), Scan(side, k, snap), SendBegin(side, k), SendBatch(side, k)]
  }

  lemma ScanStep(w: World, side: bool, earlier: seq<Flood>, session: Session, snap: Snapshot)
    requires At(w, side).floods == earlier + [Waiting(session)] && At(w, side).peer.progress.session == session
    requires SnapshotOk(snap) && snap.files != []
    ensures Allowed(w, Scan(side, |earlier|, snap))
    ensures Step(w, Scan(side, |earlier|, snap))
         == With(w, side, At(w, side).(floods := earlier + [Scanned(session, snap)]))
              .(snaps := w.snaps[session := snap])
  {
    RanOne(At(w, side), earlier, Waiting(session), AfterScan(session, session, snap));
    assert At(w, side).out + [] == At(w, side).out;
  }

  lemma BeginStep(w: World, side: bool, earlier: seq<Flood>, session: Session, snap: Snapshot)
    requires At(w, side).floods == earlier + [Scanned(session, snap)] && snap.files != [] && snap.dirs == []
    ensures Allowed(w, SendBegin(side, |earlier|))
    ensures Step(w, SendBegin(side, |earlier|))
         == With(w, side, At(w, side).(floods := earlier + [Streaming(session, snap, 0)],
           out := At(w, side).out + [Opening(session, snap)]))
  {
    RanOne(At(w, side), earlier, Scanned(session, snap), AfterBegin(session, snap));
    assert [Opening(session, snap)] + [] == [Opening(session, snap)];
  }

  lemma BatchStep(w: World, side: bool, earlier: seq<Flood>, session: Session, snap: Snapshot, n: nat)
    requires At(w, side).floods == earlier + [Streaming(session, snap, n)]
        && At(w, side).peer.progress.session == session && Unsent(snap, n)
    ensures Allowed(w, SendBatch(side, |earlier|))
    ensures Step(w, SendBatch(side, |earlier|))
         == With(w, side, At(w, side).(floods := earlier + [Streaming(session, snap, n + 1)],
           out := At(w, side).out + [BatchOf(session, snap, n)]))
  {
    RanOne(At(w, side), earlier, Streaming(session, snap, n), AfterBatch(session, session, snap, n));
  }

  lemma FourSteps(w: World, ops: seq<Op>, a: Op, b: Op, c: Op, d: Op, w1: World, w2: World, w3: World, w4: World)
    requires Allowed(Run(w, ops), a) && w1 == Step(Run(w, ops), a)
    requires Allowed(w1, b) && w2 == Step(w1, b)
    requires Allowed(w2, c) && w3 == Step(w2, c)
    requires Allowed(w3, d) && w4 == Step(w3, d)
    ensures Run(w, ops + [a, b, c, d]) == w4
  {
    hide Step, Allowed;
    OneStep(w, ops, a);
    OneStep(w, ops + [a], b);
    OneStep(w, ops + [a] + [b], c);
    OneStep(w, ops + [a] + [b] + [c], d);
    assert ops + [a] + [b] + [c] + [d] == ops + [a, b, c, d];
  }

  function AfterFlood(w: World, side: bool, session: Session, snap: Snapshot): World {
    var n := At(w, side);
    With(w, side, n.(peer := WithSession(n.peer, session), floods := n.floods + [Streaming(session, snap, 1)],
                     out := n.out + [Opening(session, snap), BatchOf(session, snap, 0)]))
      .(owner := w.owner[session := side], snaps := w.snaps[session := snap])
  }

  lemma FloodSends(w: World, ops: seq<Op>, side: bool, session: Session, snap: Snapshot)
    requires FreshSession(Run(w, ops), session) && SnapshotOk(snap) && snap.files != [] && snap.dirs == []
    ensures Run(w, ops + FloodOps(side, |At(Run(w, ops), side).floods|, session, snap))
        == AfterFlood(Run(w, ops), side, session, snap)
  {
    var w0 := Run(w, ops);
    hide Run, SnapshotOk;
    var k := |At(w0, side).floods|;
    StartAndScan(w0, side, session, snap);
    var w1 := Step(w0, Start(side, session));
    var w2 := Step(w1, Scan(side, k, snap));
    BeginAndBatch(w2, side, At(w0, side).floods, session, snap);
    hide Allowed, Step;
    var w3 := Step(w2, SendBegin(side, k));
    FourSteps(w, ops, Start(side, session), Scan(side, k, snap), SendBegin(side, k), SendBatch(side, k), w1, w2, w3,
      Step(w3, SendBatch(side, k)));
  }

  lemma StartAndScan(w: World, side: bool, session: Session, snap: Snapshot)
    requires FreshSession(w, session) && SnapshotOk(snap) && snap.files != []
    ensures var n := At(w, side); var w1, scan := Step(w, Start(side, session)), Scan(side, |n.floods|, snap);
      && Allowed(w1, scan)
      && Step(w1, scan) == With(w, side, n.(peer := WithSession(n.peer, session),
           floods := n.floods + [Scanned(session, snap)])).(owner := w.owner[session := side],
             snaps := w.snaps[session := snap])
  {
    hide SnapshotOk;
    ScanStep(Step(w, Start(side, session)), side, At(w, side).floods, session, snap);
  }

  lemma BeginAndBatch(w: World, side: bool, earlier: seq<Flood>, session: Session, snap: Snapshot)
    requires At(w, side).floods == earlier + [Scanned(session, snap)] && snap.files != [] && snap.dirs == []
    requires At(w, side).peer.progress.session == session
    ensures Allowed(w, SendBegin(side, |earlier|))
    ensures var n, w1 := At(w, side), Step(w, SendBegin(side, |earlier|));
      && Allowed(w1, SendBatch(side, |earlier|))
      && Step(w1, SendBatch(side, |earlier|)) == With(w, side, n.(floods := earlier + [Streaming(session, snap, 1)],
           out := n.out + [Opening(session, snap), BatchOf(session, snap, 0)]))
  {
    hide Batch;
    BeginStep(w, side, earlier, session, snap);
    var w1 := Step(w, SendBegin(side, |earlier|));
    BatchStep(w1, side, earlier, session, snap, 0);
    assert At(w, side).out + [Opening(session, snap)] + [BatchOf(session, snap, 0)]
      == At(w, side).out + [Opening(session, snap), BatchOf(session, snap, 0)];
  }

  lemma DeliverStep(w: World, side: bool, m: Msg, rest: seq<Msg>, session: Session)
    requires At(w, !side).out == [m] + rest && !m.Ack? && FreshSession(w, session)
    ensures Allowed(w, Deliver(side, session))
    ensures var n, w1 := At(w, side), Step(w, Deliver(side, session));
      && At(w1, side).peer == Handle(n.peer, m) && At(w1, !side).out == rest && w1.owner == w.owner[session := side]
  {
  }

  /** Four messages, none of them an acknowledgement, one after the other. */
  lemma FourDelivered(w: World, ops: seq<Op>, side: bool, a: Msg, b: Msg, c: Msg, d: Msg, session: Session)
    requires At(Run(w, ops), !side).out == [a, b, c, d] && !a.Ack? && !b.Ack? && !c.Ack? && !d.Ack?
    requires session != 0 && forall s :: s in Run(w, ops).owner ==> s < session
    ensures At(Run(w, ops + [Deliver(side, session), Deliver(side, session + 1), Deliver(side, session + 2),
        Deliver(side, session + 3)]), side).peer
         == Handle(Handle(Handle(Handle(At(Run(w, ops), side).peer, a), b), c), d)
  {
    hide Run, Handle, Step, Allowed, FreshSession;
    var w0 := Run(w, ops);
    Fresh(w0, session);
    DeliverStep(w0, side, a, [b, c, d], session);
    var w1 := Step(w0, Deliver(side, session));
    Fresh(w1, session + 1);
    DeliverStep(w1, side, b, [c, d], session + 1);
    var w2 := Step(w1, Deliver(side, session + 1));
    Fresh(w2, session + 2);
    DeliverStep(w2, side, c, [d], session + 2);
    var w3 := Step(w2, Deliver(side, session + 2));
    Fresh(w3, session + 3);
    DeliverStep(w3, side, d, [], session + 3);
    FourSteps(w, ops, Deliver(side, session), Deliver(side, session + 1), Deliver(side, session + 2),
      Deliver(side, session + 3), w1, w2, w3, Step(w3, Deliver(side, session + 3)));
  }

  lemma Fresh(w: World, session: Session)
    requires session != 0 && forall s :: s in w.owner ==> s < session
    ensures FreshSession(w, session)
  {
  }

  // ---------------------------------------------------------------- a beginning ignored

  /** The answer side floods, sends one batch, and floods the same files again; the offer side
      receives everything that was sent. */
  function IgnoredBegin(snap: Snapshot): seq<Op> {
    FloodOps(false, 0, 1, snap) + FloodOps(false, 1, 2, snap)
    + [Deliver(true, 3), Deliver(true, 4), Deliver(true, 5), Deliver(true, 6)]
  }

  lemma BatchOfTwo(snap: Snapshot)
    requires TwoBatches(snap)
    ensures |Batch(snap.files, 0)| == FILE_UPDATE_BATCH_SIZE
        && Batch(snap.files, 0) == snap.files[..FILE_UPDATE_BATCH_SIZE]
    ensures Named(Batch(snap.files, 0)) == Batch(snap.files, 0)
    ensures Batch(snap.files, 1) == snap.files[FILE_UPDATE_BATCH_SIZE..]
        && Named(Batch(snap.files, 1)) == Batch(snap.files, 1)
  {
    BatchIsNamed(snap, 0);
    BatchIsNamed(snap, 1);
    hide Named, SnapshotOk;
    assert Offset(snap.files, 0) == 0 && Offset(snap.files, 1) == FILE_UPDATE_BATCH_SIZE;
    assert Offset(snap.files, 2) == |snap.files|;
  }

  lemma CountsBatch(p: Peer, acc: Acc, m: Msg)
    requires p.receives && p.acc == Some(acc) && acc.session == p.progress.session && acc.session != 0
    requires m.Files? && Named(m.batch) == m.batch
    ensures var counted := p.(progress := p.progress.(receivedFiles := p.progress.receivedFiles + |m.batch|),
        acc := Some(CountFiles(acc, m.batch)));
      Handle(p, m) == CheckCompletion(counted)
  {
  }

  lemma AcceptsBegin(p: Peer, session: Session, n: nat)
    requires !Ignores(p) && n > 0
    ensures Handle(p, Begin(session, n, 0))
         == p.(progress := Progress(session, n, 0, 0, 0), timer := session,
           acc := Some(Acc(session, [], {}, n, 0, 0, 0)))
  {
  }

  /** The offer side keeps the first session and its accumulator, counts the first batch twice,
      and takes the flood for complete. */
  lemma CountsTwice(snap: Snapshot)
    requires TwoBatches(snap)
    ensures var first := snap.files[..FILE_UPDATE_BATCH_SIZE];
      Handle(Handle(Handle(Handle(Idle(true).peer, Opening(1, snap)), BatchOf(1, snap, 0)), Opening(2, snap)),
        BatchOf(2, snap, 0)).completed
        == [Acc(1, first + first, {}, |snap.files|, 0, 2 * FILE_UPDATE_BATCH_SIZE, 0)]
  {
    BatchOfTwo(snap);
    hide Named, Batch;
    var first, n, size := snap.files[..FILE_UPDATE_BATCH_SIZE], |snap.files|, FILE_UPDATE_BATCH_SIZE;
    var p1 := Peer(true, true, Progress(1, n, 0, 0, 0), 1, Some(Acc(1, [], {}, n, 0, 0, 0)), []);
    var p2 := Peer(true, true, Progress(1, n, 0, size, 0), 1, Some(Acc(1, first, {}, n, 0, size, 0)), []);
    assert Handle(Idle(true).peer, Opening(1, snap)) == p1;
    CountsBatch(p1, p1.acc.value, Files(first, 1));
    assert [] + first == first;
    assert Handle(p2, Opening(2, snap)) == p2;
    CountsBatch(p2, p2.acc.value, Files(first, 2));
    hide Handle;
    assert Handle(p1, BatchOf(1, snap, 0)) == p2;
  }

  lemma IgnoredBeginCompletes(snap: Snapshot)
    requires TwoBatches(snap)
    ensures var first := snap.files[..FILE_UPDATE_BATCH_SIZE];
      Run(Initial(true, true), IgnoredBegin(snap)).left.peer.completed
        == [Acc(1, first + first, {}, |snap.files|, 0, 2 * FILE_UPDATE_BATCH_SIZE, 0)]
  {
    var w := Initial(true, true);
    var ops := FloodOps(false, 0, 1, snap);
    assert Run(w, []) == w;
    assert [] + ops == ops;
    hide Run, Handle, SnapshotOk, Batch;
    FloodSends(w, [], false, 1, snap);
    FloodSends(w, ops, false, 2, snap);
    var sent := ops + FloodOps(false, 1, 2, snap);
    assert At(Run(w, sent), false).out
      == [Opening(1, snap), BatchOf(1, snap, 0), Opening(2, snap), BatchOf(2, snap, 0)];
    FourDelivered(w, sent, true, Opening(1, snap), BatchOf(1, snap, 0), Opening(2, snap), BatchOf(2, snap, 0), 3);
    CountsTwice(snap);
  }

  /** The first race, for every state of between one and two batches of files: the offer side
      hands on an accumulator without the last files, and so deletes those of them that it has,
      although the other side has them too. */
  lemma IgnoredBeginDeletesFiles(snap: Snapshot, local: seq<FileInfo>, history: SyncPlan.History, f: FileInfo)
    requires TwoBatches(snap) && f in local && f in snap.files
    requires forall g :: g in snap.files[..FILE_UPDATE_BATCH_SIZE] ==> Key(g.path) != Key(f.path)
    ensures var completed := Run(Initial(true, true), IgnoredBegin(snap)).left.peer.completed;
      && |completed| == 1
      && f.path in FilesDeleted(local, completed[0].files, history, SyncPlan.OneWay)
      && (history(f.path) == Some(f.hash) ==>
        f.path in FilesDeleted(local, completed[0].files, history, SyncPlan.BiDirectional))
  {
    IgnoredBeginCompletes(snap);
    var acc := Run(Initial(true, true), IgnoredBegin(snap)).left.peer.completed[0];
    NotAmong(acc.files, snap.files[..FILE_UPDATE_BATCH_SIZE], f);
    hide FilesDeleted, Run;
    MissingIsDeleted(local, acc, history, f);
  }

  // ---------------------------------------------------------------- a stale beginning

  /** The offer side scans for one flood, begins a second and sends one batch of it; then the
      first, whose session is over, is begun all the same; then the second goes on. */
  function StaleBegin(early: Snapshot, snap: Snapshot): seq<Op> {
    [Start(true, 1), Scan(true, 0, early)] + FloodOps(true, 1, 2, snap) + [SendBegin(true, 0), SendBatch(true, 1)]
    + [Deliver(false, 3), Deliver(false, 4), Deliver(false, 5), Deliver(false, 6)]
  }

  lemma RanFirst(n: Node, f: Flood, later: seq<Flood>, task: Task)
    requires n.floods == [f] + later
    ensures Ran(n, 0, task) == n.(out := n.out + task.sent,
        floods := (if task.flood.Some? then [task.flood.value] else []) + later)
  {
    assert n.floods[..0] == [] && n.floods[1..] == later;
  }

  lemma StaleBeginSends(w: World, ops: seq<Op>, early: Snapshot, snap: Snapshot)
    requires Run(w, ops).left.floods == [Scanned(1, early), Streaming(2, snap, 1)]
        && Run(w, ops).left.peer.progress.session == 2
    requires TwoBatches(snap) && early.files != [] && early.dirs == []
    ensures var w1 := Run(w, ops + [SendBegin(true, 0), SendBatch(true, 1)]);
      && w1.left.out == Run(w, ops).left.out + [Opening(1, early), BatchOf(2, snap, 1)]
      && w1.right == Run(w, ops).right && w1.owner == Run(w, ops).owner
  {
    var w0 := Run(w, ops);
    hide Run, Batch, SnapshotOk;
    RanFirst(w0.left, Scanned(1, early), [Streaming(2, snap, 1)], AfterBegin(1, early));
    OneStep(w, ops, SendBegin(true, 0));
    var w1 := Run(w, ops + [SendBegin(true, 0)]);
    assert w1.left.floods == [Streaming(1, early, 0)] + [Streaming(2, snap, 1)];
    BatchStep(w1, true, [Streaming(1, early, 0)], 2, snap, 1);
    hide Step;
    OneStep(w, ops + [SendBegin(true, 0)], SendBatch(true, 1));
    assert ops + [SendBegin(true, 0)] + [SendBatch(true, 1)] == ops + [SendBegin(true, 0), SendBatch(true, 1)];
    assert [Opening(1, early)] + [] == [Opening(1, early)];
  }

  lemma ScannedFirst(early: Snapshot)
    requires SnapshotOk(early) && early.files != []
    ensures Run(Initial(true, true), [Start(true, 1), Scan(true, 0, early)]) ==
      World(Idle(true).(peer := WithSession(Idle(true).peer, 1), floods := [Scanned(1, early)]), Idle(false),
        map[1 := true], map[1 := early])
  {
    var w := Initial(true, true);
    EmptyRun(w);
    hide Run, SnapshotOk;
    OneStep(w, [], Start(true, 1));
    var w1 := Step(w, Start(true, 1));
    assert w1.left.floods == [] + [Waiting(1)];
    ScanStep(w1, true, [], 1, early);
    hide Step, Allowed;
    OneStep(w, [] + [Start(true, 1)], Scan(true, 0, early));
    assert [] + [Start(true, 1)] + [Scan(true, 0, early)] == [Start(true, 1), Scan(true, 0, early)];
    assert [] + [Scanned(1, early)] == [Scanned(1, early)];
  }

  /** The answer side starts a new accumulator for the stale beginning and counts the rest of
      the other flood into it. */
  lemma CountsForeignBatch(early: Snapshot, snap: Snapshot)
    requires TwoBatches(snap) && early.dirs == [] && 0 < |early.files| <= |snap.files| - FILE_UPDATE_BATCH_SIZE
    ensures var rest := snap.files[FILE_UPDATE_BATCH_SIZE..];
      Handle(Handle(Handle(Handle(Idle(false).peer, Opening(2, snap)), BatchOf(2, snap, 0)), Opening(1, early)),
        BatchOf(2, snap, 1)).completed
        == [Acc(1, rest, {}, |early.files|, 0, |rest|, 0)]
  {
    BatchOfTwo(snap);
    hide Named, Batch;
    var first, rest := snap.files[..FILE_UPDATE_BATCH_SIZE], snap.files[FILE_UPDATE_BATCH_SIZE..];
    FirstCounted(snap);
    hide Handle;
    var m := |early.files|;
    var p2 := Peer(false, true, Progress(2, |snap.files|, 0, |first|, 0), 2,
      Some(Acc(2, first, {}, |snap.files|, 0, |first|, 0)), []);
    AcceptsBegin(p2, 1, m);
    var p3 := Peer(false, true, Progress(1, m, 0, 0, 0), 1, Some(Acc(1, [], {}, m, 0, 0, 0)), []);
    CountsBatch(p3, p3.acc.value, Files(rest, 2));
    assert [] + rest == rest;
  }

  lemma FirstCounted(snap: Snapshot)
    requires TwoBatches(snap)
    ensures var first := snap.files[..FILE_UPDATE_BATCH_SIZE];
      Handle(Handle(Idle(false).peer, Opening(2, snap)), BatchOf(2, snap, 0))
        == Peer(false, true, Progress(2, |snap.files|, 0, |first|, 0), 2,
          Some(Acc(2, first, {}, |snap.files|, 0, |first|, 0)), [])
  {
    BatchOfTwo(snap);
    hide Named, Batch;
    var first := snap.files[..FILE_UPDATE_BATCH_SIZE];
    var p1 := Peer(false, true, Progress(2, |snap.files|, 0, 0, 0), 2, Some(Acc(2, [], {}, |snap.files|, 0, 0, 0)), []);
    assert Handle(Idle(false).peer, Opening(2, snap)) == p1;
    CountsBatch(p1, p1.acc.value, Files(first, 2));
    assert [] + first == first;
    hide Handle;
  }

  lemma StaleBeginSent(early: Snapshot, snap: Snapshot)
    requires TwoBatches(snap) && SnapshotOk(early) && early.dirs == [] && early.files != []
    ensures var ops := [Start(true, 1), Scan(true, 0, early)] + FloodOps(true, 1, 2, snap) + [SendBegin(true, 0),
        SendBatch(true, 1)];
      var w := Run(Initial(true, true), ops);
      && w.left.out == [Opening(2, snap), BatchOf(2, snap, 0), Opening(1, early), BatchOf(2, snap, 1)]
      && w.right == Idle(false) && w.owner == map[1 := true, 2 := true]
  {
    var w := Initial(true, true);
    var ops := [Start(true, 1), Scan(true, 0, early)];
    ScannedFirst(early);
    hide Run, SnapshotOk, Batch;
    FloodSends(w, ops, true, 2, snap);
    StaleBeginSends(w, ops + FloodOps(true, 1, 2, snap), early, snap);
  }

  lemma StaleBeginCompletes(early: Snapshot, snap: Snapshot)
    requires TwoBatches(snap) && SnapshotOk(early) && early.dirs == []
        && 0 < |early.files| <= |snap.files| - FILE_UPDATE_BATCH_SIZE
    ensures var rest := snap.files[FILE_UPDATE_BATCH_SIZE..];
      Run(Initial(true, true), StaleBegin(early, snap)).right.peer.completed
        == [Acc(1, rest, {}, |early.files|, 0, |rest|, 0)]
  {
    hide Run, Handle, SnapshotOk, Batch;
    StaleBeginSent(early, snap);
    var ops := [Start(true, 1), Scan(true, 0, early)] + FloodOps(true, 1, 2, snap) + [SendBegin(true, 0),
      SendBatch(true, 1)];
    FourDelivered(Initial(true, true), ops, false, Opening(2, snap), BatchOf(2, snap, 0), Opening(1, early),
      BatchOf(2, snap, 1), 3);
    CountsForeignBatch(early, snap);
  }

  /** The second race: a beginning whose session is over cuts into a flood, and the answer side
      deletes files that both scans found. */
  lemma StaleBeginDeletesFiles(early: Snapshot, snap: Snapshot, local: seq<FileInfo>, history: SyncPlan.History,
                               f: FileInfo)
    requires TwoBatches(snap) && SnapshotOk(early) && early.dirs == []
        && 0 < |early.files| <= |snap.files| - FILE_UPDATE_BATCH_SIZE
    requires f in local && f in snap.files && f in early.files
    requires forall g :: g in snap.files[FILE_UPDATE_BATCH_SIZE..] ==> Key(g.path) != Key(f.path)
    ensures var completed := Run(Initial(true, true), StaleBegin(early, snap)).right.peer.completed;
      && |completed| == 1
      && f.path in FilesDeleted(local, completed[0].files, history, SyncPlan.OneWay)
      && (history(f.path) == Some(f.hash) ==>
        f.path in FilesDeleted(local, completed[0].files, history, SyncPlan.BiDirectional))
  {
    StaleBeginCompletes(early, snap);
    var acc := Run(Initial(true, true), StaleBegin(early, snap)).right.peer.completed[0];
    NotAmong(acc.files, snap.files[FILE_UPDATE_BATCH_SIZE..], f);
    hide FilesDeleted, Run;
    MissingIsDeleted(local, acc, history, f);
  }

  lemma NotAmong(files: seq<FileInfo>, listed: seq<FileInfo>, f: FileInfo)
    requires forall g :: g in files ==> g in listed
    requires forall g :: g in listed ==> Key(g.path) != Key(f.path)
    ensures Key(f.path) !in SyncPlan.Keys(files)
  {
  }

  // ---------------------------------------------------------------- without the directories above

  lemma GuardedOneMore(w: World, ops: seq<Op>, op: Op)
    requires GuardedRun(w, ops) && (Allowed(Run(w, ops), op) ==> Guarded(Run(w, ops), op))
    ensures GuardedRun(w, ops + [op])
  {
    assert (ops + [op])[..|ops|] == ops;
  }

  /** A lone flood runs into no race. */
  lemma LoneFloodIsGuarded(w: World, side: bool, session: Session, snap: Snapshot)
    requires w.left.floods == [] && w.right.floods == [] && FreshSession(w, session)
    requires SnapshotOk(snap) && snap.files != [] && snap.dirs == []
    ensures GuardedRun(w, FloodOps(side, 0, session, snap))
  {
    hide SnapshotOk;
    var w1 := Step(w, Start(side, session));
    assert At(w1, side).floods == [] + [Waiting(session)];
    ScanStep(w1, side, [], session, snap);
    var w2 := Step(w1, Scan(side, 0, snap));
    BeginStep(w2, side, [], session, snap);
    FourGuarded(w, Start(side, session), Scan(side, 0, snap), SendBegin(side, 0), SendBatch(side, 0), w1, w2);
  }

  lemma FourGuarded(w: World, a: Op, b: Op, c: Op, d: Op, w1: World, w2: World)
    requires Allowed(w, a) && a.Start? && w1 == Step(w, a)
    requires Allowed(w1, b) && b.Scan? && w2 == Step(w1, b)
    requires Allowed(w2, c) && Guarded(w2, c) && d.SendBatch?
    ensures GuardedRun(w, [a, b, c, d])
  {
    EmptyRun(w);
    SendBatchIsGuarded(Step(w2, c), d);
    hide Run, GuardedRun, Step;
    GuardedStep(w, [], a, w);
    GuardedStep(w, [] + [a], b, w1);
    GuardedStep(w, [] + [a] + [b], c, w2);
    hide Allowed, Guarded;
    GuardedStep(w, [] + [a] + [b] + [c], d, Step(w2, c));
    assert [] + [a] + [b] + [c] + [d] == [a, b, c, d];
  }

  lemma EmptyRun(w: World)
    ensures Run(w, []) == w && GuardedRun(w, [])
  {
  }

  lemma SendBatchIsGuarded(w: World, op: Op)
    requires op.SendBatch?
    ensures Allowed(w, op) ==> Guarded(w, op)
  {
  }

  lemma GuardedStep(w: World, ops: seq<Op>, op: Op, now: World)
    requires GuardedRun(w, ops) && Run(w, ops) == now && (Allowed(now, op) ==> Guarded(now, op))
    ensures GuardedRun(w, ops + [op]) && (Allowed(now, op) ==> Run(w, ops + [op]) == Step(now, op))
  {
    GuardedOneMore(w, ops, op);
    if Allowed(now, op) { OneStep(w, ops, op); }
  }

  /** One batch of files, and no directories. */
  predicate OneBatch(snap: Snapshot) {
    SnapshotOk(snap) && 0 < |snap.files| <= FILE_UPDATE_BATCH_SIZE && snap.dirs == []
  }

  /** The answer side floods and the offer side receives all of it. */
  function LoneFlood(snap: Snapshot): seq<Op> {
    FloodOps(false, 0, 1, snap) + [Deliver(true, 2)] + [Deliver(true, 3)]
  }

  lemma LoneFloodCompletes(snap: Snapshot)
    requires OneBatch(snap)
    ensures GuardedRun(Initial(true, true), LoneFlood(snap))
    ensures Run(Initial(true, true), LoneFlood(snap)).left.peer.completed
         == [Acc(1, snap.files, {}, |snap.files|, 0, |snap.files|, 0)]
  {
    var w := Initial(true, true);
    var ops := FloodOps(false, 0, 1, snap);
    assert Run(w, []) == w;
    assert [] + ops == ops;
    FloodSends(w, [], false, 1, snap);
    LoneFloodIsGuarded(w, false, 1, snap);
    var w4 := Run(w, ops);
    assert w4.left == Idle(true) && w4.right.out == [Opening(1, snap), BatchOf(1, snap, 0)]
      && w4.owner == map[1 := false];
    CountsAll(snap);
    hide Run, GuardedRun, Handle, SnapshotOk, Batch;
    DeliverStep(w4, true, Opening(1, snap), [BatchOf(1, snap, 0)], 2);
    GuardedOneMore(w, ops, Deliver(true, 2));
    OneStep(w, ops, Deliver(true, 2));
    var w5 := Step(w4, Deliver(true, 2));
    DeliverStep(w5, true, BatchOf(1, snap, 0), [], 3);
    GuardedOneMore(w, ops + [Deliver(true, 2)], Deliver(true, 3));
    OneStep(w, ops + [Deliver(true, 2)], Deliver(true, 3));
  }

  lemma CountsAll(snap: Snapshot)
    requires OneBatch(snap)
    ensures Handle(Handle(Idle(true).peer, Opening(1, snap)), BatchOf(1, snap, 0)).completed
         == [Acc(1, snap.files, {}, |snap.files|, 0, |snap.files|, 0)]
  {
    BatchIsNamed(snap, 0);
    assert Batch(snap.files, 0) == snap.files;
    hide Named, Batch;
    var n := |snap.files|;
    var p1 := Peer(true, true, Progress(1, n, 0, 0, 0), 1, Some(Acc(1, [], {}, n, 0, 0, 0)), []);
    AcceptsBegin(Idle(true).peer, 1, n);
    CountsBatch(p1, p1.acc.value, Files(snap.files, 1));
    assert [] + snap.files == snap.files;
    hide Handle;
  }

  /** Were a snapshot announced without the directories above its files, then even in a run
      without races, and completed exactly, one-way reconciliation would take a file of it from
      some local tree. */
  lemma UnrootedFloodLosesFiles(snap: Snapshot, history: SyncPlan.History, f: FileInfo, a: Path)
    returns (d: DirSync.Dirs, localDirs: seq<Path>, order: seq<Path>)
    requires OneBatch(snap) && f in snap.files && a in DirSync.Ancestors(Key(f.path))
    ensures GuardedRun(Initial(true, true), LoneFlood(snap))
    ensures var completed := Run(Initial(true, true), LoneFlood(snap)).left.peer.completed;
      && |completed| == 1 && completed[0].files == snap.files && completed[0].dirs == {}
      && Situation(d, [], localDirs, order, snap)
      && !Keeps(snap, d.tree, TreeAfter(d, [], localDirs, completed[0], [], order, history, SyncPlan.OneWay))
  {
    LoneFloodCompletes(snap);
    SyncPlan.KeyListed(snap.files, f);
    d, localDirs, order := UnrootedLoses(snap, history, Key(f.path), a);
    assert SyncPlan.Missing([], SyncPlan.DirKeys(localDirs)) == [];
  }
}
