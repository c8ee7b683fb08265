/** Two peers that flood each other with their state over FIFO channels, one step at a time. */
module FloodSync {
  import opened Wrappers
  import opened FloodPeer

  const FILE_UPDATE_BATCH_SIZE := 50

  /** What a scan found: the files, and the directories in the order their set is iterated. */
  datatype Snapshot = Snapshot(files: seq<FileInfo>, dirs: seq<Path>)

  /** A batch does not say which session it belongs to: its tag is not on the wire, and no
      handler looks at it. */
  datatype Msg =
    | Begin(session: Session, files: nat, dirs: nat)
    | Dirs(creates: seq<Path>, tag: Session)
    | Files(batch: seq<FileInfo>, tag: Session)
    | Ack(reply: Reply)

  /** One call of perform_flood_sync: posted; scanned, its first message posted; sending its
      file batches one task at a time. */
  datatype Flood =
    | Waiting(session: Session)
    | Scanned(session: Session, snap: Snapshot)
    | Streaming(session: Session, snap: Snapshot, next: nat)

  // ---------------------------------------------------------------- the sender's tasks

  function Offset(files: seq<FileInfo>, n: nat): (k: nat)
    ensures k <= |files|
  {
    if n * FILE_UPDATE_BATCH_SIZE < |files| then n * FILE_UPDATE_BATCH_SIZE else |files|
  }

  function Batch(files: seq<FileInfo>, n: nat): seq<FileInfo> {
    files[Offset(files, n)..Offset(files, n + 1)]
  }

  /** What a task leaves of its flood, and what it sends. */
  datatype Task = Task(flood: Option<Flood>, sent: seq<Msg>)

  /** The session is checked before the scan, and an empty state is not announced. */
  function AfterScan(current: Session, session: Session, snap: Snapshot): Task {
    if current != session || (snap.files == [] && snap.dirs == []) then Task(None, [])
    else Task(Some(Scanned(session, snap)), [])
  }

  /** The session is not checked again. */
  function AfterBegin(session: Session, snap: Snapshot): Task {
    Task(if snap.files == [] then None else Some(Streaming(session, snap, 0)),
      [Begin(session, |snap.files|, |snap.dirs|)] + if snap.dirs == [] then [] else [Dirs(snap.dirs, session)])
  }

  predicate Unsent(snap: Snapshot, next: nat) {
    next * FILE_UPDATE_BATCH_SIZE < |snap.files|
  }

  function AfterBatch(current: Session, session: Session, snap: Snapshot, next: nat): Task {
    if !Unsent(snap, next) || current != session then Task(None, [])
    else Task(Some(Streaming(session, snap, next + 1)), [Files(Batch(snap.files, next), session)])
  }

  class BroadcastManager {
    /** What was handed to the transport for the peer. */
    var sent: seq<Msg>

    constructor ()
      ensures sent == []
    {
      sent := [];
    }

    method PerformFloodSync(peer: PeerController, session: Session, snap: Snapshot) returns (posted: Option<Flood>)
      ensures Task(posted, []) == AfterScan(peer.progress.session, session, snap)
    {
      if peer.progress.session != session { return None; }
      if |snap.files| == 0 && |snap.dirs| == 0 { return None; }
      return Some(Scanned(session, snap));
    }

    method SendBeginAndDirs(session: Session, snap: Snapshot) returns (posted: Option<Flood>)
      modifies this
      ensures var task := AfterBegin(session, snap); posted == task.flood && sent == old(sent) + task.sent
    {
      sent := sent + [Begin(session, |snap.files|, |snap.dirs|)];
      if |snap.dirs| != 0 { sent := sent + [Dirs(snap.dirs, session)]; }
      return if |snap.files| != 0 then Some(Streaming(session, snap, 0)) else None;
    }

    method PaceAndSendFileBatches(peer: PeerController, session: Session, snap: Snapshot,
                                  next: nat) returns (posted: Option<Flood>)
      modifies this
      ensures var task := AfterBatch(peer.progress.session, session, snap, next);
          posted == task.flood && sent == old(sent) + task.sent
    {
      var total := (|snap.files| + FILE_UPDATE_BATCH_SIZE - 1) / FILE_UPDATE_BATCH_SIZE;
      assert next >= total <==> !Unsent(snap, next);
      if next >= total { return None; }
      if peer.progress.session != session { return None; }
      var start := next * FILE_UPDATE_BATCH_SIZE;
      var end := if start + FILE_UPDATE_BATCH_SIZE < |snap.files| then start + FILE_UPDATE_BATCH_SIZE else |snap.files|;
      sent := sent + [Files(snap.files[start..end], session)];
      return Some(Streaming(session, snap, next + 1));
    }
  }

  // ---------------------------------------------------------------- the two peers

  /** Where the receiving end is in what was sent to it: the session of the last beginning that
      reached it, and how many messages of that flood have. */
  datatype Place = Place(session: Session, pos: nat)

  const NOWHERE := Place(0, 0)

  /** One end: its peer record, its floods, its outgoing channel, and its place in the other's. */
  datatype Node = Node(peer: Peer, floods: seq<Flood>, out: seq<Msg>, seen: Place)

  /** owner: which side asked for each session so far. snaps: what its scan found. */
  datatype World = World(left: Node, right: Node, owner: map<Session, bool>, snaps: map<Session, Snapshot>)

  function At(w: World, side: bool): Node {
    if side then w.left else w.right
  }

  function With(w: World, side: bool, n: Node): World {
    if side then w.(left := n) else w.(right := n)
  }

  datatype Op =
    | Start(side: bool, session: Session)
    | Scan(side: bool, k: nat, snap: Snapshot)
    | SendBegin(side: bool, k: nat)
    | SendBatch(side: bool, k: nat)
    | Deliver(side: bool, newSession: Session)
    | Timeout(side: bool)
    | Reconnect

  predicate FreshSession(w: World, session: Session) {
    session != 0 && session !in w.owner
  }

  /** Scans find named files, and each directory once. */
  predicate SnapshotOk(snap: Snapshot) {
    && (forall f :: f in snap.files ==> f.path != "")
    && (forall i, j :: 0 <= i < j < |snap.dirs| ==> snap.dirs[i] != snap.dirs[j])
  }

  predicate Allowed(w: World, op: Op) {
    match op
    case Start(_, session) => FreshSession(w, session)
    case Scan(side, k, snap) => k < |At(w, side).floods| && At(w, side).floods[k].Waiting? && SnapshotOk(snap)
    case SendBegin(side, k) => k < |At(w, side).floods| && At(w, side).floods[k].Scanned?
    case SendBatch(side, k) => k < |At(w, side).floods| && At(w, side).floods[k].Streaming?
    case Deliver(side, newSession) => At(w, !side).out != [] && FreshSession(w, newSession)
    case Timeout(_) => true
    case Reconnect => true
  }

  /** A flood is due: the peer record takes the new session and a task is posted. */
  function Started(n: Node, session: Session): Node {
    n.(peer := WithSession(n.peer, session), floods := n.floods + [Waiting(session)])
  }

  function Ran(n: Node, k: nat, task: Task): Node
    requires k < |n.floods|
  {
    n.(out := n.out + task.sent,
       floods := n.floods[..k] + (if task.flood.Some? then [task.flood.value] else []) + n.floods[k + 1..])
  }

  function Advance(place: Place, m: Msg): Place {
    match m
    case Begin(session, _, _) => Place(session, 1)
    case Ack(_) => place
    case _ => place.(pos := place.pos + 1)
  }

  function Handle(p: Peer, m: Msg): Peer {
    match m
    case Begin(session, files, dirs) => OnBegin(p, session, files, dirs)
    case Dirs(creates, _) => OnDirs(p, creates, 0)
    case Files(batch, _) => OnFiles(p, batch)
    case Ack(_) => p
  }

  function Received(n: Node, m: Msg, newSession: Session): Node {
    var n1 := n.(peer := Handle(n.peer, m), seen := Advance(n.seen, m));
    if m.Ack? && m.reply.session == n.peer.progress.session then Started(n1, newSession) else n1
  }

  function TimedOut(n: Node): Node {
    var p := n.peer.progress;
    n.(peer := OnTimeout(n.peer),
       out := n.out + if TimesOut(n.peer) then [Ack(Reply(p.session, p.receivedFiles, p.receivedDirs))] else [])
  }

  /** The connection is lost and made again: what was under way in it is gone. */
  function Reconnected(n: Node): Node {
    Node(OnReconnect(n.peer), [], [], NOWHERE)
  }

  function Step(w: World, op: Op): World
    requires Allowed(w, op)
  {
    match op
    case Start(side, session) => With(w, side, Started(At(w, side), session)).(owner := w.owner[session := side])
    case Scan(side, k, snap) =>
      var n := At(w, side);
      var task := AfterScan(n.peer.progress.session, n.floods[k].session, snap);
      With(w, side, Ran(n, k, task)).(snaps := w.snaps[n.floods[k].session := snap])
    case SendBegin(side, k) =>
      var n := At(w, side);
      With(w, side, Ran(n, k, AfterBegin(n.floods[k].session, n.floods[k].snap)))
    case SendBatch(side, k) =>
      var n := At(w, side);
      With(w, side, Ran(n, k, AfterBatch(n.peer.progress.session, n.floods[k].session, n.floods[k].snap,
        n.floods[k].next)))
    case Deliver(side, newSession) =>
      var m := At(w, !side).out[0];
      var w1 := With(w, !side, At(w, !side).(out := At(w, !side).out[1..]));
      With(w1, side, Received(At(w, side), m, newSession)).(owner := w.owner[newSession := side])
    case Timeout(side) => With(w, side, TimedOut(At(w, side)))
    case Reconnect => w.(left := Reconnected(w.left), right := Reconnected(w.right))
  }

  /** The offer side is on the left; either side may be one that only sends. */
  function Initial(leftReceives: bool, rightReceives: bool): World {
    World(Node(Peer(true, leftReceives, IDLE, 0, None, []), [], [], NOWHERE),
          Node(Peer(false, rightReceives, IDLE, 0, None, []), [], [], NOWHERE), map[], map[])
  }
}
