/** One end of a flood synchronisation: session, progress counters and accumulator, and what the
    handlers make of each message. */
module FloodPeer {
  import opened Wrappers
  import Scanning

  type Path = string
  type Session = nat
  type FileInfo = Scanning.FileInfo

  /** What the peer has announced so far in one session, and how much it said would come. */
  datatype Acc = Acc(session: Session, files: seq<FileInfo>, dirs: set<Path>,
                     expectedFiles: nat, expectedDirs: nat, receivedFiles: nat, receivedDirs: nat)

  /** Shared by both directions. */
  datatype Progress = Progress(session: Session, expectedFiles: nat, expectedDirs: nat, receivedFiles: nat,
    receivedDirs: nat)

  /** completed: the accumulators handed on for reconciliation, oldest first. timer: the session
      whose timeout is pending, or 0. */
  datatype Peer = Peer(offerSide: bool, receives: bool, progress: Progress, timer: Session, acc: Option<Acc>,
    completed: seq<Acc>)

  const IDLE := Progress(0, 0, 0, 0, 0)

  // ---------------------------------------------------------------- the handlers as functions

  predicate Complete(acc: Acc) {
    acc.receivedFiles >= acc.expectedFiles && acc.receivedDirs >= acc.expectedDirs
  }

  function CheckCompletion(p: Peer): Peer {
    if p.acc.Some? && Complete(p.acc.value) then p.(acc := None, completed := p.completed + [p.acc.value]) else p
  }

  function BeginAccumulation(p: Peer, session: Session, files: nat, dirs: nat): Peer {
    var p1 := p.(acc := Some(Acc(session, [], {}, files, dirs, 0, 0)));
    if files == 0 && dirs == 0 then CheckCompletion(p1) else p1
  }

  /** The offer side does not give up a session of its own for the peer's. */
  predicate Ignores(p: Peer) {
    p.progress.session != 0 && p.offerSide
  }

  function OnBegin(p: Peer, session: Session, files: nat, dirs: nat): Peer {
    if Ignores(p) then p
    else BeginAccumulation(p.(progress := Progress(session, files, dirs, 0, 0), timer := session), session, files, dirs)
  }

  /** Batches are counted: no session, or another than the accumulator's, and they are not. */
  predicate Live(p: Peer) {
    p.progress.session != 0 && p.acc.Some? && p.acc.value.session == p.progress.session
  }

  function Named(files: seq<FileInfo>): seq<FileInfo> {
    if files == [] then []
    else Named(files[..|files| - 1]) + if files[|files| - 1].path == "" then [] else [files[|files| - 1]]
  }

  function CountFiles(acc: Acc, files: seq<FileInfo>): Acc {
    acc.(files := acc.files + files, receivedFiles := acc.receivedFiles + |files|)
  }

  function CountDirs(acc: Acc, creates: seq<Path>, deletes: nat): Acc {
    acc.(dirs := acc.dirs + (set d | d in creates), receivedDirs := acc.receivedDirs + |creates| + deletes)
  }

  function OnFiles(p: Peer, files: seq<FileInfo>): Peer {
    if !p.receives then p
    else
      var named := Named(files);
      var p1 := p.(progress := p.progress.(receivedFiles := p.progress.receivedFiles + |named|));
      var p2 := if Live(p) then p1.(acc := Some(CountFiles(p.acc.value, named))) else p1;
      if p.progress.session != 0 then CheckCompletion(p2) else p2
  }

  function OnDirs(p: Peer, creates: seq<Path>, deletes: nat): Peer {
    if !p.receives then p
    else
      var p1 := p.(progress := p.progress.(receivedDirs := p.progress.receivedDirs + |creates| + deletes));
      var p2 := if Live(p) then p1.(acc := Some(CountDirs(p.acc.value, creates, deletes))) else p1;
      if p.progress.session != 0 then CheckCompletion(p2) else p2
  }

  function WithSession(p: Peer, session: Session): Peer {
    p.(progress := p.progress.(session := session))
  }

  /** The timeout acknowledges the session and leaves it. */
  predicate TimesOut(p: Peer) {
    p.timer != 0 && p.progress.session == p.timer
  }

  function OnTimeout(p: Peer): Peer {
    if TimesOut(p) then WithSession(p.(timer := 0), 0) else p.(timer := 0)
  }

  /** A new connection to the same peer: new controller, same accumulator. */
  function OnReconnect(p: Peer): Peer {
    p.(progress := IDLE, timer := 0)
  }

  lemma {:induction false} NamedIsAll(files: seq<FileInfo>)
    requires forall f :: f in files ==> f.path != ""
    ensures Named(files) == files
  {
    if files != [] {
      var init, last := files[..|files| - 1], files[|files| - 1];
      NamedIsAll(init);
      assert last in files && files == init + [last];
    }
  }

  // ---------------------------------------------------------------- the objects

  datatype Reply = Reply(session: Session, receivedFiles: nat, receivedDirs: nat)

  class SyncProgress {
    var session: Session
    var expectedFiles: nat
    var expectedDirs: nat
    var receivedFiles: nat
    var receivedDirs: nat

    ghost function View(): Progress
      reads this
    {
      Progress(session, expectedFiles, expectedDirs, receivedFiles, receivedDirs)
    }

    constructor ()
      ensures View() == IDLE
    {
      session, expectedFiles, expectedDirs, receivedFiles, receivedDirs := 0, 0, 0, 0, 0;
    }
  }

  class PeerController {
    const peerId: string
    const offerSide: bool
    const progress: SyncProgress
    var timer: Session

    constructor (peerId: string, offerSide: bool)
      ensures this.peerId == peerId && this.offerSide == offerSide
      ensures fresh(progress) && progress.View() == IDLE && timer == 0
    {
      this.peerId, this.offerSide, timer := peerId, offerSide, 0;
      progress := new SyncProgress();
    }

    method SetSyncSessionId(id: Session)
      modifies progress`session
      ensures progress.session == id
    {
      progress.session := id;
    }
  }

  class SyncHandler {
    const receives: bool
    var accumulators: map<string, Acc>
    /** What on_flood_sync_complete was called with, and for which peer. */
    var completed: map<string, seq<Acc>>

    constructor (receives: bool)
      ensures this.receives == receives && accumulators == map[] && completed == map[]
    {
      this.receives, accumulators, completed := receives, map[], map[];
    }

    function Accumulator(peerId: string): Option<Acc>
      reads this
    {
      if peerId in accumulators then Some(accumulators[peerId]) else None
    }

    function Completed(peerId: string): seq<Acc>
      reads this
    {
      if peerId in completed then completed[peerId] else []
    }

    /** Nothing changes for the other peers. */
    twostate predicate OthersUnchanged(peerId: string)
      reads this
    {
      forall q :: q != peerId ==> Accumulator(q) == old(Accumulator(q)) && Completed(q) == old(Completed(q))
    }

    ghost function View(peer: PeerController): Peer
      reads this, peer, peer.progress
    {
      Peer(peer.offerSide, receives, peer.progress.View(), peer.timer, Accumulator(peer.peerId), Completed(peer.peerId))
    }

    method CheckAndRunCompletion(peer: PeerController)
      modifies this
      ensures View(peer) == CheckCompletion(old(View(peer))) && OthersUnchanged(peer.peerId)
    {
      if peer.peerId !in accumulators { return; }
      var acc := accumulators[peer.peerId];
      if acc.receivedFiles < acc.expectedFiles { return; }
      if acc.receivedDirs < acc.expectedDirs { return; }
      accumulators := accumulators - {peer.peerId};
      completed := completed[peer.peerId := Completed(peer.peerId) + [acc]];
    }

    method BeginFloodSyncAccumulation(peer: PeerController, session: Session, files: nat, dirs: nat)
      modifies this
      ensures View(peer) == BeginAccumulation(old(View(peer)), session, files, dirs) && OthersUnchanged(peer.peerId)
    {
      accumulators := accumulators[peer.peerId := Acc(session, [], {}, files, dirs, 0, 0)];
      if files == 0 && dirs == 0 { CheckAndRunCompletion(peer); }
    }

    static method WithPaths(parsed: seq<FileInfo>) returns (files: seq<FileInfo>)
      ensures files == Named(parsed)
    {
      files := [];
      for i := 0 to |parsed|
        invariant files == Named(parsed[..i])
      {
        assert parsed[..i + 1][..i] == parsed[..i];
        if parsed[i].path != "" { files := files + [parsed[i]]; }
      }
      assert parsed[..|parsed|] == parsed;
    }

    method HandleFileUpdateBatch(parsed: seq<FileInfo>, peer: PeerController)
      modifies this, peer.progress
      ensures View(peer) == OnFiles(old(View(peer)), parsed) && OthersUnchanged(peer.peerId)
    {
      if !receives { return; }
      hide CheckCompletion, Named;
      var files := WithPaths(parsed);
      peer.progress.receivedFiles := peer.progress.receivedFiles + |files|;
      var session := peer.progress.session;
      if session != 0 && peer.peerId in accumulators && accumulators[peer.peerId].session == session {
        accumulators := accumulators[peer.peerId := CountFiles(accumulators[peer.peerId], files)];
      }
      if session != 0 { CheckAndRunCompletion(peer); }
    }

    static method WithDirs(known: set<Path>, creates: seq<Path>) returns (dirs: set<Path>)
      ensures dirs == known + (set d | d in creates)
    {
      dirs := known;
      for i := 0 to |creates|
        invariant dirs == known + (set d | d in creates[..i])
      {
        dirs := dirs + {creates[i]};
      }
      assert creates[..|creates|] == creates;
    }

    method HandleDirBatch(creates: seq<Path>, deletes: seq<Path>, peer: PeerController)
      modifies this, peer.progress
      ensures View(peer) == OnDirs(old(View(peer)), creates, |deletes|) && OthersUnchanged(peer.peerId)
    {
      if !receives { return; }
      hide CheckCompletion;
      peer.progress.receivedDirs := peer.progress.receivedDirs + |creates| + |deletes|;
      var session := peer.progress.session;
      if session != 0 && peer.peerId in accumulators && accumulators[peer.peerId].session == session {
        var acc := accumulators[peer.peerId];
        var dirs := WithDirs(acc.dirs, creates);
        accumulators := accumulators[peer.peerId :=
          acc.(dirs := dirs, receivedDirs := acc.receivedDirs + |creates| + |deletes|)];
      }
      if session != 0 { CheckAndRunCompletion(peer); }
    }
  }

  class SyncSession {
    const handler: SyncHandler

    constructor (handler: SyncHandler)
      ensures this.handler == handler
    {
      this.handler := handler;
    }

    method HandleSyncBegin(session: Session, files: nat, dirs: nat, peer: PeerController)
      modifies handler, peer, peer.progress
      ensures handler.View(peer) == OnBegin(old(handler.View(peer)), session, files, dirs)
      ensures handler.OthersUnchanged(peer.peerId)
    {
      var mine := peer.progress.session;
      if mine != 0 && peer.offerSide { return; }
      peer.SetSyncSessionId(session);
      peer.progress.expectedFiles, peer.progress.expectedDirs := files, dirs;
      peer.progress.receivedFiles, peer.progress.receivedDirs := 0, 0;
      handler.BeginFloodSyncAccumulation(peer, session, files, dirs);
      peer.timer := session;
    }

    /** The timer started for a session; the reply is the acknowledgement sent, if any. */
    method SyncTimeout(peer: PeerController) returns (reply: Option<Reply>)
      modifies peer, peer.progress
      ensures handler.View(peer) == OnTimeout(old(handler.View(peer)))
      ensures var p := old(peer.progress.View());
        reply == if TimesOut(old(handler.View(peer))) then Some(Reply(p.session, p.receivedFiles,
          p.receivedDirs)) else None
    {
      reply := None;
      var session := peer.timer;
      peer.timer := 0;
      if session == 0 || peer.progress.session != session { return; }
      reply := Some(Reply(session, peer.progress.receivedFiles, peer.progress.receivedDirs));
      peer.SetSyncSessionId(0);
    }

    /** Whether a new flood is asked for, under the new session. */
    method HandleSyncAck(ack: Reply, newSession: Session, peer: PeerController) returns (resync: bool)
      modifies peer.progress
      ensures resync == (ack.session == old(peer.progress.session))
      ensures handler.View(peer)
          == if resync then WithSession(old(handler.View(peer)), newSession) else old(handler.View(peer))
    {
      if ack.session != peer.progress.session { return false; }
      peer.SetSyncSessionId(newSession);
      return true;
    }
  }
}
