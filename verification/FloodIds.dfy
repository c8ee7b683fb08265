/** What holds in every run of the flood protocol, whatever the interleaving: sessions do not
    mix between the sides, and each is completed at most once. */
module FloodIds {
  import opened Wrappers
  import opened FloodPeer
  import opened FloodSync

  /** One direction: the sender's floods, channel and session, and the receiver. */
  datatype Lane = Lane(floods: seq<Flood>, out: seq<Msg>, sigma: Session, seen: Place, rcv: Peer)

  function LaneOf(w: World, side: bool): Lane {
    var snd, rcv := At(w, side), At(w, !side);
    Lane(snd.floods, snd.out, snd.peer.progress.session, rcv.seen, rcv.peer)
  }

  // ---------------------------------------------------------------- one token per session

  /** How many floods are still to send the beginning of a session. */
  function ToBegin(floods: seq<Flood>, s: Session): nat {
    if floods == [] then 0
    else
      var f := floods[|floods| - 1];
      ToBegin(floods[..|floods| - 1], s) + if !f.Streaming? && f.session == s then 1 else 0
  }

  /** How many beginnings of a session are on their way. */
  function Beginning(out: seq<Msg>, s: Session): nat {
    if out == [] then 0
    else (if out[0].Begin? && out[0].session == s then 1 else 0) + Beginning(out[1..], s)
  }

  function Accumulating(p: Peer, s: Session): nat {
    if p.acc.Some? && p.acc.value.session == s then 1 else 0
  }

  function Done(completed: seq<Acc>, s: Session): nat {
    if completed == [] then 0
    else Done(completed[..|completed| - 1], s) + if completed[|completed| - 1].session == s then 1 else 0
  }

  function Tokens(l: Lane, s: Session): nat {
    ToBegin(l.floods, s) + Beginning(l.out, s) + Accumulating(l.rcv, s) + Done(l.rcv.completed, s)
  }

  lemma {:induction false} ToBeginConcat(a: seq<Flood>, b: seq<Flood>, s: Session)
    ensures ToBegin(a + b, s) == ToBegin(a, s) + ToBegin(b, s)
    decreases |b|
  {
    if b == [] {
      assert a + b == a;
    } else {
      assert (a + b)[..|a + b| - 1] == a + b[..|b| - 1];
      ToBeginConcat(a, b[..|b| - 1], s);
    }
  }

  lemma {:induction false} BeginningConcat(a: seq<Msg>, b: seq<Msg>, s: Session)
    ensures Beginning(a + b, s) == Beginning(a, s) + Beginning(b, s)
  {
    if a == [] {
      assert a + b == b;
    } else {
      assert (a + b)[1..] == a[1..] + b;
      BeginningConcat(a[1..], b, s);
    }
  }

  /** What a task sends begins its flood's session only if the flood had yet to begin and goes
      on, if at all, as one that has. */
  predicate Orderly(f: Flood, task: Task) {
    && (task.flood.Some? ==> task.flood.value.session == f.session && (f.Streaming? ==> task.flood.value.Streaming?))
    && (forall i :: 0 <= i < |task.sent| && task.sent[i].Begin? ==>
      i == 0 && f.Scanned? && task.sent[0].session == f.session)
    && (task.sent != [] ==> task.flood.Some? ==> task.flood.value.Streaming?)
  }

  lemma {:induction false} NoBeginning(out: seq<Msg>, s: Session)
    requires forall i :: 0 <= i < |out| ==> !out[i].Begin?
    ensures Beginning(out, s) == 0
  {
    if out != [] { NoBeginning(out[1..], s); }
  }

  /** A task moves its flood's token along or drops it. */
  lemma TaskTokens(n: Node, k: nat, task: Task, s: Session)
    requires k < |n.floods| && Orderly(n.floods[k], task)
    ensures ToBegin(Ran(n, k, task).floods, s) + Beginning(Ran(n, k, task).out, s)
         <= ToBegin(n.floods, s) + Beginning(n.out, s)
  {
    var left := if task.flood.Some? then [task.flood.value] else [];
    var before, after := n.floods[..k], n.floods[k + 1..];
    assert n.floods == before + [n.floods[k]] + after;
    ToBeginConcat(before + [n.floods[k]], after, s);
    ToBeginConcat(before, [n.floods[k]], s);
    ToBeginConcat(before + left, after, s);
    ToBeginConcat(before, left, s);
    BeginningConcat(n.out, task.sent, s);
    if task.sent != [] { NoBeginning(task.sent[1..], s); }
  }

  /** Completing passes the accumulator's token on. */
  lemma CompletionTokens(p: Peer, s: Session)
    ensures var q := CheckCompletion(p);
        Accumulating(q, s) + Done(q.completed, s) == Accumulating(p, s) + Done(p.completed, s)
  {
    var q := CheckCompletion(p);
    if q != p { assert q.completed[..|q.completed| - 1] == p.completed; }
  }

  lemma BeginTokens(p: Peer, session: Session, files: nat, dirs: nat, s: Session)
    ensures var q := OnBegin(p, session, files, dirs);
      Accumulating(q, s) + Done(q.completed, s)
        <= (if session == s then 1 else 0) + Accumulating(p, s) + Done(p.completed, s)
  {
    CompletionTokens(p.(progress := Progress(session, files, dirs, 0, 0), timer := session,
                        acc := Some(Acc(session, [], {}, files, dirs, 0, 0))), s);
  }

  lemma DirsTokens(p: Peer, creates: seq<Path>, s: Session)
    ensures var q := OnDirs(p, creates, 0);
        Accumulating(q, s) + Done(q.completed, s) == Accumulating(p, s) + Done(p.completed, s)
  {
    var p1 := p.(progress := p.progress.(receivedDirs := p.progress.receivedDirs + |creates|));
    CompletionTokens(if Live(p) then p1.(acc := Some(CountDirs(p.acc.value, creates, 0))) else p1, s);
  }

  lemma FilesTokens(p: Peer, batch: seq<FileInfo>, s: Session)
    ensures var q := OnFiles(p, batch);
        Accumulating(q, s) + Done(q.completed, s) == Accumulating(p, s) + Done(p.completed, s)
  {
    var p1 := p.(progress := p.progress.(receivedFiles := p.progress.receivedFiles + |Named(batch)|));
    CompletionTokens(if Live(p) then p1.(acc := Some(CountFiles(p.acc.value, Named(batch)))) else p1, s);
    hide Named, Done, CheckCompletion;
  }

  /** Handling a message moves the token of a beginning, or drops one. */
  lemma HandleTokens(p: Peer, out: seq<Msg>, s: Session)
    requires out != []
    ensures var q := Handle(p, out[0]);
      Beginning(out[1..], s) + Accumulating(q, s) + Done(q.completed, s)
        <= Beginning(out, s) + Accumulating(p, s) + Done(p.completed, s)
  {
    hide OnBegin, OnDirs, OnFiles;
    match out[0]
    case Begin(session, files, dirs) => BeginTokens(p, session, files, dirs, s);
    case Dirs(creates, _) => DirsTokens(p, creates, s);
    case Files(batch, _) => FilesTokens(p, batch, s);
    case Ack(_) =>
  }

  // ---------------------------------------------------------------- the invariant of all runs

  ghost predicate TokensOk(owner: map<Session, bool>, side: bool, l: Lane) {
    forall s :: Tokens(l, s) <= 1 && (Tokens(l, s) > 0 ==> s in owner && owner[s] == side)
  }

  predicate FloodOk(snaps: map<Session, Snapshot>, f: Flood) {
    if f.Waiting? then f.session !in snaps
    else f.session in snaps && f.snap == snaps[f.session] && (f.snap.files != [] || f.snap.dirs != [])
  }

  predicate FloodsOk(owner: map<Session, bool>, snaps: map<Session, Snapshot>, side: bool, floods: seq<Flood>) {
    && (forall k :: 0 <= k < |floods| ==>
          floods[k].session in owner && owner[floods[k].session] == side && FloodOk(snaps, floods[k]))
    && (forall j, k :: 0 <= j < k < |floods| ==> floods[j].session != floods[k].session)
  }

  predicate SnapsOk(w: World) {
    && 0 !in w.owner
    && (forall s :: s in w.snaps ==> s in w.owner && SnapshotOk(w.snaps[s]))
  }

  /** No accumulator waits that has all it expects. */
  predicate Unfinished(p: Peer) {
    p.acc.Some? ==> !Complete(p.acc.value)
  }

  ghost predicate SideOk(w: World, side: bool) {
    && TokensOk(w.owner, side, LaneOf(w, side))
    && FloodsOk(w.owner, w.snaps, side, At(w, side).floods)
    && Unfinished(At(w, side).peer)
  }

  ghost predicate Ids(w: World) {
    SnapsOk(w) && SideOk(w, true) && SideOk(w, false)
  }

  // ---------------------------------------------------------------- it is kept

  lemma FewerTokens(owner: map<Session, bool>, side: bool, l: Lane, owner1: map<Session, bool>, l1: Lane)
    requires TokensOk(owner, side, l) && forall s :: Tokens(l1, s) <= Tokens(l, s)
    requires forall s :: s in owner ==> s in owner1 && owner1[s] == owner[s]
    ensures TokensOk(owner1, side, l1)
  {
    forall s ensures Tokens(l1, s) <= 1 && (Tokens(l1, s) > 0 ==> s in owner1 && owner1[s] == side) {
      assert Tokens(l1, s) <= Tokens(l, s);
    }
  }

  /** A lane that differs in nothing that bears a token. */
  lemma SameTokens(owner: map<Session, bool>, side: bool, l: Lane, owner1: map<Session, bool>, l1: Lane)
    requires TokensOk(owner, side, l)
    requires l1.floods == l.floods && l1.out == l.out && l1.rcv.acc == l.rcv.acc && l1.rcv.completed == l.rcv.completed
    requires forall s :: s in owner ==> s in owner1 && owner1[s] == owner[s]
    ensures TokensOk(owner1, side, l1)
  {
    FewerTokens(owner, side, l, owner1, l1);
  }

  lemma OneMoreToken(owner: map<Session, bool>, side: bool, l: Lane, s: Session)
    requires TokensOk(owner, side, l) && s !in owner
    ensures TokensOk(owner[s := side], side, l.(floods := l.floods + [Waiting(s)]))
  {
    var l1 := l.(floods := l.floods + [Waiting(s)]);
    forall t ensures Tokens(l1, t) <= 1
      && (Tokens(l1, t) > 0 ==> t in owner[s := side] && owner[s := side][t] == side) {
      ToBeginConcat(l.floods, [Waiting(s)], t);
      assert [Waiting(s)][..0] == [];
      assert Tokens(l1, t) == Tokens(l, t) + if s == t then 1 else 0;
    }
  }

  lemma MoreOwners(owner: map<Session, bool>, snaps: map<Session, Snapshot>, side: bool, floods: seq<Flood>,
                   s: Session, o: bool)
    requires FloodsOk(owner, snaps, side, floods) && s !in owner
    ensures FloodsOk(owner[s := o], snaps, side, floods)
  {
  }

  lemma OneMoreFlood(owner: map<Session, bool>, snaps: map<Session, Snapshot>, side: bool, floods: seq<Flood>,
                     s: Session)
    requires FloodsOk(owner, snaps, side, floods) && s !in owner && s !in snaps
    ensures FloodsOk(owner[s := side], snaps, side, floods + [Waiting(s)])
  {
  }

  /** Replacing a flood by one of its own session, or dropping it. */
  lemma FloodReplaced(owner: map<Session, bool>, snaps: map<Session, Snapshot>, side: bool, floods: seq<Flood>,
                      k: nat, left: Option<Flood>)
    requires k < |floods| && FloodsOk(owner, snaps, side, floods[..k] + floods[k + 1..])
    requires floods[k].session in owner && owner[floods[k].session] == side
    requires forall j :: 0 <= j < |floods| && j != k ==> floods[j].session != floods[k].session
    requires left.Some? ==> left.value.session == floods[k].session && FloodOk(snaps, left.value)
    ensures FloodsOk(owner, snaps, side, floods[..k] + (if left.Some? then [left.value] else []) + floods[k + 1..])
  {
    var rest, l := floods[..k] + floods[k + 1..], if left.Some? then [left.value] else [];
    var floods1 := floods[..k] + l + floods[k + 1..];
    forall i | 0 <= i < |rest| ensures rest[i].session != floods[k].session {
      assert rest[i] == floods[if i < k then i else i + 1];
    }
    assert floods1 == rest[..k] + l + rest[k..];
  }

  lemma Rest(owner: map<Session, bool>, snaps: map<Session, Snapshot>, side: bool, floods: seq<Flood>, k: nat)
    requires k < |floods| && FloodsOk(owner, snaps, side, floods)
    ensures FloodsOk(owner, snaps, side, floods[..k] + floods[k + 1..])
    ensures forall j :: 0 <= j < |floods| && j != k ==> floods[j].session != floods[k].session
    ensures var rest := floods[..k] + floods[k + 1..];
        forall i :: 0 <= i < |rest| ==> rest[i].session != floods[k].session
  {
    var rest := floods[..k] + floods[k + 1..];
    forall i | 0 <= i < |rest| ensures rest[i] == floods[if i < k then i else i + 1] {
    }
  }

  lemma StartKeepsIds(w: World, side: bool, session: Session)
    requires Ids(w) && FreshSession(w, session)
    ensures Ids(Step(w, Start(side, session)))
  {
    hide TokensOk, FloodsOk;
    var w1 := Step(w, Start(side, session));
    OneMoreToken(w.owner, side, LaneOf(w, side), session);
    SameTokens(w1.owner, side, LaneOf(w, side).(floods := At(w1, side).floods), w1.owner, LaneOf(w1, side));
    SameTokens(w.owner, !side, LaneOf(w, !side), w1.owner, LaneOf(w1, !side));
    OneMoreFlood(w.owner, w.snaps, side, At(w, side).floods, session);
    MoreOwners(w.owner, w.snaps, !side, At(w, !side).floods, session, side);
  }

  lemma FloodFacts(owner: map<Session, bool>, snaps: map<Session, Snapshot>, side: bool, floods: seq<Flood>, k: nat)
    requires k < |floods| && FloodsOk(owner, snaps, side, floods)
    ensures floods[k].session in owner && owner[floods[k].session] == side && FloodOk(snaps, floods[k])
  {
  }

  lemma TaskKeepsTokens(w: World, side: bool, k: nat, task: Task)
    requires TokensOk(w.owner, side, LaneOf(w, side)) && k < |At(w, side).floods|
        && Orderly(At(w, side).floods[k], task)
    ensures TokensOk(w.owner, side, LaneOf(With(w, side, Ran(At(w, side), k, task)), side))
  {
    var l, l1 := LaneOf(w, side), LaneOf(With(w, side, Ran(At(w, side), k, task)), side);
    forall s ensures Tokens(l1, s) <= Tokens(l, s) {
      TaskTokens(At(w, side), k, task, s);
    }
    FewerTokens(w.owner, side, l, w.owner, l1);
  }

  lemma ScanKeepsFloods(w: World, side: bool, k: nat, snap: Snapshot)
    requires SnapsOk(w) && Allowed(w, Scan(side, k, snap))
    requires FloodsOk(w.owner, w.snaps, side, At(w, side).floods)
        && FloodsOk(w.owner, w.snaps, !side, At(w, !side).floods)
    ensures var w1 := Step(w, Scan(side, k, snap));
      SnapsOk(w1) && FloodsOk(w1.owner, w1.snaps, side, At(w1, side).floods)
        && FloodsOk(w1.owner, w1.snaps, !side, At(w1, !side).floods)
  {
    var n := At(w, side);
    var session := n.floods[k].session;
    var task := AfterScan(n.peer.progress.session, session, snap);
    FloodFacts(w.owner, w.snaps, side, n.floods, k);
    hide FloodsOk;
    Rest(w.owner, w.snaps, side, n.floods, k);
    FloodReplaced(w.owner, w.snaps[session := snap], side, n.floods, k, task.flood);
  }

  lemma ScanKeepsIds(w: World, side: bool, k: nat, snap: Snapshot)
    requires Ids(w) && Allowed(w, Scan(side, k, snap))
    ensures Ids(Step(w, Scan(side, k, snap)))
  {
    var n := At(w, side);
    var task := AfterScan(n.peer.progress.session, n.floods[k].session, snap);
    var w1 := Step(w, Scan(side, k, snap));
    hide TokensOk, FloodsOk, SnapsOk;
    ScanKeepsFloods(w, side, k, snap);
    TaskKeepsTokens(w, side, k, task);
    SameTokens(w.owner, side, LaneOf(With(w, side, Ran(n, k, task)), side), w.owner, LaneOf(w1, side));
    SameTokens(w.owner, !side, LaneOf(w, !side), w1.owner, LaneOf(w1, !side));
  }

  predicate IsTask(current: Session, f: Flood, task: Task) {
    || (f.Scanned? && task == AfterBegin(f.session, f.snap))
    || (f.Streaming? && task == AfterBatch(current, f.session, f.snap, f.next))
  }

  lemma TaskKeepsFloods(owner: map<Session, bool>, snaps: map<Session, Snapshot>, side: bool, n: Node, k: nat,
                        task: Task)
    requires FloodsOk(owner, snaps, side, n.floods) && k < |n.floods|
        && IsTask(n.peer.progress.session, n.floods[k], task)
    ensures FloodsOk(owner, snaps, side, Ran(n, k, task).floods) && Orderly(n.floods[k], task)
  {
    FloodFacts(owner, snaps, side, n.floods, k);
    hide FloodsOk;
    Rest(owner, snaps, side, n.floods, k);
    FloodReplaced(owner, snaps, side, n.floods, k, task.flood);
  }

  /** A scanned flood's next step. */
  lemma TaskKeepsIds(w: World, side: bool, k: nat, task: Task)
    requires Ids(w) && k < |At(w, side).floods|
        && IsTask(At(w, side).peer.progress.session, At(w, side).floods[k], task)
    ensures Ids(With(w, side, Ran(At(w, side), k, task)))
  {
    hide TokensOk, FloodsOk, IsTask, Orderly;
    var w1 := With(w, side, Ran(At(w, side), k, task));
    TaskKeepsFloods(w.owner, w.snaps, side, At(w, side), k, task);
    TaskKeepsTokens(w, side, k, task);
    SameTokens(w.owner, !side, LaneOf(w, !side), w1.owner, LaneOf(w1, !side));
  }

  lemma ReceivedKeepsIds(w: World, side: bool, w1: World)
    requires Ids(w) && At(w, !side).out != []
    requires var m := At(w, !side).out[0]; var n := At(w, side);
      w1 == With(With(w, !side, At(w, !side).(out := At(w, !side).out[1..])), side,
                 n.(peer := Handle(n.peer, m), seen := Advance(n.seen, m)))
    ensures Ids(w1)
  {
    var m, n := At(w, !side).out[0], At(w, side);
    HandleUnfinished(n.peer, m);
    hide TokensOk, FloodsOk, Handle, Unfinished;
    HandlingKeepsTokens(w.owner, !side, LaneOf(w, !side), LaneOf(w1, !side));
    SameTokens(w.owner, side, LaneOf(w, side), w.owner, LaneOf(w1, side));
  }

  lemma HandlingKeepsTokens(owner: map<Session, bool>, side: bool, l: Lane, l1: Lane)
    requires TokensOk(owner, side, l) && l.out != []
    requires l1.floods == l.floods && l1.out == l.out[1..] && l1.rcv == Handle(l.rcv, l.out[0])
    ensures TokensOk(owner, side, l1)
  {
    forall s ensures Tokens(l1, s) <= Tokens(l, s) {
      HandleTokens(l.rcv, l.out, s);
    }
    FewerTokens(owner, side, l, owner, l1);
  }

  lemma HandleUnfinished(p: Peer, m: Msg)
    requires Unfinished(p)
    ensures Unfinished(Handle(p, m))
  {
  }

  /** An owner more, who asks for nothing. */
  lemma SpareOwner(w: World, session: Session, side: bool)
    requires Ids(w) && FreshSession(w, session)
    ensures Ids(w.(owner := w.owner[session := side]))
  {
    hide TokensOk, FloodsOk;
    var w1 := w.(owner := w.owner[session := side]);
    SameTokens(w.owner, true, LaneOf(w, true), w1.owner, LaneOf(w1, true));
    SameTokens(w.owner, false, LaneOf(w, false), w1.owner, LaneOf(w1, false));
    MoreOwners(w.owner, w.snaps, true, At(w, true).floods, session, side);
    MoreOwners(w.owner, w.snaps, false, At(w, false).floods, session, side);
  }

  lemma DeliverKeepsIds(w: World, side: bool, newSession: Session)
    requires Ids(w) && Allowed(w, Deliver(side, newSession))
    ensures Ids(Step(w, Deliver(side, newSession)))
  {
    var m, n := At(w, !side).out[0], At(w, side);
    var w1 := With(With(w, !side, At(w, !side).(out := At(w, !side).out[1..])), side,
                   n.(peer := Handle(n.peer, m), seen := Advance(n.seen, m)));
    ReceivedKeepsIds(w, side, w1);
    if m.Ack? && m.reply.session == n.peer.progress.session {
      StartKeepsIds(w1, side, newSession);
    } else {
      SpareOwner(w1, newSession, side);
    }
  }

  lemma MoreOut(owner: map<Session, bool>, side: bool, l: Lane, sent: seq<Msg>)
    requires TokensOk(owner, side, l) && forall i :: 0 <= i < |sent| ==> !sent[i].Begin?
    ensures TokensOk(owner, side, l.(out := l.out + sent))
  {
    forall s ensures Tokens(l.(out := l.out + sent), s) == Tokens(l, s) {
      BeginningConcat(l.out, sent, s);
      NoBeginning(sent, s);
    }
    FewerTokens(owner, side, l, owner, l.(out := l.out + sent));
  }

  lemma TimeoutKeepsIds(w: World, side: bool)
    requires Ids(w)
    ensures Ids(Step(w, Timeout(side)))
  {
    hide TokensOk, FloodsOk;
    var w1 := Step(w, Timeout(side));
    var n, n1 := At(w, side), At(w1, side);
    var p := n.peer.progress;
    var sent := if TimesOut(n.peer) then [Ack(Reply(p.session, p.receivedFiles, p.receivedDirs))] else [];
    MoreOut(w.owner, side, LaneOf(w, side), sent);
    SameTokens(w.owner, side, LaneOf(w, side).(out := n1.out), w1.owner, LaneOf(w1, side));
    SameTokens(w.owner, !side, LaneOf(w, !side), w1.owner, LaneOf(w1, !side));
  }

  lemma ReconnectKeepsIds(w: World)
    requires Ids(w)
    ensures Ids(Step(w, Reconnect))
  {
    var w1 := Step(w, Reconnect);
    FewerTokens(w.owner, true, LaneOf(w, true), w1.owner, LaneOf(w1, true));
    FewerTokens(w.owner, false, LaneOf(w, false), w1.owner, LaneOf(w1, false));
  }

  lemma StepKeepsIds(w: World, op: Op)
    requires Ids(w) && Allowed(w, op)
    ensures Ids(Step(w, op))
  {
    match op
    case Start(side, session) => StartKeepsIds(w, side, session);
    case Scan(side, k, snap) => ScanKeepsIds(w, side, k, snap);
    case SendBegin(side, k) =>
      TaskKeepsIds(w, side, k, AfterBegin(At(w, side).floods[k].session, At(w, side).floods[k].snap));
    case SendBatch(side, k) =>
      var n := At(w, side);
      TaskKeepsIds(w, side, k, AfterBatch(n.peer.progress.session, n.floods[k].session, n.floods[k].snap,
        n.floods[k].next));
    case Deliver(side, newSession) => DeliverKeepsIds(w, side, newSession);
    case Timeout(side) => TimeoutKeepsIds(w, side);
    case Reconnect => ReconnectKeepsIds(w);
  }

  /** A run: a step that is not possible where it stands is skipped. */
  function Run(w: World, ops: seq<Op>): World {
    if ops == [] then w
    else
      var w1 := Run(w, ops[..|ops| - 1]);
      if Allowed(w1, ops[|ops| - 1]) then Step(w1, ops[|ops| - 1]) else w1
  }

  lemma {:induction false} RunKeepsIds(w: World, ops: seq<Op>)
    requires Ids(w)
    ensures Ids(Run(w, ops))
  {
    if ops != [] {
      var w1 := Run(w, ops[..|ops| - 1]);
      RunKeepsIds(w, ops[..|ops| - 1]);
      if Allowed(w1, ops[|ops| - 1]) { StepKeepsIds(w1, ops[|ops| - 1]); }
    }
  }

  lemma {:induction false} DoneHas(completed: seq<Acc>, i: nat, j: nat)
    requires i < |completed| && j < |completed|
    ensures Done(completed, completed[i].session) >= 1
    ensures i < j && completed[i].session == completed[j].session ==> Done(completed, completed[i].session) >= 2
    decreases |completed|
  {
    var init := completed[..|completed| - 1];
    if i < |init| { DoneHas(init, i, if j < |init| then j else i); }
  }

  /** In every run, from the first connection on, no session is completed twice on a side, none
      that is still being accumulated has been completed, and each was asked for by the other. */
  lemma EachSessionCompletesAtMostOnce(leftReceives: bool, rightReceives: bool, ops: seq<Op>, side: bool)
    ensures var w := Run(Initial(leftReceives, rightReceives), ops); var p := At(w, side).peer;
      && (forall i, j :: 0 <= i < j < |p.completed| ==> p.completed[i].session != p.completed[j].session)
      && (forall i :: 0 <= i < |p.completed| ==>
        p.completed[i].session in w.owner && w.owner[p.completed[i].session] == !side)
      && (forall i :: 0 <= i < |p.completed| && p.acc.Some? ==> p.completed[i].session != p.acc.value.session)
  {
    InitialIds(leftReceives, rightReceives);
    hide TokensOk, FloodsOk, SnapsOk, Initial;
    RunKeepsIds(Initial(leftReceives, rightReceives), ops);
    CompletedOnce(Run(Initial(leftReceives, rightReceives), ops), side);
  }

  lemma InitialIds(leftReceives: bool, rightReceives: bool)
    ensures Ids(Initial(leftReceives, rightReceives))
  {
    hide TokensOk, FloodsOk;
    var w := Initial(leftReceives, rightReceives);
    NoTokens(w.owner, true, LaneOf(w, true));
    NoTokens(w.owner, false, LaneOf(w, false));
    NoFloods(w.owner, w.snaps, true);
    NoFloods(w.owner, w.snaps, false);
  }

  lemma NoFloods(owner: map<Session, bool>, snaps: map<Session, Snapshot>, side: bool)
    ensures FloodsOk(owner, snaps, side, [])
  {
  }

  lemma NoTokens(owner: map<Session, bool>, side: bool, l: Lane)
    requires l.floods == [] && l.out == [] && l.rcv.acc.None? && l.rcv.completed == []
    ensures TokensOk(owner, side, l)
  {
  }

  lemma CompletedOnce(w: World, side: bool)
    requires TokensOk(w.owner, !side, LaneOf(w, !side))
    ensures var p := At(w, side).peer;
      && (forall i, j :: 0 <= i < j < |p.completed| ==> p.completed[i].session != p.completed[j].session)
      && (forall i :: 0 <= i < |p.completed| ==>
        p.completed[i].session in w.owner && w.owner[p.completed[i].session] == !side)
      && (forall i :: 0 <= i < |p.completed| && p.acc.Some? ==> p.completed[i].session != p.acc.value.session)
  {
    var p := At(w, side).peer;
    var l := LaneOf(w, !side);
    forall i, j | 0 <= i < |p.completed| && 0 <= j < |p.completed|
      ensures Tokens(l, p.completed[i].session) >= 1
      ensures i < j ==> p.completed[i].session != p.completed[j].session
      ensures p.acc.Some? ==> p.completed[i].session != p.acc.value.session
    {
      DoneHas(p.completed, i, j);
      assert Tokens(l, p.completed[i].session) >= Done(p.completed, p.completed[i].session);
    }
  }
}
