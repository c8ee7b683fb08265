/** When flood synchronisation is safe: as long as two races are avoided, whatever is handed on
    for reconciliation is exactly what the sender's scan found. */
module FloodSafety {
  import opened Wrappers
  import opened FloodPeer
  import opened FloodSync
  import opened FloodIds

  // ---------------------------------------------------------------- the flood as a stream

  function DirMessages(snap: Snapshot): nat {
    if snap.dirs == [] then 0 else 1
  }

  /** Whether a message is what comes next after the place. */
  predicate Fits(snaps: map<Session, Snapshot>, place: Place, m: Msg) {
    match m
    case Begin(s, files, dirs) => s in snaps && files == |snaps[s].files| && dirs == |snaps[s].dirs|
      && (files > 0 || dirs > 0)
    case Dirs(creates, tag) =>
      tag == place.session && tag in snaps && place.pos == 1 && snaps[tag].dirs != [] && creates == snaps[tag].dirs
    case Files(batch, tag) =>
      && tag == place.session && tag in snaps && place.pos >= 1 + DirMessages(snaps[tag])
      && var n := place.pos - 1 - DirMessages(snaps[tag]);
      Unsent(snaps[tag], n) && batch == Batch(snaps[tag].files, n)
    case Ack(_) => true
  }

  /** The channel holds pieces of floods, each begun and in order, the first going on from the place. */
  predicate Tagged(snaps: map<Session, Snapshot>, out: seq<Msg>, place: Place) {
    out != [] ==> Fits(snaps, place, out[0]) && Tagged(snaps, out[1..], Advance(place, out[0]))
  }

  function EndOf(out: seq<Msg>, place: Place): Place {
    if out == [] then place else EndOf(out[1..], Advance(place, out[0]))
  }

  /** The accumulator after so many messages of a flood, its beginning included. */
  function AccAt(s: Session, snap: Snapshot, pos: nat): Acc
    requires pos >= 1
  {
    var k := if pos > DirMessages(snap) then Offset(snap.files, pos - 1 - DirMessages(snap)) else 0;
    var someDirs := pos >= 2 && snap.dirs != [];
    Acc(s, snap.files[..k], if someDirs then set d | d in snap.dirs else {}, |snap.files|, |snap.dirs|,
        k, if someDirs then |snap.dirs| else 0)
  }

  lemma {:induction false} OneMoreSent(snaps: map<Session, Snapshot>, out: seq<Msg>, place: Place, m: Msg)
    ensures Tagged(snaps, out + [m], place) <==> Tagged(snaps, out, place) && Fits(snaps, EndOf(out, place), m)
    ensures EndOf(out + [m], place) == Advance(EndOf(out, place), m)
  {
    if out == [] {
      assert [m][1..] == [];
    } else {
      assert (out + [m])[1..] == out[1..] + [m];
      OneMoreSent(snaps, out[1..], Advance(place, out[0]), m);
    }
  }

  lemma {:induction false} TaggedWithMore(snaps: map<Session, Snapshot>, out: seq<Msg>, place: Place, s: Session,
                                          snap: Snapshot)
    requires Tagged(snaps, out, place) && s !in snaps
    ensures Tagged(snaps[s := snap], out, place)
  {
    if out != [] { TaggedWithMore(snaps, out[1..], Advance(place, out[0]), s, snap); }
  }

  // ---------------------------------------------------------------- the invariant of a direction

  predicate Counting(p: Peer) {
    p.receives && Live(p)
  }

  /** What a flood that goes on has sent is all that has been sent since its beginning. */
  predicate StreamAtEnd(l: Lane, f: Flood) {
    f.Streaming? && f.session == l.sigma && Unsent(f.snap, f.next) ==>
      EndOf(l.out, l.seen) == Place(l.sigma, 1 + DirMessages(f.snap) + f.next)
  }

  predicate StreamsAtEnd(l: Lane) {
    forall f :: f in l.floods ==> StreamAtEnd(l, f)
  }

  /** An accumulator that counts has counted all of its flood that has arrived, and nothing else. */
  predicate CountsExactly(snaps: map<Session, Snapshot>, l: Lane) {
    Counting(l.rcv) ==>
      var s := l.rcv.progress.session;
      l.seen.session == s && s in snaps && l.seen.pos >= 1 && l.rcv.acc.value == AccAt(s, snaps[s], l.seen.pos)
  }

  predicate InStep(snaps: map<Session, Snapshot>, l: Lane) {
    Tagged(snaps, l.out, l.seen) && StreamsAtEnd(l) && CountsExactly(snaps, l)
  }

  // ---------------------------------------------------------------- the sender's steps

  lemma SenderRestarts(snaps: map<Session, Snapshot>, l: Lane, session: Session, more: seq<Flood>)
    requires InStep(snaps, l) && forall f :: f in more ==> f.Waiting?
    requires session == l.sigma || forall f :: f in l.floods ==> f.session != session
    ensures InStep(snaps, l.(sigma := session, floods := l.floods + more))
  {
    hide Tagged, EndOf, AccAt;
  }

  lemma SenderScans(snaps: map<Session, Snapshot>, l: Lane, floods: seq<Flood>, s: Session, snap: Snapshot)
    requires InStep(snaps, l) && s !in snaps && forall f :: f in floods ==> f in l.floods || f.Scanned?
    ensures InStep(snaps[s := snap], l.(floods := floods))
  {
    TaggedWithMore(snaps, l.out, l.seen, s, snap);
    hide Tagged, EndOf;
  }

  /** Some flood still has files to send, and its session is the current one. */
  predicate MidStream(l: Lane) {
    exists f :: f in l.floods && f.Streaming? && f.session == l.sigma && Unsent(f.snap, f.next)
  }

  /** The first messages of a flood keep the direction in step exactly when they do not cut into
      another flood. */
  lemma SenderBegins(snaps: map<Session, Snapshot>, l: Lane, floods: seq<Flood>, f: Flood)
    requires InStep(snaps, l) && f in l.floods && f.Scanned? && FloodOk(snaps, f)
    requires forall g :: g in l.floods && g != f ==> g.session != f.session
    requires var task := AfterBegin(f.session, f.snap);
        forall g :: g in floods <==> (g in l.floods && g != f) || Some(g) == task.flood
    ensures InStep(snaps, l.(floods := floods, out := l.out + AfterBegin(f.session, f.snap).sent)) <==> !MidStream(l)
  {
    var task := AfterBegin(f.session, f.snap);
    var l1 := l.(floods := floods, out := l.out + task.sent);
    BeginningFits(snaps, l, f);
    hide Tagged, EndOf, Fits, AccAt;
    if g :| g in l.floods && g.Streaming? && g.session == l.sigma && Unsent(g.snap, g.next) {
      assert g in floods && !StreamAtEnd(l1, g);
    } else {
      forall g | g in floods ensures StreamAtEnd(l1, g) { }
    }
  }

  lemma BeginningFits(snaps: map<Session, Snapshot>, l: Lane, f: Flood)
    requires Tagged(snaps, l.out, l.seen) && f.Scanned? && FloodOk(snaps, f)
    ensures var out := l.out + AfterBegin(f.session, f.snap).sent;
      Tagged(snaps, out, l.seen) && EndOf(out, l.seen) == Place(f.session, 1 + DirMessages(f.snap))
  {
    var begin := Begin(f.session, |f.snap.files|, |f.snap.dirs|);
    OneMoreSent(snaps, l.out, l.seen, begin);
    OneMoreSent(snaps, l.out + [begin], l.seen, Dirs(f.snap.dirs, f.session));
    assert l.out + ([begin] + [Dirs(f.snap.dirs, f.session)]) == (l.out + [begin]) + [Dirs(f.snap.dirs, f.session)];
    assert [begin] + [] == [begin];
  }

  lemma SenderStreams(snaps: map<Session, Snapshot>, l: Lane, floods: seq<Flood>, f: Flood)
    requires InStep(snaps, l) && f in l.floods && f.Streaming? && FloodOk(snaps, f)
    requires forall g :: g in l.floods && g != f ==> g.session != f.session
    requires var task := AfterBatch(l.sigma, f.session, f.snap, f.next);
        forall g :: g in floods <==> (g in l.floods && g != f) || Some(g) == task.flood
    ensures InStep(snaps, l.(floods := floods, out := l.out + AfterBatch(l.sigma, f.session, f.snap, f.next).sent))
  {
    var task := AfterBatch(l.sigma, f.session, f.snap, f.next);
    var l1 := l.(floods := floods, out := l.out + task.sent);
    assert StreamAtEnd(l, f);
    if task.sent != [] {
      OneMoreSent(snaps, l.out, l.seen, task.sent[0]);
    } else {
      assert l1.out == l.out;
    }
    hide Tagged, EndOf, AccAt;
    forall g | g in floods ensures StreamAtEnd(l1, g) { }
  }

  lemma SenderAcknowledges(snaps: map<Session, Snapshot>, l: Lane, reply: Reply)
    requires InStep(snaps, l) && forall f :: f in l.floods ==> f.session != 0
    ensures InStep(snaps, l.(sigma := 0, out := l.out + [Ack(reply)]))
  {
    OneMoreSent(snaps, l.out, l.seen, Ack(reply));
    hide Tagged, EndOf, AccAt;
  }

  // ---------------------------------------------------------------- the receiver's steps

  /** A session that is not the accumulator's: from then on nothing is counted. */
  lemma ReceiverLeaves(snaps: map<Session, Snapshot>, l: Lane, p: Peer)
    requires InStep(snaps, l) && p.receives == l.rcv.receives && p.acc == l.rcv.acc
    requires p.progress.session == l.rcv.progress.session || p.progress.session == 0 || p.acc.None?
        || p.acc.value.session != p.progress.session
    ensures InStep(snaps, l.(rcv := p))
  {
    hide Tagged, EndOf, AccAt;
    assert forall f :: StreamAtEnd(l.(rcv := p), f) <==> StreamAtEnd(l, f);
  }

  predicate ExactlyOf(snaps: map<Session, Snapshot>, acc: Acc) {
    && acc.session in snaps && acc.files == snaps[acc.session].files
    && acc.dirs == (set d | d in snaps[acc.session].dirs)
    && (acc.files != [] || acc.dirs != {})
  }

  predicate AllExact(snaps: map<Session, Snapshot>, completed: seq<Acc>) {
    forall i :: 0 <= i < |completed| ==> ExactlyOf(snaps, completed[i])
  }

  /** A beginning that is ignored while batches are being counted. */
  predicate Misses(p: Peer, m: Msg) {
    m.Begin? && Ignores(p) && Counting(p)
  }

  function Taken(l: Lane): Lane
    requires l.out != []
  {
    l.(out := l.out[1..], seen := Advance(l.seen, l.out[0]), rcv := Handle(l.rcv, l.out[0]))
  }

  lemma RestInStep(snaps: map<Session, Snapshot>, l: Lane)
    requires InStep(snaps, l) && l.out != []
    ensures Fits(snaps, l.seen, l.out[0]) && Tagged(snaps, Taken(l).out, Taken(l).seen) && StreamsAtEnd(Taken(l))
  {
    assert EndOf(Taken(l).out, Taken(l).seen) == EndOf(l.out, l.seen);
    hide Handle;
    assert forall f :: StreamAtEnd(Taken(l), f) <==> StreamAtEnd(l, f);
  }

  /** What the accumulator holds when it has all it expects is the whole snapshot. */
  lemma FullIsExact(snaps: map<Session, Snapshot>, s: Session, pos: nat)
    requires s in snaps && pos >= 1 && Complete(AccAt(s, snaps[s], pos))
        && (snaps[s].files != [] || snaps[s].dirs != [])
    ensures ExactlyOf(snaps, AccAt(s, snaps[s], pos))
  {
    var snap := snaps[s];
    assert AccAt(s, snap, pos).files == snap.files;
    if snap.files == [] { assert snap.dirs[0] in AccAt(s, snap, pos).dirs; }
    if snap.dirs == [] { assert (set d | d in snap.dirs) == {}; }
  }

  lemma NextFiles(s: Session, snap: Snapshot, pos: nat, batch: seq<FileInfo>)
    requires pos >= 1 + DirMessages(snap) && batch == Batch(snap.files, pos - 1 - DirMessages(snap))
    ensures CountFiles(AccAt(s, snap, pos), batch) == AccAt(s, snap, pos + 1)
  {
    var n := pos - 1 - DirMessages(snap);
    assert snap.files[..Offset(snap.files, n)] + Batch(snap.files, n) == snap.files[..Offset(snap.files, n + 1)];
  }

  lemma NextDirs(s: Session, snap: Snapshot, creates: seq<Path>)
    requires snap.dirs != [] && creates == snap.dirs
    ensures CountDirs(AccAt(s, snap, 1), creates, 0) == AccAt(s, snap, 2)
  {
    assert Offset(snap.files, 0) == 0;
  }

  /** Whoever counts the next state of a live accumulator stays exact. */
  lemma CompletionExact(snaps: map<Session, Snapshot>, p: Peer, s: Session, pos: nat)
    requires s in snaps && s != 0 && pos >= 1 && p.acc == Some(AccAt(s, snaps[s], pos)) && AllExact(snaps, p.completed)
    requires snaps[s].files != [] || snaps[s].dirs != []
    ensures AllExact(snaps, CheckCompletion(p).completed)
    ensures CheckCompletion(p).acc.Some? ==> CheckCompletion(p).acc == p.acc
  {
    if Complete(p.acc.value) { FullIsExact(snaps, s, pos); }
    hide ExactlyOf, AccAt;
  }

  lemma BatchIsNamed(snap: Snapshot, n: nat)
    requires SnapshotOk(snap)
    ensures Named(Batch(snap.files, n)) == Batch(snap.files, n)
  {
    assert forall f :: f in Batch(snap.files, n) ==> f in snap.files;
    NamedIsAll(Batch(snap.files, n));
  }

  /** A batch that nobody counts. */
  lemma UncountedFiles(p: Peer, batch: seq<FileInfo>)
    requires Unfinished(p) && !Counting(p)
    ensures var q := OnFiles(p, batch); !Counting(q) && q.completed == p.completed
  {
    hide Named;
  }

  lemma CountedFiles(p: Peer, batch: seq<FileInfo>)
    requires Counting(p) && Named(batch) == batch
    ensures OnFiles(p, batch) == CheckCompletion(
        p.(progress := p.progress.(receivedFiles := p.progress.receivedFiles + |batch|),
           acc := Some(CountFiles(p.acc.value, batch))))
  {
    hide Named, CheckCompletion;
  }

  /** A counting peer with the next state of its accumulator. */
  lemma CountedIsExact(snaps: map<Session, Snapshot>, l: Lane, p: Peer, s: Session, pos: nat)
    requires s in snaps && s != 0 && pos >= 1 && p.acc == Some(AccAt(s, snaps[s], pos)) && AllExact(snaps, p.completed)
    requires snaps[s].files != [] || snaps[s].dirs != []
    requires p.progress.session == s && l.seen == Place(s, pos)
    ensures CountsExactly(snaps, l.(rcv := CheckCompletion(p))) && AllExact(snaps, CheckCompletion(p).completed)
  {
    CompletionExact(snaps, p, s, pos);
    hide AccAt, ExactlyOf, Complete;
  }

  lemma TakeFiles(snaps: map<Session, Snapshot>, l: Lane)
    requires InStep(snaps, l) && l.out != [] && l.out[0].Files? && Unfinished(l.rcv) && AllExact(snaps, l.rcv.completed)
    requires forall s :: s in snaps ==> SnapshotOk(snaps[s])
    ensures CountsExactly(snaps, Taken(l)) && AllExact(snaps, Taken(l).rcv.completed)
  {
    RestInStep(snaps, l);
    var p, batch := l.rcv, l.out[0].batch;
    if Counting(p) {
      var s := p.progress.session;
      BatchIsNamed(snaps[s], l.seen.pos - 1 - DirMessages(snaps[s]));
      NextFiles(s, snaps[s], l.seen.pos, batch);
      assert snaps[s].files != [];
      hide AccAt, Named, Tagged, EndOf, ExactlyOf, SnapshotOk, Batch, OnFiles, CheckCompletion;
      CountedFiles(p, batch);
      CountedIsExact(snaps, Taken(l), p.(progress := p.progress.(receivedFiles := p.progress.receivedFiles + |batch|),
        acc := Some(AccAt(s, snaps[s], l.seen.pos + 1))), s, l.seen.pos + 1);
    } else {
      hide AccAt, Tagged, EndOf, ExactlyOf, SnapshotOk, Batch, OnFiles;
      UncountedFiles(p, batch);
    }
  }

  lemma TakeDirs(snaps: map<Session, Snapshot>, l: Lane)
    requires InStep(snaps, l) && l.out != [] && l.out[0].Dirs? && Unfinished(l.rcv) && AllExact(snaps, l.rcv.completed)
    ensures CountsExactly(snaps, Taken(l)) && AllExact(snaps, Taken(l).rcv.completed)
  {
    RestInStep(snaps, l);
    var p, creates := l.rcv, l.out[0].creates;
    if Counting(p) {
      var s := p.progress.session;
      NextDirs(s, snaps[s], creates);
      var counted := p.(progress := p.progress.(receivedDirs := p.progress.receivedDirs + |creates|),
        acc := Some(AccAt(s, snaps[s], 2)));
      hide AccAt, Tagged, EndOf, ExactlyOf;
      CompletionExact(snaps, counted, s, 2);
    } else {
      hide AccAt, Tagged, EndOf, ExactlyOf;
    }
  }

  /** A beginning keeps the direction in step exactly when it is not missed. */
  lemma TakeBegin(snaps: map<Session, Snapshot>, l: Lane)
    requires InStep(snaps, l) && l.out != [] && l.out[0].Begin? && AllExact(snaps, l.rcv.completed)
    requires l.rcv.acc.Some? ==> l.rcv.acc.value.session != l.out[0].session
    ensures CountsExactly(snaps, Taken(l)) <==> !Misses(l.rcv, l.out[0])
    ensures AllExact(snaps, Taken(l).rcv.completed)
  {
    RestInStep(snaps, l);
    var s := l.out[0].session;
    assert Offset(snaps[s].files, 0) == 0;
    assert AccAt(s, snaps[s], 1) == Acc(s, [], {}, |snaps[s].files|, |snaps[s].dirs|, 0, 0);
    hide AccAt, Tagged, EndOf, ExactlyOf;
  }

  /** Taking a message from the channel keeps the direction in step exactly when no beginning is
      missed, and completes nothing that is not exact. */
  lemma TakeKeepsStep(snaps: map<Session, Snapshot>, l: Lane)
    requires InStep(snaps, l) && l.out != [] && Unfinished(l.rcv) && AllExact(snaps, l.rcv.completed)
    requires l.out[0].Begin? && l.rcv.acc.Some? ==> l.rcv.acc.value.session != l.out[0].session
    requires forall s :: s in snaps ==> SnapshotOk(snaps[s])
    ensures InStep(snaps, Taken(l)) <==> !Misses(l.rcv, l.out[0])
    ensures AllExact(snaps, Taken(l).rcv.completed)
  {
    RestInStep(snaps, l);
    if l.out[0].Begin? {
      TakeBegin(snaps, l);
    } else if l.out[0].Dirs? {
      TakeDirs(snaps, l);
    } else if l.out[0].Files? {
      TakeFiles(snaps, l);
    } else {
      hide AccAt, Tagged, EndOf, ExactlyOf;
    }
  }
}
