/** The file table behind a write-through cache: transactions, pending operations and
    read-your-own-writes. */
module Store {
  import opened Wrappers

  type Path = string
  type Thread = nat

  datatype Row = Row(hash: string, mtime: int)

  type Table = map<Path, Row>

  datatype PendingOp = Update(path: Path, row: Row) | Remove(path: Path)

  /** One open guard: the thread that owns it, what it has written, and whether it committed. */
  datatype Guard = Guard(owner: Thread, ops: seq<PendingOp>, committed: bool)

  /** The database is a committed table and, while a transaction is open, its working copy. */
  datatype State = State(committed: Table, working: Option<Table>, cache: Table, guard: Option<Guard>)

  function Lookup(t: Table, path: Path): Option<Row> {
    if path in t then Some(t[path]) else None
  }

  function Apply(t: Table, op: PendingOp): Table {
    match op
    case Update(path, row) => t[path := row]
    case Remove(path) => t - {path}
  }

  function Replay(t: Table, ops: seq<PendingOp>): Table {
    if ops == [] then t else Apply(Replay(t, ops[..|ops| - 1]), ops[|ops| - 1])
  }

  /** The newest pending operation on a path, if any, and what it leaves there. */
  function ScanBack(ops: seq<PendingOp>, path: Path): Option<Option<Row>> {
    if ops == [] then None
    else
      var last := ops[|ops| - 1];
      if last.path == path then Some(if last.Remove? then None else Some(last.row))
      else ScanBack(ops[..|ops| - 1], path)
  }

  /** Scanning backwards for the newest write equals replaying forwards and looking up. */
  lemma {:induction false} ScanBackIsReplay(t: Table, ops: seq<PendingOp>, path: Path)
    ensures Lookup(Replay(t, ops), path)
         == match ScanBack(ops, path) case Some(found) => found case None => Lookup(t, path)
  {
    if ops != [] { ScanBackIsReplay(t, ops[..|ops| - 1], path); }
  }

  // ---------------------------------------------------------------- operations

  predicate InTransaction(s: State, thread: Thread) {
    s.guard.Some? && s.guard.value.owner == thread && !s.guard.value.committed
  }

  /** The database mutex: while a guard lives only its thread reaches the database, and after
      its commit the guard writes nothing more. */
  predicate MayWrite(s: State, thread: Thread) {
    s.guard.Some? ==> InTransaction(s, thread)
  }

  function Write(s: State, op: PendingOp, ok: bool): State {
    if !ok then s
    else
      var s1 := if s.working.Some? then s.(working := Some(Apply(s.working.value, op)))
                else s.(committed := Apply(s.committed, op));
      if s.guard.Some? then s1.(guard := Some(s.guard.value.(ops := s.guard.value.ops + [op])))
      else s1.(cache := Apply(s.cache, op))
  }

  /** The thread's guard is alive, committed or not: its pending list is looked at first. */
  predicate Owns(s: State, thread: Thread) {
    s.guard.Some? && s.guard.value.owner == thread
  }

  function Get(s: State, thread: Thread, path: Path): Option<Row> {
    if Owns(s, thread) && ScanBack(s.guard.value.ops, path).Some?
    then ScanBack(s.guard.value.ops, path).value
    else Lookup(s.cache, path)
  }

  function Begin(s: State, thread: Thread): State {
    s.(working := Some(s.committed), guard := Some(Guard(thread, [], false)))
  }

  /** What a commit leaves of a pending operation: the metadata of an update is moved into the
      cache, that of a removal stays. */
  function Moved(op: PendingOp): PendingOp {
    match op
    case Update(_, row) => Update("", Row("", row.mtime))
    case Remove(_) => op
  }

  function AllMoved(ops: seq<PendingOp>): (moved: seq<PendingOp>)
    ensures |moved| == |ops| && forall k :: 0 <= k < |ops| ==> moved[k] == Moved(ops[k])
  {
    seq(|ops|, k requires 0 <= k < |ops| => Moved(ops[k]))
  }

  /** ok: whether the database accepts the commit; when it does not, the transaction stays open. */
  function Commit(s: State, ok: bool): State
    requires s.guard.Some?
  {
    var g := s.guard.value;
    if g.committed || !ok || s.working.None? then s
    else s.(committed := s.working.value, working := None, cache := Replay(s.cache, g.ops),
            guard := Some(g.(ops := AllMoved(g.ops), committed := true)))
  }

  /** The guard's destructor: rolls back unless it committed, and drops what was pending. */
  function Release(s: State): State
    requires s.guard.Some?
  {
    if s.guard.value.committed then s.(guard := None) else s.(working := None, guard := None)
  }

  /** The cache is filled with what the connection reads, an open transaction included. */
  function LoadCache(s: State): State {
    s.(cache := if s.working.Some? then s.working.value else s.committed)
  }

  // ---------------------------------------------------------------- the refinement

  /** Outside a transaction the cache is the committed table; inside one it still is, and
      together with the pending operations it is the uncommitted table. */
  predicate Agrees(s: State) {
    && s.cache == s.committed
    && match s.guard
       case None => s.working.None?
       case Some(g) =>
         if g.committed then s.working.None?
         else s.working.Some? && s.working.value == Replay(s.cache, g.ops)
  }

  datatype Op =
    | DoUpdate(thread: Thread, path: Path, row: Row, ok: bool)
    | DoRemove(thread: Thread, path: Path, ok: bool)
    | DoBegin(thread: Thread)
    | DoCommit(thread: Thread, ok: bool)
    | DoRelease(thread: Thread)

  /** Whether the database mutex lets the call through. */
  predicate Enabled(s: State, op: Op) {
    match op
    case DoUpdate(thread, _, _, _) => MayWrite(s, thread)
    case DoRemove(thread, _, _) => MayWrite(s, thread)
    case DoBegin(_) => s.guard.None?
    case DoCommit(thread, _) => s.guard.Some? && s.guard.value.owner == thread
    case DoRelease(thread) => s.guard.Some? && s.guard.value.owner == thread
  }

  function Step(s: State, op: Op): State
    requires Enabled(s, op)
  {
    match op
    case DoUpdate(_, path, row, ok) => Write(s, Update(path, row), ok)
    case DoRemove(_, path, ok) => Write(s, Remove(path), ok)
    case DoBegin(thread) => Begin(s, thread)
    case DoCommit(_, ok) => Commit(s, ok)
    case DoRelease(_) => Release(s)
  }

  lemma ReplayOneMore(t: Table, ops: seq<PendingOp>, op: PendingOp)
    ensures Replay(t, ops + [op]) == Apply(Replay(t, ops), op)
  {
    assert (ops + [op])[..|ops|] == ops;
  }

  lemma StepAgrees(s: State, op: Op)
    requires Agrees(s) && Enabled(s, op)
    ensures Agrees(Step(s, op))
  {
    if s.guard.Some? {
      match op
      case DoUpdate(_, path, row, _) => ReplayOneMore(s.cache, s.guard.value.ops, Update(path, row));
      case DoRemove(_, path, _) => ReplayOneMore(s.cache, s.guard.value.ops, Remove(path));
      case _ =>
    }
  }

  /** A run from a loaded cache; a call the mutex holds back does nothing yet. */
  function Run(t: Table, ops: seq<Op>): (s: State)
    ensures Agrees(s)
  {
    if ops == [] then State(t, None, t, None)
    else
      var s := Run(t, ops[..|ops| - 1]);
      if Enabled(s, ops[|ops| - 1]) then StepAgrees(s, ops[|ops| - 1]); Step(s, ops[|ops| - 1]) else s
  }

  /** After a commit only the removals are found in the pending list. */
  lemma {:induction false} ScanMoved(ops: seq<PendingOp>, path: Path)
    requires path != ""
    ensures ScanBack(AllMoved(ops), path) == if Remove(path) in ops then Some(None) else None
  {
    if ops != [] {
      var init, last := ops[..|ops| - 1], ops[|ops| - 1];
      ScanMoved(init, path);
      assert ops == init + [last] && AllMoved(ops)[..|init|] == AllMoved(init);
    }
  }

  /** A guard that has committed holds a pending list as the commit left it. */
  predicate OnlyMoved(ops: seq<PendingOp>) {
    forall op :: op in ops && op.Update? ==> op.path == ""
  }

  lemma {:induction false} ScanOnlyMoved(ops: seq<PendingOp>, path: Path)
    requires path != "" && OnlyMoved(ops)
    ensures ScanBack(ops, path) == if Remove(path) in ops then Some(None) else None
  {
    if ops != [] {
      var init, last := ops[..|ops| - 1], ops[|ops| - 1];
      assert ops == init + [last];
      ScanOnlyMoved(init, path);
    }
  }

  lemma {:induction false} RunMoves(t: Table, ops: seq<Op>)
    ensures var g := Run(t, ops).guard; g.Some? && g.value.committed ==> OnlyMoved(g.value.ops)
  {
    if ops != [] { RunMoves(t, ops[..|ops| - 1]); }
  }

  /** In every run: the cache is the committed table; the owner of a transaction reads its own
      uncommitted writes; every other thread reads the committed table. Between its commit and
      its end the owner reads the committed table too, but for the paths it had removed and
      then written again: those it does not find. */
  lemma ReadsAreRight(t: Table, ops: seq<Op>, thread: Thread, path: Path)
    ensures var s := Run(t, ops);
      && s.cache == s.committed
      && (!Owns(s, thread) ==> Get(s, thread, path) == Lookup(s.committed, path))
      && (InTransaction(s, thread) ==> Get(s, thread, path) == Lookup(s.working.value, path))
      && (Owns(s, thread) && s.guard.value.committed && path != "" ==>
            (Get(s, thread, path) == Lookup(s.committed, path)
             <==> !(Remove(path) in s.guard.value.ops && path in s.committed)))
  {
    var s := Run(t, ops);
    if InTransaction(s, thread) {
      ScanBackIsReplay(s.cache, s.guard.value.ops, path);
    } else if Owns(s, thread) && path != "" {
      RunMoves(t, ops);
      ScanOnlyMoved(s.guard.value.ops, path);
    }
  }

  /** Which paths those are: right after a commit the owner reads a path right if and only if the
      transaction's last operation on it was a removal, or none was. */
  lemma ReadAfterCommitExactly(s: State, thread: Thread, path: Path)
    requires Agrees(s) && InTransaction(s, thread) && path != ""
    ensures var s1, ops := Commit(s, true), s.guard.value.ops;
      Get(s1, thread, path) == Lookup(s1.committed, path)
      <==> (Remove(path) in ops ==> ScanBack(ops, path) == Some(None))
  {
    ScanBackIsReplay(s.cache, s.guard.value.ops, path);
    ScanMoved(s.guard.value.ops, path);
    if Remove(path) in s.guard.value.ops { RemoveIsFound(s.guard.value.ops, path); }
  }

  lemma {:induction false} RemoveIsFound(ops: seq<PendingOp>, path: Path)
    requires Remove(path) in ops
    ensures ScanBack(ops, path).Some?
  {
    var init, last := ops[..|ops| - 1], ops[|ops| - 1];
    assert ops == init + [last];
    if last.path != path { RemoveIsFound(init, path); }
  }

  /** Begin, remove a path, write it again, commit: until the guard is gone its thread does not
      find the row that everyone else reads. */
  lemma RewrittenIsNotFound(t: Table, thread: Thread, path: Path, row: Row)
    requires path != ""
    ensures var s := Run(t, [DoBegin(thread), DoRemove(thread, path, true), DoUpdate(thread, path, row, true),
        DoCommit(thread, true)]);
      Lookup(s.committed, path) == Some(row) && Get(s, thread, path) == None
  {
    var a, b, c, d := DoBegin(thread), DoRemove(thread, path, true), DoUpdate(thread, path, row, true),
      DoCommit(thread, true);
    assert [a, b, c, d][..3] == [a, b, c] && [a, b, c][..2] == [a, b] && [a, b][..1] == [a] && [a][..0] == [];
    var s1 := Step(State(t, None, t, None), a);
    assert Run(t, [a]) == s1;
    var s2 := Step(s1, b);
    assert Run(t, [a, b]) == s2;
    var s := Step(s2, c);
    assert Run(t, [a, b, c]) == s;
    assert Run(t, [a, b, c, d]) == Commit(s, true);
    hide Run;
    assert s.guard.value.ops == [Remove(path), Update(path, row)];
    assert AllMoved(s.guard.value.ops) == [Remove(path), Update("", Row("", row.mtime))];
    ScanOnlyMoved(AllMoved(s.guard.value.ops), path);
  }

  /** A transaction that is abandoned, or whose commit failed, leaves no trace. */
  lemma AbandonedLeavesNoTrace(s: State, thread: Thread, ops: seq<Op>)
    requires Agrees(s) && s.guard.None?
    requires forall k :: 0 <= k < |ops| ==>
      match ops[k] case DoUpdate(t, _, _, _) => t == thread case DoRemove(t, _, _) => t == thread
                   case DoCommit(t, ok) => t == thread && !ok case _ => false
    ensures var during := Within(Begin(s, thread), ops);
      during.guard.Some? && Release(during) == s
  {
    WithinGuard(Begin(s, thread), ops);
  }

  function Within(s: State, ops: seq<Op>): State {
    if ops == [] then s
    else
      var s1 := Within(s, ops[..|ops| - 1]);
      if Enabled(s1, ops[|ops| - 1]) then Step(s1, ops[|ops| - 1]) else s1
  }

  lemma {:induction false} WithinGuard(s: State, ops: seq<Op>)
    requires s.guard.Some? && s.working.Some? && !s.guard.value.committed
    requires forall k :: 0 <= k < |ops| ==>
      match ops[k] case DoUpdate(_, _, _, _) => true case DoRemove(_, _, _) => true
                   case DoCommit(_, ok) => !ok case _ => false
    ensures var d := Within(s, ops);
      && d.guard.Some? && d.working.Some? && !d.guard.value.committed && d.guard.value.owner == s.guard.value.owner
      && d.committed == s.committed && d.cache == s.cache
    decreases |ops|
  {
    if ops != [] { WithinGuard(s, ops[..|ops| - 1]); }
  }

  // ---------------------------------------------------------------- the objects

  class Database {
    var committed: Table
    var working: Option<Table>

    constructor (t: Table)
      ensures committed == t && working == None
    {
      committed, working := t, None;
    }

    method Execute(op: PendingOp, ok: bool) returns (done: bool)
      modifies this
      ensures done == ok
      ensures if !ok then unchanged(this)
              else if old(working).Some? then committed == old(committed)
                && working == Some(Apply(old(working).value, op))
              else committed == Apply(old(committed), op) && working == None
    {
      if !ok { return false; }
      if working.Some? {
        working := Some(Apply(working.value, op));
      } else {
        committed := Apply(committed, op);
      }
      return true;
    }

    method BeginTransaction()
      modifies this
      ensures committed == old(committed) && working == Some(committed)
    {
      working := Some(committed);
    }

    method CommitTransaction(ok: bool) returns (done: bool)
      modifies this
      ensures done == (ok && old(working).Some?)
      ensures if done then committed == old(working).value && working == None else unchanged(this)
    {
      if !ok || working.None? { return false; }
      committed, working := working.value, None;
      return true;
    }

    method RollbackTransaction()
      modifies this
      ensures committed == old(committed) && working == None
    {
      working := None;
    }

    /** What the connection reads: its own open transaction, else the committed table. */
    function Visible(): Table
      reads this
    {
      if working.Some? then working.value else committed
    }

    /** SELECT path, hash, mtime: the rows in some order. */
    method GetAllFiles() returns (rows: seq<(Path, Row)>)
      ensures forall k :: 0 <= k < |rows| ==> rows[k].0 in Visible() && rows[k].1 == Visible()[rows[k].0]
      ensures forall p :: p in Visible() ==> (p, Visible()[p]) in rows
      ensures forall j, k :: 0 <= j < k < |rows| ==> rows[j].0 != rows[k].0
    {
      var table := Visible();
      rows := [];
      var rest := table.Keys;
      while rest != {}
        invariant rest <= table.Keys
        invariant forall k :: 0 <= k < |rows| ==>
            rows[k].0 in table && rows[k].0 !in rest && rows[k].1 == table[rows[k].0]
        invariant forall p :: p in table && p !in rest ==> (p, table[p]) in rows
        invariant forall j, k :: 0 <= j < k < |rows| ==> rows[j].0 != rows[k].0
        decreases rest
      {
        var p :| p in rest;
        rows := rows + [(p, table[p])];
        rest := rest - {p};
      }
    }
  }

  class CachedFileStore {
    const db: Database
    var cache: Table
    var guard: Option<Guard>

    ghost function View(): State
      reads this, db
    {
      State(db.committed, db.working, cache, guard)
    }

    constructor (db: Database)
      ensures this.db == db && View() == LoadCache(State(db.committed, db.working, map[], None))
    {
      this.db := db;
      cache, guard := map[], None;
      new;
      LoadAll();
    }

    method LoadAll()
      modifies this`cache
      ensures View() == LoadCache(old(View()))
    {
      var rows := db.GetAllFiles();
      ghost var table := db.Visible();
      cache := map[];
      for i := 0 to |rows|
        invariant forall p :: p in cache ==> p in table && cache[p] == table[p]
        invariant forall k :: 0 <= k < i ==> rows[k].0 in cache
      {
        cache := cache[rows[i].0 := rows[i].1];
      }
      assert forall p :: p in table ==> p in cache by {
        forall p | p in table ensures p in cache {
          var k :| 0 <= k < |rows| && rows[k] == (p, table[p]);
          assert rows[k].0 in cache;
        }
      }
      assert cache == table;
    }

    /** The own guard's pending list first, newest first; then the shared cache. */
    method Lookup(thread: Thread, path: Path) returns (row: Option<Row>)
      ensures row == Get(View(), thread, path)
    {
      if guard.Some? && guard.value.owner == thread {
        var ops := guard.value.ops;
        var i := |ops|;
        assert ops[..i] == ops;
        while i > 0
          invariant 0 <= i <= |ops| && ScanBack(ops[..i], path) == ScanBack(ops, path)
        {
          i := i - 1;
          assert ops[..i + 1][..i] == ops[..i];
          if ops[i].path == path {
            if ops[i].Remove? { return None; }
            return Some(ops[i].row);
          }
        }
      }
      if path in cache { return Some(cache[path]); }
      return None;
    }

    method Put(thread: Thread, op: PendingOp, ok: bool) returns (done: bool)
      requires MayWrite(View(), thread)
      modifies this, db
      ensures done == ok && View() == Write(old(View()), op, ok)
    {
      done := db.Execute(op, ok);
      if !done { return; }
      if guard.Some? {
        guard := Some(guard.value.(ops := guard.value.ops + [op]));
      } else {
        match op
        case Update(path, row) => cache := cache[path := row];
        case Remove(path) => cache := cache - {path};
      }
    }

    method BeginGuard(thread: Thread)
      requires guard.None?
      modifies this`guard, db
      ensures View() == Begin(old(View()), thread)
    {
      db.BeginTransaction();
      guard := Some(Guard(thread, [], false));
    }

    method CommitGuard(ok: bool) returns (done: bool)
      requires guard.Some?
      modifies this, db
      ensures View() == Commit(old(View()), ok)
      ensures done == View().guard.value.committed
    {
      if guard.value.committed { return true; }
      done := db.CommitTransaction(ok);
      if !done { return; }
      ghost var was := guard.value.ops;
      var ops := guard.value.ops;
      for i := 0 to |ops|
        invariant |ops| == |was| && cache == Replay(old(cache), was[..i]) && guard == old(guard)
        invariant forall k :: 0 <= k < |was| ==> ops[k] == if k < i then Moved(was[k]) else was[k]
        invariant db.committed == old(db.working).value && db.working == None
      {
        assert was[..i + 1][..i] == was[..i];
        match ops[i]
        case Update(path, row) =>
          cache := cache[path := row];
          ops := ops[i := Update("", Row("", row.mtime))];
        case Remove(path) => cache := cache - {path};
      }
      assert was[..|was|] == was && ops == AllMoved(was);
      guard := Some(guard.value.(ops := ops, committed := true));
    }

    method ReleaseGuard()
      requires guard.Some?
      modifies this`guard, db
      ensures View() == Release(old(View()))
    {
      if !guard.value.committed { db.RollbackTransaction(); }
      guard := None;
    }
  }

  // ---------------------------------------------------------------- what is in the table

  /** Of a run: the writes that count, in order, and the guard that is open. */
  datatype Log = Log(kept: seq<PendingOp>, guard: Option<Guard>)

  function LogWrite(l: Log, thread: Thread, op: PendingOp, ok: bool): Log {
    match l.guard
    case None => if ok then l.(kept := l.kept + [op]) else l
    case Some(g) =>
      if ok && g.owner == thread && !g.committed then l.(guard := Some(g.(ops := g.ops + [op]))) else l
  }

  function LogOne(l: Log, op: Op): Log {
    match op
    case DoUpdate(thread, path, row, ok) => LogWrite(l, thread, Update(path, row), ok)
    case DoRemove(thread, path, ok) => LogWrite(l, thread, Remove(path), ok)
    case DoBegin(thread) => if l.guard.None? then l.(guard := Some(Guard(thread, [], false))) else l
    case DoCommit(thread, ok) =>
      if l.guard.Some? && l.guard.value.owner == thread && ok && !l.guard.value.committed
      then Log(l.kept + l.guard.value.ops, Some(Guard(thread, AllMoved(l.guard.value.ops), true))) else l
    case DoRelease(thread) => if l.guard.Some? && l.guard.value.owner == thread then l.(guard := None) else l
  }

  function LogOf(ops: seq<Op>): Log {
    if ops == [] then Log([], None) else LogOne(LogOf(ops[..|ops| - 1]), ops[|ops| - 1])
  }

  lemma {:induction false} ReplayConcat(t: Table, a: seq<PendingOp>, b: seq<PendingOp>)
    ensures Replay(t, a + b) == Replay(Replay(t, a), b)
    decreases |b|
  {
    if b == [] {
      assert a + b == a;
    } else {
      assert (a + b)[..|a + b| - 1] == a + b[..|b| - 1];
      ReplayConcat(t, a, b[..|b| - 1]);
    }
  }

  predicate Follows(t: Table, s: State, l: Log) {
    Agrees(s) && s.committed == Replay(t, l.kept) && s.guard == l.guard
  }

  lemma WriteFollows(t: Table, s: State, l: Log, thread: Thread, op: PendingOp, ok: bool)
    requires Follows(t, s, l)
    ensures var w := if MayWrite(s, thread) then Write(s, op, ok) else s; var m := LogWrite(l, thread, op, ok);
      w.committed == Replay(t, m.kept) && w.guard == m.guard
  {
    ReplayOneMore(t, l.kept, op);
    hide Replay, Apply;
  }

  lemma CommitFollows(t: Table, s: State, l: Log, thread: Thread, ok: bool)
    requires Follows(t, s, l) && s.guard.Some? && s.guard.value.owner == thread
    ensures var w, m := Commit(s, ok), LogOne(l, DoCommit(thread, ok));
      w.committed == Replay(t, m.kept) && w.guard == m.guard
  {
    ReplayConcat(t, l.kept, s.guard.value.ops);
    hide Replay, AllMoved;
  }

  lemma LogFollows(t: Table, s: State, l: Log, op: Op)
    requires Follows(t, s, l)
    ensures var w, m := if Enabled(s, op) then Step(s, op) else s, LogOne(l, op);
      w.committed == Replay(t, m.kept) && w.guard == m.guard
  {
    hide Replay, AllMoved;
    match op
    case DoUpdate(thread, path, row, ok) => WriteFollows(t, s, l, thread, Update(path, row), ok);
    case DoRemove(thread, path, ok) => WriteFollows(t, s, l, thread, Remove(path), ok);
    case DoCommit(thread, ok) =>
      if Enabled(s, op) { CommitFollows(t, s, l, thread, ok); }
    case _ =>
  }

  /** Durability in every run: the committed table is what was there at first with exactly these
      writes done to it in order: the accepted ones outside transactions, and those of every
      transaction at its commit. */
  lemma {:induction false} TableIsLog(t: Table, ops: seq<Op>)
    ensures var s, l := Run(t, ops), LogOf(ops); s.committed == Replay(t, l.kept) && s.guard == l.guard
    decreases |ops|
  {
    if ops != [] {
      var init, op := ops[..|ops| - 1], ops[|ops| - 1];
      TableIsLog(t, init);
      LogFollows(t, Run(t, init), LogOf(init), op);
      hide Step, LogOne, Replay, Agrees;
    }
  }

  /** A cache that has just been loaded answers every path as the connection would. */
  lemma LoadedCacheAnswers(s: State, thread: Thread, path: Path)
    requires s.guard.None?
    ensures Get(LoadCache(s), thread, path) == Lookup(if s.working.Some? then s.working.value else s.committed, path)
    ensures s.working.None? ==> Agrees(LoadCache(s))
  {
  }
}
