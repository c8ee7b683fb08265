/** What two lists of files, and two sets of directories, call for. */
module SyncPlan {
  import opened Wrappers
  import opened PathUtils
  import Scanning

  type Path = string

  type FileInfo = Scanning.FileInfo

  /** The hash recorded at the last successful synchronisation with the peer, if any. A query
      that throws counts as no record. */
  type History = Path -> Option<string>

  datatype Mode = OneWay | BiDirectional

  datatype Plan = Plan(requests: seq<Path>, deletes: seq<Path>, renames: seq<Path>)

  // ---------------------------------------------------------------- the plan as a function

  /** The last hash listed under each key. */
  function Hashes(files: seq<FileInfo>): map<string, string> {
    if files == [] then map[]
    else Hashes(files[..|files| - 1])[Key(files[|files| - 1].path) := files[|files| - 1].hash]
  }

  function Keys(files: seq<FileInfo>): set<string> {
    set k | 0 <= k < |files| :: Key(files[k].path)
  }

  predicate Differs(table: map<string, string>, f: FileInfo) {
    Key(f.path) !in table || table[Key(f.path)] != f.hash
  }

  /** The caller knows that the local and the remote hash differ. */
  predicate Conflict(localHash: string, base: Option<string>) {
    base.None? || localHash != base.value
  }

  predicate Renamed(table: map<string, string>, f: FileInfo, history: History, mode: Mode) {
    mode.BiDirectional? && Differs(table, f) && Key(f.path) in table && Conflict(table[Key(f.path)], history(f.path))
  }

  predicate Doomed(remoteKeys: set<string>, f: FileInfo, history: History, mode: Mode) {
    Key(f.path) !in remoteKeys && (mode.OneWay? || history(f.path) == Some(f.hash))
  }

  function Requests(table: map<string, string>, remote: seq<FileInfo>): seq<Path> {
    if remote == [] then []
    else
      var f := remote[|remote| - 1];
      Requests(table, remote[..|remote| - 1]) + if Differs(table, f) then [f.path] else []
  }

  function Renames(table: map<string, string>, remote: seq<FileInfo>, history: History, mode: Mode): seq<Path> {
    if remote == [] then []
    else
      var f := remote[|remote| - 1];
      Renames(table, remote[..|remote| - 1], history, mode) + if Renamed(table, f, history, mode) then [f.path] else []
  }

  function Deletes(local: seq<FileInfo>, remoteKeys: set<string>, history: History, mode: Mode): seq<Path> {
    if local == [] then []
    else
      var f := local[|local| - 1];
      Deletes(local[..|local| - 1], remoteKeys, history, mode)
        + if Doomed(remoteKeys, f, history, mode) then [f.path] else []
  }

  /** Without a history query there is no plan. */
  function Compare(local: seq<FileInfo>, remote: seq<FileInfo>, history: Option<History>, mode: Mode): Plan {
    if history.None? then Plan([], [], [])
    else
      Plan(Requests(Hashes(local), remote), Deletes(local, Keys(remote), history.value, mode),
           Renames(Hashes(local), remote, history.value, mode))
  }

  // ---------------------------------------------------------------- the loops

  function DetectConflict(localHash: string, history: Option<string>): (conflict: bool)
    ensures conflict <==> history != Some(localHash)
  {
    match history
    case None => true
    case Some(base) => localHash != base
  }

  method LocalHashes(local: seq<FileInfo>) returns (table: map<string, string>)
    ensures table == Hashes(local)
  {
    table := map[];
    for i := 0 to |local|
      invariant table == Hashes(local[..i])
    {
      assert local[..i + 1][..i] == local[..i];
      var normal := Normalize(local[i].path);
      table := table[Lower(normal) := local[i].hash];
    }
    assert local[..|local|] == local;
  }

  method RemoteKeys(remote: seq<FileInfo>) returns (keys: set<string>)
    ensures keys == Keys(remote)
  {
    keys := {};
    for i := 0 to |remote|
      invariant keys == Keys(remote[..i])
    {
      var normal := Normalize(remote[i].path);
      assert Keys(remote[..i + 1]) == Keys(remote[..i]) + {Key(remote[i].path)} by {
        assert remote[..i + 1][i] == remote[i];
        assert forall k :: 0 <= k < i ==> remote[..i + 1][k] == remote[..i][k];
      }
      keys := keys + {Lower(normal)};
    }
    assert remote[..|remote|] == remote;
  }

  method FindRequests(table: map<string, string>, remote: seq<FileInfo>, history: History, mode: Mode)
    returns (requests: seq<Path>, renames: seq<Path>)
    ensures requests == Requests(table, remote) && renames == Renames(table, remote, history, mode)
  {
    requests, renames := [], [];
    for i := 0 to |remote|
      invariant requests == Requests(table, remote[..i]) && renames == Renames(table, remote[..i], history, mode)
    {
      assert remote[..i + 1][..i] == remote[..i];
      var f := remote[i];
      var normal := Normalize(f.path);
      if Lower(normal) !in table {
        requests := requests + [f.path];
      } else if table[Lower(normal)] != f.hash {
        var conflict := false;
        if mode.BiDirectional? {
          conflict := DetectConflict(table[Lower(normal)], history(f.path));
        }
        if conflict { renames := renames + [f.path]; }
        requests := requests + [f.path];
      }
    }
    assert remote[..|remote|] == remote;
  }

  method FindDeletes(local: seq<FileInfo>, remoteKeys: set<string>, history: History, mode: Mode)
    returns (deletes: seq<Path>)
    ensures deletes == Deletes(local, remoteKeys, history, mode)
  {
    deletes := [];
    for i := 0 to |local|
      invariant deletes == Deletes(local[..i], remoteKeys, history, mode)
    {
      assert local[..i + 1][..i] == local[..i];
      var f := local[i];
      var normal := Normalize(f.path);
      if Lower(normal) in remoteKeys { continue; }
      if mode.OneWay? {
        deletes := deletes + [f.path];
      } else {
        var base := history(f.path);
        if base.Some? && base.value == f.hash { deletes := deletes + [f.path]; }
      }
    }
    assert local[..|local|] == local;
  }

  method CompareStatesAndGetRequests(local: seq<FileInfo>, remote: seq<FileInfo>, history: Option<History>, mode: Mode)
    returns (plan: Plan)
    ensures plan == Compare(local, remote, history, mode)
  {
    if history.None? { return Plan([], [], []); }
    var table := LocalHashes(local);
    var keys := RemoteKeys(remote);
    var requests, renames := FindRequests(table, remote, history.value, mode);
    var deletes := FindDeletes(local, keys, history.value, mode);
    return Plan(requests, deletes, renames);
  }

  // ---------------------------------------------------------------- what the lists contain

  lemma {:induction false} RequestsExactly(table: map<string, string>, remote: seq<FileInfo>, p: Path)
    ensures p in Requests(table, remote) <==> exists f :: f in remote && f.path == p && Differs(table, f)
  {
    if remote != [] {
      var init, f := remote[..|remote| - 1], remote[|remote| - 1];
      RequestsExactly(table, init, p);
      assert remote == init + [f];
    }
  }

  lemma {:induction false} RenamesExactly(table: map<string, string>, remote: seq<FileInfo>, history: History,
                                          mode: Mode, p: Path)
    ensures p in Renames(table, remote, history, mode)
        <==> exists f :: f in remote && f.path == p && Renamed(table, f, history, mode)
  {
    if remote != [] {
      var init, f := remote[..|remote| - 1], remote[|remote| - 1];
      RenamesExactly(table, init, history, mode, p);
      assert remote == init + [f];
    }
  }

  lemma {:induction false} DeletesExactly(local: seq<FileInfo>, remoteKeys: set<string>, history: History,
                                          mode: Mode, p: Path)
    ensures p in Deletes(local, remoteKeys, history, mode)
        <==> exists f :: f in local && f.path == p && Doomed(remoteKeys, f, history, mode)
  {
    if local != [] {
      var init, f := local[..|local| - 1], local[|local| - 1];
      DeletesExactly(init, remoteKeys, history, mode, p);
      assert local == init + [f];
    }
  }

  lemma {:induction false} HashesKeys(files: seq<FileInfo>)
    ensures Hashes(files).Keys == Keys(files)
  {
    if files != [] {
      var init, f := files[..|files| - 1], files[|files| - 1];
      HashesKeys(init);
      assert forall k :: 0 <= k < |init| ==> files[k] == init[k];
      assert Keys(files) == Keys(init) + {Key(f.path)};
    }
  }

  /** What the table holds comes from the list. */
  lemma {:induction false} HashesFrom(files: seq<FileInfo>, key: string)
    requires key in Hashes(files)
    ensures exists f :: f in files && Key(f.path) == key && f.hash == Hashes(files)[key]
  {
    var init, f := files[..|files| - 1], files[|files| - 1];
    assert files == init + [f];
    if Key(f.path) != key {
      HashesFrom(init, key);
    }
  }

  /** A plan in either mode, list by list: what is requested, deleted and renamed. */
  lemma PlanExactly(local: seq<FileInfo>, remote: seq<FileInfo>, history: History, mode: Mode, p: Path)
    ensures var plan, table := Compare(local, remote, Some(history), mode), Hashes(local);
      && (p in plan.requests <==>
            exists g :: g in remote && g.path == p && (Key(p) !in table || table[Key(p)] != g.hash))
      && (p in plan.deletes <==>
            && Key(p) !in Keys(remote)
            && exists f :: f in local && f.path == p && (mode == OneWay || history(p) == Some(f.hash)))
      && (p in plan.renames <==>
            mode == BiDirectional && p in plan.requests && Key(p) in table && history(p) != Some(table[Key(p)]))
  {
    var table := Hashes(local);
    RequestsExactly(table, remote, p);
    RenamesExactly(table, remote, history, mode, p);
    DeletesExactly(local, Keys(remote), history, mode, p);
  }

  predicate NoRepeats(paths: seq<Path>) {
    forall i, j :: 0 <= i < j < |paths| ==> paths[i] != paths[j]
  }

  function PathsOf(files: seq<FileInfo>): seq<Path> {
    seq(|files|, i requires 0 <= i < |files| => files[i].path)
  }

  lemma {:induction false} RequestsOnce(table: map<string, string>, remote: seq<FileInfo>, history: History, mode: Mode)
    requires NoRepeats(PathsOf(remote))
    ensures NoRepeats(Requests(table, remote)) && NoRepeats(Renames(table, remote, history, mode))
  {
    if remote != [] {
      var init, f := remote[..|remote| - 1], remote[|remote| - 1];
      assert PathsOf(init) == PathsOf(remote)[..|init|];
      RequestsOnce(table, init, history, mode);
      LastPathIsNew(remote);
      RequestsExactly(table, init, f.path);
      RenamesExactly(table, init, history, mode, f.path);
    }
  }

  lemma {:induction false} DeletesOnce(local: seq<FileInfo>, remoteKeys: set<string>, history: History, mode: Mode)
    requires NoRepeats(PathsOf(local))
    ensures NoRepeats(Deletes(local, remoteKeys, history, mode))
  {
    if local != [] {
      var init, f := local[..|local| - 1], local[|local| - 1];
      assert PathsOf(init) == PathsOf(local)[..|init|];
      DeletesOnce(init, remoteKeys, history, mode);
      LastPathIsNew(local);
      DeletesExactly(init, remoteKeys, history, mode, f.path);
    }
  }

  lemma LastPathIsNew(files: seq<FileInfo>)
    requires NoRepeats(PathsOf(files)) && files != []
    ensures forall g :: g in files[..|files| - 1] ==> g.path != files[|files| - 1].path
  {
    var init, f := files[..|files| - 1], files[|files| - 1];
    forall g | g in init ensures g.path != f.path {
      var i :| 0 <= i < |init| && init[i] == g;
      assert PathsOf(files)[i] == g.path && PathsOf(files)[|init|] == f.path;
    }
  }

  /** Nothing is asked for, deleted or renamed twice. */
  lemma PlanHasNoRepeats(local: seq<FileInfo>, remote: seq<FileInfo>, history: History, mode: Mode)
    requires NoRepeats(PathsOf(local)) && NoRepeats(PathsOf(remote))
    ensures var plan := Compare(local, remote, Some(history), mode);
      NoRepeats(plan.requests) && NoRepeats(plan.deletes) && NoRepeats(plan.renames)
  {
    RequestsOnce(Hashes(local), remote, history, mode);
    DeletesOnce(local, Keys(remote), history, mode);
  }

  // ---------------------------------------------------------------- directories

  function DirKeys(dirs: seq<Path>): set<string> {
    set d | d in dirs :: Key(d)
  }

  /** The directories whose key is not among the keys, in order. */
  function Missing(dirs: seq<Path>, keys: set<string>): (missing: seq<Path>)
    ensures forall d :: d in missing <==> d in dirs && Key(d) !in keys
  {
    if dirs == [] then []
    else
      var d := dirs[|dirs| - 1];
      assert dirs == dirs[..|dirs| - 1] + [d];
      Missing(dirs[..|dirs| - 1], keys) + if Key(d) in keys then [] else [d]
  }

  lemma DirKeysOneMore(dirs: seq<Path>, d: Path)
    ensures DirKeys(dirs + [d]) == DirKeys(dirs) + {Key(d)}
  {
    assert d in dirs + [d];
    forall k | k in DirKeys(dirs) ensures k in DirKeys(dirs + [d]) {
      var e :| e in dirs && Key(e) == k;
      assert e in dirs + [d];
    }
  }

  method KeysOf(dirs: seq<Path>) returns (keys: set<string>)
    ensures keys == DirKeys(dirs)
  {
    keys := {};
    for i := 0 to |dirs|
      invariant keys == DirKeys(dirs[..i])
    {
      var normal := Normalize(dirs[i]);
      DirKeysOneMore(dirs[..i], dirs[i]);
      assert dirs[..i + 1] == dirs[..i] + [dirs[i]];
      keys := keys + {Lower(normal)};
    }
    assert dirs[..|dirs|] == dirs;
  }

  method FindMissing(dirs: seq<Path>, keys: set<string>) returns (missing: seq<Path>)
    ensures missing == Missing(dirs, keys)
  {
    missing := [];
    for i := 0 to |dirs|
      invariant missing == Missing(dirs[..i], keys)
    {
      assert dirs[..i + 1][..i] == dirs[..i];
      var normal := Normalize(dirs[i]);
      if Lower(normal) !in keys { missing := missing + [dirs[i]]; }
    }
    assert dirs[..|dirs|] == dirs;
  }

  /** The two sets of directories, each in the order it is iterated. */
  method CompareDirStates(local: seq<Path>, remote: seq<Path>) returns (toCreate: seq<Path>, toDelete: seq<Path>)
    ensures toCreate == Missing(remote, DirKeys(local)) && toDelete == Missing(local, DirKeys(remote))
  {
    var localKeys := KeysOf(local);
    var remoteKeys := KeysOf(remote);
    toCreate := FindMissing(remote, localKeys);
    toDelete := FindMissing(local, remoteKeys);
  }

  /** Dropping what is to be deleted and adding what is to be created gives the peer's keys, and
      neither list undoes the other. */
  lemma DirPlanConverges(local: seq<Path>, remote: seq<Path>)
    ensures var toCreate, toDelete := Missing(remote, DirKeys(local)), Missing(local, DirKeys(remote));
      && DirKeys(local) - DirKeys(toDelete) + DirKeys(toCreate) == DirKeys(remote)
      && DirKeys(toCreate) !! DirKeys(toDelete)
  {
    var toCreate, toDelete := Missing(remote, DirKeys(local)), Missing(local, DirKeys(remote));
    forall k | k in DirKeys(remote) && k !in DirKeys(local) ensures k in DirKeys(toCreate) {
      var d :| d in remote && Key(d) == k;
      assert d in toCreate;
    }
    forall k | k in DirKeys(local) && k !in DirKeys(remote) ensures k in DirKeys(toDelete) {
      var d :| d in local && Key(d) == k;
      assert d in toDelete;
    }
  }

  // ---------------------------------------------------------------- two-way safety

  /** In two-way mode no local edit is lost by the plan: what is deleted has the hash recorded
      for it and no counterpart at the peer; a local file that a request overwrites either has
      the recorded hash or is renamed first; and nothing is both requested and deleted. */
  lemma TwoWayPlanIsSafe(local: seq<FileInfo>, remote: seq<FileInfo>, history: History, p: Path)
    ensures var plan := Compare(local, remote, Some(history), BiDirectional);
      && (p in plan.deletes ==>
            Key(p) !in Keys(remote) && exists f :: f in local && f.path == p && history(p) == Some(f.hash))
      && (p in plan.requests && Key(p) in Hashes(local) && p !in plan.renames ==>
            history(p) == Some(Hashes(local)[Key(p)]))
      && (p in plan.renames ==>
            p in plan.requests && Key(p) in Hashes(local) && history(p) != Some(Hashes(local)[Key(p)]))
      && (forall q :: p in plan.deletes && q in plan.requests ==> Key(p) != Key(q))
  {
    var table := Hashes(local);
    RequestsExactly(table, remote, p);
    RenamesExactly(table, remote, history, BiDirectional, p);
    DeletesExactly(local, Keys(remote), history, BiDirectional, p);
    forall q | q in Requests(table, remote) ensures Key(q) in Keys(remote) {
      RequestsExactly(table, remote, q);
    }
  }

  /** A local file that the peer does not have is deleted in two-way mode exactly when it still
      is what was last synchronised. */
  lemma TwoWayDeletesExactly(local: seq<FileInfo>, remote: seq<FileInfo>, history: History, f: FileInfo)
    requires f in local && forall g :: g in local && g.path == f.path ==> g == f
    ensures f.path in Compare(local, remote, Some(history), BiDirectional).deletes
       <==> Key(f.path) !in Keys(remote) && history(f.path) == Some(f.hash)
  {
    DeletesExactly(local, Keys(remote), history, BiDirectional, f.path);
  }

  // ---------------------------------------------------------------- one-way convergence

  /** The hash of the file that answers a request: the last one listed under the very path. */
  function HashAt(files: seq<FileInfo>, p: Path): Option<string> {
    if files == [] then None
    else if files[|files| - 1].path == p then Some(files[|files| - 1].hash)
    else HashAt(files[..|files| - 1], p)
  }

  /** Each requested path in turn, put under its name with the hash it is answered with. */
  function Fetched(m: map<string, string>, requests: seq<Path>, remote: seq<FileInfo>, name: Path -> string)
    : map<string, string>
  {
    if requests == [] then m
    else
      var p := requests[|requests| - 1];
      var m1 := Fetched(m, requests[..|requests| - 1], remote, name);
      match HashAt(remote, p)
      case None => m1
      case Some(hash) => m1[name(p) := hash]
  }

  function Without(m: map<string, string>, deletes: seq<Path>, name: Path -> string): map<string, string> {
    m - (set p | p in deletes :: name(p))
  }

  /** A table after a plan is carried out: what it deletes is gone, what it requests has come. */
  function Executed(m: map<string, string>, plan: Plan, remote: seq<FileInfo>, name: Path -> string)
    : map<string, string>
  {
    Fetched(Without(m, plan.deletes, name), plan.requests, remote, name)
  }

  /** No key is listed with two hashes. */
  predicate Unambiguous(remote: seq<FileInfo>) {
    forall f, g :: f in remote && g in remote && Key(f.path) == Key(g.path) ==> f.hash == g.hash
  }

  lemma {:induction false} HashAtListed(files: seq<FileInfo>, p: Path)
    ensures HashAt(files, p).Some? <==> exists f :: f in files && f.path == p
    ensures HashAt(files, p).Some? ==> exists f :: f in files && f.path == p && f.hash == HashAt(files, p).value
  {
    if files != [] {
      var init, last := files[..|files| - 1], files[|files| - 1];
      assert files == init + [last];
      HashAtListed(init, p);
    }
  }

  lemma {:induction false} FetchedAt(m: map<string, string>, requests: seq<Path>, remote: seq<FileInfo>,
                                     name: Path -> string, at: string)
    requires forall p :: p in requests ==> HashAt(remote, p).Some?
    ensures var after := Fetched(m, requests, remote, name);
      if exists p :: p in requests && name(p) == at
      then at in after && exists p :: p in requests && name(p) == at && HashAt(remote, p) == Some(after[at])
      else (at in after <==> at in m) && (at in m ==> after[at] == m[at])
  {
    if requests != [] {
      var init, p := requests[..|requests| - 1], requests[|requests| - 1];
      assert requests == init + [p];
      FetchedAt(m, init, remote, name, at);
    }
  }

  lemma RequestsAnswered(table: map<string, string>, remote: seq<FileInfo>)
    ensures forall p :: p in Requests(table, remote) ==> HashAt(remote, p).Some?
  {
    forall p | p in Requests(table, remote) ensures HashAt(remote, p).Some? {
      RequestsExactly(table, remote, p);
      HashAtListed(remote, p);
    }
  }

  /** A local file that a plan of this mode may keep although the peer lacks it. */
  ghost predicate Stays(local: seq<FileInfo>, history: History, mode: Mode, key: string) {
    mode.BiDirectional? && key in Hashes(local)
    && forall f :: f in local && Key(f.path) == key ==> history(f.path) != Some(f.hash)
  }

  /** Under a key the peer has there is one of its hashes; under any other there is what was there
      if it stays, and else nothing. */
  ghost predicate ExecutedRight(local: seq<FileInfo>, remote: seq<FileInfo>, history: History, mode: Mode, key: string,
                                after: map<string, string>)
  {
    if key in Keys(remote) then
      key in after && exists f :: f in remote && Key(f.path) == key && f.hash == after[key]
    else
      && (key in after <==> Stays(local, history, mode, key))
      && (key in after ==> key in Hashes(local) && after[key] == Hashes(local)[key])
  }

  lemma ExecutedAt(local: seq<FileInfo>, remote: seq<FileInfo>, history: History, mode: Mode, key: string)
    ensures ExecutedRight(local, remote, history, mode, key,
        Executed(Hashes(local), Compare(local, remote, Some(history), mode), remote, Key))
  {
    var table, plan := Hashes(local), Compare(local, remote, Some(history), mode);
    if exists p :: p in plan.requests && Key(p) == key {
      FetchedKey(Without(table, plan.deletes, Key), table, remote, key);
    } else {
      LeftKey(local, remote, history, mode, key);
    }
  }

  lemma FetchedKey(m: map<string, string>, table: map<string, string>, remote: seq<FileInfo>, key: string)
    requires exists p :: p in Requests(table, remote) && Key(p) == key
    ensures var after := Fetched(m, Requests(table, remote), remote, Key);
      key in after && key in Keys(remote) && exists f :: f in remote && Key(f.path) == key && f.hash == after[key]
  {
    RequestsAnswered(table, remote);
    hide Requests, Keys, HashAt, Fetched;
    RequestedKey(table, remote, key);
    FetchedAt(m, Requests(table, remote), remote, Key, key);
  }

  lemma LeftKey(local: seq<FileInfo>, remote: seq<FileInfo>, history: History, mode: Mode, key: string)
    requires forall p :: p in Requests(Hashes(local), remote) ==> Key(p) != key
    ensures var plan := Compare(local, remote, Some(history), mode);
      ExecutedRight(local, remote, history, mode, key, Executed(Hashes(local), plan, remote, Key))
  {
    var table, plan := Hashes(local), Compare(local, remote, Some(history), mode);
    RequestsAnswered(table, remote);
    hide Requests, Deletes, Renames, Hashes, Keys, HashAt, Fetched, Without;
    FetchedAt(Without(table, plan.deletes, Key), plan.requests, remote, Key, key);
    NotRequested(table, remote, key);
    KeptKey(local, remote, history, mode, key);
  }

  lemma RequestedKey(table: map<string, string>, remote: seq<FileInfo>, key: string)
    requires exists p :: p in Requests(table, remote) && Key(p) == key
    ensures key in Keys(remote)
    ensures forall p :: p in Requests(table, remote) && Key(p) == key ==>
      HashAt(remote, p).Some? && exists f :: f in remote && Key(f.path) == key && f.hash == HashAt(remote, p).value
  {
    forall p | p in Requests(table, remote) && Key(p) == key
      ensures HashAt(remote, p).Some?
      ensures exists f :: f in remote && Key(f.path) == key && f.hash == HashAt(remote, p).value
      ensures key in Keys(remote)
    {
      RequestsExactly(table, remote, p);
      HashAtListed(remote, p);
      var f :| f in remote && f.path == p;
      KeyListed(remote, f);
    }
  }

  lemma NotRequested(table: map<string, string>, remote: seq<FileInfo>, key: string)
    requires forall p :: p in Requests(table, remote) ==> Key(p) != key
    ensures forall f :: f in remote && Key(f.path) == key ==> !Differs(table, f)
  {
    forall f | f in remote && Key(f.path) == key ensures !Differs(table, f) {
      RequestsExactly(table, remote, f.path);
    }
  }

  /** The deletions take exactly the keys that the peer does not have and that do not stay. */
  lemma KeptKey(local: seq<FileInfo>, remote: seq<FileInfo>, history: History, mode: Mode, key: string)
    ensures var plan := Compare(local, remote, Some(history), mode);
      var kept := Without(Hashes(local), plan.deletes, Key);
      (key in kept <==> key in Hashes(local) && (key in Keys(remote) || Stays(local, history, mode, key)))
        && (key in kept ==> kept[key] == Hashes(local)[key])
    ensures key in Keys(remote) ==> exists f :: f in remote && Key(f.path) == key
  {
    var deletes := Deletes(local, Keys(remote), history, mode);
    if key in Hashes(local) && key !in Keys(remote) && !Stays(local, history, mode, key) {
      HashesFrom(local, key);
      var f :| f in local && Key(f.path) == key && (mode.BiDirectional? ==> history(f.path) == Some(f.hash));
      DeletesExactly(local, Keys(remote), history, mode, f.path);
    }
    forall p | p in deletes ensures Key(p) !in Keys(remote) && !Stays(local, history, mode, Key(p)) {
      DeletesExactly(local, Keys(remote), history, mode, p);
    }
    if key in Keys(remote) {
      var i :| 0 <= i < |remote| && Key(remote[i].path) == key;
      assert remote[i] in remote;
    }
  }

  /** A table with the peer's keys, each holding one of the peer's hashes for it. */
  ghost predicate DrawnFrom(table: map<string, string>, remote: seq<FileInfo>) {
    && table.Keys == Keys(remote)
    && forall key :: key in table ==> exists f :: f in remote && Key(f.path) == key && f.hash == table[key]
  }

  lemma ExecutedIsDrawn(local: seq<FileInfo>, remote: seq<FileInfo>, history: History)
    ensures DrawnFrom(Executed(Hashes(local), Compare(local, remote, Some(history), OneWay), remote, Key), remote)
  {
    var after := Executed(Hashes(local), Compare(local, remote, Some(history), OneWay), remote, Key);
    forall key ensures key in after <==> key in Keys(remote)
               ensures key in after ==> exists f :: f in remote && Key(f.path) == key && f.hash == after[key]
    {
      ExecutedAt(local, remote, history, OneWay, key);
    }
  }

  lemma KeyListed(remote: seq<FileInfo>, f: FileInfo)
    requires f in remote
    ensures Key(f.path) in Keys(remote)
  {
    var i :| 0 <= i < |remote| && remote[i] == f;
  }

  lemma DrawnIsSettled(table: map<string, string>, remote: seq<FileInfo>)
    requires DrawnFrom(table, remote) && Unambiguous(remote)
    ensures Requests(table, remote) == [] && table == Hashes(remote)
  {
    forall f | f in remote ensures !Differs(table, f) {
      KeyListed(remote, f);
    }
    NothingRequested(table, remote);
    HashesKeys(remote);
    forall key | key in table ensures Hashes(remote)[key] == table[key] {
      HashesFrom(remote, key);
    }
  }

  lemma AmbiguousNeverSettles(table: map<string, string>, remote: seq<FileInfo>)
    requires !Unambiguous(remote)
    ensures Requests(table, remote) != []
  {
    var f, g :| f in remote && g in remote && Key(f.path) == Key(g.path) && f.hash != g.hash;
    var h := if Differs(table, f) then f else g;
    RequestsExactly(table, remote, h.path);
  }

  /** One-way mode: whatever both lists hold, once the plan's own deletions and requests are
      carried out the next comparison asks for nothing exactly when no key of the peer's list has
      two hashes; and then the local table is the peer's. */
  lemma OneWayConvergesExactly(local: seq<FileInfo>, remote: seq<FileInfo>, history: History, after: seq<FileInfo>)
    requires Hashes(after) == Executed(Hashes(local), Compare(local, remote, Some(history), OneWay), remote, Key)
    ensures Compare(after, remote, Some(history), OneWay) == Plan([], [], []) <==> Unambiguous(remote)
    ensures Unambiguous(remote) ==> Hashes(after) == Hashes(remote)
  {
    ExecutedIsDrawn(local, remote, history);
    hide Executed;
    NothingToDelete(after, remote, history);
    NothingToRename(Hashes(after), remote, history);
    if Unambiguous(remote) {
      DrawnIsSettled(Hashes(after), remote);
    } else {
      AmbiguousNeverSettles(Hashes(after), remote);
    }
  }

  // ---------------------------------------------------------------- two-way convergence

  /** What a two-way plan leaves: the peer's keys with the peer's hashes, and the local files that
      stay with theirs. */
  lemma TwoWayLeaves(local: seq<FileInfo>, remote: seq<FileInfo>, history: History, key: string)
    requires Unambiguous(remote)
    ensures var after := Executed(Hashes(local), Compare(local, remote, Some(history), BiDirectional), remote, Key);
      if key in Keys(remote) then key in after && key in Hashes(remote) && after[key] == Hashes(remote)[key]
      else
        && (key in after <==> Stays(local, history, BiDirectional, key))
        && (key in after ==> after[key] == Hashes(local)[key])
  {
    ExecutedAt(local, remote, history, BiDirectional, key);
    HashesKeys(remote);
    if key in Keys(remote) { HashesFrom(remote, key); }
  }

  /** Two-way mode: once the plan's own deletions and requests are carried out, the next comparison
      asks for nothing exactly when no key of the peer's list has two hashes. In between, whatever
      has come from the peer may have been recorded as synchronised. */
  lemma TwoWayConvergesExactly(local: seq<FileInfo>, remote: seq<FileInfo>, history: History, after: seq<FileInfo>,
                               later: History)
    requires Hashes(after) == Executed(Hashes(local), Compare(local, remote, Some(history), BiDirectional), remote, Key)
    requires forall f :: f in after ==> Key(f.path) in Keys(remote) || f in local
    requires forall p :: Key(p) !in Keys(remote) ==> later(p) == history(p)
    ensures Compare(after, remote, Some(later), BiDirectional) == Plan([], [], []) <==> Unambiguous(remote)
  {
    hide Executed, Requests, Renames, Deletes;
    NothingMoreDeleted(local, remote, history, after, later);
    if Unambiguous(remote) {
      forall f | f in remote ensures !Differs(Hashes(after), f) {
        KeyListed(remote, f);
        TwoWayLeaves(local, remote, history, Key(f.path));
        HashesFrom(remote, Key(f.path));
      }
      NothingRequested(Hashes(after), remote);
      NoMoreRenames(Hashes(after), remote, later);
    } else {
      AmbiguousNeverSettles(Hashes(after), remote);
    }
  }

  lemma NothingMoreDeleted(local: seq<FileInfo>, remote: seq<FileInfo>, history: History, after: seq<FileInfo>,
                           later: History)
    requires Hashes(after) == Executed(Hashes(local), Compare(local, remote, Some(history), BiDirectional), remote, Key)
    requires forall f :: f in after ==> Key(f.path) in Keys(remote) || f in local
    requires forall p :: Key(p) !in Keys(remote) ==> later(p) == history(p)
    ensures Deletes(after, Keys(remote), later, BiDirectional) == []
  {
    var deletes := Deletes(after, Keys(remote), later, BiDirectional);
    if deletes != [] {
      DeletesExactly(after, Keys(remote), later, BiDirectional, deletes[0]);
      var f :| f in after && f.path == deletes[0] && Doomed(Keys(remote), f, later, BiDirectional);
      KeyListed(after, f);
      HashesKeys(after);
      ExecutedAt(local, remote, history, BiDirectional, Key(f.path));
    }
  }

  lemma NoMoreRenames(table: map<string, string>, remote: seq<FileInfo>, history: History)
    requires forall f :: f in remote ==> !Differs(table, f)
    ensures Renames(table, remote, history, BiDirectional) == []
  {
    var renames := Renames(table, remote, history, BiDirectional);
    if renames != [] { RenamesExactly(table, remote, history, BiDirectional, renames[0]); }
  }

  lemma {:induction false} NothingRequested(table: map<string, string>, remote: seq<FileInfo>)
    requires forall f :: f in remote ==> !Differs(table, f)
    ensures Requests(table, remote) == []
  {
    if remote != [] {
      assert remote[|remote| - 1] in remote;
      NothingRequested(table, remote[..|remote| - 1]);
    }
  }

  lemma NothingToDelete(after: seq<FileInfo>, remote: seq<FileInfo>, history: History)
    requires Hashes(after).Keys == Keys(remote)
    ensures Deletes(after, Keys(remote), history, OneWay) == []
  {
    HashesKeys(after);
    forall f | f in after ensures Key(f.path) in Keys(remote) { KeyListed(after, f); }
    var deletes := Deletes(after, Keys(remote), history, OneWay);
    if deletes != [] {
      DeletesExactly(after, Keys(remote), history, OneWay, deletes[0]);
    }
  }

  lemma NothingToRename(table: map<string, string>, remote: seq<FileInfo>, history: History)
    ensures Renames(table, remote, history, OneWay) == []
  {
    var renames := Renames(table, remote, history, OneWay);
    if renames != [] {
      RenamesExactly(table, remote, history, OneWay, renames[0]);
    }
  }
}
