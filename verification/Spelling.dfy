/** One-way plans on a file system that tells upper from lower case: the tables fold the case of
    a path, but a download creates the file under the peer's spelling. */
module Spelling {
  import opened Wrappers
  import opened PathUtils
  import opened SyncPlan
  import Scanning

  predicate OnePerKey(files: seq<FileInfo>) {
    forall f, g :: f in files && g in files && Key(f.path) == Key(g.path) ==> f == g
  }

  /** The last hash listed under each exact path. */
  function ByPath(files: seq<FileInfo>): map<Path, string> {
    if files == [] then map[]
    else ByPath(files[..|files| - 1])[files[|files| - 1].path := files[|files| - 1].hash]
  }

  function Exact(p: Path): Path {
    p
  }

  /** The files once a one-way plan is carried out path by path: its deletions and its requests. */
  function FilesAfter(local: seq<FileInfo>, remote: seq<FileInfo>, history: History): map<Path, string> {
    Executed(ByPath(local), Compare(local, remote, Some(history), OneWay), remote, Exact)
  }

  /** A list of the files there are, in some order. */
  ghost predicate Lists(files: seq<FileInfo>, m: map<Path, string>) {
    && (forall f :: f in files ==> f.path in m && m[f.path] == f.hash)
    && (forall p :: p in m ==> exists f :: f in files && f.path == p)
  }

  /** Where the two sides differ they spell the path alike. */
  predicate ChangedAreSpelledAlike(local: seq<FileInfo>, remote: seq<FileInfo>) {
    forall l, r :: l in local && r in remote && Key(l.path) == Key(r.path) && l.hash != r.hash ==> l.path == r.path
  }

  lemma {:induction false} ByPathAt(files: seq<FileInfo>, p: Path)
    ensures p in ByPath(files) <==> exists f :: f in files && f.path == p
    ensures p in ByPath(files) ==> exists f :: f in files && f.path == p && f.hash == ByPath(files)[p]
  {
    if files != [] {
      var init, last := files[..|files| - 1], files[|files| - 1];
      assert files == init + [last];
      ByPathAt(init, p);
    }
  }

  /** What a one-way plan's deletions leave, by exact path. */
  lemma KeptAt(local: seq<FileInfo>, remote: seq<FileInfo>, history: History, p: Path)
    ensures var kept := Without(ByPath(local), Compare(local, remote, Some(history), OneWay).deletes, Exact);
      && (p in kept <==> p in ByPath(local) && Key(p) in Keys(remote))
      && (p in kept ==> exists f :: f in local && f.path == p && f.hash == kept[p])
  {
    ByPathAt(local, p);
    DeletesExactly(local, Keys(remote), history, OneWay, p);
    hide Requests, Renames, Deletes, Keys, ByPath;
  }

  /** What the carried-out plan leaves under a path: the peer's file if it was requested, else
      the local file if its key is the peer's. */
  lemma AfterAt(local: seq<FileInfo>, remote: seq<FileInfo>, history: History, p: Path)
    ensures var after := FilesAfter(local, remote, history);
      if exists f :: f in remote && f.path == p && Differs(Hashes(local), f)
      then p in after && exists f :: f in remote && f.path == p && f.hash == after[p]
      else
        && (p in after <==> p in ByPath(local) && Key(p) in Keys(remote))
        && (p in after ==> exists f :: f in local && f.path == p && f.hash == after[p])
  {
    var plan := Compare(local, remote, Some(history), OneWay);
    RequestsAnswered(Hashes(local), remote);
    RequestsExactly(Hashes(local), remote, p);
    KeptAt(local, remote, history, p);
    HashAtListed(remote, p);
    hide Requests, Renames, Deletes, Keys, ByPath, Hashes, HashAt, Fetched, Without;
    FetchedAt(Without(ByPath(local), plan.deletes, Exact), plan.requests, remote, Exact, p);
  }

  lemma LocalHash(local: seq<FileInfo>, f: FileInfo)
    requires OnePerKey(local) && f in local
    ensures Key(f.path) in Hashes(local) && Hashes(local)[Key(f.path)] == f.hash
  {
    KeyListed(local, f);
    HashesKeys(local);
    HashesFrom(local, Key(f.path));
  }

  /** With changed files spelled alike, every file there is afterwards is one of the peer's. */
  lemma FileIsPeers(local: seq<FileInfo>, remote: seq<FileInfo>, history: History, p: Path)
    requires OnePerKey(local) && OnePerKey(remote) && ChangedAreSpelledAlike(local, remote)
    requires p in FilesAfter(local, remote, history)
    ensures exists r :: r in remote && Key(r.path) == Key(p) && r.hash == FilesAfter(local, remote, history)[p]
  {
    AfterAt(local, remote, history, p);
    hide FilesAfter, ByPath;
    if !exists r :: r in remote && r.path == p && Differs(Hashes(local), r) {
      var l :| l in local && l.path == p && l.hash == FilesAfter(local, remote, history)[p];
      var i :| 0 <= i < |remote| && Key(remote[i].path) == Key(p);
      LocalHash(local, l);
      assert remote[i] in remote;
    }
  }

  lemma FileOfKey(local: seq<FileInfo>, remote: seq<FileInfo>, history: History, r: FileInfo)
    requires OnePerKey(local) && r in remote
    ensures exists p :: p in FilesAfter(local, remote, history) && Key(p) == Key(r.path)
  {
    KeyListed(remote, r);
    if Differs(Hashes(local), r) {
      AfterAt(local, remote, history, r.path);
      assert r.path in FilesAfter(local, remote, history);
    } else {
      HashesFrom(local, Key(r.path));
      var l :| l in local && Key(l.path) == Key(r.path);
      ByPathAt(local, l.path);
      AfterAt(local, remote, history, l.path);
      assert l.path in FilesAfter(local, remote, history);
    }
  }

  lemma SpelledAlikeConverges(local: seq<FileInfo>, remote: seq<FileInfo>, history: History, after: seq<FileInfo>)
    requires OnePerKey(local) && OnePerKey(remote) && ChangedAreSpelledAlike(local, remote)
    requires Lists(after, FilesAfter(local, remote, history))
    ensures Compare(after, remote, Some(history), OneWay) == Plan([], [], [])
  {
    var table := Hashes(after);
    HashesKeys(after);
    forall key | key in table
      ensures key in Keys(remote) && exists r :: r in remote && Key(r.path) == key && r.hash == table[key]
    {
      HashesFrom(after, key);
      var f :| f in after && Key(f.path) == key && f.hash == table[key];
      FileIsPeers(local, remote, history, f.path);
      var r :| r in remote && Key(r.path) == key && r.hash == table[key];
      KeyListed(remote, r);
    }
    forall key | key in Keys(remote) ensures key in table {
      var i :| 0 <= i < |remote| && Key(remote[i].path) == key;
      FileOfKey(local, remote, history, remote[i]);
      var p :| p in FilesAfter(local, remote, history) && Key(p) == key;
      var f :| f in after && f.path == p;
      KeyListed(after, f);
    }
    assert DrawnFrom(table, remote);
    DrawnIsSettled(table, remote);
    NothingToDelete(after, remote, history);
    NothingToRename(table, remote, history);
  }

  lemma OneMoreListed(rest: seq<FileInfo>, m: map<Path, string>, q: Path)
    requires q in m && Lists(rest, m - {q})
    ensures Lists([Scanning.FileInfo(q, m[q], 0, 0)] + rest, m)
  {
    var g := Scanning.FileInfo(q, m[q], 0, 0);
    var files := [g] + rest;
    assert g in files;
    forall p | p in m ensures exists h :: h in files && h.path == p {
      if p != q {
        assert p in m - {q};
        var h :| h in rest && h.path == p;
        assert h in files;
      }
    }
  }

  lemma {:induction false} ListingEndsWith(m: map<Path, string>, p: Path,
                                           keys: set<Path>) returns (files: seq<FileInfo>)
    requires p in m && keys == m.Keys
    ensures Lists(files, m) && files != [] && files[|files| - 1].path == p
    decreases keys
  {
    if keys == {p} {
      files := [Scanning.FileInfo(p, m[p], 0, 0)];
      assert files[0] in files;
    } else {
      var q :| q in keys && q != p;
      var rest := ListingEndsWith(m - {q}, p, keys - {q});
      OneMoreListed(rest, m, q);
      files := [Scanning.FileInfo(q, m[q], 0, 0)] + rest;
    }
  }

  lemma RespelledIsAskedForAgain(local: seq<FileInfo>, remote: seq<FileInfo>, history: History, l: FileInfo,
                                 r: FileInfo)
    returns (after: seq<FileInfo>)
    requires OnePerKey(local) && OnePerKey(remote)
    requires l in local && r in remote && Key(l.path) == Key(r.path) && l.hash != r.hash && l.path != r.path
    ensures Lists(after, FilesAfter(local, remote, history))
        && r.path in Compare(after, remote, Some(history), OneWay).requests
  {
    KeyListed(remote, r);
    ByPathAt(local, l.path);
    AfterAt(local, remote, history, l.path);
    after := ListingEndsWith(FilesAfter(local, remote, history), l.path, FilesAfter(local, remote, history).Keys);
    assert after[|after| - 1] in after;
    RequestsExactly(Hashes(after), remote, r.path);
  }

  /** Where case matters, carrying out a one-way plan leaves nothing to do, whatever order the
      files are listed in, exactly when every changed file is spelled alike on both sides. */
  lemma ConvergesWhereCaseMattersExactly(local: seq<FileInfo>, remote: seq<FileInfo>, history: History)
    requires OnePerKey(local) && OnePerKey(remote)
    ensures (forall after :: Lists(after, FilesAfter(local, remote, history)) ==>
        Compare(after, remote, Some(history), OneWay) == Plan([], [], []))
       <==> ChangedAreSpelledAlike(local, remote)
  {
    if ChangedAreSpelledAlike(local, remote) {
      forall after | Lists(after, FilesAfter(local, remote, history))
        ensures Compare(after, remote, Some(history), OneWay) == Plan([], [], [])
      {
        SpelledAlikeConverges(local, remote, history, after);
      }
    } else {
      var l, r :| l in local && r in remote && Key(l.path) == Key(r.path) && l.hash != r.hash && l.path != r.path;
      var after := RespelledIsAskedForAgain(local, remote, history, l, r);
    }
  }
}
