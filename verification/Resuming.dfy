/** What a request makes of the entry that is there: resumed, or given up because the file is
    another one by now; and what is made of a download that is not what was asked for. */
module Resuming {
  import opened ChunkCodec
  import opened Bitmap
  import opened Receiving
  import opened Reassembly
  import opened Transfers
  import opened Completion
  import opened TempContents
  import opened StaleTemp
  import opened EndToEnd
  import opened Upload

  // ---------------------------------------------------------------- the check

  /** What is recorded of the file, and what the peer says of it now, cannot both be true. */
  predicate Contradicts(e: Recv, hash: Hash, size: nat) {
    (e.hash != "" && hash != "" && e.hash != hash) || (e.size != 0 && size != 0 && e.size != size)
  }

  predicate Started(v: View, p: Path) {
    p in v.files && 0 < v.files[p].received && (v.files[p].total == 0 || v.files[p].received < v.files[p].total)
  }

  /** A download is resumed if and only if it has been started and not finished, its temp file is
      there, and nothing recorded of it contradicts what the peer says. Then nothing changes, and
      it goes on behind its contiguous chunks. A started one that cannot be resumed is forgotten,
      and a contradicted one loses its temp file too, if that can be removed. */
  lemma CheckResumeExactly(v: View, p: Path, hash: Hash, size: nat, removed: bool)
    ensures var (w, info) := CheckResume(v, p, hash, size, removed);
      && (info.Some? <==>
            Started(v, p) && Exists(v.disk, v.files[p].tempPath) && !Contradicts(v.files[p], hash, size))
      && (info.Some? ==>
            var e := v.files[p];
            w == v && info.value == ResumeInfo(p, Contiguous(e.bitmap), e.total, e.hash, e.size, e.tempPath))
      && (!Started(v, p) ==> w == v)
      && (Started(v, p) && info.None? ==>
            && p !in w.files && w.files == v.files - {p}
            && w == v.(files := w.files, disk := w.disk)
            && w.disk == if removed && Exists(v.disk, v.files[p].tempPath) then v.disk - {v.files[p].tempPath}
                         else v.disk)
  {
  }

  /** Where the sender starts for the request that is made: behind the contiguous chunks if the
      download is resumed and what is recorded of it is what the sender has by then, and else at 0. */
  lemma GrantedExactly(v: View, p: Path, peer: PeerId, hash: Hash, size: nat, removed: bool, theirs: Hash, length: nat)
    ensures var request := Requested(v, p, peer, hash, size, removed).1;
      var resumed := Started(v, p) && Exists(v.disk, v.files[p].tempPath) && !Contradicts(v.files[p], hash, size);
      GrantedStart(request.start, request.hash, theirs, request.size, length)
        == if resumed && (v.files[p].hash == "" || v.files[p].hash == theirs)
              && (v.files[p].size == 0 || v.files[p].size == length)
           then Contiguous(v.files[p].bitmap) else 0
  {
    CheckResumeExactly(v, p, hash, size, removed);
    hide CheckResume, Register, Contiguous;
  }

  // ---------------------------------------------------------------- another file by now

  /** Only what is shared at p has changed. */
  ghost predicate ChangedAt(sh: Share, next: Share, p: Path) {
    && next.cfg == sh.cfg && next.Shared(p) && next.tail(p) == []
    && forall q :: q != p ==> next.source(q) == sh.source(q) && next.tail(q) == sh.tail(q)
  }

  lemma SameElsewhere(sh: Share, next: Share, p: Path, q: Path)
    requires ChangedAt(sh, next, p) && q != p
    ensures forall e, t :: MappedTrue(sh, q, e, t) ==> MappedTrue(next, q, e, t)
    ensures forall r, t :: RowTrue(sh, q, r, t) ==> RowTrue(next, q, r, t)
    ensures forall t :: TempTrue(sh, q, t) ==> TempTrue(next, q, t)
  {
  }

  /** With the entry, the temp file and the row of p put aside, what was true is true of the new
      share. */
  lemma ForgottenHonest(sh: Share, next: Share, v: View, p: Path)
    requires Honest(sh, v) && ChangedAt(sh, next, p)
    ensures Honest(next, Cleansed(ForgetWithTemp(v, p, TempOf(p), true), {p}))
  {
    var w := Cleansed(ForgetWithTemp(v, p, TempOf(p), true), {p});
    TempRemoved(v.disk, p);
    forall q | q in w.files ensures MappedTrue(next, q, w.files[q], TempAt(w.disk, q)) {
      SameElsewhere(sh, next, p, q);
    }
    forall q | q in w.tasks ensures RowTrue(next, q, w.tasks[q], TempAt(w.disk, q)) {
      SameElsewhere(sh, next, p, q);
    }
    forall q ensures TempTrue(next, q, TempAt(w.disk, q)) {
      if q != p { SameElsewhere(sh, next, p, q); }
    }
  }

  /** The entry of a started download: what Honest says of it. */
  lemma StartedFacts(sh: Share, h: History, p: Path)
    requires Truthful(sh, h) && p in h.now.files && 0 < h.now.files[p].received
    ensures Started(h.now, p) && h.now.files[p].tempPath == TempOf(p) && TempOf(p) in h.now.disk
  {
    assert MappedTrue(sh, p, h.now.files[p], TempAt(h.now.disk, p));
  }

  /** A download was under way and the file at the peer has changed, so that its hash or size
      contradicts what is recorded. The request asks for all of it, and once the temp file is
      removed, its chunks, in any order and with any repetitions, leave the new file in place. */
  lemma ChangedSourceCompletes(sh: Share, next: Share, h: History, p: Path, peer: PeerId, indices: seq<nat>)
    requires Truthful(sh, h) && ChangedAt(sh, next, p) && p in h.now.files && 0 < h.now.files[p].received
    requires Contradicts(h.now.files[p], next.cfg.sha(next.source(p)), |next.source(p)|)
    requires Within(indices, next.Total(p)) && forall i: nat :: i < next.Total(p) ==> i in indices
    ensures var (w, request) := Requested(h.now, p, peer, next.cfg.sha(next.source(p)), |next.source(p)|, true);
      && request == Request(0, "", 0) && TempOf(p) !in w.disk
      && var d := DeliverAll(next, w, p, indices, peer);
      p in d.disk && d.disk[p] == next.source(p)
  {
    var hash, size, more := next.cfg.sha(next.source(p)), |next.source(p)|, h.stale + {p};
    StartedFacts(sh, h, p);
    CheckResumeExactly(h.now, p, hash, size, true);
    var v1 := ForgetWithTemp(h.now, p, TempOf(p), true);
    var w := Register(v1, p, peer, hash, size);
    ForgottenHonest(sh, next, Cleansed(h.now, h.stale), p);
    MoreAside(h.now, h.stale, {p});
    assert Cleansed(ForgetWithTemp(Cleansed(h.now, h.stale), p, TempOf(p), true), {p}) == Cleansed(v1, more);
    RegisterHonest(next, Cleansed(v1, more), p, peer);
    assert Register(Cleansed(v1, more), p, peer, hash, size) == Cleansed(w, more);
    assert Requested(h.now, p, peer, hash, size, true) == (w, Request(0, "", 0));
    hide Honest, DeliverAll, Truthful, Requested, CheckResume;
    MissingComplete(next, Cleansed(w, more), p, indices, peer);
    DeliverAllAside(next, w, more, p, indices, peer);
  }

  /** If the temp file cannot be removed, the new file is written over it, and is what ends up in
      place exactly when it is not shorter than what was there. */
  lemma ChangedSourceOverOldExactly(sh: Share, next: Share, h: History, p: Path, peer: PeerId, indices: seq<nat>)
    requires Truthful(sh, h) && ChangedAt(sh, next, p) && p in h.now.files && 0 < h.now.files[p].received
    requires Contradicts(h.now.files[p], next.cfg.sha(next.source(p)), |next.source(p)|)
    requires Within(indices, next.Total(p)) && Distinct(indices)
    requires forall i: nat :: i < next.Total(p) ==> i in indices
    ensures TempOf(p) in h.now.disk
    ensures var (w, request) := Requested(h.now, p, peer, next.cfg.sha(next.source(p)), |next.source(p)|, false);
      && request == Request(0, "", 0)
      && var d := DeliverAll(next, w, p, indices, peer);
      p in d.disk && d.disk[p] == next.source(p) <==> |h.now.disk[TempOf(p)]| <= |next.source(p)|
  {
    var hash, size := next.cfg.sha(next.source(p)), |next.source(p)|;
    StartedFacts(sh, h, p);
    CheckResumeExactly(h.now, p, hash, size, false);
    var (w, request) := Requested(h.now, p, peer, hash, size, false);
    hide Truthful, CheckResume, DeliverAll;
    StaleTempExactly(next, w, p, indices, peer, h.now.disk[TempOf(p)]);
  }

  // ---------------------------------------------------------------- what was registered

  /** A download whose hash is registered, and whose chunks all arrive, is put in place and recorded
      if it has that hash; if it has another it is thrown away and not recorded. */
  lemma RegisteredIsChecked(sh: Share, v: View, p: Path, asked: PeerId, hash: Hash, size: nat, indices: seq<nat>,
                            peer: PeerId)
    requires sh.Shared(p) && Untouched(v, p) && TempOf(p) !in v.disk && peer != "" && hash != ""
    requires Within(indices, sh.Total(p)) && Distinct(indices)
    requires forall i: nat :: i < sh.Total(p) ==> i in indices
    ensures var d := DeliverAll(sh, Register(v, p, asked, hash, size), p, indices, peer);
      && p !in d.files && p !in d.tasks && TempOf(p) !in d.disk && d.done == v.done + 1 && d.total == v.total + 1
      && (sh.cfg.sha(sh.source(p)) == hash ==>
            p in d.disk && d.disk[p] == sh.source(p) && d.synced == v.synced[p := hash])
      && (sh.cfg.sha(sh.source(p)) != hash ==> p !in d.disk && d.synced == v.synced)
  {
    SharedTotal(sh, p);
    assert 0 in indices;
    var w := Register(v, p, asked, hash, size);
    assert Carries(sh, w, p, Clear(sh.Total(p)), []) && ExpectedHash(w, p) == hash && NewTask(w, p) == 1;
    AllWritten(sh.source(p), sh.cfg.chunkSize, [], indices);
    EachMissingFinishes(sh, w, p, indices, peer, Clear(sh.Total(p)), []);
    hide WriteAll, DeliverAll, Clear, Carries, Untouched;
    assert sh.source(p) + [] == sh.source(p);
  }

  /** Nothing is registered for a download that has begun: what was expected of it stays. */
  lemma BegunStaysAsItIs(v: View, p: Path, peer: PeerId, hash: Hash, size: nat)
    ensures var w := Register(v, p, peer, hash, size);
      && w == v.(files := w.files) && w.files - {p} == v.files - {p} && p in w.files
      && (p in v.files && 0 < v.files[p].received ==> w == v)
      && (p !in v.files || v.files[p].received == 0 ==>
            && w.files[p].peer == peer && w.files[p].hash == hash && w.files[p].size == size
            && w.files[p] == (if p in v.files then v.files[p] else Recv([], 0, 0, [], "", "", 0, false, false))
                               .(peer := peer, hash := hash, size := size))
  {
  }
}
