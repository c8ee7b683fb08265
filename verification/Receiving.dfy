/** The receiving side as values: what every operation of the transfer manager does to the
    receive table, the disk, the download-task table and the session counters. */
module Receiving {
  import opened Wrappers
  import opened KcpProto
  import opened ChunkCodec
  import opened Chunks
  import opened Bitmap

  type PeerId = string
  type Hash = string

  /** ".veritas_tmp" */
  const TEMP_SUFFIX: seq<byte> := [0x2e, 0x76, 0x65, 0x72, 0x69, 0x74, 0x61, 0x73, 0x5f, 0x74, 0x6d, 0x70]

  function TempOf(path: Path): (temp: Path)
    ensures temp != []
  {
    path + TEMP_SUFFIX
  }

  /** One receive entry; an empty temp path marks a pre-registration no chunk has reached. */
  datatype Recv = Recv(tempPath: Path, total: nat, received: nat, bitmap: seq<bool>,
                       peer: PeerId, hash: Hash, size: nat, isOpen: bool, busy: bool)

  /** One row of the download-task table. */
  datatype Task = Task(peer: PeerId, total: nat, packed: seq<bv8>, hash: Hash, size: nat, tempPath: Path)

  type Disk = map<Path, seq<byte>>

  datatype View = View(files: map<Path, Recv>, disk: Disk, tasks: map<Path, Task>, synced: map<Path, Hash>,
                       sending: set<(PeerId, Path)>, uploads: nat, total: nat, done: nat)

  /** How the file system answers while one chunk is handled. part: what a failed write leaves
      written. The removals are those of a temp file of another total, of a temp file given up or
      copied, of the old final file before a copy, and of a corrupt final file. */
  datatype Io = Io(pathSafe: bool, mkdir: bool, open: bool, write: bool, part: nat, rename: bool, copy: bool,
                   rmOther: bool, rmTemp: bool, rmOld: bool, rmCorrupt: bool)

  const ALL_GOOD := Io(true, true, true, true, 0, true, true, true, true, true, true)

  datatype Config = Config(chunkSize: nat, snappy: Snappy, sha: seq<byte> -> Hash)

  predicate Exists(disk: Disk, path: Path) {
    path != [] && path in disk
  }

  function Clear(n: nat): (bits: seq<bool>)
    ensures |bits| == n && Count(bits) == 0
  {
    CountOfClear(n);
    seq(n, _ => false)
  }

  /** vector<bool>::resize. */
  function Resize(bits: seq<bool>, n: nat): (resized: seq<bool>)
    ensures |resized| == n
  {
    if n <= |bits| then bits[..n] else bits + Clear(n - |bits|)
  }

  /** Writing data at an offset: holes read as zero, and writing nothing changes nothing. */
  function WriteAt(content: seq<byte>, off: nat, data: seq<byte>): (after: seq<byte>)
    ensures |after| == if data == [] then |content| else if off + |data| > |content| then off + |data| else |content|
  {
    if data == [] then content
    else if off + |data| <= |content| then content[..off] + data + content[off + |data|..]
    else if off <= |content| then content[..off] + data
    else content + seq(off - |content|, _ => 0) + data
  }

  // ---------------------------------------------------------------- finding the entry

  datatype Found = Found(entry: Recv, disk: Disk, counted: nat, needOpen: bool)

  /** removed: whether a temp file of another total can be removed. */
  function Find(v: View, path: Path, total: nat, peer: PeerId, removed: bool): Found {
    if path !in v.files then
      Found(Recv(TempOf(path), total, 0, Clear(total), peer, "", 0, false, true), v.disk, 1, true)
    else
      var e := v.files[path].(peer := peer);
      var reset := e.total != 0 && e.total != total;
      var e1 :=
        if e.total == 0 then e.(total := total, bitmap := Resize(e.bitmap, total))
        else if reset then e.(total := total, received := 0, bitmap := Clear(total), tempPath := TempOf(path),
          isOpen := false)
        else e;
      var disk := if reset && e.tempPath != [] && removed then v.disk - {e.tempPath} else v.disk;
      if e1.tempPath == [] then
        Found(e1.(tempPath := TempOf(path), busy := true), disk, 1, true)
      else
        Found(e1.(busy := true), disk, 0, reset)
  }

  // ---------------------------------------------------------------- handling a chunk

  function Put(v: View, path: Path, e: Recv): View {
    v.(files := v.files[path := e])
  }

  function Drop(v: View, path: Path): View {
    v.(files := v.files - {path}, done := v.done + 1)
  }

  /** The entry goes, and the temp file with it if it can be removed. */
  function GiveUp(v: View, path: Path, temp: Path, removed: bool): View {
    if removed then Drop(v, path).(disk := v.disk - {temp}) else Drop(v, path)
  }

  /** Opening the temp file: created when it is needed and missing, never truncated when it
      is there. */
  function OpenTemp(disk: Disk, temp: Path, needOpen: bool, ok: bool): Option<Disk> {
    if !ok then None
    else if temp in disk then Some(disk)
    else if needOpen then Some(disk[temp := []])
    else None
  }

  /** Temp file to final file, and whether that worked. A copy leaves the temp file where it is
      if it cannot be removed; where nothing works the old final file may be gone already. */
  function Placed(disk: Disk, path: Path, temp: Path, io: Io): (Disk, bool) {
    if temp in disk && io.rename then ((disk - {temp})[path := disk[temp]], true)
    else
      var cleared := if io.rmOld then disk - {path} else disk;
      if temp in disk && io.copy then
        ((if io.rmTemp then cleared - {temp} else cleared)[path := disk[temp]], true)
      else (cleared, false)
  }

  function Finalize(cfg: Config, v: View, path: Path, e: Recv, peer: PeerId, io: Io): View {
    var gone := Drop(v, path).(tasks := v.tasks - {path});
    var (disk, created) := Placed(v.disk, path, e.tempPath, io);
    var placed := gone.(disk := disk);
    if !created || peer == "" then placed
    else
      var hash := cfg.sha(v.disk[e.tempPath]);
      if e.hash == "" || hash == e.hash then placed.(synced := v.synced[path := hash])
      else if io.rmCorrupt then placed.(disk := disk - {path})
      else placed
  }

  /** The view once the entry found for a path is in the table. */
  function Located(v: View, path: Path, f: Found): View {
    Put(v, path, f.entry).(disk := f.disk, total := v.total + f.counted)
  }

  /** The entry after its stream was made ready, or None when the step gave up on it. */
  function Ready(v: View, hdr: ChunkHeader, peer: PeerId, io: Io): (View, Option<Recv>) {
    var f := Find(v, hdr.filePath, hdr.totalChunks, peer, io.rmOther);
    var v1 := Located(v, hdr.filePath, f);
    if f.needOpen && !io.mkdir then (Drop(v1, hdr.filePath), None)
    else if f.entry.isOpen then (v1, Some(f.entry))
    else match OpenTemp(f.disk, f.entry.tempPath, f.needOpen, io.open)
      case None => (GiveUp(v1, hdr.filePath, f.entry.tempPath, io.rmTemp), None)
      case Some(disk) =>
        var e := f.entry.(isOpen := true);
        (Put(v1, hdr.filePath, e).(disk := disk), Some(e))
  }

  /** The temp file's content once a chunk is written at its place. */
  function Written(cfg: Config, disk: Disk, e: Recv, hdr: ChunkHeader): seq<byte> {
    var content := if e.tempPath in disk then disk[e.tempPath] else [];
    WriteAt(content, Offset(hdr.chunkIndex, cfg.chunkSize), hdr.data)
  }

  /** The same when the write fails after so many bytes. */
  function PartWritten(cfg: Config, disk: Disk, e: Recv, hdr: ChunkHeader, part: nat): seq<byte> {
    var content := if e.tempPath in disk then disk[e.tempPath] else [];
    WriteAt(content, Offset(hdr.chunkIndex, cfg.chunkSize), hdr.data[..Min(part, |hdr.data|)])
  }

  /** Writing one chunk through a ready entry. */
  function Store(cfg: Config, v: View, hdr: ChunkHeader, peer: PeerId, io: Io, e: Recv): View
    requires hdr.chunkIndex < hdr.totalChunks
  {
    var bitmap := if |e.bitmap| <= hdr.chunkIndex then Resize(e.bitmap, hdr.totalChunks) else e.bitmap;
    if bitmap[hdr.chunkIndex] then
      Put(v, hdr.filePath, e.(bitmap := bitmap, busy := false))
    else if !io.write then
      var disk := v.disk[e.tempPath := PartWritten(cfg, v.disk, e, hdr, io.part)];
      GiveUp(v.(disk := disk), hdr.filePath, e.tempPath, io.rmTemp)
    else
      var disk := v.disk[e.tempPath := Written(cfg, v.disk, e, hdr)];
      var e1 := e.(bitmap := bitmap[hdr.chunkIndex := true], received := e.received + 1);
      if e1.received >= e1.total then
        Finalize(cfg, v.(disk := disk), hdr.filePath, e1, peer, io)
      else
        Put(v, hdr.filePath, e1.(busy := false)).(disk := disk)
  }

  function HandleHeader(cfg: Config, v: View, hdr: ChunkHeader, peer: PeerId, io: Io): View {
    if !ValidHeader(hdr) || !io.pathSafe then v
    else
      var (v1, ready) := Ready(v, hdr, peer, io);
      match ready
      case None => v1
      case Some(e) => Store(cfg, v1, hdr, peer, io, e)
  }

  function HandleChunk(cfg: Config, v: View, payload: seq<byte>, peer: PeerId, io: Io): View {
    HandleHeader(cfg, v, Parse(cfg.snappy, payload), peer, io)
  }

  // ---------------------------------------------------------------- resuming

  datatype ResumeInfo = ResumeInfo(path: Path, start: nat, total: nat, hash: Hash, size: nat, tempPath: Path)

  function Forget(v: View, path: Path): View {
    v.(files := v.files - {path})
  }

  function ForgetWithTemp(v: View, path: Path, temp: Path, removed: bool): View {
    if removed then Forget(v, path).(disk := v.disk - {temp}) else Forget(v, path)
  }

  /** removed: whether a temp file that no longer fits can be removed. */
  function CheckResume(v: View, path: Path, hash: Hash, size: nat, removed: bool): (View, Option<ResumeInfo>) {
    if path !in v.files then (v, None)
    else
      var e := v.files[path];
      if e.total > 0 && e.received >= e.total then (v, None)
      else if e.received == 0 then (v, None)
      else if !Exists(v.disk, e.tempPath) then (Forget(v, path), None)
      else if e.hash != "" && hash != "" && e.hash != hash then
        (ForgetWithTemp(v, path, e.tempPath, removed), None)
      else if e.size > 0 && size > 0 && e.size != size then
        (ForgetWithTemp(v, path, e.tempPath, removed), None)
      else
        (v, Some(ResumeInfo(path, Contiguous(e.bitmap), e.total, e.hash, e.size, e.tempPath)))
  }

  function Register(v: View, path: Path, peer: PeerId, hash: Hash, size: nat): View {
    if path in v.files then
      var e := v.files[path];
      if e.received > 0 then v
      else Put(v, path, e.(peer := peer, hash := hash, size := size))
    else
      Put(v, path, Recv([], 0, 0, [], peer, hash, size, false, false))
  }

  function Released(e: Recv, peer: PeerId): Recv {
    if e.peer == peer && !e.busy then e.(isOpen := false, peer := "") else e
  }

  function Cancel(v: View, peer: PeerId): View {
    v.(files := map p | p in v.files :: Released(v.files[p], peer))
  }

  predicate Zombie(e: Recv) {
    !e.busy && e.total == 0
  }

  function Expired(e: Recv): Recv {
    if e.busy then e else e.(isOpen := false)
  }

  function TaskOf(e: Recv): Task {
    Task(e.peer, e.total, Packed(e.bitmap), e.hash, e.size, e.tempPath)
  }

  /** saved: the rows whose write the database accepted and committed. */
  function Persist(v: View, saved: set<Path>): View {
    v.(tasks := v.tasks + map p | p in v.files && p in saved :: TaskOf(v.files[p]))
  }

  function Swept(files: map<Path, Recv>, expired: set<Path>): map<Path, Recv> {
    map p | p in files && !(p in expired && Zombie(files[p])) :: if p in expired then Expired(files[p]) else files[p]
  }

  /** expired: the entries whose timeout has passed. */
  function Cleanup(v: View, expired: set<Path>, saved: set<Path>): View {
    Persist(v.(files := Swept(v.files, expired)), saved)
  }

  ghost predicate TasksReadable(tasks: map<Path, Task>) {
    forall p :: p in tasks ==> PackedLength(tasks[p].total) <= |tasks[p].packed|
  }

  function EntryOf(t: Task): Recv
    requires PackedLength(t.total) <= |t.packed|
  {
    var bitmap := Unpacked(t.packed, t.total);
    Recv(t.tempPath, t.total, Count(bitmap), bitmap, t.peer, t.hash, t.size, false, false)
  }

  function Loadable(tasks: map<Path, Task>, disk: Disk): map<Path, Task> {
    map p | p in tasks && Exists(disk, tasks[p].tempPath) :: tasks[p]
  }

  function Restored(kept: map<Path, Task>): (entries: map<Path, Recv>)
    requires TasksReadable(kept)
    ensures entries.Keys == kept.Keys
  {
    map p | p in kept :: EntryOf(kept[p])
  }

  /** Loading at start-up: rows whose temp file is gone are removed, the others become entries. */
  function Load(v: View): View
    requires TasksReadable(v.tasks)
  {
    var kept := Loadable(v.tasks, v.disk);
    v.(tasks := kept, files := v.files + Restored(kept), total := v.total + |kept|)
  }

  lemma PersistedTable(v: View, saved: set<Path>, tasks: map<Path, Task>)
    requires tasks.Keys == v.tasks.Keys + v.files.Keys * saved
    requires forall p :: p in tasks ==>
      tasks[p] == if p in v.files && p in saved then TaskOf(v.files[p]) else v.tasks[p]
    ensures tasks == Persist(v, saved).tasks
  {
    var rows := map p | p in v.files && p in saved :: TaskOf(v.files[p]);
    assert rows.Keys == v.files.Keys * saved;
    assert tasks.Keys == (v.tasks + rows).Keys;
  }

  /** Where the loading loop stands when the rows in rest are still to be looked at. */
  ghost predicate Loading(v: View, rest: set<Path>, now: View)
    requires TasksReadable(v.tasks)
  {
    var kept := Loadable(v.tasks, v.disk);
    && now == v.(tasks := now.tasks, files := now.files, total := now.total)
    && Pruning(v.tasks, kept.Keys, rest, now.tasks)
    && Merging(v.files, Restored(kept), rest, now.files)
    && now.total == v.total + |kept.Keys - rest|
  }

  /** What the loading loop does with one row. */
  function LoadRow(v: View, p: Path): View
    requires p in v.tasks && PackedLength(v.tasks[p].total) <= |v.tasks[p].packed|
  {
    if Exists(v.disk, v.tasks[p].tempPath) then Put(v, p, EntryOf(v.tasks[p])).(total := v.total + 1)
    else v.(tasks := v.tasks - {p})
  }

  lemma LoadingStep(v: View, rest: set<Path>, now: View, p: Path)
    requires TasksReadable(v.tasks) && Loading(v, rest, now) && p in rest
    ensures p in now.tasks && PackedLength(now.tasks[p].total) <= |now.tasks[p].packed|
    ensures Loading(v, rest - {p}, LoadRow(now, p))
  {
    var kept := Loadable(v.tasks, v.disk);
    PruningStep(v.tasks, kept.Keys, rest, now.tasks, p);
    MergingStep(v.files, Restored(kept), rest, now.files, p);
    CountStep(kept.Keys, rest, p);
  }

  lemma LoadingStart(v: View)
    requires TasksReadable(v.tasks)
    ensures Loading(v, v.tasks.Keys, v)
  {
    CountStart(Loadable(v.tasks, v.disk).Keys, v.tasks.Keys);
  }

  lemma PrunedIsLoadable(tasks: map<Path, Task>, disk: Disk, now: map<Path, Task>)
    requires Pruning(tasks, Loadable(tasks, disk).Keys, {}, now)
    ensures now == Loadable(tasks, disk)
  {
  }

  lemma LoadingDone(v: View, now: View)
    requires TasksReadable(v.tasks) && Loading(v, {}, now)
    ensures now == Load(v)
  {
    var kept := Loadable(v.tasks, v.disk);
    PrunedIsLoadable(v.tasks, v.disk, now.tasks);
    hide Loadable, Restored, Pruning;
    MergingDone(v.files, Restored(kept), now.files);
    hide Merging;
    CountDone(kept.Keys);
  }

  /** A crash keeps the disk and the database and nothing else. */
  function Crash(v: View): View {
    View(map[], v.disk, v.tasks, map[], {}, 0, 0, 0)
  }

  // ---------------------------------------------------------------- uploads

  function BeginUpload(v: View, peer: PeerId, path: Path): View {
    v.(sending := v.sending + {(peer, path)}, uploads := v.uploads + 1, total := v.total + 1)
  }

  /** Completed, given up on, file missing or peer gone: all end alike. */
  function EndUpload(v: View, peer: PeerId, path: Path): View
    requires v.uploads > 0
  {
    v.(sending := v.sending - {(peer, path)}, uploads := v.uploads - 1, done := v.done + 1)
  }

  /** An upload task that stops on an exception or without a state manager. */
  function LoseUpload(v: View): View
    requires v.uploads > 0
  {
    v.(uploads := v.uploads - 1)
  }

  function CancelSends(v: View, peer: PeerId): View {
    v.(sending := set k | k in v.sending && k.0 != peer)
  }
}
