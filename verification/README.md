# VeritasSync: a verified model of the sync engine

VeritasSync keeps a directory the same on several peers. This project models the four parts of it
that decide whether a file arrives whole, is ignored, is remembered or is deleted, and proves what
they promise. `dafny verify dfyconfig.toml` checks everything.

**How bytes move** (`KcpProto`, `ChunkCodec`, `Bitmap`, `Chunks`, `Upload`, `Receiving`,
`TransferManager`, `ReceiveInvariant`, `Content`, `Reassembly`, `Transfers`, `Completion`, `EndToEnd`,
`TempContents`, `StaleTemp`, `Resuming`, `Interruptions`). The sender is a loop that reads, frames and sends chunks, closes the file when the channel is congested, and goes
on later; the receiver writes chunks in any order into a temp file with a bitmap, loses the peer,
stores its progress, restarts, and asks for the rest. `Receiving` says what every operation does to
the receiver's state as a value, `TransferManager` is the object whose methods are proved to do that,
and the other modules prove what holds in all runs, whatever opening, writing, renaming, copying or
removing a file fails: what is in the temp file when it is moved into place (`Transfers`), that every
download completes (`Completion`), from the request on (`EndToEnd`), exactly when that fails
(`StaleTemp`), what becomes of a download whose file has changed (`Resuming`), and of one whose peer,
chunk count or end is not what it was (`Interruptions`). Snappy and SHA-256 are parameters.

**What is ignored** (`Regex`, `Glob`, `GlobProof`, `FileFilter`, `FilterCaches`, `Verdict`, `RuleLines`). A rule
is a glob compiled to the text of a regular expression. `Regex` reads such text as std::regex would
and says what it matches; `Glob` holds the compiler and a matcher that works on the glob itself;
`GlobProof` proves the two agree. `FileFilter` is the object with its rule lists and lookup caches;
`FilterCaches` proves for which rules the caches may be trusted, and `Verdict` says of every path and
every list of rules whether it is ignored.

**What is remembered** (`Store`, `Scanning`, `TableWrites`, `Watching`, `Scanner`, `Walks`, `ScanRuns`, `IgnoredPaths`). The file
table in the database, the write-through cache in front of it with its pending operations, and the
in-memory file map, through scans, noticed changes, batches and removals, while the database may refuse
any statement. `Walks` says what a scan leaves in the maps; `ScanRuns` proves when map and table agree, that
no wrong hash is ever stored, and that no change is lost; `IgnoredPaths` that nothing ignored is ever
mapped, announced or listed for deletion.

**What is deleted** (`PathUtils`, `SyncPlan`, `Spelling`, `DirSync`, `Reconciliation`, `FloodPeer`,
`FloodSync`, `FloodIds`, `FloodSafety`, `FloodRuns`, `FloodTimers`, `FloodDelivers`, `FloodRace`,
`FloodFeeds`, `FloodResend`, `FloodStale`). The comparison of two
states, the carrying out of its plan, and the whole reconciliation with its file deletions, directory
deletions and directory creations; and the flood protocol by which a peer announces its whole state, after which the
other deletes what was not announced. The protocol is a state machine of two peers and two FIFO
channels; sessions, timeouts, lost connections and the order of all tasks are free.

What the modelled code does step by step is a method with a loop here, and what it keeps in an object
is a class: its methods are proved against functions on values, and the theorems are about those
functions.

## What turned out not to hold

Where the program falls short of what it is meant to do, the code is kept as it is; a lemma names
the input, and another says exactly when it does hold.

- A new download opens a temp file that is already there without truncating it: the result is the
  source exactly when the old file was no longer than the source (`StaleTemp.StaleTempExactly`).
- A failed write removes the temp file and the entry but not the stored progress. That is harmless as
  long as the program runs, and again once the row is stored anew, but after a restart that finds a new
  temp file chunks are believed present that may not be (`StaleTemp.FailedWriteThenRestart`). The file
  still comes out right exactly when every byte the row claims is right in that temp file
  (`StaleTemp.RestartExactly`, `StaleTemp.StaleRestartExactly`).
- One-way reconciliation removes a directory that the peer does not list with all that is in it, listed
  files included. It keeps every listed file in every local tree exactly when the peer's list names all
  directories above its files and directories (`Reconciliation.OneWayKeepsExactly`,
  `FloodRace.UnrootedFloodLosesFiles`). What a scan finds does, unless a name holds a backslash, which
  POSIX allows and the path keys take for a separator (`Reconciliation.ScannedIsKeyRooted`).
- Between the commit and the end of a transaction its own thread does not find a path that it removed
  and then wrote again, because only the removal is left in the pending list
  (`Store.RewrittenIsNotFound`); for which paths it reads right is stated exactly
  (`Store.ReadAfterCommitExactly`). No caller reads there.
- A database that refuses writes leaves the file map ahead of the file table; which steps do is stated
  exactly (`ScanRuns.StepAgreesExactly`), and a scan mends it (`ScanRuns.ScanAgreesExactly`).
- Framing cuts the path length to sixteen bits (`ChunkCodec.FramingRoundTrips`); the 4096-byte limit
  on requested paths keeps uploads clear of that.
- The README promises the rules of a .gitignore, but the built-in patterns `build/`, `bin/`, `out/` and
  `.git/` ignore these directories at the root only (`Verdict.DefaultsExactly`, `Verdict.DotlessExactly`).
- When the temp file of a file that has changed meanwhile cannot be removed, the new file is written over
  it, and is what comes out exactly when it is not shorter (`Resuming.ChangedSourceOverOldExactly`).
- A cached rule may ignore paths its own regular expression does not match
  (`FilterCaches.CacheRedundantExactly`).
- Where file names are case-sensitive, a one-way plan may never settle
  (`Spelling.ConvergesWhereCaseMattersExactly`), although the path keys are meant to unify case
  everywhere (`include/VeritasSync/common/PathUtils.h`, class comment).
- Flood synchronisation can delete files that the sender has, by two races: the offer side ignores a
  sync_begin while it is itself accumulating (`FloodRace.IgnoredBeginDeletesFiles`, and from every state
  in the middle of a flood `FloodResend.ReannouncementDeletesFiles`), or a sync_begin
  whose session is already over is sent into the middle of a newer flood
  (`FloodRace.StaleBeginDeletesFiles`, and from every state with such a flood and such a sync_begin
  `FloodStale.StaleBeginAlwaysDeletes`). Without them it cannot (`FloodRuns.FloodSyncIsSafe`), and a
  step keeps the protocol's invariant exactly when it is neither (`FloodRuns.StepIsGoodExactly`).

The header `include/VeritasSync/sync/SyncManager.h` lists directory creation first among the actions
and directory deletion last; the handler deletes directories before it creates any
(`src/sync/SyncHandler.cpp:203-247`), and the model follows the handler.

## Model

| member | source | states |
|---|---|---|
| KcpProto.Value16OfBe16 | include/VeritasSync/net/KcpProto.h:23-26 | two bytes appended in network order read back as the number, for every 16-bit number |
| KcpProto.Value32OfBe32 | include/VeritasSync/net/KcpProto.h:28-31 | the same for 32 bits |
| KcpProto.Packet.AppendUint16 | include/VeritasSync/net/KcpProto.h:23-26 | appends exactly the two network-order bytes to the packet |
| KcpProto.Packet.AppendUint32 | include/VeritasSync/net/KcpProto.h:28-31 | appends exactly the four network-order bytes to the packet |
| KcpProto.Cursor.ReadUint16 | include/VeritasSync/net/KcpProto.h:33-40 | the cursor stays inside the payload; it reads two bytes if they are there, else 0 without moving |
| KcpProto.Cursor.ReadUint32 | include/VeritasSync/net/KcpProto.h:42-49 | the same for four bytes |
| ChunkCodec.BuildChunkPacket | src/sync/TransferManager.cpp:338-347 | the packet is the chunk type byte followed by the frame of the four values |
| ChunkCodec.ParseChunkPayload | src/sync/TransferManager.cpp:444-473 | on any bytes at all, never reads past the end and yields the parsed header, valid or not |
| ChunkCodec.FramingRoundTrips | src/sync/TransferManager.cpp:338-347 | parsing a built packet gives back path, index, total and data if and only if the path length is 1 to 65535 |
| ChunkCodec.ValidExactly | src/sync/TransferManager.cpp:444-473 | a payload is read as a valid chunk if and only if it is the frame of just these values with data that uncompress, so no other bytes are ever taken for one |
| Bitmap.CountIsFull | src/sync/TransferManager.cpp:767-777 | the number of set bits equals the length exactly when every bit is set |
| Bitmap.ContiguousPrefix | src/sync/TransferManager.cpp:1022-1026 | the loop finds the longest prefix of received chunks |
| Bitmap.ResumeCoversMissing | src/sync/TransferManager.cpp:1022-1035 | a resume point leaves no missing chunk out if and only if it is at most the contiguous prefix |
| Bitmap.SerializeBitmap | src/sync/TransferManager.cpp:1084-1092 | bit i of the result is bit i of the bitmap, and the padding bits are clear |
| Bitmap.DeserializeBitmap | src/sync/TransferManager.cpp:1094-1101 | every read is in range for data of the packed length, and bit i of the bitmap is bit i of the data |
| Bitmap.PackingRoundTrips | src/sync/TransferManager.cpp:1084-1101 | unpacking the packed bytes at the bitmap's own length gives the bitmap back |
| Chunks.ChunkStartsInside | src/sync/TransferManager.cpp:314-330 | no chunk the sender counts starts past the end of the file |
| Upload.GrantedStart | src/sync/TransferManager.cpp:240-262 | the requested start is granted if neither hash nor size contradicts it; what is granted is that or 0, and 0 if either does |
| Upload.UploadContext.OpenFile | src/sync/TransferManager.cpp:309-326 | reopening resets the retry counter, takes the chunk count on the first opening only, and seeks to the current chunk |
| Upload.UploadContext.SendOneChunk | src/sync/TransferManager.cpp:330-351 | reads at the file position, moves it, and hands over the packet of what was read |
| Upload.UploadContext.SendUntilPause | src/sync/TransferManager.cpp:317-401 | the send loop leaves exactly the state and the packets of the specified loop, closed on a pause, a lost peer or the end |
| Upload.UploadContext.RunOnce | src/sync/TransferManager.cpp:269-426 | one activation: reopen or count a failed open, then send until a pause |
| Upload.UploadSendsEachChunkOnce | src/sync/TransferManager.cpp:269-426 | over any pauses, failed opens and reopens the callback has seen the chunks from the start on, each once, in order, with the file's bytes; on completion all of start to total - 1 |
| Upload.ActivationMakesProgress | src/sync/TransferManager.cpp:269-426 | each activation ends the upload, or leaves fewer chunks, or as many chunks and fewer open retries |
| Upload.UploadTerminates | src/sync/TransferManager.cpp:269-426 | however files open and channels congest, every upload stops within a bound known at its start |
| Upload.LoopStopsExactly | src/sync/TransferManager.cpp:353-401 | an open file is sent up to the first chunk whose backlog is negative or above 256, and else to the end: a negative one cuts it off, a large one only pauses it, and at the end it completes |
| Upload.EndsExactly | src/sync/TransferManager.cpp:269-426 | in every run, activation by activation: the upload is given up if and only if the file has failed to open once more than the retries in a row; an open one is cut off, paused or completed at the first chunk whose backlog is negative or above 256, or at the end |
| Upload.UploadCompletes | src/sync/TransferManager.cpp:269-426 | an upload whose peer stays and which never meets that many failed openings in a row completes within its bound, whatever the backlog, with all its chunks sent |
| Upload.SentPacketAccepted | src/sync/TransferManager.cpp:123-145 | the receiver accepts the packets of a file if and only if its path has at most 4096 bytes and it has at most 8388608 chunks |
| Upload.SentPacketParses | src/sync/TransferManager.cpp:330-347 | what the receiver reads in the packet of chunk i is chunk i of the file |
| TransferManager.TransferManager.LookupOrCreateReceiving | src/sync/TransferManager.cpp:475-567 | entry created, filled in, reset on another total, or found, as specified, with the session total counted once |
| TransferManager.TransferManager.MoveIntoPlace | src/sync/TransferManager.cpp:596-640 | renamed, else the old file removed if it can be, copied, and the temp file removed if it can be; when neither works the temp file stays |
| TransferManager.TransferManager.FinalizeReceivedFile | src/sync/TransferManager.cpp:569-663 | moves or copies the temp file into place, removes a corrupt result if it can, drops entry and row, counts the file done |
| TransferManager.TransferManager.HandleChunk | src/sync/TransferManager.cpp:668-799 | the whole new state for every payload and every answer of the file system, removals and half-done writes included |
| TransferManager.TransferManager.PrepareStream | src/sync/TransferManager.cpp:682-732 | entry, directories and stream: ready, or given up with entry and temp file as specified |
| TransferManager.TransferManager.WriteChunk | src/sync/TransferManager.cpp:734-777 | duplicate, failed write with what it leaves, stored chunk and last chunk each leave the specified state |
| TransferManager.TransferManager.CheckResumeEligibility | src/sync/TransferManager.cpp:963-1041 | grants the contiguous prefix when the metadata fits, else forgets the entry, and removes its temp file if it can |
| TransferManager.TransferManager.RegisterExpectedMetadata | src/sync/TransferManager.cpp:1043-1077 | a pre-registration is made or its metadata updated, and nothing else changes |
| TransferManager.TransferManager.CancelReceivesForPeer | src/sync/TransferManager.cpp:894-926 | every entry of the peer is closed and not busy; no other entry changes |
| TransferManager.TransferManager.CleanupStaleBuffers | src/sync/TransferManager.cpp:849-888 | expired entries are closed, zombies removed, and the rest stored |
| TransferManager.TransferManager.PersistDownloadState | src/sync/TransferManager.cpp:1103-1131 | the accepted rows hold exactly what the entries hold |
| TransferManager.TransferManager.LoadDownloadState | src/sync/TransferManager.cpp:1133-1181 | rows whose temp file is gone are deleted, the others become entries and are counted |
| TransferManager.TransferManager.QueueUpload | src/sync/TransferManager.cpp:187-192 | an upload is listed as sending and counted in the session total |
| TransferManager.TransferManager.FinishUpload | src/sync/TransferManager.cpp:404-414 | completed or given up: no longer sending, one more done |
| TransferManager.TransferManager.CancelSendsForPeer | src/sync/TransferManager.cpp:933-949 | exactly the peer's sending records go |
| ReceiveInvariant.StepKeeps | src/sync/TransferManager.cpp:475-1181 | every operation, whatever the disk answers, keeps the receive table well formed and the session accounted for |
| ReceiveInvariant.ReceiveTableIsWellFormed | src/sync/TransferManager.cpp:515-563 | in every reachable state: counter equals set bits, bitmap has the total's length, a nonzero total has a temp path, nothing stays busy |
| ReceiveInvariant.SessionNeverOverrun | src/sync/TransferManager.cpp:526-582 | in every run finished tasks plus live uploads plus begun receives never exceed the session total |
| ReceiveInvariant.SessionExactly | src/sync/TransferManager.cpp:526-582 | conservation in every run: the session total is what is finished, what is live, what is begun, and what a forgotten entry or a vanished upload has lost, and nothing else |
| ReceiveInvariant.SendingExactly | src/sync/TransferManager.cpp:187-192 | in every run a sending record is there from the start of its upload until its end, the loss of its peer or a restart |
| ReceiveInvariant.PersistThenLoadRestores | src/sync/TransferManager.cpp:1103-1181 | storing and then restarting restores bitmap, count, totals and expected metadata of every entry whose temp file exists |
| ReceiveInvariant.PersistThenLoadExactly | src/sync/TransferManager.cpp:1103-1181 | after storing and restarting there are exactly the stored entries and the older rows that have their temp file, each as it was but closed, with a row each, and all in the total |
| ReceiveInvariant.InterruptedExactly | src/sync/TransferManager.cpp:849-926 | losing a peer closes and disowns its entries, a sweep closes the expired ones and drops those no chunk has reached, and no other entry is touched |
| ReceiveInvariant.ResumeSurvives | src/sync/TransferManager.cpp:963-1041 | what can be resumed, and from where, is the same after losing any peer, after any sweep, and after a restart if the entry was left and stored |
| Content.WriteHolds | src/sync/TransferManager.cpp:734-766 | writing one chunk at its offset adds that chunk and disturbs no other |
| Content.PartHolds | src/sync/TransferManager.cpp:752-766 | a write of a chunk that fails after any number of bytes disturbs no chunk that is there, its own included |
| Content.AllChunksMakeSource | src/sync/TransferManager.cpp:734-776 | a file that holds every chunk is the source followed by whatever was there beyond it |
| Transfers.DeliverTruthful | src/sync/TransferManager.cpp:668-799 | handling any chunk of an unchanged source, whatever the disk refuses, keeps every set bit and every stored row but those recorded as stale backed by the right bytes |
| Transfers.StepTruthful | src/sync/TransferManager.cpp:668-1181 | so does every operation; a row becomes stale only when the temp file it speaks of is given up, and no longer is when it is stored anew |
| Transfers.FinalizeReachesSource | src/sync/TransferManager.cpp:764-776 | over every order, duplication, interruption and disk failure with no temp file at the start: when finalize is reached the temp file is the source byte for byte |
| Completion.MissingChunksComplete | src/sync/TransferManager.cpp:734-776 | from any state such a run can reach, delivering every missing chunk in any order, with repetitions, leaves the source in the final file |
| Completion.FromStartCompletes | src/sync/TransferManager.cpp:963-1041 | the chunks from any point within the received prefix on always complete the file |
| EndToEnd.BuildFileRequest | src/sync/SyncHandler.cpp:154-182 | a resume request if one can be had, else the expected metadata are registered and the whole file is asked for |
| EndToEnd.RequestedTruthful | src/sync/SyncHandler.cpp:154-182 | requesting keeps the state truthful and asks to start within the received prefix |
| EndToEnd.RequestUploadReceive | src/sync/TransferManager.cpp:170-439 | end to end, for a first download as for a resumed one: the request, the start the sender grants whatever hash it has on record, an upload paused and reopened at will, its packets in any order with duplicates, and the receiver has the source |
| EndToEnd.UploadThenReceive | src/sync/TransferManager.cpp:269-439 | the same from any start within the received prefix |
| EndToEnd.DownloadCompletes | src/sync/TransferManager.cpp:170-439 | with no assumption on how the upload ends: if the peer stays and the file opens in time, the request, the upload and its packets in any order leave the source at the receiver |
| Resuming.CheckResumeExactly | src/sync/TransferManager.cpp:963-1041 | a download is resumed if and only if it was started and not finished, its temp file is there, and neither hash nor size contradicts what is recorded; a started one that is not is forgotten, a contradicted one with its temp file if that can be removed |
| Resuming.GrantedExactly | src/sync/TransferManager.cpp:240-262 | where the sender starts for the request that was made: behind the received prefix if and only if the download is resumed and its recorded hash and size are the sender's by then, else at the beginning |
| Resuming.ChangedSourceCompletes | src/sync/TransferManager.cpp:991-1014 | from every reachable state of a download whose file has changed at the peer: the request asks for all of it, and its chunks in any order leave the new file in place |
| Resuming.ChangedSourceOverOldExactly | src/sync/TransferManager.cpp:991-1014 | if the temp file cannot be removed, so they do if and only if the new file is not shorter than what was there |
| Resuming.RegisteredIsChecked | src/sync/TransferManager.cpp:640-660 | a download registered with a hash is put in place and recorded if it has that hash, and thrown away if it has another |
| Resuming.BegunStaysAsItIs | src/sync/TransferManager.cpp:1043-1077 | registering changes nothing of a download that has begun; otherwise peer, hash and size are the new ones |
| Interruptions.LostPeerGoesOn | src/sync/TransferManager.cpp:894-926 | a chunk is handled alike whether or not any peer was lost before it, and the download is then that of the peer it came from |
| Interruptions.OtherTotalStartsOver | src/sync/TransferManager.cpp:526-563 | chunks of another total than the entry's drop all that was received with its temp file; all of them in any order make the file, put in place if it has the recorded hash or none is, else thrown away; one task is counted |
| Interruptions.FinalizeExactly | src/sync/TransferManager.cpp:596-663 | for every answer of the file system: what is in the final file and whether the temp file is left, that what can be neither moved nor copied is still there, and what is recorded or thrown away by its hash |
| StaleTemp.StaleTempExactly | src/sync/TransferManager.cpp:711-732 | with a temp file left from before, and metadata registered or not, the finished file is the source if and only if that file was no longer than the source; else the source with the old tail is in place, or thrown away where a hash is expected |
| StaleTemp.RestartExactly | src/sync/TransferManager.cpp:1133-1181 | after a restart with a row that claims chunks, delivering the others puts the source in place if and only if the temp file is no longer than it and right in every claimed byte; else what they made of it is in place or thrown away by its hash |
| StaleTemp.StaleRestartExactly | src/sync/TransferManager.cpp:752-766 | so it is for every row that a failed write in any run has left stale |
| TempContents.EachMissingFinishes | src/sync/TransferManager.cpp:668-799 | each missing chunk once, in any order, over any temp file: the last one ends the download with what the old bytes became when overwritten chunk by chunk, in place and recorded, or thrown away by its hash; entry, row and temp file gone, and nothing else changed |
| TempContents.MissingWrittenExactly | src/sync/TransferManager.cpp:734-766 | writing the missing chunks over a file gives the source if and only if the other chunks' bytes are right in it, a byte past its end counting as zero |
| StaleTemp.FailedWriteThenRestart | src/sync/TransferManager.cpp:752-766 | a concrete run in which a failed write and a restart finalize a file that is not the source |
| Glob.GlobToRegex | src/storage/FileFilter.cpp:237-358 | the index loop emits exactly the specified text for every glob |
| Glob.EmitPattern | src/storage/FileFilter.cpp:264-349 | the loop over the pattern emits its pieces in order |
| Glob.NextPiece | src/storage/FileFilter.cpp:264-349 | one round of the loop: stars, question mark, class or character, and how far it moves |
| Glob.EmitClassAt | src/storage/FileFilter.cpp:305-321 | a bracketed class with its leading exclamation mark turned into a caret |
| Glob.EscapeAt | src/storage/FileFilter.cpp:313-320 | the loop doubles backslashes and copies the rest of the class |
| GlobProof.CompilesExactly | src/storage/FileFilter.cpp:237-358 | the emitted text is an expression std::regex accepts if and only if every class in the glob is readable |
| GlobProof.GlobToRegexPreservesMeaning | src/storage/FileFilter.cpp:237-358 | the emitted expression matches exactly the paths that the direct glob matcher accepts: rooting, stars, double stars, classes, trailing slash |
| GlobProof.RootedRuleKeepsDepth | src/storage/FileFilter.cpp:250-262 | a rooted glob without double star, class or trailing slash matches only paths with as many slashes as itself |
| RuleLines.LoadRules | src/storage/FileFilter.cpp:34-112 | from the text of the ignore file, line by line, the loaded filter is the one specified for the default rules followed by the file's rules; for no file, the default rules alone |
| RuleLines.LoadRulesFromString | src/storage/FileFilter.cpp:114-155 | the same for the dry run's reading of lines |
| RuleLines.WrittenRulesAreLoaded | src/storage/FileFilter.cpp:56-111 | any list of rule texts can be written to a file that is loaded as those rules in order, none of them negating |
| RuleLines.DryRunAgrees | src/storage/FileFilter.cpp:114-155 | on any text without a backslash the dry run reads the rules the filter will use |
| RuleLines.GetLine | src/storage/FileFilter.cpp:56-57 | the text up to the first line break and what follows it |
| FileFilter.FileFilter.Reload | src/storage/FileFilter.cpp:34-50 | whatever was loaded is forgotten and the default rules read again |
| FileFilter.FileFilter.ParseRule | src/storage/FileFilter.cpp:360-456 | rule list, caches and negation flag after one user rule; a rule that does not compile changes only the flag and the caches as the code does |
| FileFilter.FileFilter.ParseDefaultRule | src/storage/FileFilter.cpp:360-414 | where a default rule goes: suffix cache, directory cache or expression |
| FileFilter.FileFilter.LoadDefaults | src/storage/FileFilter.cpp:28-50 | the built-in patterns, parsed in order into an empty filter |
| FileFilter.FileFilter.FastLookup | src/storage/FileFilter.cpp:164-176 | a hit means a cached suffix, a cached path, or a path below a cached one |
| FileFilter.FileFilter.FindExtension | src/storage/FileFilter.cpp:165-167 | the path from its last dot on, if it has one |
| FileFilter.FileFilter.JudgeWithoutNegation | src/storage/FileFilter.cpp:185-203 | without negated rules the early exits give the verdict of the full evaluation |
| FileFilter.FileFilter.ShouldIgnore | src/storage/FileFilter.cpp:157-233 | both branches compute one thing: ignored by a default rule, else the verdict of the last matching user rule, else the cache hit |
| FilterCaches.LoadedIsCoherent | src/storage/FileFilter.cpp:377-456 | for every loaded list the branch without negation is entered only when no rule negates |
| FilterCaches.CacheRedundantExactly | src/storage/FileFilter.cpp:415-443 | a cached rule's cache entry agrees with its expression on every path if and only if it is a suffix rule that is unrooted and without backslash (or can never hit), or a path rule ending in a slash without backslash |
| FilterCaches.HitMeansMatch | src/storage/FileFilter.cpp:186-197 | with well-formed rules a cache hit implies that some rule's expression matches |
| FilterCaches.LastMatchWins | src/storage/FileFilter.cpp:205-232 | with well-formed rules the verdict is the last matching rule's alone |
| FilterCaches.AppendedRule | src/storage/FileFilter.cpp:205-232 | an appended rule that does not match a path leaves its verdict, one that matches decides it |
| Verdict.DefaultsExactly | src/storage/FileFilter.cpp:10-32 | under every rule list the built-in patterns ignore exactly: two suffixes anywhere, four directories at the root, and eight names anywhere |
| Verdict.BuiltInAlways | src/storage/FileFilter.cpp:162-232 | no user rule, negated or not, takes from that |
| Verdict.TempAlwaysIgnored | src/sync/TransferManager.cpp:503-504 | the temp file of every download is ignored under every rule list |
| Verdict.DotlessExactly | src/storage/FileFilter.cpp:377-402 | a path without a dot is built in if and only if it is at or below build, bin or out of the root, so not inside such a directory further down |
| Verdict.LiteralHits | src/storage/FileFilter.cpp:432-443 | a rule without wildcards is cached as a path if and only if it has a slash, and takes the path and what is below |
| Verdict.SuffixHits | src/storage/FileFilter.cpp:420-431 | a rule of a star and a suffix, rooted or not, takes every path with that extension |
| Verdict.VerdictExactly | src/storage/FileFilter.cpp:162-232 | for every rule list and path, well formed or not: ignored if it is built in, else as the last matching line says, else if a line above the first negated one takes it by suffix or path |
| RuleLines.ProcessLine | src/storage/FileFilter.cpp:72-100 | the character loop removes escapes and cuts at an unescaped hash |
| RuleLines.ParseLine | src/storage/FileFilter.cpp:60-111 | trimming, comments, escapes and the escaped exclamation mark, for every line |
| RuleLines.EscapedRuleIsReadBack | src/storage/FileFilter.cpp:60-111 | every rule text can be written so that it is read back unchanged and not taken for a negation |
| RuleLines.AroundRuleNothingMatters | src/storage/FileFilter.cpp:56-111 | blanks around a rule, a comment behind it and a carriage return make no difference |
| RuleLines.NoRule | src/storage/FileFilter.cpp:60-71 | a line of blanks or of a comment is no rule |
| RuleLines.LoadersAgree | src/storage/FileFilter.cpp:114-155 | the dry-run loader reads a line as the real one does whenever it holds no backslash |
| Store.CachedFileStore.LoadAll | src/storage/CachedFileStore.cpp:11-19 | after loading the cache is the table the connection reads: the open transaction's, else the committed one |
| Store.CachedFileStore.Lookup | src/storage/CachedFileStore.cpp:21-38 | the pending list of the thread's guard newest first, as long as that guard lives, then the shared cache |
| Store.CachedFileStore.Put | src/storage/CachedFileStore.cpp:50-81 | a write reaches the database, and the pending list inside a transaction or the cache outside; a refused write changes nothing |
| Store.CachedFileStore.BeginGuard | src/storage/CachedFileStore.cpp:86-90 | a working copy of the committed table and an empty pending list for the thread |
| Store.Database.Execute | src/storage/Database.cpp:250-278 | one row written or removed, in the open transaction or at once; nothing when refused |
| Store.Database.CommitTransaction | src/storage/Database.cpp:325-333 | the working table becomes the committed one, or nothing changes |
| Store.Database.RollbackTransaction | src/storage/Database.cpp:335-343 | the working table is dropped |
| Store.Database.GetAllFiles | src/storage/Database.cpp:292-313 | exactly the rows of the open transaction's table, else of the committed one, each once, in some order |
| Store.CachedFileStore.CommitGuard | src/storage/CachedFileStore.cpp:98-116 | a commit makes the working table the committed one, replays the pending list on the cache and moves the updates out of it; a failed one changes nothing |
| Store.CachedFileStore.ReleaseGuard | src/storage/CachedFileStore.cpp:92-97 | an abandoned guard rolls back and drops what was pending |
| Store.ScanBackIsReplay | src/storage/CachedFileStore.cpp:21-30 | scanning the pending list backwards finds what replaying it forwards would leave |
| Store.ReadsAreRight | src/storage/CachedFileStore.cpp:11-116 | in every run of writes, begins, commits, failed commits and abandons by any threads: the cache is the committed table, the owner reads its uncommitted table, others the committed one; after its commit the owner reads that too if and only if it is not a path removed and then written again |
| Store.TableIsLog | src/storage/Database.cpp:250-343 | durability in every run: the committed table is the first one with exactly the accepted writes outside transactions, and those of each transaction at its commit, done in order |
| Store.LoadedCacheAnswers | src/storage/CachedFileStore.cpp:11-19 | a loaded cache answers every path as the connection would |
| Store.ReadAfterCommitExactly | src/storage/CachedFileStore.cpp:21-30 | right after a commit the owner reads a path right if and only if the transaction's last operation on it was a removal, or none was |
| Store.RewrittenIsNotFound | src/storage/CachedFileStore.cpp:98-116 | the run in which it does not: begin, remove, write again, commit |
| Store.AbandonedLeavesNoTrace | src/storage/Database.cpp:427-445 | a transaction abandoned or refused at commit leaves the state as it was before it began |
| Scanner.StateManager.ScanDirectory | src/storage/StateManager.cpp:590-904 | file map, directory map, table and retry set after a scan, through the error limit, dirty filter, 500-row windows and zombie cleanup, whatever the database refuses |
| Scanner.StateManager.WalkTree | src/storage/StateManager.cpp:619-789 | pending files with cached or computed hashes, directories, errors and locked files, up to the error limit |
| Scanner.StateManager.BuildMap | src/storage/StateManager.cpp:796-815 | the new file map holds the files with a hash, the dirty list those not from the cache |
| Scanner.StateManager.InTransaction | src/storage/StateManager.cpp:827-843 | a guarded batch of writes leaves the table that replaying them would if nothing is refused, and otherwise the old one; no transaction stays open |
| Scanner.StateManager.WriteDirty | src/storage/StateManager.cpp:823-845 | every window of 500 rows is written if its transaction is accepted, whatever became of the others |
| Scanner.StateManager.RemoveZombies | src/storage/StateManager.cpp:847-878 | the table keeps exactly the rows whose file is in the file map, or all if the cleanup is refused |
| Scanner.StateManager.NotifyChangeDetected | src/storage/StateManager.cpp:186-194 | the path waits to be looked at |
| Scanner.StateManager.TakeChanges | src/storage/StateManager.cpp:253-258 | everything that waits is handed over and nothing waits any more |
| Scanner.StateManager.ScanAndHashChanges | src/storage/StateManager.cpp:291-443 | the taken changes, each looked at once, become updates, new directories, deletions or retries as specified |
| Scanner.StateManager.LookAtOne | src/storage/StateManager.cpp:309-375 | what one changed path contributes, through every early exit |
| Scanner.StateManager.DropUnhashed | src/storage/StateManager.cpp:415-420 | the updates without a hash are dropped, the others stay in order |
| Watching.WhereChangesGo | src/storage/StateManager.cpp:309-420 | every changed path ends up in the list that what is found there says, and no other path in any list |
| Scanner.StateManager.CommitChanges | src/storage/StateManager.cpp:449-567 | maps, retry set and table after a batch, the table only if the transaction is accepted, and exactly which updates, deletions and directories are announced either way |
| Scanner.StateManager.UpdateMaps | src/storage/StateManager.cpp:468-478 | every update enters the file map; echoes are not announced and their records are used up |
| Scanner.StateManager.CreateDirs | src/storage/StateManager.cpp:480-486 | all become known, and exactly the new ones are announced |
| Scanner.StateManager.DeletePaths | src/storage/StateManager.cpp:488-498 | each path leaves the file map, or else the directory map, and is announced as what it was |
| Scanner.StateManager.RemovePathFromMap | src/storage/StateManager.cpp:575-587 | the path leaves the file map; its row and every peer's sync history of it go if their deletions and the commit are accepted |
| Scanner.StateManager.RecordSyncSuccess | src/storage/StateManager.cpp:164-169 | the hash becomes the one last synchronised with the peer, unless the database refuses |
| Scanner.StateManager.CheckAndClearEcho | src/storage/StateManager.cpp:1010-1019 | an echo is a received file with this very hash, and its record is used up |
| Scanner.StateManager.MarkFileReceived | src/storage/StateManager.cpp:1004-1008 | records the hash a file was received with |
| ScanRuns.StepAgreesExactly | src/storage/StateManager.cpp:449-878 | while the projection of the file map is the table, a scan, a batch or a removal keeps it so if and only if nothing it had to write was refused |
| ScanRuns.ScanAgreesExactly | src/storage/StateManager.cpp:590-878 | a scan makes them agree, whatever both held before, if and only if nothing it had to write was refused |
| ScanRuns.MapAndTableAgree | src/storage/StateManager.cpp:449-878 | in every run map and table agree from the last such scan on, or from a consistent beginning, as long as nothing is refused |
| ScanRuns.RunIsTrue | src/storage/StateManager.cpp:449-878 | in every run, whatever the database refuses, every row and map entry is the hash its path had at its time |
| ScanRuns.ScanAfterAnyRun | src/storage/StateManager.cpp:590-878 | a scan after any run with any refusals yields the file map of a scan that hashes every file |
| ScanRuns.FoundIsHonest | src/storage/StateManager.cpp:291-420 | what looking at changes reports are the hashes the paths have |
| ScanRuns.ChangesAreHonoured | src/storage/StateManager.cpp:291-567 | no change is lost: a changed path is afterwards in the maps as it was seen, or waits to be looked at again; no other path's entry changes |
| ScanRuns.EchoUsesUpItsRecord | src/storage/StateManager.cpp:464-478 | every withheld announcement uses up exactly one record; nothing else is withheld |
| ScanRuns.EchoesExactly | src/storage/StateManager.cpp:464-478 | of updates of different files exactly those are withheld whose hash was just received, and exactly their records go |
| ScanRuns.ReceivedExactly | src/storage/StateManager.cpp:1004-1019 | in every run there is a record of a received file exactly from its receipt until its echo |
| ScanRuns.HistoryExactly | src/storage/StateManager.cpp:164-169 | in every run the history has what was last recorded for each peer and path since the path was last removed |
| Scanning.MappedOrRetried | src/storage/StateManager.cpp:655-820 | every file the walk gets to is in the new map or waits to be looked at again |
| Walks.WalkExactly | src/storage/StateManager.cpp:619-789 | a scan records exactly the directories, the files and the locked files that it reaches and that are neither the root nor ignored |
| Walks.FewFailuresReachAll | src/storage/StateManager.cpp:614-630 | fewer than a hundred failing entries never cut a scan short |
| Walks.ErrorsExactly | src/storage/StateManager.cpp:619-673 | the error count is that of the failing entries, up to a hundred |
| Walks.ScanExactly | src/storage/StateManager.cpp:590-904 | after a scan the file map, the directory map and the waiting set are those of the tree, entry by entry, whatever they were before |
| IgnoredPaths.NothingIgnoredIsMapped | src/storage/StateManager.cpp:651-658 | in every run, from a scan on, no ignored path is in the file map or the directory map, whatever was there and whatever the rules were before |
| IgnoredPaths.IgnoredIsNotListed | src/sync/SyncHandler.cpp:808-836 | reconciling with any peer lists no ignored path for deletion, and what is announced names none |
| IgnoredPaths.UnlistedFileStaysExactly | src/sync/SyncHandler.cpp:203-247 | a file reconciling was not told of stays in two-way mode, and in one-way mode if and only if no listed directory is above it |
| IgnoredPaths.PartialDownloadUnseen | src/storage/FileFilter.cpp:10-32 | the temp file of a download is in neither map after a scan, whatever rules are loaded |
| TableWrites.WrittenRow | src/storage/StateManager.cpp:823-845 | a dirty row is in the table if and only if its window was accepted |
| TableWrites.ScanMakesProjectionExactly | src/storage/StateManager.cpp:794-878 | a scan leaves the table equal to the projection of the new file map, whatever the table was, if and only if no window was refused, nor the cleanup where there was something to clean |
| Scanning.IncrementalScanExactly | src/storage/StateManager.cpp:685-820 | a scan with the cache yields the file map of a full rehash if and only if every cached hash it uses is right |
| PathUtils.Normalize | include/VeritasSync/common/PathUtils.h:33-55 | separators unified and trailing slashes trimmed, never to nothing |
| PathUtils.NormalIsFinal | include/VeritasSync/common/PathUtils.h:33-55 | a normalised path has no backslash, no trailing slash beyond a lone one, and is its own normal form |
| PathUtils.TrailingSeparator | include/VeritasSync/common/PathUtils.h:33-55 | a separator of either kind at the end makes no difference |
| PathUtils.CaseInsensitiveEqual | include/VeritasSync/common/PathUtils.h:60-86 | keys compare equal if and only if their lower-case forms, which are hashed, are equal |
| PathUtils.KeyIsPlatformIndependent | include/VeritasSync/common/PathUtils.h:33-85 | lowering while normalising or only when comparing gives the same key |
| PathUtils.SameKeyExactly | include/VeritasSync/common/PathUtils.h:33-86 | two paths have one key if and only if their normal forms agree letter by letter but for the case of ASCII letters |
| SyncPlan.CompareStatesAndGetRequests | src/sync/SyncManager.cpp:109-234 | the loops compute exactly the specified requests, deletions and renames |
| SyncPlan.LocalHashes | src/sync/SyncManager.cpp:141-149 | the local table holds the last hash listed under each key |
| SyncPlan.RemoteKeys | src/sync/SyncManager.cpp:151-160 | the set of keys of the peer's list |
| SyncPlan.FindRequests | src/sync/SyncManager.cpp:162-199 | requests and renames of one pass over the peer's list |
| SyncPlan.FindDeletes | src/sync/SyncManager.cpp:201-231 | deletions of one pass over the local list, in either mode |
| SyncPlan.DetectConflict | src/sync/SyncManager.cpp:304-324 | there is no conflict if and only if the local hash is the recorded one |
| SyncPlan.PlanExactly | src/sync/SyncManager.cpp:162-231 | in both modes, for all lists: what is requested, what is renamed and what is deleted, if and only if |
| SyncPlan.PlanHasNoRepeats | src/sync/SyncManager.cpp:162-231 | when paths are listed once the plan names each path once in each list |
| SyncPlan.TwoWayPlanIsSafe | src/sync/SyncManager.cpp:163-231 | deleted files have their recorded hash and no remote counterpart; an overwritten file has its recorded hash or is renamed first; no key is both requested and deleted |
| SyncPlan.TwoWayDeletesExactly | src/sync/SyncManager.cpp:208-231 | a local file is deleted if and only if the peer lacks it and its hash is the recorded one |
| SyncPlan.OneWayConvergesExactly | src/sync/SyncManager.cpp:140-208 | after the deletions and requests of a one-way plan are carried out the next plan is empty if and only if no key of the peer has two hashes; then the local table is the peer's |
| SyncPlan.TwoWayConvergesExactly | src/sync/SyncManager.cpp:163-231 | after the deletions and requests of a two-way plan are carried out, and synchronised files recorded or not, the next plan is empty if and only if no key of the peer has two hashes |
| SyncPlan.TwoWayLeaves | src/sync/SyncManager.cpp:163-231 | then every key of the peer's list holds the peer's hash, and of the other keys exactly the files stay that are not as last synchronised, with their hashes |
| SyncPlan.CompareDirStates | src/sync/SyncManager.cpp:244-289 | the two directory lists are the two set differences by key |
| SyncPlan.FindMissing | src/sync/SyncManager.cpp:269-286 | the directories whose key the other side lacks, in order |
| SyncPlan.DirPlanConverges | src/sync/SyncManager.cpp:244-289 | carrying out both lists gives the peer's keys, and neither undoes the other |
| Spelling.ConvergesWhereCaseMattersExactly | src/sync/SyncManager.cpp:140-208 | on a case-sensitive file system, after the deletions and requests of a one-way plan the next plan is empty, for every listing order, if and only if changed files are spelled alike on both sides |
| DirSync.DirectorySync.SyncDirectoryActions | src/sync/SyncHandler.cpp:203-247 | deletions longest path first, then creations, with the known directories updated |
| DirSync.SortLongestFirst | src/sync/SyncHandler.cpp:207-210 | a permutation of the list, longest paths first |
| DirSync.DirectorySync.DeleteDirectories | src/sync/SyncHandler.cpp:205-232 | the loop over the sorted list does one removal step after another |
| DirSync.DirectorySync.CreateMissing | src/sync/SyncHandler.cpp:234-246 | the loop over the directories to create |
| DirSync.LeafFirstRemovalIsExact | src/sync/SyncHandler.cpp:205-232 | over any tree and list, remove-if-empty removes exactly the listed paths whose whole subtree is listed; the known directories lose exactly the listed ones no longer there |
| DirSync.OrderDoesNotMatter | src/sync/SyncHandler.cpp:207-210 | how the sort orders paths of equal length makes no difference |
| DirSync.TwoWayRemovalKeepsFiles | src/sync/SyncHandler.cpp:222-228 | when only directories are listed no file is touched, nor any directory above one |
| DirSync.RecursiveRemovalIsExact | src/sync/SyncHandler.cpp:216-220 | one-way mode removes exactly the listed subtrees and forgets exactly the listed paths |
| DirSync.CreationIsExact | src/sync/SyncHandler.cpp:235-246 | a directory is created and becomes known if and only if no file stands on its path |
| Reconciliation.Reconciler.DeleteFiles | src/sync/SyncHandler.cpp:821-836 | the loop removes one listed path after another, and what was removed leaves the file map, its row and its history as the database answers |
| Reconciliation.Reconciler.Reconcile | src/sync/SyncHandler.cpp:799-844 | the tree, the known directories and the file map after file deletions, directory deletions and directory creations, in that order |
| Reconciliation.MapFollowsTree | src/sync/SyncHandler.cpp:821-836 | after the file deletions of any plan the file map is still that of the files there are, and of the deleted ones exactly those keep a row or a history whose removal the database refused |
| Reconciliation.ClearedExactly | src/sync/SyncHandler.cpp:205-232 | what is left of every scanned tree in either mode: all but the listed files and what goes with the listed directories |
| Reconciliation.OneWayLeavesOnlyTheirs | src/sync/SyncHandler.cpp:205-232 | one-way mode leaves of a tree that was listed completely only what the peer's lists name |
| Reconciliation.TwoWayKeeps | src/sync/SyncHandler.cpp:821-843 | two-way reconciliation takes no file and no directory whose key the peer's lists name from any scanned tree |
| Reconciliation.OneWayKeeps | src/sync/SyncHandler.cpp:216-220 | nor does one-way reconciliation, if the peer's lists name every directory above what they name |
| Reconciliation.OneWayKeepsExactly | src/sync/SyncHandler.cpp:216-220 | that condition is exact: one-way reconciliation keeps all that is listed in every scanned tree if and only if it holds |
| Reconciliation.CreationKeeps | src/sync/SyncHandler.cpp:235-246 | creating the missing directories takes nothing away |
| Reconciliation.ScannedIsKeyRooted | src/storage/StateManager.cpp:619-724 | what a scan finds, without backslashes in names, names every directory above what it names |
| FloodPeer.SyncHandler.BeginFloodSyncAccumulation | src/sync/SyncHandler.cpp:735-757 | the peer's accumulator starts afresh; no other peer's changes |
| FloodPeer.PeerController.SetSyncSessionId | include/VeritasSync/p2p/PeerController.h:218-218 | only the session changes |
| FloodPeer.SyncHandler.HandleFileUpdateBatch | src/sync/SyncHandler.cpp:473-551 | which batches are counted, by session, and what completion follows |
| FloodPeer.SyncHandler.HandleDirBatch | src/sync/SyncHandler.cpp:617-730 | the same for directories |
| FloodPeer.SyncHandler.CheckAndRunCompletion | src/sync/SyncHandler.cpp:759-781 | a full accumulator is handed on once and erased; one that is not stays |
| FloodPeer.SyncSession.HandleSyncBegin | src/sync/SyncSession.cpp:67-98 | the offer side with a session of its own ignores it; anyone else takes the session and starts over |
| FloodPeer.SyncSession.SyncTimeout | src/sync/SyncSession.cpp:101-121 | acknowledges and leaves the session if it is still the current one |
| FloodPeer.SyncSession.HandleSyncAck | src/sync/SyncSession.cpp:128-161 | only an acknowledgement of the current session asks for a new flood, under a new session |
| FloodSync.BroadcastManager.PerformFloodSync | src/p2p/BroadcastManager.cpp:202-225 | nothing is announced for a session that is over or an empty state |
| FloodSync.BroadcastManager.SendBeginAndDirs | src/p2p/BroadcastManager.cpp:231-266 | the counts, then the directories, without another look at the session |
| FloodSync.BroadcastManager.PaceAndSendFileBatches | src/p2p/BroadcastManager.cpp:275-323 | the next batch of at most 50 files while the session lasts |
| FloodIds.EachSessionCompletesAtMostOnce | src/sync/SyncHandler.cpp:759-781 | in every run whatsoever no session is completed twice on a side, and each was asked for by the other side |
| FloodSafety.SenderBegins | src/p2p/BroadcastManager.cpp:231-258 | a beginning keeps the channel in step if and only if no flood of the current session still has files to send |
| FloodSafety.TakeKeepsStep | src/sync/SyncHandler.cpp:507-781 | taking a message keeps the accumulator equal to what its flood has sent if and only if no beginning is missed, and completes only whole snapshots |
| FloodRuns.StepIsGoodExactly | src/sync/SyncSession.cpp:76-98 | from every state in the invariant, a step of either peer keeps it if and only if it is not one of the two races |
| FloodRuns.CurrentFloodCutsNothing | src/p2p/BroadcastManager.cpp:209-247 | checking the session again before the beginning would rule out the second race |
| FloodRuns.FloodSyncIsSafe | src/sync/SyncHandler.cpp:735-793 | in every run without the two races a completed accumulation is exactly the sender's non-empty snapshot for that session, and is completed once |
| FloodDelivers.FloodDelivers | src/p2p/BroadcastManager.cpp:202-323 | from every state in which all that was sent has arrived and the other side takes it, a flood of any state, of any size, gets through by its own tasks: handed on once, whole, under its session |
| FloodDelivers.OfferSideGetsThrough | src/sync/SyncSession.cpp:76-86 | the tie-break: the offer side's flood gets through whatever flood of its own the other side is in the middle of |
| FloodDelivers.BatchesOfFifty | src/p2p/BroadcastManager.cpp:275-323 | batches hold fifty files, the last perhaps fewer |
| FloodDelivers.FloodGoesOnExactly | src/p2p/BroadcastManager.cpp:202-323 | a flood is dropped at its scan if and only if its session is over or there is nothing to announce, and sends a batch if and only if its session is not over and one is left |
| FloodDelivers.NothingAnnounced | src/sync/SyncHandler.cpp:735-757 | an announcement of nothing is complete at once |
| FloodTimers.TimerExactly | src/sync/SyncSession.cpp:101-121 | in every run a timer of another session changes nothing; one of the current session acknowledges it and leaves it, and the other side had asked for it |
| FloodTimers.AckRestartsOwnFlood | src/sync/SyncSession.cpp:128-161 | in every run an acknowledgement makes a side flood again only if it is of the current session, and that session is its own |
| FloodTimers.BatchCounted | src/sync/SyncHandler.cpp:473-730 | every batch, one that deletes directories included, is counted alike by the progress counters and by the accumulator |
| FloodTimers.AckCountsExactly | src/sync/SyncHandler.cpp:473-551 | in every run what would be acknowledged of a session that is being counted is what has been counted of it |
| FloodRace.ReconciliationKeepsSnapshot | src/sync/SyncHandler.cpp:799-844 | in such runs the whole reconciliation, against any local tree, takes no file and no directory whose key that snapshot has: in two-way mode always, in one-way mode if the snapshot names every directory above |
| FloodRace.UnrootedFloodLosesFiles | src/sync/SyncHandler.cpp:216-220 | for every snapshot of up to 50 files that names none of the directories above a file: a run without races completes it exactly, and one-way reconciliation takes that file from some tree |
| FloodRace.IgnoredBeginDeletesFiles | src/sync/SyncSession.cpp:79-86 | for every state of 51 to 100 files and no directories: a re-announcement ignored by the accumulating offer side makes it delete files that the other side has |
| FloodRace.StaleBeginDeletesFiles | src/p2p/BroadcastManager.cpp:231-247 | for every such state: a stale sync_begin makes the answer side delete files that both scans found |
| FloodResend.ReannouncementDeletesFiles | src/sync/SyncSession.cpp:79-86 | from every state in the invariant in which the offer side is in the middle of counting a flood of any size and all that was sent has arrived: announcing the same state again makes it delete the last file |
| FloodFeeds.Fills | src/sync/SyncHandler.cpp:507-551 | batches of whatever flood goes on are counted into the other side's accumulator until it has as many files as it expects, and it is handed on with those files |
| FloodStale.StaleBeginAlwaysDeletes | src/p2p/BroadcastManager.cpp:231-247 | from every state in the invariant in which a flood is in the middle of being sent, a stale sync_begin announces no more files than are left of it, and all that was sent has arrived: the rest is handed on under the stale session and the other side deletes its files that are not in the rest |

## Left out

- Sockets, ICE, KCP, LAN discovery, UPnP, threads and clocks: a channel is a FIFO sequence that a lost connection empties, a timer a step that may come at any moment, and each handler one atomic step.
- Snappy, SHA-256, SQLite, JSON and the std::regex engine: parameters, an abstract table, or a datatype with a matching predicate.
- WebUI, tray, logging, configuration, the tracker, path safety checks, encryption and reconnect backoff.
- Transfer: receive entries are values in a map field; that the program shares them by pointer, and what two threads inside one chunk handler could do to each other, is not modelled.
- Transfer: exceptions inside a chunk handler (`src/sync/TransferManager.cpp:778-797`), a copy that fails half way, a final file that cannot be hashed, buffered stream writes lost in a crash, and temp files deleted by others while the program runs, are not modelled.
- Transfers.FinalizeReachesSource: runs exclude a restart while a stale row has a new temp file that does not hold what the row claims, because then it is false; StaleTemp.StaleRestartExactly says when it is true all the same.
- Ignore rules: POSIX classes such as `[[:alpha:]]` count as classes std::regex rejects, and ranges compare character codes, not collation; the scanner's subtree pruning is part of what the iterator yields.
- Store.ReadsAreRight: assumes BEGIN succeeds, guards are not nested, and nothing is written through a guard after its commit; between commit and end it says nothing of the empty path, under which moved-out updates are found; automatic rollback by SQLite and NULL hashes are not modelled.
- ScanRuns.RunIsTrue: takes a path's hash to be determined by the path and its modification time in seconds, as the cache does; two writes within one second are not told apart.
- Scanner.StateManager.ScanAndHashChanges: paths are relative to the root, the hashing threads are one loop, and a stop request, which throws the changes away at shutdown, is not modelled; nor are the retry timer, the debounce timer and the batch threshold.
- Echo suppression by what was sent, and the broadcast of changes other than what is announced.
- SyncPlan.TwoWayPlanIsSafe: is about the plan, and SyncPlan.TwoWayConvergesExactly about its deletions and requests; renaming conflicting files is not carried out by reconciliation (`src/sync/SyncHandler.cpp:813-840`), and per-file conflict resolution (`src/sync/SyncHandler.cpp:69-152`) is not modelled.
- SyncPlan.OneWayConvergesExactly: carries the plan's deletions and requests out on the table of keys, as on a case-insensitive file system; Spelling covers the other kind.
- DirSync.LeafFirstRemovalIsExact: a removal fails only because the directory is not empty; permissions are not modelled.
- FloodRuns.FloodSyncIsSafe: runs contain no incremental file or directory batches inside an open session, which the handler would count like flood batches (`src/sync/SyncHandler.cpp:510-520`); session ids are unique.
- FloodRuns.StepIsGoodExactly: exact for the invariant; that a race ends in wrong deletions is shown from every state in the middle of a flood in which all messages have arrived.
- FloodRace.ReconciliationKeepsSnapshot: deletions of files and directories that the file system refuses, and files that change between the scan and the deletions, are not modelled.
- File requests and their pacing after a comparison, and progress reports.
