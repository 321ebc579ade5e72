# Verified model of ccw's file sync, usage collector and auth limiter

This project models the stateful core of ccw in Dafny and proves what it keeps over all inputs and all
runs. `dafny verify dfyconfig.toml` checks everything.

- **The sync server.** A project is an index of rows (size, digest, revision, tombstone flag), the files
  on disk, the temp files, and a history of all commits per path. Puts, deletes, reconciles and edits made
  inside the container are steps (`FileIndex`, `SyncServer`); the session with its store and directory
  objects is proved to perform exactly those steps (`SyncSessions`). `ServerRuns`, `Usage` and
  `Reconciling` prove revisions, quota and repair over whole runs. `Interleaving` splits every operation
  into the small steps between which other sessions and the container act, and `Linearization` proves that
  every interleaving is a serial run of the whole operations.
- **The sync client.** `ThreeWay` is the three-way comparison, `PlanMeaning` the table it amounts to, `Wire`
  the replies on a connection and how the client reads them, `ClientRound` one round against a server that
  others keep changing between the calls, `SyncClients` the client object proved to perform that round.
  `Safety` follows a device through every run, `TempNames` says which files a round's own temp files destroy,
  `RoundMeaning` what each call leaves behind when things go wrong, `CalmRound` and `Convergence` follow two
  undisturbed rounds to agreement, `CopyNames` says which conflict copies and temp files take part in it.
- **Where promises end.** `Strays` says what a reply nobody has read does to a connection, `Overwrites`
  which files are replaced unseen, and `Witnesses` holds the concrete runs of the next section.
- **Around them.** `Paths` (canonical paths and exclusions), `Walk` (the pruned and the full directory walk),
  `Frames` (the frame protocol over two queues), `Limiters` (the sliding-window limiter on its own arrays),
  `Lines`, `Collecting`, `CollectorScans`, `CollectorRuns` and `ReplacedFiles` (the resumable reader of .jsonl
  files, with failures and lost cursors anywhere, and what it makes of a file that replaces another).
  `Listing`, `Sequences` and `Options` hold lists with unique paths, facts about sequences, and `Option`.

Choices made throughout:

- SHA-256 is an injective, never empty digest: `Sha(content)`. An entry without a digest has `NoDigest`.
- Sizes, revisions, token counts and times are unbounded integers.
- Failures of the store, the file system, the network and the sink are parameters of each operation (the
  few that are not are listed under "Left out"), so every result holds for every pattern of failures its own
  `requires` does not exclude. A store or sink may also report an error for what it has written.
- What other devices and the container do between two calls of a round is a `script` of turns; a call may
  also be lost, before it reaches the server or on the way back.
- Iteration over a Go map (`Diff`'s second loop, the baseline written at the end of a round) visits the
  entries in an arbitrary order.
- JSON and time parsing are an arbitrary `Codec` of two functions. Trimming covers the ASCII spaces,
  U+0085 and U+00A0.

## Where the code does not keep what it says

The code is modelled as it is. For each item an if-and-only-if theorem says when the code does meet the
promise, for all inputs. Where that theorem does not already show it, a run with concrete values shows that
it sometimes does not.

- *Cleaning up can always free space* (internal/storage/accounting.go:53-54): a row under a path that is
  not canonical can never be deleted by a client, because every request path is canonicalised first.
  Deletes reach a total exactly down to the sum of those rows: `Usage.DeletesCanFree`. A file the container
  named `a\b` gets such a row: `Witnesses.OddRowStays`.
- *A download writes a temp file and renames it* (internal/sync/syncclient.go:155): the temp file stands in
  the synced tree as `<target>.cclaude.dl.tmp`, so every download and every saved conflict destroys a local
  file of that name, whether or not the server has its bytes. Whatever happens to a round, it spares every
  file its plan may not replace exactly if none of them is called like the temp file of a target it may
  fetch: `TempNames.SparesIffNamesAreFree`, and file by file for the round that took place,
  `TempNames.KeptIffNotATemp`. A device in cleanup mode loses a file it never uploaded:
  `Witnesses.UnsyncedFileIsLost`. When the target of one download is called like the temp file of another,
  the order in which Go visits the map decides what is left: downloads can be made in any order exactly if
  there is no such pair (`CalmRound.DownloadsInAnyOrder`), and in the other order the next round deletes the
  lost file on the server (`Witnesses.DownloadOrderShows`). A rename that fails leaves the temp file behind,
  and the next round uploads it (`RoundMeaning.LeftoverIsUploaded`), unless its target is called
  `.cclaude.tmp` (`CopyNames.TempIsScannedIff`).
- *A download brings the server's file*: the server ignores an error while it sends the bytes
  (internal/sync/ws.go:116), and the baseline entry of a download has no digest, so the next round uploads
  what came as an edit. The server keeps its bytes exactly if nothing was missing:
  `Overwrites.CutDownloadSpreads`.
- *Two rounds bring everything into step*: an edited local file whose server row is a tombstone stays in
  conflict for ever, because its put would need the tombstone's revision and the conflict copy cannot be
  fetched. Rounds converge exactly when there is none, except that the first round's own temp files may
  destroy such an edit, or a file that only happens to equal the server's and must then be fetched again:
  `Convergence.TwoRoundsConverge`. A put, a delete elsewhere and an edit here lead to it:
  `Witnesses.BuriedEdit`.
- *A write whose commit failed is picked up by the next reconcile*: exactly when the path is one a scan
  lists and the content differs from the live row (`Reconciling.LostPutCommitHeals`); for a delete exactly
  when the row was live (`Reconciling.LostDeleteCommitHeals`). The same bytes put again:
  `Witnesses.LostCommitStays`.
- *The server walk and the client walk list the same files* (internal/sync/client.go:42): exactly when the
  root's own name is not excluded or no file below it is to be listed. It holds for every absolute root:
  `Walk.WalksAgree`. A root called `build`: `Witnesses.ExcludedRoot`.
- *A reply belongs to the call that reads it*: when reading a file to upload breaks off, the client returns
  without reading the reply and goes on with the same connection. A reply waits exactly if that has happened
  (`Frames.CleanIffNoReaderFailed`, `Strays.WaitingIffReaderFailed`), and the connection may be used
  further without a risk to the baseline exactly if it has not, whatever the waiting reply says:
  `Strays.SafeIffReadersHeld`; that is about the connection, while one round with one plan need not run into
  it. Two puts that show it in frames: `Witnesses.ReplyReadByAnother`. Three
  uploads, the first of which breaks off, leave a baseline entry for a version that was never committed,
  and the next round destroys an edit the server never had: `Witnesses.StrayReplyBreaksBoth`. `Safety`
  therefore speaks of runs in which no reading of a file to upload has broken off.
- *Deleted here, changed there keeps the server version* (internal/sync/manifest.go:51): the round saves a
  conflict copy and takes over the server's revision as its base, so the next round deletes the file on the
  server. Of the paths in conflict the server keeps exactly those with a scanned local file that no temp file
  of the first round destroys; the server's bytes survive in the copy: `Convergence.ConflictsKeepBoth`.
- *No silent overwrite* (internal/sync/syncserver.go:74): a put or delete is checked against the index and
  not against the disk. What it replaces since an edit made in the container is the version it is based on
  exactly if the edit left the row's digest in place, or a reconcile (or a put or delete of the path) has
  written its row since: `Overwrites.ReplacedSinceEdit`. Otherwise the edit can be gone without a
  trace: `Witnesses.EditIsReplaced`. What is never lost is the record of a committed version and, on the
  device, content the server does not hold in a file not called like a temp file: `Safety.RoundsLoseNothing`.
- *Never a silent overwrite* (the repository's README.md:23), for a local file the scan skips: it is
  overwritten in an otherwise quiet round exactly if the manifest lists its path as live, as it does after a
  put of that path that no reconcile has followed, the baseline does not know it and the server can send it,
  or if it is called like a temp file of the round: `Overwrites.SkippedFileIff`.
- *Both versions of a conflict are kept* (the repository's README.md:23), as a copy that takes part in the
  sync: exactly unless the file is called `.cclaude.tmp`, whose copy looks like a temp file:
  `CopyNames.CopyIsScannedIff`.
- *A truncated or rotated file is read again from the start* (internal/usage/collector.go:159): a replaced
  file is caught exactly if it is still shorter than the old cursor or some scan saved its cursor while it was
  (`CollectorRuns.CaughtIff`); the sink then ends up with the old rows merged with the new lines
  (`CollectorRuns.ReplacedFileCatchesUp`). In every other course of sizes and saved cursors that leaves room
  for an event, some contents lose one: `ReplacedFiles.InsertedForSureIff`. When the scan that found it
  shorter fails and the file grows past the old cursor, its first lines are never inserted
  (`CollectorRuns.ReplacedFileIsMissed`). A scan with a cursor of other contents is sure to read everything
  exactly if it finds the file shorter, starts at the beginning or has no line to miss:
  `CollectorRuns.ForeignCursorIff`.

## Model

| member | source | states |
|---|---|---|
| Paths.SafeRelPathMeaning | internal/sync/paths.go:14-29 | a path is accepted iff it does not start with a separator, has no NUL and no `..` segment and names something, where `/` and `\` both separate; the result is its segments without empty and `.` ones, with path.Clean and the rewriting of separators gone from the statement |
| Paths.SeparatorsAreOne | internal/sync/paths.go:15 | a backslash anywhere in a path means the same as a slash there |
| Paths.CleanIsInside | internal/sync/paths.go:24-27 | once `..` segments are refused path.Clean cannot climb out, so the final `../` test never fires, and the result is `.` exactly when no segment counts |
| Paths.SafeRelPathClean | internal/sync/paths.go:11-29 | results have no empty, `.` or `..` segment, no backslash, no leading slash, no NUL |
| Paths.SafeRelPathIdempotent | internal/sync/paths.go:14-29 | canonicalising a canonical path changes nothing |
| Paths.SafeRelPathInjective | internal/sync/paths.go:14-29 | two accepted spellings get the same path iff their relevant segments, between separators of either kind, are the same |
| Paths.ExclusionMeaning | internal/sync/paths.go:31-54 | excluded are exactly the listed directories with all below them, judged by whole segments, and the files whose path begins like a listed one |
| Paths.ExclusionIsDownwardClosed | internal/sync/paths.go:31-54 | an excluded directory excludes every path below it |
| Paths.AbsoluteIsNotExcluded | internal/sync/paths.go:47-54 | no absolute path is excluded |
| Walk.Walker.Scan | internal/sync/client.go:46-72 | the pruning walk callback appends exactly the pruned listing of the subtree |
| Walk.Walker.List | internal/sync/server.go:134-155 | the full walk callback appends exactly the full listing of the subtree |
| Walk.NothingBelowExcluded | internal/sync/client.go:51-56 | the full walk lists nothing below an excluded directory, so skipping it loses nothing |
| Walk.WalksAgree | internal/sync/client.go:42-74 | both walks list the same files in the same order iff the root's own name is not excluded or no file below it is to be listed; always for an absolute root |
| Witnesses.ExcludedRoot | internal/sync/client.go:51-56 | for the root `build` with one file the pruned walk lists nothing and the full walk lists the file |
| Walk.ScanDirIsFlat | internal/sync/client.go:44-74 | a scan of a directory tree from a cleaned root that is not excluded lists exactly the scannable files of its flat path map, each once, which is the view the server model takes |
| FileIndex.UsedUpdate | internal/store/sync.go:63-69 | replacing one row moves the total of live sizes by exactly the difference of the two sizes |
| FileIndex.CommitAllTwice | internal/store/sync.go:49-61 | committing two disjoint batches of rows is committing them at once, whatever the order |
| ServerRuns.CurrentMeans | internal/store/sync.go:16-28 | a path is found iff it was ever committed, its revision counts its versions, its size is that of the last version and 0 for a tombstone, and a put's base is accepted iff it is that count |
| SyncSessions.RevisionStore.TotalSize | internal/store/sync.go:63-69 | the summing loop returns the total of the live rows |
| SyncSessions.RevisionStore.Commit | internal/store/sync.go:49-61 | upserts one row, or nothing, and may report an error for a row it has written |
| SyncSessions.DirStore.WriteTemp | internal/sync/server.go:61-89 | a temp file is left only on success; reading one byte past the limit is what detects an oversized body |
| SyncSessions.DirStore.Promote | internal/sync/server.go:103-109 | moves the temp file's bytes to the path, or changes nothing on failure |
| SyncSessions.SyncSession.HandlePut | internal/sync/syncserver.go:61-115 | the object's whole new state and its reply are those of the atomic put, on every path and failure |
| SyncSessions.SyncSession.PromoteStaged | internal/sync/syncserver.go:88-114 | the same for the part after staging; every rejection discards the temp file |
| SyncSessions.SyncSession.HandleDelete | internal/sync/syncserver.go:117-144 | the object's whole new state and its reply are those of the atomic delete |
| SyncSessions.SyncSession.ReconcileCloud | internal/sync/syncserver.go:153-187 | the two loops, row by row and with failing commits ignored, perform the reconcile of the whole project at once |
| SyncSessions.SyncSession.HandleManifest | internal/sync/syncserver.go:146-151 | reconciles, then lists exactly the index, tombstones included |
| SyncSessions.SyncSession.HandleGet | internal/sync/syncserver.go:189-207 | reads without changing anything; the reply has the current revision and bytes and no digest |
| ServerRuns.PutAccepted | internal/sync/syncserver.go:70-114 | an accepted put directly follows its base revision, stores exactly the declared bytes within MaxBytes, and changes no other path and no temp file |
| ServerRuns.PutRefused | internal/sync/syncserver.go:81-113 | a refused put leaves no trace at all, except that a commit reported as failed leaves the checked bytes in place, without their row or with exactly the row of the accepted put |
| ServerRuns.PutAcceptedIff | internal/sync/syncserver.go:63-115 | in a consistent state a put is accepted iff its path is safe, it is based on the last version, its bytes arrive whole within MaxBytes and are the declared ones, in cleanup mode they shrink the file, they shrink it or the total with the new row in place of the old one is within the limit, and nothing fails |
| ServerRuns.PutReasons | internal/sync/syncserver.go:63-114 | which reason a refused put is given, each exactly when it is the first thing wrong |
| ServerRuns.UnsafeIsRefused | internal/sync/syncserver.go:64-67 | a put or delete is refused as unsafe iff its path is not acceptable |
| ServerRuns.GetMeans | internal/sync/syncserver.go:189-207 | a get finds a path iff it was ever committed and is on disk: the bytes there, next to the number and the size of the last version |
| ServerRuns.PutThenGet | internal/sync/syncserver.go:189-207 | what was put is what a get brings next, under every spelling of the path, with the revision the put was answered |
| ServerRuns.DeleteAccepted | internal/sync/syncserver.go:125-143 | an accepted delete of a known path leaves a tombstone one revision up and no file |
| ServerRuns.DeleteAnswers | internal/sync/syncserver.go:125-143 | a delete of a path that never was changes nothing and answers its own base; any other is accepted iff it is based on the last version and nothing fails, and a wrong base is a conflict |
| ServerRuns.RunKeepsConsistent | internal/sync/syncserver.go:63-187 | every run keeps rows equal to the last of an unbroken chain of commits, tombstones at size 0, and never rewrites history |
| ServerRuns.RevisionsAreGapless | internal/sync/syncserver.go:70-114 | in every run the commits of a path carry revisions 1, 2, 3, …, each based on exactly its predecessor, no two on the same base, and the row is the last |
| Usage.PutMovesUsage | internal/sync/syncserver.go:96-113 | `used - oldSize + newSize`, the figure the gate judges, is exactly the total after the commit |
| Usage.CleanupPutShrinks | internal/sync/syncserver.go:92-95 | in cleanup mode an accepted put strictly lowers the total |
| Usage.DeleteNeverRaisesUsage | internal/sync/syncserver.go:117-144 | no delete, accepted or not, raises the total |
| Usage.UsageBound | internal/storage/accounting.go:53-63 | from any consistent state the total stays within the largest of the limit, where it began, and its peak right after a reconcile |
| Usage.QuotaHolds | internal/storage/accounting.go:53-63 | from an empty project the total never exceeds the larger of limit and reconcile peak, and never the limit when only puts, deletes and container edits happen |
| Usage.UnreachableStays | internal/sync/paths.go:14-29 | puts and deletes never change the rows under paths that are not canonical |
| Usage.DeletesCanFree | internal/sync/syncserver.go:117-144 | some run of accepted deletes brings the total to a target iff the rows under paths that are not canonical fit in it |
| Witnesses.OddRowStays | internal/sync/syncserver.go:171-180 | a reconcile creates a row for a file named `a\b`, and no run of puts and deletes changes it |
| Reconciling.ReconcileAt | internal/sync/syncserver.go:171-186 | a reconcile leaves a row alone where index and disk agreed, its commit failed or scan or listing did, and elsewhere records the disk one revision up |
| Reconciling.ReconcileSettles | internal/sync/syncserver.go:153-187 | after an undisturbed reconcile live rows equal the scan of the disk, agreeing rows and tombstones are untouched, changed ones are one revision up, no excluded path is live, and repeating it commits nothing |
| Reconciling.LostPutCommitHeals | internal/sync/syncserver.go:105-113 | after a put whose commit failed, a reconcile produces the very row of the successful put iff the path is scannable and its content differs from the live row's |
| Reconciling.LostDeleteCommitHeals | internal/sync/syncserver.go:135-142 | after a delete whose commit failed, a reconcile produces the tombstone of the successful delete iff the row was live |
| Witnesses.LostCommitStays | internal/sync/syncserver.go:171-177 | after the same bytes are put again with a failing commit, the reconcile does not produce the row of the successful put |
| Linearization.AdvanceRefines | internal/sync/syncserver.go:63-187 | each small step under the lock either decides its operation, with the effect and answer that operation has alone, or changes nothing an outsider could see |
| Linearization.InterleavingIsSerial | internal/sync/syncserver.go:44-59 | for any number of sessions under one project lock and unlocked container edits in between, whenever the lock is free the project is in the state a serial run of whole operations reaches |
| Linearization.AnswersAreSerial | cmd/worker-agent/main.go:95-100 | every finished session got exactly the answer its latest operation gives in that serial run |
| Linearization.OperationsKeepTheirOrder | internal/sync/syncserver.go:44-59 | in the serial run every session has exactly the operations it took up, each once and in order; only the one it is still about is to come |
| Linearization.OnlyEditsAreUnsigned | internal/sync/syncserver.go:153-187 | an entry of the serial run that belongs to no session is a container edit, and the other way round |
| Linearization.PutReadsStayValid | internal/sync/syncserver.go:68-114 | the row and the total a put has read still hold when it promotes and when it commits, and no two sessions are inside the lock |
| Linearization.ConcurrentRevisionsAreGapless | internal/sync/syncserver.go:63-187 | the unbroken chain of revisions holds for concurrent sessions as well |
| Linearization.EditsKeepTheirOrder | internal/sync/syncserver.go:153-187 | on every path the serial run contains exactly the container edits that happened, in order; only edits a scan under way has missed are still to come |
| ThreeWay.BuildLocal | internal/sync/manifest.go:97-126 | the two loops compute the view of directory and baseline, scanned files first |
| PlanMeaning.BuildLocalMeans | internal/sync/manifest.go:97-126 | the local entry of every path, whatever states the saved baseline has: clean iff scanned with the baseline's digest, gone iff known and not scanned, unless it was gone before |
| ThreeWay.Diff | internal/sync/manifest.go:52-95 | the two loops compute the plan of the local entries plus a download for every live row seen nowhere locally, in any map order |
| PlanMeaning.DiffFollowsTheTable | internal/sync/manifest.go:45-126 | on what BuildLocal makes of a directory and a baseline, Diff puts every path in exactly the list the table names and in no other, and every entry carries what directory, baseline and rows say about its path, both digests of a conflict included |
| PlanMeaning.MissingRowIsNoDeletion | internal/sync/manifest.go:59-88 | on the five lists of the plan: a path without a manifest row is not downloaded, removed or declared in conflict; an unedited file is not uploaded, deleted on the server or declared in conflict; the server is only asked to delete what is gone here while its row has not moved, and a file is only removed here if it is unedited and its row a tombstone |
| SyncClients.Transport.Put | internal/sync/syncclient_ws.go:54-82 | on a connection that may lose the call or the reply, and with a content reader that may break off, the put is the server's put at that moment or none; its reply is the oldest one waiting, and is left behind when the reader broke off |
| SyncClients.SyncClient.WriteLocal | internal/sync/syncclient.go:155-173 | creating, filling and renaming the temp file beside the target: what had its name is destroyed as soon as it is created, a copy that breaks off removes it, and a failing rename leaves it there |
| SyncClients.SyncClient.Download | internal/sync/syncclient.go:122-149 | writes the fetched bytes to the target and records the reply's revision without a digest; otherwise no entry changes, and of the files only the one called like the temp file |
| SyncClients.SyncClient.UploadOne | internal/sync/syncclient.go:74-92 | the effect of one upload on files, baseline, notices and server, for acceptance, conflict, other rejections and lost calls |
| SyncClients.SyncClient.RunPlan | internal/sync/syncclient.go:58-120 | the baseline loop and the five plan loops perform the plan's actions in order |
| SyncClients.SyncClient.SyncOnce | internal/sync/syncclient.go:35-56 | the object performs one round: reconciled manifest, scan, comparison with the baseline, plan, new baseline |
| SyncClients.CleanBaseIsKept | internal/sync/syncclient.go:62-67 | the new baseline starts from exactly the entries whose file still has the recorded digest |
| RoundMeaning.ActionsFollowTheTable | internal/sync/syncclient.go:73-113 | in every mode a round acts once on each path with something to do, as the table says; only uploads are left out in cleanup mode |
| RoundMeaning.ManifestMeans | internal/sync/syncclient_ws.go:43-52 | a round compares with the rows after the reconcile and what others did next, with none if the server rejects the manifest, and ends only if the call is lost |
| RoundMeaning.LostCallsMoveNothing | internal/sync/syncclient.go:79-103 | an action whose call or reply is lost, or whose reader breaks off, leaves files, baseline and notices as they were |
| RoundMeaning.UploadFollowsTheAnswer | internal/sync/syncclient.go:79-91 | an upload that is heard is recorded iff accepted, noted with the server's reason iff refused otherwise than by a conflict, and on a conflict the server's version is fetched to the copy |
| RoundMeaning.OldestReplyDecides | internal/sync/syncclient_ws.go:74-81 | with replies waiting the oldest decides an upload: all but a rejection with a reason is taken for an acknowledgement |
| RoundMeaning.DropForgetsIff | internal/sync/syncclient.go:99-104 | a delete on the server takes the path out of the baseline iff the server says it is done |
| RoundMeaning.FetchMeans | internal/sync/syncclient.go:122-173 | for every path of the client and every failure: a fetch brings the bytes sent and the revision iff it is delivered, found and put into place; otherwise only the file called like the temp file moves |
| RoundMeaning.LeftoverIsUploaded | internal/sync/syncclient.go:160-173 | the temp file a failing rename leaves is uploaded by the next round, unless baseline or server know its name |
| Safety.PutOnward | internal/sync/syncclient.go:79-86 | unless the content reader breaks off, an acknowledged put names a revision the server committed with the sent digest, whatever else happens to the call |
| Safety.RoundIsSafe | internal/sync/syncclient.go:58-149 | with others acting between the calls and calls lost anywhere, a round in which no reading of a file to upload breaks off changes or removes a scanned local file only if the server committed exactly its content at the path's base revision, a skipped one only if the manifest lists it as live and the baseline does not know it, and any other only if it is called like a temp file the round creates |
| Safety.BaselinesStaySound | internal/sync/syncclient.go:62-113 | in every run of a device in which no reading of a file to upload has broken off, every saved baseline entry names a committed revision, with its digest or none, even when a saved baseline is lost |
| Safety.RoundsLoseNothing | internal/sync/syncclient.go:58-120 | in every such run a round leaves alone each scanned file whose content the server does not hold as the version at its base revision and whose name is not that of a temp file the round creates |
| TempNames.KeptIffNotATemp | internal/sync/syncclient.go:155-173 | in a round whose renames work, a local file the plan may not replace keeps its bytes iff it is not called like a temp file the round creates; otherwise it is gone |
| TempNames.SparesIffNamesAreFree | internal/sync/syncclient.go:155-173 | whatever others, the network and the disks do to a round with a given plan, it spares every file the plan may not replace, iff none is called like the temp file of a target of the plan whose path the server accepts |
| Witnesses.UnsyncedFileIsLost | internal/sync/syncclient.go:160-166 | a run of a device in cleanup mode whose only download destroys a local file with the temp file's name; its bytes are in no version |
| Strays.WaitingIffReaderFailed | internal/sync/syncclient_ws.go:67-70 | after any calls on a connection an unread reply waits iff reading a file to upload has broken off on it; the contents of all replies are modelled |
| Strays.SafeIffReadersHeld | internal/sync/syncclient.go:73-93 | of the connection, not of one round with its one plan: every further use of it (any files, actions and calls) leaves a sound baseline iff no reading of a file to upload has broken off on it |
| Witnesses.StrayReplyBreaksBoth | internal/sync/syncclient.go:79-86 | a run of two rounds, three uploads, one of which breaks off: the saved baseline is not sound, and the next round overwrites an edit no version has |
| Overwrites.ReplacedIsTheBase | internal/sync/syncserver.go:70-113 | what a put or delete replaces on disk, whether or not its commit works, is the version it is based on iff index and disk agree |
| Overwrites.AgreementIff | internal/sync/syncserver.go:153-187 | over any stretch in which the file does not change behind the index, index and disk agree at the end iff they did before or a reconcile, put or delete of the path came through |
| Overwrites.ReplacedSinceEdit | internal/sync/syncserver.go:74-80 | in every run, what a put or delete replaces after an edit in the container is the version it is based on iff the edit left the row's digest in place or the path was settled since |
| Overwrites.NeverEditedIsSeen | internal/sync/syncserver.go:74-80 | a file never changed behind the index is only ever replaced by requests based on exactly what they replace |
| Overwrites.SkippedFileIff | internal/sync/manifest.go:89-93 | a local file the scan skips is changed in a round that is quiet after its manifest iff the server can send its path, the manifest lists it as live and the baseline does not know it, or it is called like a temp file of the round; in the first case it has the server's bytes, in the second it is gone |
| Overwrites.CutDownloadSpreads | internal/sync/ws.go:106-119 | a download whose sending breaks off is saved, recorded and taken for an edit by the next comparison, and its upload is accepted: the server keeps its bytes iff nothing was missing |
| Witnesses.EditIsReplaced | internal/sync/syncserver.go:74-80 | a run in which the bytes written in the container end up in no version and no file |
| CalmRound.PerformMoves | internal/sync/syncclient.go:73-113 | without interference, actions on different paths move each path exactly as its own action says, refused uploads and failing downloads leave theirs alone, and of the other paths only those called like the temp file of a fetched target move: they lose their file |
| CalmRound.DownloadsInAnyOrder | internal/sync/manifest.go:89-93 | without interference, in any mode, with any notices and whatever cannot be fetched, downloads leave exactly the same round in every order iff no path that can be fetched is called like the temp file of another: only then the map iteration of `Diff` does not show |
| Witnesses.DownloadOrderShows | internal/sync/manifest.go:89-93 | the same two downloads in both orders: in one both files are left, in the other one file, and the next comparison deletes the lost one on the server |
| CalmRound.OrderDoesNotMatter | internal/sync/syncclient.go:95-120 | without interference, two orders of the same actions that refuse the same uploads give the same files, baseline and server, if no uploaded or fetched file is called like a temp file of theirs |
| Convergence.FirstRoundAt | internal/sync/syncclient.go:35-149 | a calm round takes every path to within one round of agreement unless its edit faces a tombstone; a path called like a temp file of the round loses its file, whatever its verdict |
| Convergence.NextRoundStarts | internal/sync/syncclient.go:35-56 | a calm round ends where the next can start, and the next reconcile finds nothing to record |
| Convergence.TwoRoundsConverge | internal/sync/syncclient.go:35-149 | from any sound baseline, after two calm rounds the third plan is empty iff every edited local file that faces a tombstone, and no file that only happens to equal the server's, is called like a temp file of the first round; where no such equal file is, local files equal live server files iff the former holds |
| Convergence.RoomyRoundsAreCalm | internal/sync/syncserver.go:81-104 | a calm round whose scanned files are each within MaxBytes and together fit under the limit next to what is there has no upload refused |
| CopyNames.CopyIsScannedIff | internal/sync/manifest.go:126-131 | the name of a conflict copy is canonical, and a scan covers it iff the file is not called `.cclaude.tmp` |
| CopyNames.TempIsScannedIff | internal/sync/syncclient.go:160 | the name of a download's temp file is canonical, and a scan covers it iff the target is not called `.cclaude.tmp` |
| CopyNames.FreshStampsAreClean | internal/sync/manifest.go:126-131 | unused names with timestamps of the written format are all the naming convergence needs |
| Witnesses.BuriedEdit | internal/sync/manifest.go:72-80 | a put and a delete elsewhere and an edit here lead to a start from which rounds do not converge |
| Convergence.ConflictsKeepBoth | internal/sync/syncclient.go:135-149 | after two rounds the remote bytes of every conflict are in the copy on both sides; a local file in conflict keeps its bytes here exactly if it is not called like a temp file of the two rounds, and on the server exactly if a scan covers it and it is not called like one of the first |
| Frames.RepliesMeetTheirCalls | internal/sync/syncclient_ws.go:36-118 | as long as no content reader has failed, every reply frame is read by the call that caused it and nothing but hellos is under way between calls, rejections and two-frame replies included |
| Frames.CleanIffNoReaderFailed | internal/sync/syncclient_ws.go:67-70 | between calls, once the server has read everything, no stray reply waits iff no content reader has failed on the connection |
| Witnesses.ReplyReadByAnother | internal/sync/syncclient_ws.go:67-77 | two puts, the first with a failing reader: the second reads the first one's reply and leaves its own |
| Frames.ServerPays | internal/sync/ws.go:69-125 | whatever frame the server reads, replies owed and replies under way add up to the same |
| Limiters.Limiter.Compact | internal/control/http.go:83-88 | the compaction into the slice's own array keeps exactly the entries after the cutoff, in order, and loses no entry still to be read |
| Limiters.Limiter.Append | internal/control/http.go:93-94 | append in place or into a larger array gives the kept entries and the new one |
| Limiters.Limiter.AllowAuth | internal/control/http.go:73-95 | allows iff fewer entries than configured, 20 where none is configured, lie within the last minute, so a client without entries always; records them, and leaves every other client's entries alone although arrays are reused |
| Limiters.KeptSpeaksForAll | internal/control/http.go:82-88 | with a clock that does not go back, what has been dropped never matters again: kept entries and all allowed attempts agree on every later minute |
| Limiters.RefusedOnlyWhenFull | internal/control/http.go:89-94 | in every run an attempt is allowed iff fewer than max attempts were allowed in the minute before it |
| Limiters.AtMostMaxPerMinute | internal/control/http.go:73-95 | in every run every window of one minute holds at most max allowed attempts |
| Lines.SplitAnywhere | internal/usage/collector.go:166-187 | text may arrive in pieces cut at any byte: the lines completed by a piece are those of the rest kept so far followed by the piece |
| Collecting.Collector.FeedLine | internal/usage/collector.go:169-177 | one line inserts its event unless that insert fails, counts a bad line, ignores the rest |
| Collecting.Collector.ReadLines | internal/usage/collector.go:165-187 | the read loop feeds exactly the complete lines of partial line and unread bytes, advances the offset past them and keeps the unfinished rest, unless reading breaks off |
| Collecting.WeightsAddUp | internal/usage/collector.go:82-86 | no tokens weigh nothing and every further token of a kind adds exactly that kind's weight |
| Collecting.Collector.ScanFile | internal/usage/collector.go:143-188 | inserts, bad-line count, saved cursor and result of one file are those of `Scan`, for every failure; other cursors are untouched, and each row holds, field by field, the largest of its request's token counts and of its weighted units |
| Collecting.Collector.ScanAll | internal/usage/collector.go:138-190 | the walk's inserts, bad-line count, cursors and result are those of `Walk` |
| CollectorScans.LineMeans | internal/usage/collector.go:44-65 | a line is an event iff it decodes to an assistant line with usage and request id whose time parses, with exactly its values, and bad iff it does not decode or only its time is wrong |
| CollectorScans.BlanksDoNotCount | internal/usage/collector.go:45 | blanks around a line make no difference |
| CollectorScans.ScanMeans | internal/usage/collector.go:151-188 | a scan inserts the events of the complete lines it sees up to the failing insert, counts the bad lines on the way, and is ok and saves exactly if there are too few events to fail on |
| CollectorScans.NotLoaded | internal/usage/collector.go:152-155 | a file whose cursor cannot be loaded is skipped without ending the walk |
| CollectorScans.WalkMeans | internal/usage/collector.go:138-190 | a walk over different files scans each with its own saved cursor, in order, up to and including the first whose sink or save fails, and leaves all other cursors alone |
| Collecting.ParseLines | internal/usage/collector.go:67-80 | the scanner loop returns the events and the number of bad lines of its tokens |
| CollectorRuns.MergeIsOfASet | internal/usage/collector.go:88-92 | merging by greatest field makes the sink depend only on the set of inserted events, not on order or repetition |
| CollectorRuns.CursorAlwaysFits | internal/usage/collector.go:100-103 | in every run, with any failures, replaced files and lost cursors, the saved partial line has no newline, and a cursor that belongs to the present contents has exactly those bytes at its offset |
| CollectorRuns.SinkCatchesUp | internal/usage/collector.go:88-92 | after any run in which the last replacement of the file was caught, the next scan without failures brings the sink to one merge over all complete lines of the file next to everything else inserted |
| CollectorRuns.CaughtIff | internal/usage/collector.go:157-161 | after a replacement and any growth and scans, the scans read the new contents from their start iff the file is still shorter than the old cursor or some scan saved its cursor while it was; until then nothing but new lines has been inserted |
| CollectorRuns.ReplacedFileCatchesUp | internal/usage/collector.go:157-161 | a caught replacement leaves, after a scan without failures, the old rows merged with all complete lines of the new contents |
| CollectorRuns.ReplacedFileIsMissed | internal/usage/collector.go:171-173 | after any run: when the scan that found the file shorter fails and the file grows past the old cursor, a scan without failures inserts nothing although the first line is an event |
| CollectorRuns.ForeignCursorIff | internal/usage/collector.go:157-161 | a scan with a cursor of other contents inserts the events of every file of that length iff it finds the file shorter, starts at the beginning, or the file is too short for an event |
| ReplacedFiles.InsertedForSureIff | internal/usage/collector.go:157-161 | for every course of sizes and of scans that do or do not save their cursor after a replacement: all events of the new contents are inserted whatever they are and whatever goes wrong, iff a cursor is saved while the file is shorter than the old one, it is shorter in the end, there was no old cursor, or the file is too short for an event |
| CollectorRuns.InsertsOnceInOrder | internal/usage/collector.go:157-188 | when no insert or save fails and no cursor is lost, the scans insert the events of the complete lines once each and in order, however the file grows and is replaced and wherever reading breaks off, and all of them once the last replacement is caught |
| CollectorRuns.ShrunkFileIsReadAfresh | internal/usage/collector.go:157-161 | a file found shorter than the cursor is read from its start, all its complete lines are inserted and the cursor restarts with it |
| CollectorRuns.TokensMeanLines | internal/usage/collector.go:67-80 | on every text the scanner's tokens mean the same events and bad lines as the lines before the first over 8 MiB and, if that is all of them, the unfinished last line that fits the buffer |
| CollectorRuns.ScansEqualParseLines | internal/usage/collector.go:67-188 | on a file without over-long lines all the scans of a run without repeats, whose last replacement was caught, insert exactly what one ParseLines over the whole file returns, except the event of an unfinished last line |

## Left out

- Symbolic links, directory creation, permissions and clashes between files and directories in
  `DirStore.resolve`: a directory is a flat map from paths to contents. `Walk.ScanDirIsFlat` ties it to
  trees for the scan.
- The server's temp files are kept apart from the visible files, with ids that are unique in the project
  (their names begin with an excluded prefix). The client's, in the synced tree, are modelled.
- Local edits between the scan and the transfers of one round: a round sees a fixed local tree.
- A round broken off in the middle: only a round whose baseline is not saved is modelled.
- A failing `os.Remove` or `Close` on the client, which the code ignores as well.
- `Lock == nil`, which the code allows for its unit tests only.
- Gets and the final manifest query take no lock and are not steps of the interleaving model: a get is one
  step of a round. In the code it may pair the row's revision with bytes written after the row was read; the
  entry has no digest, so the file counts as edited since that revision, and the next comparison uploads
  it, leaves it alone or, if the row has moved on to other content, saves a conflict copy.
- A failing `Discard` of a temp file on the server, which leaves the file behind under its own id.
- The constant `rw` mode the worker passes: the mode is a parameter.
- A reconcile has no quota check in the code; its peak is a term of `Usage.UsageBound`.
- Names of conflict copies are assumed not to be in use, by local files in `Safety` and on both sides in
  `Convergence`; the clock that forms them is not modelled, only that it writes sixteen characters, no separator
  among them and a `Z` at the end.
- A file that changes between the collector's size check and its reads, and bytes that are not text.
- I/O errors inside a directory walk end the whole scan; a failed scan is one parameter.
- Quota windows, PostgreSQL, WebSocket, HTTP, PTY, Docker, tokens and the command line: plumbing around
  the modelled core, or easy sums.
- The text of the client's messages: only that an upload was refused, and why, is kept.
- Overflow of 64-bit integers.
- CalmRound.OrderDoesNotMatter: for actions without interference, when both orders refuse the same uploads
  and no uploaded or fetched file is called like a temp file of theirs; with others acting between the calls,
  or a quota that has room for only some of the uploads, the order decides what goes through, and with such
  a name what is left (for downloads alone exactly then: `CalmRound.DownloadsInAnyOrder`).
- Convergence.TwoRoundsConverge: for one device in `rw` mode without rejections
  (`Convergence.RoomyRoundsAreCalm` gives a condition on the start of each round) or edits during the two
  rounds, and canonical paths on both sides: a device file named `a\b` would be stored as `a/b`.
