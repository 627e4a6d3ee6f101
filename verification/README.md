# hubsync in Dafny

A model of hubsync's hard parts, with proofs. hubsync keeps an append-only versioned log on a hub, derives a tree
from it, streams it to clients, takes pushes with optimistic concurrency, archives files to a remote bucket, and
drains a crash-tolerant task queue.

`dafny verify dfyconfig.toml` checks everything.

## How it is laid out

| file | what it models |
|---|---|
| `Types.dfy`, `Order.dfy` | bytes, digests, paths; the order of Go strings and sorting by it |
| `ChangeLog.dfy`, `HubStore.dfy` | `change_log`, the tree it folds to, `hub_entry` and its archive columns |
| `Sync.dfy`, `Replication.dfy`, `Convergence.dfy`, `Handler.dfy`, `AnyOrder.dfy`, `Overflow.dfy`, `Quiescence.dfy` | broadcaster, subscription handler, client store; all interleavings of commit, broadcast, subscribe, backfill, live delivery, disconnect, reconnect, tree snapshot and hub restart; broadcasts in any order; overflow; coming to rest |
| `Places.dfy` | files and directories: what a write, a removal or a lookup needs and leaves |
| `Scanning.dfy`, `Push.dfy` | the scanner's diff; pushes, conflict policies and full scans on one hub |
| `LocalPush.dfy`, `Conflicts.dfy` | the writing client: what it pushes, how it takes the answer |
| `Remote.dfy`, `Lifecycle.dfy`, `LifecycleRuns.dfy`, `Plans.dfy` | keys and the object store; archive, evict, restore, seed; every run of them with edits, scans, pushes and crashes; pin and unpin |
| `ArchiveGC.dfy` | garbage collection of the bucket |
| `Tasks.dfy`, `TaskRuns.dfy`, `Retries.dfy` | the task table, feeder, planning and archiving; every run of workers, crashes and clock ticks; when retries are guaranteed |
| `Delta.dfy` | signatures, greedy delta, reconstruction, rolling checksum |

Objects the program updates in place are classes (`HubStore.Store`, `Sync.Broadcaster`, `Sync.ClientStore`, `Push.Hub`,
`Places.Directory`, `Remote.Storage`, `Lifecycle.Reconciler`, `ArchiveGC.Collector`, `Tasks.Runner`, `Conflicts.Client`). Each method is
proved equal to a function of the old state; the theorems are about those functions and about runs of them. A SQLite
transaction is one step. Content hashes are parameters of type `Bytes -> Digest`, about which a theorem assumes nothing
unless its precondition says so; where a theorem depends on collisions it names the contents concerned
(`Delta.NoCollision`, `LifecycleRuns.Collide`): the very blocks and windows, or the very two contents that would have
to share a digest. Clock readings, fetched bytes and what a pass of the feeder sees are parameters.

## Assumptions of the main theorems

- Replication: broadcasts happen in version order. `AnyOrder.OrderMattersExactly` and
  `Convergence.OutOfOrderBroadcast` show that this is exactly what delivery needs. Overflow of a subscriber's 256 slots
  is not assumed away: it is modelled, and what it costs is stated exactly. So are restarts of the hub, but not in
  `AnyOrder`.
- Lifecycle: steps on one path do not overlap, and an upload or an eviction runs on a path whose file is as last
  scanned. `LifecycleRuns.EvictionDiscardsEdits` shows why. The scanner's digest cache is honest: a file whose size and
  modification time match its row has the row's content. Restore's stamp and rename are one step, and no directory lies
  where the file is to go; `Plans.RestoreCrashLosesRow` and `Plans.PinOntoDirectoryLosesRow` show why.
- Task ownership: no live holder's heartbeat is older than Stale. `TaskRuns.StaleHolderOverwrites` and
  `Retries.LateHeartbeatLosesRetry` show why.
- Pushes are handled one at a time. Paths are clean and relative to the hub directory. Disks are like filesystems: no
  file is also a directory (`Places.Treelike`). Runs start with such a disk, and every step keeps it one.

## Where the code and its documentation disagree

The model follows the code.

- The design document says that subscribing before the backfill ensures that no event is missed. A full channel drops
  events (`broadcast.go:37-42`) and nothing sends them later: `Convergence.DeliveredExactly`,
  `Convergence.LossIsPermanent`, and `Overflow.OverflowLosesRecord` for a run in which it happens.
- The design document and the user guide say that HUB_WINS drops conflicting ops. A stale delete is carried out under
  HUB_WINS (`push.go:119`): `Push.StaleAcceptedExactly`.
- The user guide says FAIL refuses an op on a conflict, so that the client can pull and retry. A client that has just
  taken a snapshot has pulled everything, yet holds every row at the snapshot's version (`snapshot.go:31`): under FAIL
  its op on a hub path is refused unless the hub last wrote that path at exactly that version
  (`LocalPush.SnapshotPushRefused`).
- The design document describes an in-memory tree rebuilt from the log. The code keeps the tree in `hub_entry`, in the
  same transaction as the log record: `HubStore.ReachableRows`.
- The comment at `client_push.go:265-266` and the read-write spec say that a taken name of a conflicted copy gets a
  number. The search takes every error but not-exist for a taken name (`client_push.go:273-282`), so it never ends
  where a file lies in the path's way or no numbered name fits, and the client with it:
  `Conflicts.SearchEndsExactly`, `Conflicts.HangingConflicts`, `Conflicts.HandlingEndsExactly`.
- The user guide describes FAIL by versions alone. A write is also refused where the hub has a directory at the path or
  a file above it, and creates go before deletes: a client in step with the hub cannot replace a directory by a file
  (`LocalPush.InSyncPushTransfers`, `LocalPush.DirectoryNotReplaced`).
- The comment at `archive_gc.go:23-24` does not ask for a trailing slash, and key building adds one, but
  classification slices by the raw prefix: `ArchiveGC.SafeExactly` gives the exact condition.

## Model

| member | source | states |
|---|---|---|
| HubStore.Store.Append | store.go:219-282 | the log gains the record at the next version and the row is upserted or deleted with it; archive columns survive, except that an unpinned row or a changed digest turns the state dirty |
| HubStore.Store.MarkArchived | store.go:459-473 | only the row's archive columns change; a missing row is no error |
| HubStore.Store.MarkUnpinned | store.go:477-487 | only the row's archive state changes |
| HubStore.Store.MarkArchiveDirty | store.go:446-455 | only the row's archive state changes |
| HubStore.Store.EntryLookup | store.go:369-379 | the row, or none |
| HubStore.Store.ChangesSince | store.go:401-414 | the records above a version, which for a dense log are the suffix from there, for any since, negative or beyond the end included |
| HubStore.Store.LatestVersion | store.go:417-423 | the log's length, 0 for an empty log |
| HubStore.Store.TreeSnapshot | store.go:287-298 | every row, unpinned ones included |
| HubStore.Store.ScanBaselineSnapshot | store.go:305-319 | exactly the rows that are not unpinned |
| HubStore.AppendKeeps | store.go:219-282 | an append keeps the log dense and the row columns equal to the fold of the log |
| HubStore.ReachableRows | store.go:219-282 | after any transactions: columns are the fold of the log, a path has a row iff its last record is no delete, and the row's version is the greatest of its non-delete records |
| HubStore.RowFollowsLog | push.go:214-224 | the version looked up in the log is the row's, and the row's metadata is that of the path's last record |
| HubStore.AppendWrites | store.go:219-282 | an append touches no other row; a new row is not archived; a row that was unpinned or gets another digest is dirty, and otherwise keeps its state |
| HubStore.StampsLast | store.go:459-473 | after any transactions a row's file id, SHA-1 and upload time are those of its last stamp since it was created, or unset |
| HubStore.ArchivedExactly | store.go:253-271 | after any transactions a row is archived with a digest iff it was stamped at that digest and not deleted, unpinned, dirtied or redigested since |
| ChangeLog.SinceIsSuffix | store.go:401-414 | filtering by version is slicing by position |
| ChangeLog.LiveVersion | push.go:214-224 | a live path's version column is the maximum over its non-delete records, and that record is its last |
| Sync.Broadcaster.Subscribe | broadcast.go:17-23 | a fresh empty channel joins the subscribers |
| Sync.Broadcaster.Unsubscribe | broadcast.go:26-31 | the channel leaves and is closed |
| Sync.Broadcaster.Broadcast | broadcast.go:34-43 | every subscriber's queue is offered the entry; one that holds 256 keeps what it has |
| Sync.OfferExactly | broadcast.go:17-43 | a channel takes an entry at its end while it holds fewer than 256, and otherwise stays as it is |
| Sync.WriteBackfill | server.go:114-122 | the backfill is written in order and the cursor ends at its last version, or at since |
| Sync.StreamLive | server.go:124-140 | live entries above the cursor are written, in order; the cursor does not move |
| Sync.HandleSubscribe | server.go:99-141 | one connection writes the log above since and then the live entries above the backfill's end |
| Sync.ClientStore.ApplyChange | client_store.go:209-241 | row and cursor change together, as the hub's fold does |
| Sync.ClientStore.ApplyEventMessage | client.go:443-500 | a change upserts without knowing whether it creates; a deletion removes |
| Sync.ClientStore.SyncOnce | client.go:403-440 | without a connection nothing happens; otherwise messages are applied up to the first whose file fails, and tree and cursor are those of the records before it |
| Sync.EventFaithful | server.go:144-173 | applying the message a record becomes is applying the record |
| Sync.GenerateClientDB | snapshot.go:9-49 | a store holding the hub's tree as it is now, every row and the cursor stamped with the requested version |
| Handler.HandlerIsServer | server.go:99-140 | the handler steps of the state machine, run to the end, write exactly what the handler method writes |
| Convergence.Reachable | server.go:99-140 | the invariant over log, channels, streams and clients holds after every run, restarts of the hub included |
| Convergence.DeliveredExactly | server.go:99-139 | every connection of every run delivers log records above its since, once, in version order; a record is missing iff its broadcast found the channel full and the backfill had not covered it; with no overflow the stream is the whole stretch of log |
| Convergence.ReplicaTree | client_store.go:209-241 | every client's tree is its snapshot's tree with the records up to its cursor replayed, less the lost ones, and only overflowed records are lost |
| Convergence.Converges | client.go:403-440 | with no overflow, a client past its snapshot's horizon holds the fold of the log up to its cursor; one that only streamed agrees on versions too |
| Convergence.QuiescentReplicaIsHubTree | server.go:99-139 | with nothing in flight and no overflow, client and hub have the same tree |
| Quiescence.EveryStepWorks | server.go:99-141 | every broadcast, handler step and read of a connected client, in whatever order, either finds nothing to do or leaves strictly less |
| Quiescence.RestIsReached | server.go:99-141 | after any run, once commits stop, a client comes to rest within finitely many steps, and, if its channels never overflowed, on exactly the hub's tree |
| Convergence.SnapshotReplay | snapshot.go:29-36 | replaying the log after v on the tree of any later version w gives the fold of the whole log, versions aside |
| Convergence.LossIsPermanent | broadcast.go:37-42 | a record a client skipped is never received again in any continuation without a new snapshot |
| Overflow.OverflowLosesRecord | broadcast.go:34-43 | a run from the start in which one record more than a live subscriber's channel holds is broadcast, and that record is lost to it in every continuation without a new snapshot |
| Convergence.OutOfOrderBroadcast | server.go:125-139 | for any log, any end of the backfill and the later records in any order: all are written, and the stream loses nothing wherever it breaks if and only if they come in version order |
| AnyOrder.InOrderDelivers | hub.go:61-68 | where any committed record may be announced next: every run whose announcements come in order delivers exactly, connection by connection, and its clients converge |
| AnyOrder.OrderMattersExactly | hub.go:61-68 | for everything a hub may commit and announce, in any order, some client that never overflowed skips a record if and only if the announcements are out of order |
| Scanning.ScanAll | scanner.go:38-80 | what the scan returns, digest cache included; Scanning.ScannedExactly says what that is |
| Scanning.ScannedExactly | scanner.go:45-75 | every file with its size, mode and time, and with the digest of its bytes, unless its time and size are its row's and that row has a digest, which it then keeps |
| Scanning.Diff | scanner.go:97-140 | creates and updates in path order, then deletes in path order: exactly the differing digests and the vanished paths |
| Scanning.DiffUnique | scanner.go:97-140 | scan and tree determine the report, map order notwithstanding |
| Order.LessExactly | scanner.go:136-137 | the order of the report: strings are compared at their first difference, and a proper prefix comes first |
| Scanning.ScanReports | scanner.go:97-140 | a path is reported at most once: a new file as a create, a file of another digest that does not hide behind its row's time and size as an update, a file that is gone as a delete, each with its fields; anything else is not reported |
| Scanning.ReportIsLogged | hub.go:60-68 | the log gains the report, entry by entry, at the next versions |
| Scanning.EditIsLogged | hub.go:50-70 | an edit that changes time or size, and the digest, of a tracked file is logged by the next scan, exactly once, as an update with the new digest |
| Scanning.ScanConverges | hub.go:50-70 | after a scan the rows not unpinned have exactly the scanned paths and digests; an absent unpinned row is untouched; a reappearing one is dirty |
| Scanning.RescanIsQuiet | hub.go:50-70 | a scan repeated at once reports nothing, honest cache or not |
| Push.Hub.FullScan | hub.go:50-70 | the report is appended entry by entry and every subscriber is offered exactly what the log gained |
| Push.Hub.Publish | hub.go:61-68 | one append and its broadcast, with the assigned version |
| Places.Directory.MakeParents | push.go:163-170 | the missing directories above a path are made, unless a file is among them |
| Places.MadeExactly | push.go:163-170 | the directories afterwards are those before and those above the path |
| Places.Directory.Put | push.go:172-179 | a file is put at the path, unless a directory is there |
| Places.Directory.Remove | push.go:130-131 | a file or an empty directory goes, and what it lay in stays; anything else stays as it is |
| Places.UnlinkedExactly | push.go:130-131 | on a real filesystem a removal takes a file or a directory with nothing in it, exactly, fails on what else is there or below a file, and leaves every other file and directory |
| Push.Hub.VersionForEntry | push.go:214-224 | the greatest version among the path's non-delete records, 0 if none |
| Push.Hub.DoAcceptWrite | push.go:160-211 | directories made, bytes on disk, record in the log, announced, accepted at that version; refused with nothing changed where a file lies above the path or a directory at it |
| Push.Hub.PushCreate | push.go:41-60 | the create branch under every policy, with log, tree, disk and result |
| Push.Hub.PushUpdate | push.go:62-105 | the update branch under every policy |
| Push.Hub.PushDelete | push.go:107-157 | the delete branch under every policy; deleting what is not there is accepted at version 0 |
| Push.Hub.ProcessPushOp | push.go:23-39 | dispatch; an unknown kind is refused and changes nothing |
| Push.Hub.ProcessPush | push.go:15-21 | the ops in turn, each against the state the earlier ones left, and every subscriber is offered exactly what the whole request added to the log |
| Push.AcceptedIsLogged | push.go:107-211 | under every policy an accepted op was a delete of a path without a row, answered 0 with nothing changed, or is the log's one new record: the answer is its version, and its path, kind, digest, size, mode and time are the op's |
| Push.AcceptedIsStored | push.go:107-211 | after it the row is at the answered version with the digest, and the file has the bytes and the permissions it had; or both are gone |
| Push.RefusedBecause | push.go:23-180 | each reason for a refusal holds of the op it is given for |
| Push.AnswersNameRecords | push.go:15-21 | over a whole request the versions answered grow, and each is that of a record of its op's path |
| Push.FailAcceptsExactly | push.go:41-211 | after any history, FAIL accepts an update iff the base version's record is the path's last and live and the path can be written, a delete iff that record stands or the path is dead, a create iff the path is dead and can be written |
| Push.FailIsUncontended | push.go:62-157 | an update or delete accepted with base b at version v has no other record of its path between b and v, and b's record was live |
| Push.ConflictChangesNothing | push.go:41-180 | a refusal leaves log, tree and disk as they were and reports the standing row's version and digest, unless the path could not be written |
| Push.StaleAcceptedExactly | push.go:80-128 | a stale base gets through on a live path iff the client wins and the path can be written, or it is a delete and the policy is not FAIL |
| Push.NoTwoWinners | push.go:75-105 | once a record follows base b, no later update or live delete with base b is accepted under FAIL, however the history goes on |
| Push.PushIsSettled | push.go:160-211 | a scan reports no accepted push back as a change |
| Push.DeleteLeavesDirectory | push.go:130-180 | once a file was deleted, no push puts a file in the place of the directory it lay in |
| LocalPush.BuildPushOps | client_push.go:105-133 | one op per change with its row's version as base, 0 for a new file, then one delete per missing file |
| LocalPush.ScanFinds | client_push.go:34-133 | a file is reported iff it has no row, or neither its time and size nor its digest are its row's; a row iff it has no file; and what the op for it carries |
| LocalPush.OpsDescribeDifference | client_push.go:34-133 | applying the ops to the tree's digests gives the local digests if and only if the stat cache is honest |
| LocalPush.PushSettles | client_push.go:224-241 | once every op is accepted, scanning the same files again yields no op, honest cache or not |
| LocalPush.RowsAcknowledged | client_push.go:224-241 | the client's row of an accepted change has the answered version, the pushed digest and size, mode 0644 and time 0; that of a deletion is gone |
| LocalPush.PushedRowIsReread | client_push.go:224-241 | a file of a pushed row is reported again iff its digest differs, unless its modification time is 0 |
| LocalPush.PushAllUpToDate | push.go:15-211 | an orderly push, one op a path, writes first and none below another, is accepted whole under FAIL iff each op names the hub's row and has room on the hub's disk, both as of before the request |
| LocalPush.PushAllDoes | push.go:15-211 | under any policy, ops that are all accepted do to the hub's digests what they say, and to nothing else |
| LocalPush.PushAllJudges | push.go:15-211 | under FAIL each op of any push, one op a path, is accepted iff its version is acceptable against the rows before the request and it has room on the disk the earlier ops left |
| LocalPush.RowsAnswered | push.go:160-211 | after a request, one op a path, the hub's row of each accepted op is at the answered version, or gone |
| LocalPush.InSyncPushTransfers | push.go:15-211 | a client whose tree has the hub's paths and digests has its whole push accepted under FAIL if and only if it has the hub's version of every path it reports and nothing on the hub's disk is in the way of a changed file; the hub then has exactly the client's digests |
| LocalPush.AcceptedPushCatchesUp | client_push.go:137-241 | a client in step whose whole push was accepted is in step again once it took the answer, with the hub's version of every path it pushed |
| LocalPush.CurrentPushAccepted | client_push.go:137-161 | a client with the hub's paths, digests and versions has its push accepted whole iff nothing on the hub's disk is in the way |
| LocalPush.CurrentStaysCurrent | client_push.go:137-241 | and it then has the hub's paths, digests and versions again, so that its next push is accepted too |
| LocalPush.DirectoryNotReplaced | client_push.go:108-130 | a push of a file in the place of a directory that holds a file on the hub is not accepted whole |
| LocalPush.SnapshotPushRefused | snapshot.go:29-36 | after a snapshot, an op on a hub path is accepted under FAIL if and only if the hub last wrote the path at the snapshot's very version and a write has room |
| Conflicts.Client.ScanLocal | client_push.go:34-102 | every file that differs, once, and every row without a file, once |
| Conflicts.Client.UpdateHubTreeAfterPush | client_push.go:224-241 | the row of an accepted op and the cursor; an unknown path changes nothing; LocalPush.RowsAcknowledged says what the row is |
| Conflicts.Client.HandlePushResponse | client_push.go:200-222 | tree, cursor, files and count after the results handled, which are all before the first conflict whose search for a name goes on; every file's bytes are still there |
| Conflicts.Client.HandleConflict | client_push.go:246-263 | where the search for a name goes on, or nothing is at the path, nothing happens; otherwise a file, or a directory with all its files, moves to the name found, and the hub's version, if any and fetched, takes its place |
| Conflicts.ConflictedCopyPath | client_push.go:267-283 | the first name whose lookup says not-exist, if the search comes to it within the names it is watched for |
| Conflicts.OneLessToTry | client_push.go:277-282 | each taken candidate leaves strictly fewer existing names to try |
| Conflicts.EndsIfNamesFit | client_push.go:277-282 | where the path's directory exists and one more candidate fits than there are names, the search ends within so many tries |
| Conflicts.SearchEndsExactly | client_push.go:267-283 | the search ends at once if the path's directory does not exist, if and only if some candidate that fits is free when it does, and never when its lookup is refused |
| Conflicts.SearchEndsUnlessBlocked | client_push.go:267-283 | on a real filesystem it ends iff no file lies above the path, and its directory is missing or some candidate that fits is free |
| Conflicts.LongNameHangs | client_push.go:272-282 | it never ends for a name within 18 characters of the filesystem's limit |
| Conflicts.HangingConflicts | client_push.go:246-283 | two inputs for which it never ends: a path below a file, and a name of 240 characters |
| Conflicts.HandlingEndsExactly | client_push.go:200-222 | the client gets past a whole response iff the search at each conflict in it ends |
| Conflicts.CandidatesDistinct | client_push.go:277-282 | the numbered names are pairwise distinct |
| Conflicts.NamesAsDocumented | client_push.go:265-283 | the first candidate has " (conflicted copy)" before the extension, the n-th " (conflicted copy n)" |
| Conflicts.ItoaReads | client_push.go:278-278 | the number is printed in decimal |
| Conflicts.Ext | client_push.go:269-270 | the suffix from the last dot of the last path element, and empty iff there is none |
| Conflicts.ItoaInjective | client_push.go:278-278 | different numbers print differently |
| Conflicts.ConflictKeepsBytes | client_push.go:246-263 | every file's bytes survive under some name |
| Conflicts.ConflictMoves | client_push.go:246-263 | which name: below the copy, which did not exist, for what was at the path or below it, and its own otherwise |
| Conflicts.ConflictLeaves | client_push.go:246-263 | after a conflict the path has exactly the hub's bytes, if it has a version and it was fetched, and is no file otherwise; any other file there is was there before |
| Conflicts.ConflictMovesDirectories | client_push.go:246-263 | a directory moves with all directories in it, and nothing but the hub's version is left under its name |
| Conflicts.HubVersionInPlace | client_push.go:200-263 | so it is after that result in a whole response |
| Conflicts.HubVersionStays | client_push.go:200-263 | and after every later one that is not about the path or a directory above it |
| Conflicts.ResponseKeepsBytes | client_push.go:200-222 | no sequence of results, and nothing the hub serves, destroys local bytes |
| Conflicts.PushMovesCursor | client_push.go:232-237 | in write mode the cursor jumps to the accepted version and records below it are never sent from there; nothing unseen is skipped iff that version is at most one past the cursor; a no-op delete sends it back to 0 |
| Conflicts.CursorIsLastAccepted | client_push.go:200-241 | after a response the cursor is the version of the last accepted result about a path that was pushed |
| Conflicts.CountedExactly | client_push.go:200-222 | the count is the number of accepted results |
| Remote.KeyOfRelative | archive/key.go:14-20 | the key of a relative path is a fixed root followed by the path |
| Remote.KeyInjective | archive/key.go:14-20 | different relative paths have different keys |
| Remote.Storage.Upload | archive/fake.go:40-62 | a new version with a fresh id becomes the key's head |
| Remote.Storage.HeadByKey | archive/fake.go:64-72 | the newest version's info, or none |
| Remote.Storage.Download | archive/fake.go:74-83 | the newest version's bytes, or none |
| Remote.Storage.DeleteByKey | archive/fake.go:153-165 | all versions go iff the head is the wanted one (or none is named); a missing key is success; a refusal changes nothing |
| Remote.Storage.ListKeys | archive/fake.go:115-148 | each key below the prefix is listed by itself or by its marker, nothing else is, nothing twice, and in ascending order |
| Remote.UploadWellFormed | archive/fake.go:50-60 | infos keep naming their own key with an id that was handed out |
| Remote.MarkerShape | archive/fake.go:132-142 | a marker is the key's prefix up to the first slash past the list prefix |
| Remote.BelowMarker | archive/fake.go:132-142 | every key below a marker is folded into it |
| Lifecycle.Reconciler.DoHeadMatches | archive_one.go:106-122 | the byte loop decides: both digests set, algorithm equal or unset, digests equal |
| Lifecycle.ArchiveOneLeaves | archive_one.go:31-101 | the stamped row: archived, with the recognised or the new head's id, no SHA-1 and the time; what the new head holds; and nothing else |
| Lifecycle.ArchiveLeaves | reconciler.go:159-189 | the same for the reconciler's archive, with its refusals |
| Lifecycle.EvictExactly | reconciler.go:200-245 | an eviction succeeds iff the row is archived, the head seen has its id, size and digest, and the path can be removed; the row keeps its columns |
| Lifecycle.EvictLeavesDirectories | reconciler.go:237-244 | an eviction leaves every directory |
| Lifecycle.RestoreExactly | reconciler.go:251-313 | a restore succeeds iff the row is unpinned, nothing is in the way and the head's bytes have its digest; the row keeps its columns, and the file has the bytes, the row's permissions or 0600 |
| Lifecycle.RestoreMakesDirectories | reconciler.go:263-266 | a restore of an unpinned row leaves the directories above its path made, even if it then fails |
| Lifecycle.SeedLeaves | reconciler.go:317-338 | the one record a seed logs |
| Lifecycle.Reconciler.DoArchiveOne | archive_one.go:31-101 | skip, stamp from the matching head, or upload and stamp; rows, bucket and disk after it |
| Lifecycle.Reconciler.DoArchive | reconciler.go:159-189 | upload and stamp; refused without a file row or file, no-op when archived |
| Lifecycle.Reconciler.EvictWith | reconciler.go:200-245 | refused unless archived and the head seen has the recorded id, size and digest; then marked, and the file unlinked, which fails on anything but a file or an empty directory |
| Lifecycle.Reconciler.DoRestore | reconciler.go:251-313 | refused unless unpinned, with its directories in place and the downloaded bytes of the row's digest; then stamped, and put in place unless a directory is there |
| Lifecycle.Reconciler.DoSeedRow | reconciler.go:317-338 | a row for an untracked local file, through the log |
| Lifecycle.Reconciler.DoPlanPin | reconciler.go:58-79 | the steps for every starting state |
| Lifecycle.Reconciler.DoPlanUnpin | reconciler.go:82-103 | the steps for every starting state |
| Lifecycle.NothingToPlan | reconciler.go:58-103 | a plan is refused iff there is neither a row nor anything on disk; a directory without a row is planned, and fails at the seed |
| Lifecycle.Reconciler.DoApply | reconciler.go:125-155 | the steps in order, each committed, up to the first that fails |
| Lifecycle.StopsAtFailure | reconciler.go:125-155 | a plan stops at its first failing step, with what was done before it |
| LifecycleRuns.NextKeeps | reconciler.go:157-313 | every edit, directory, scan, push, upload attempt, eviction, restore, seed, collection and crash keeps the lifecycle invariant, the disk a filesystem and the bucket well-formed |
| LifecycleRuns.NothingIsLost | store.go:253-271 | after any run each archived or unpinned row's head is the recorded version with the row's digest and content, and each unedited row's content is on disk or in that head |
| LifecycleRuns.EvictionKeepsACopy | reconciler.go:200-245 | the bytes an eviction unlinks have the digest of the head's bytes, whatever listing it consulted: they are those bytes, or the two collide |
| LifecycleRuns.EvictionDiscardsEdits | reconciler.go:237-244 | after an eviction the head has the unlinked file's digest iff that was the row's; an edit since is neither on disk nor on the head |
| LifecycleRuns.RestoreDiscardsFile | reconciler.go:305-308 | a restore over a file beside an unpinned row keeps its digest iff it is the row's; other content is neither on disk nor on the head |
| LifecycleRuns.CollectionAllowed | archive_gc.go:112-132 | what a guarded garbage collection removes, a run may remove: no row loses its head to it |
| LifecycleRuns.RunsCollectable | archive/fake.go:50-60 | every run leaves a bucket listed under its own keys, which is what a collection asks for |
| LifecycleRuns.RetriesDoNotStack | archive_one.go:46-101 | over any run with crashes anywhere, the versions uploaded to a key number at most the times its row got a new digest plus the reconciler's own archives of it |
| LifecycleRuns.ArchiveAddsExactly | reconciler.go:159-189 | the reconciler's archive adds a version iff the file row is not archived and has its file, whatever the head is |
| LifecycleRuns.ArchiveOneAddsExactly | archive_one.go:31-101 | archiveOne adds one iff the row is pending, has its file, and the head does not match |
| LifecycleRuns.RetryAfterCrash | archive_one.go:15-25 | a crash between upload and stamp and one retry: archiveOne has uploaded once, or never if the head matched, and the reconciler twice |
| Plans.PinReaches | reconciler.go:58-79 | from every state a pin, if the file of an unpinned row has room, succeeds, ends archived with row, head and local bytes in agreement, leaves a local file alone (one beside an unpinned row becomes the head's bytes, the same or colliding), and planning again is a no-op |
| Plans.PinExactly | reconciler.go:251-313 | a pin succeeds if and only if nothing is in the way of an unpinned row's file |
| Plans.PinBelowFile | reconciler.go:264-266 | below a file, a pin of an unpinned row fails and changes nothing |
| Plans.PinOntoDirectoryLosesRow | reconciler.go:305-310 | at a directory, it fails with the row marked archived and no file: the next scan deletes the row, and no row claims its key any more |
| Plans.UnpinReaches | reconciler.go:82-103 | from every state an unpin succeeds, ends unpinned with the content on the head and no local file but one that lay beside an unpinned row, and planning again is a no-op; or it fails on the size check, the file in place, and the row's source and the head's bytes collide |
| Plans.UnpinThenPinRestores | reconciler.go:125-313 | after an unpin that succeeds, a pin succeeds and gives back the same bytes, outright if the unpin uploaded them, otherwise the same or two contents that collide |
| Plans.StaleListingNeverEvicts | rpc.go:183-210 | archive-then-evict against a listing fetched before the upload always fails at the eviction: row archived, file in place |
| Plans.BatchUnpinExactly | rpc.go:173-213 | a batch unpin over any distinct paths, with one listing fetched first, succeeds on exactly the paths whose rows were archived or unpinned beforehand, two lengths of one digest aside |
| Plans.RestoreCrashLosesRow | reconciler.go:305-308 | after a crash between stamp and rename the row survives the next scan if and only if a file lies at the path already |
| Plans.EvictCrashHeals | reconciler.go:237-243 | after a crash between mark and unlink, the next scan makes the row dirty and archiveOne recognises the head, uploading nothing |
| ArchiveGC.Collector.CollectClaims | archive_gc.go:114-132 | exactly the keys and paths of the file rows |
| ArchiveGC.Collector.HasDirClaim | archive_gc.go:248-255 | some claimed path lies below |
| ArchiveGC.Collector.Classify | archive_gc.go:135-173 | directories are kept by prefix, files by exact key; anything else is doomed |
| ArchiveGC.Collector.DoDeleteSubtree | archive_gc.go:207-237 | every object below the marker is tried, failures do not stop it, and count and bytes are those of the objects gone |
| ArchiveGC.Collector.Act | archive_gc.go:177-200 | what the entry aims at is removed and booked on entry and summary |
| ArchiveGC.Collector.Run | archive_gc.go:72-110 | a dry run changes nothing; a real one removes exactly the unkept objects below the list prefix that the service lets go; counters, totals and entries agree with what happened |
| ArchiveGC.SafeExactly | archive_gc.go:135-155 | no claimed key is ever removed, for all rows and objects, if and only if the prefixes meet a condition an operator can check |
| ArchiveGC.CollectedExactly | archive_gc.go:72-237 | under that condition every claimed object survives; objects outside the list prefix are untouched; without errors exactly the kept ones remain; counts and bytes add up |
| ArchiveGC.CountIsSize | archive_gc.go:89-101 | the entry counters are numbers of entries |
| Tasks.Runner.RunPlan | internal/taskrunner/plan.go:130-212 | all rows inserted, and seeded pending with no attempts, if every yield is a task with a non-empty id of its own, nothing otherwise |
| Tasks.PlanExactly | internal/taskrunner/plan.go:130-212 | one item for each yield, with its payload, and none without an id |
| Tasks.Runner.Claim | internal/taskrunner/runner.go:558-586 | succeeds iff pending, failed below the limit, or running and stale; then running with one more attempt and a new heartbeat |
| Tasks.ClaimableExactly | internal/taskrunner/runner.go:569-573 | what cannot be claimed: a row that is done, failed at the limit, or running with a heartbeat no older than Stale |
| Tasks.Runner.Beat | internal/taskrunner/runner.go:616-635 | only the heartbeat moves |
| Tasks.Runner.WriteTerminal | internal/taskrunner/runner.go:638-688 | done or failed, whoever holds the row |
| Tasks.Runner.FetchBatch | internal/taskrunner/runner.go:398-441 | one pass of the select with the (id, attempts) dedup |
| Tasks.FetchSees | internal/taskrunner/runner.go:423-435 | a pass leaves every queued row seen at its attempts, emits only queued rows, and changes nothing if it emits nothing |
| Tasks.FetchTrail | internal/taskrunner/runner.go:423-435 | a pass emits a row again only with more attempts than ever before, and emissions are paid for by what was newly seen |
| Tasks.Runner.FeedQueue | internal/taskrunner/runner.go:354-394 | with attempts bounded it terminates whatever the workers do; nothing is emitted twice with the same attempts; every emission was in the queue; at the last pass every queued row has been emitted |
| Tasks.Runner.CaptureSummary | internal/taskrunner/runner.go:268-282 | the counts per status over the table |
| Tasks.SummaryTells | internal/taskrunner/runner.go:268-282 | the counts are the numbers of rows of each status, add up to the table, and pending, running and failed are all 0 iff every row is done |
| Tasks.Runner.QueueDrained | internal/taskrunner/archive.go:80-89 | true iff every row is done |
| Tasks.Runner.ArchiveIfDrained | internal/taskrunner/archive.go:23-75 | the file is archived iff it is to be, is a file, every row is done and the rename wins; the handle closes in exactly the first three |
| Tasks.Runner.Close | internal/taskrunner/runner.go:163-169 | closed, however often it is called |
| TaskRuns.OneHolderPerRow | internal/taskrunner/runner.go:558-586 | while live heartbeats stay fresher than Stale no row has two live holders, over all workers of all processes, crashes included |
| TaskRuns.SingleHolder | internal/taskrunner/runner.go:480-517 | ownership is kept by every claim, beat, terminal write, crash and tick of a fresh run |
| TaskRuns.DoneStays | internal/taskrunner/runner.go:558-586 | a done row is never claimed, beaten or overwritten again |
| TaskRuns.HeldClaimable | internal/taskrunner/runner.go:569-575 | a held row can be claimed iff its holder went stale |
| TaskRuns.StaleHolderOverwrites | internal/taskrunner/runner.go:676-683 | any stale holder leads to a run with two live holders in which a failure overwrites a done |
| TaskRuns.AttemptsBounded | internal/taskrunner/runner.go:562-575 | attempts exceed the limit, or the starting value, by at most the row's stale reclaims, and grow by at least those |
| TaskRuns.AttemptsCountClaims | internal/taskrunner/runner.go:562-575 | over every run attempts grow by exactly the number of claims of the row, stale reclaims included |
| TaskRuns.ResultIsLastReported | internal/taskrunner/runner.go:638-688 | over every run a row has the last result reported with a success |
| TaskRuns.FeederStops | internal/taskrunner/runner.go:354-441 | over any run no (id, attempts) is emitted twice, and emissions and passes are bounded by rows, limit and stale reclaims |
| TaskRuns.DrainLeaves | internal/taskrunner/runner.go:302-342 | after an error-free drain without a filter no row is pending and no running row was claimed last by this process |
| TaskRuns.LoneDrainEndsAll | internal/taskrunner/archive.go:77-89 | a process that planned the rows and drains them alone ends with every row done or failed, all done iff none failed |
| TaskRuns.RetryNotGuaranteed | internal/taskrunner/runner.go:385-387 | a run in which the feeder stops during the only attempt and a failed row with attempts left remains |
| Retries.RetriesExactly | internal/taskrunner/runner.go:354-394 | in a fresh drain by one process without a filter, whatever happens after the feeder's last pass no failed row keeps an attempt, if and only if at that pass no row in hand is below the limit and no queued row has two attempts left |
| Retries.HeldRowLeft | internal/taskrunner/runner.go:385-387 | from any fed state with a held row below the limit there is a drain that ends with that row failed and attempts left |
| Retries.LateHeartbeatLosesRetry | internal/taskrunner/runner.go:424-429 | without fresh heartbeats the condition does not suffice: a row emitted while its holder is late loses its retry to the dedup |
| Delta.WeakHash | delta.go:209-219 | wrapping 32-bit accumulators give the documented sums modulo 65536 over unbounded integers, for blocks of every length |
| Delta.RollingRecurrence | delta.go:203-219 | sliding the window one byte, the new checksum follows from the old one and the two bytes |
| Delta.ComputeSignature | delta.go:39-60 | one signature per block, the short last one included, with its index modulo 2^32 |
| Delta.BlocksExactly | delta.go:39-60 | the blocks joined are the data; none is empty, and only the last can be short |
| Delta.BlockSize | delta.go:39-42 | the requested size, or 8192 |
| Delta.Probe | delta.go:103-125 | the weak-table lookup finds the first signature with both hashes equal |
| Delta.MatchBlocks | delta.go:97-127 | while a window fits, the ops and the pending bytes begin the greedy matching |
| Delta.MatchOfBlock | delta.go:103-125 | a window equal to some base block is always matched, and a match names, modulo 2^32, a base block of the same strong hash |
| Delta.ComputeDelta | delta.go:78-143 | the loop computes the greedy matching |
| Delta.GreedyExplains | delta.go:97-142 | the ops explain the target: copies match by strong hash; literals are non-empty, never adjacent, and no full window starting inside one equals a base block; lengths add up |
| Delta.ApplyDelta | delta.go:146-167 | the loop computes the decoding |
| Delta.ExplainsDecodes | delta.go:146-167 | any explaining op list decodes to the target, for bases of at most 2^32 blocks and absent a strong-hash collision |
| Delta.ToProto | delta.go:170-187 | op by op the wire form |
| Delta.DeltaOpsFromProto | delta.go:190-201 | op by op back, unknown ops skipped |
| Delta.WireDecodes | delta.go:170-201 | a pass through the wire form does not change what is decoded |
| Delta.Exchange | delta.go:39-201 | sign, delta, send, apply gives the target for every base of at most 2^32 blocks, target and requested block size, absent collisions; the ops sent explain the target however large the base |
| Delta.BlockTargetDecodes | delta.go:53-57 | beyond 2^32 blocks: a target that is one base block is rebuilt if and only if its first copy lies below block 2^32 |
| Delta.SelfDelta | delta.go:97-142 | a file against itself: one copy per full block, then only the tail as a literal |

## Left out

- PathByDigest, LookupByDigest, PendingArchiveRows, EntriesByPrefix: plain selects.
- HTTP, authentication, the RPC socket, file locks, the watcher, signals, the CLI and configuration: plumbing.
- File contents on the sync path: bytes are read when an event is sent, so only `hub_tree` metadata is compared; inline data, dedup copies, blob and delta fetches on the client are not in the runs.
- An event whose application fails is the step that ends the connection and changes nothing.
- I/O faults inside a push (disk full, permissions, names too long for the hub's filesystem, store errors): their results are a conflict with an error text, and the write that precedes a store error is not modelled. Files and directories in the way are modelled.
- Concurrent pushes: the version check and the append are separate calls; the model handles one push at a time.
- Overlapping archive steps on one path: MarkArchived does not recheck the digest.
- The real B2 client and listing errors; the in-memory store is the remote, with a set of keys whose deletion fails added so that partial failures are covered. It deletes all versions of a key.
- Upload times and content SHA-1 of remote versions; the model passes the time as a parameter and leaves the SHA-1 empty.
- `--where` as SQL, glob matching and ignore files: opaque filter predicates.
- Hydration, JSON merging of meta, reflection and SQL text in the task runner; a task's result is an opaque string, and a failed hydration is a failed task.
- Cancellation and database errors in the task runner: the drain theorems are about error-free drains.
- Sub-second Stale durations: the model counts whole seconds, as the SQL does.
- SHA-256, xxh128, SHA-1 and hex: parameters.
- OptimalBlockSize: a floating-point square root.
- Windows path rules and names that are not clean: `filepath.Dir`, `Base` and `Join` are modelled on clean relative paths.
- The race between testing a copy name and renaming to it.
- Symbolic links and limits on whole paths: the search for a copy name knows a limit per path element.
- Convergence.Converges: assumes in-order broadcasts, which the hub does not enforce between its scanner and its pushes; AnyOrder.OrderMattersExactly says what happens otherwise.
- Delta.ExplainsDecodes: assumes at most 2^32 blocks, because indexes wrap there; Delta.BlockTargetDecodes says what happens beyond.
- The write-mode client in the replication runs: its cursor is not its tree's position, which Conflicts.PushMovesCursor shows.
- The Rust, Swift and iOS clients, `ls`, `status`.
