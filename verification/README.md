# Write-ahead log: a verified model

A model of a single-writer, segmented write-ahead log, and proofs of what it promises: that whatever is
acknowledged survives, that opening never fails after a crash, that reading beside the writer never
skips, repeats or invents a record.

## What is modelled

**Records and segments.** A record is a CRC32C, a length, an LSN and a payload (16 header bytes). A segment
file `seg-<base>` holds consecutive records from its base LSN on; the segments of a log are contiguous and
the last one is active. The model works on bytes: `Decode` and `ScanAll` are the scanner, the CRC is
computed bit by bit, file names are strings.

**The directory as a state machine.** `Directory.Step` lists the steps that touch the disk: create, write,
fsync, truncate a file, remove, and the same for temp files, and rename. Every operation of the writer is
a function from state to state that records the directory after each single step in a `trace`. A crash can
fall on any of them.

**Crashes.** A crash keeps every synced byte of every file and some prefix of the others (`CrashImage`).
Under the regime `Kills` unsynced bytes that survived may still be unsynced afterwards, as when only the
process dies; under `PowerOnly` a crash leaves only what is on stable storage. Directory steps take effect
in order. Temp files are in any condition after a crash.

**Runs.** A run (`Runs.Run`) is any sequence of group commits, truncations, cuts, flushes, crashes at any
step of any of them, and reopenings, which may crash at any step as well, any number of times.

**Readers.** `Readers.Disk` is the directory shared with a writer that moves on, by any number of its steps,
between one look of the reader and the next. `Readers.Reader` and `Followers.Follower` are the objects of
the source over it, with the fields and the loops they have there.

**The group-commit protocol.** `Protocol` is the interleaving of callers, Close, parked followers and the
writer goroutine.

The imperative layer (`Scanning`, `Engine`, `Readers`, `Followers`) has the classes and loops of the source;
its methods are proved against the functions of `Records`, `WriterOps` and `Recovery`, and the theorems are
about those functions.

## Assumptions

- The record limit is at most 2^32 - 1 + 16 bytes (a payload that passes the limit can then be framed) and is
  the same at every opening.
- LSNs stay below 2^64 (`Storable`, `Fitting`); a 64-bit unsigned decrement of zero in recovery is modelled.
- File-system calls of a running writer succeed; they fail in recovery when a file is missing or its header
  is bad.

## Model

| member | source | states |
|---|---|---|
| `Crc.UpdateChains` | internal/record/scanner.go:161-165 | updating the CRC32C with the header tail and then with the payload is one update with their concatenation |
| `Crc.OneByteChangesCrc` | internal/record/scanner.go:161-165 | two byte strings of the same length that differ in exactly one byte never have the same CRC32C |
| `CrcIdentity.UpdateParity` | internal/record/record.go:31 | the checksum has the parity of all the digits it was made of, a law of the Castagnoli polynomial, which has x + 1 as a factor |
| `CrcIdentity.OddChangeNoticed` | internal/record/record.go:31 | so a change of an odd number of bits anywhere always changes the checksum |
| `CrcIdentity.ZeroesCheck` | internal/record/record.go:31 | the check value of section B.4 of RFC 3720 for 32 zero bytes, 0x8A9136AA |
| `CrcIdentity.DigitsCheck` | internal/record/record.go:31 | the check value for the digits 1 to 9 in ASCII, 0xE3069283 |
| `CrcIdentity.FrameCheck` | internal/record/record.go:47-66 | the sixteen bytes of record 1 with an empty payload, one by one |
| `Records.DecodeFrame` | internal/record/record.go:47-66 | decoding a framed record gives that record back, whatever bytes follow |
| `Records.ScanPrefix` | internal/record/scanner.go:59-101 | scanning the first `k` bytes of a log, for every `k`, yields exactly the records wholly inside them and their size as the offset, and is torn exactly when `k` falls inside a record |
| `Records.FlipIsCorrupt` | internal/record/scanner.go:82-91 | changing any one byte of the checksum, the LSN or the payload of a record makes the scanner report corruption, never another record |
| `Records.ScanStopsAtFlip` | internal/record/scanner.go:59-101 | a scan over a log damaged in this way keeps exactly the records before the damage, ends right behind them and says corrupt |
| `Records.ScanStopsAtOversized` | internal/record/scanner.go:73-77 | a scan keeps the records before one that is longer than the limit and says too large, whatever the bytes of that record |
| `Scanning.Encode` | internal/record/record.go:47-66 | the header filled in place, checksum last, is the frame of the record; refused exactly when the length does not fit 32 bits |
| `Scanning.Scanner.Next` | internal/record/scanner.go:59-101 | each call does what decoding the bytes ahead says: a record, a clean end or the first error; after an error it changes nothing |
| `Scanning.Segment.Append` | internal/segment/segment.go:144-158 | the file grows by the frame of the record and nothing else changes; a refused payload leaves the segment as it was |
| `Scanning.Segment.Scan` | internal/segment/segment.go:166-183 | the number of records, the last LSN, the end of the valid bytes and the error are those of a scan of the whole body |
| `Scanning.ChopTail` | internal/segment/segment.go:187-199 | truncating a segment where its scan ended keeps exactly the records the scan accepted, all of them synced, and removes bytes exactly when the scan ended in an error |
| `Names.NamesInvert` | internal/segment/dir.go:29-48 | a base below 2^64 comes back from its file name, and every name that parses is the name of the base it parses to |
| `Names.NameShape` | internal/segment/dir.go:29-31 | a file name is the base in twenty decimal digits and `.wal` |
| `Names.NamesOrdered` | internal/segment/dir.go:29-31 | file names sort as their bases do |
| `Names.TempIsNoSegment` | internal/segment/dir.go:94-118 | a name that ends in `.wal.tmp` is a temp file's, and parses as no segment name |
| `Names.List` | internal/segment/dir.go:58-88 | a base is listed if and only if it is below 2^64 and some entry that is not a directory has its name; the list ascends, each base once |
| `Engine.Wal.CommitBatch` | pkg/wal/writer.go:244-292 | the loop over the batch, with its rolls, leaves the directory, the index and the results that `WriterOps.Commit` gives |
| `Engine.Wal.AppendRecord` | pkg/wal/writer.go:322-358 | a record that would outgrow a segment with something in it goes to a new segment, created after the old one is synced; otherwise to the active one |
| `Engine.Wal.FitsLimit` | pkg/wal/writer.go:111-116 | a batch is let through exactly when every payload, framed, is within the record limit |
| `Rolls.CommitRolls` | pkg/wal/writer.go:322-333 | each segment a commit adds starts with a record whose frame would have made the segment before it, which holds records, outgrow the limit: a roll comes as late as possible |
| `Rolls.CommitStays` | pkg/wal/writer.go:322-333 | a commit whose frames fit the active segment together adds none |
| `Engine.Wal.DoTruncate` | pkg/wal/writer.go:384-427 | the loops of Truncate perform `WriterOps.Truncate` |
| `Engine.Wal.DoCut` | pkg/wal/writer.go:493-651 | the four branches of CutOffset perform `WriterOps.Cut`, step for step |
| `Engine.Wal.RewriteSegment` | internal/segment/segment.go:209-282 | the rewriting loop copies exactly the scanned records at or above the cut to a temp file, syncs and renames it, or removes it when the scan ends in an error |
| `Engine.Wal.Recover` | pkg/wal/wal.go:83-154 | opening performs `Recovery.Recover`: same outcome, same directory steps, same index |
| `Engine.Wal.OpenAndScanSegments` | pkg/wal/wal.go:178-251 | the loop over the listing keeps or supersedes segments, and refuses gaps and damage, as `Recovery.Collect` says |
| `Engine.Wal.PruneTrailing` | pkg/wal/wal.go:285-337 | empty segments above the last record are deleted, last one first; a log without records collapses to its first segment |
| `Operations.CommitPath` | pkg/wal/writer.go:244-358 | a group commit, in every one of its directory images, stays a log over the same growing history, and ends with exactly the payloads of its live requests appended |
| `Retention.TruncatePath` | pkg/wal/writer.go:384-427 | the same for a truncation, which appends nothing |
| `Cutting.CutPath` | pkg/wal/writer.go:493-651 | the same for a cut in all its branches, given that it is safe when crashes matter |
| `Exactness.RunningLog` | pkg/wal/writer.go:362-370 | between operations the bytes on disk are the consecutive records from the first base on, and the published first and last LSN are those of the first and last record |
| `Exactness.CommitExact` | pkg/wal/writer.go:244-318 | the log after a commit is the old log and the payloads of the live requests in request order under consecutive LSNs; each caller is told exactly the LSNs its payloads have there, a cancelled one none |
| `Exactness.TruncateExact` | pkg/wal/writer.go:384-427 | Truncate keeps every record at or above its argument and the active segment, removes only whole segments below, and removes all of those it may |
| `Exactness.CutExact` | pkg/wal/writer.go:493-651 | after CutOffset the log is exactly the old records from the argument on; the next and the last LSN stay; the first LSN is the argument, or 0 when nothing is left |
| `CutRefusal.CutFails` | pkg/wal/writer.go:493-580 | a cut fails exactly when it falls inside a segment whose file is missing, or sealed under a bad header, or does not scan cleanly |
| `CutRefusal.FailedCutChangesNothing` | internal/segment/segment.go:209-270 | a cut that fails changes no segment file at any step, nor the index, and leaves no temp file of its own |
| `Exactness.FlagAfterCommit` | pkg/wal/writer.go:262-292 | after a commit a non-zero first LSN means a non-empty log, except exactly after a commit that wrote no record to an empty log but had a live request |
| `Flags.FlagAfterTruncate` | pkg/wal/writer.go:384-427 | a truncation neither breaks nor repairs that |
| `Flags.FlagAfterCut` | pkg/wal/writer.go:493-651 | neither does a cut, in any of its branches |
| `Flags.FlagAfterOpening` | pkg/wal/wal.go:83-154 | opening always leaves it right |
| `Flags.FlagAfterMove` | pkg/wal/writer.go:262-292 | in a run a move from a state in which it holds leads to one in which it does not if and only if the move is such a commit |
| `Sweeps.TruncateSteps` | pkg/wal/writer.go:384-427 | a crash after `m` removals of a truncation leaves, after opening, the log from the next base on, short of unsynced records at most |
| `Sweeps.BoundaryCutSteps` | pkg/wal/writer.go:493-651 | the same for a cut at a segment boundary |
| `Sweeps.CutAllSteps` | pkg/wal/writer.go:604-651 | with the active segment on stable storage, a crash of a cut of everything leaves the old log before the first removal, after `m` removals the log from the next base on, and in the end an empty one; the next and the last LSN stay in every case |
| `UnsyncedSweeps.CutAllOpens` | pkg/wal/writer.go:604-651 | without that condition: until the new segment is there the old log is kept, short of unsynced records at most; from then on the log opens if and only if the crash took nothing of the active segment or that segment is gone too, and then it is the log from the next base on, with the same counters |
| `RecoveryTheorems.CollectClosed` | pkg/wal/wal.go:178-251 | the collecting loop succeeds exactly on listings in which every segment follows on, or overlaps, the one before and only the last ends badly; it then keeps the segments from the last overlap on |
| `RecoveryRefused.RefusedLeaves` | pkg/wal/wal.go:178-251 | what an opening that fails leaves, on any directory and at every step: everything but files listed below the last overlap it came to before the first segment that does not follow on or is damaged |
| `RecoveryRefused.RefusedKeeps` | pkg/wal/wal.go:223-251 | so it changes no file, and removes one only below a listed segment with a good header that starts below the end of the one before it; without such a segment it removes nothing |
| `RecoveryRefused.RefusedAgain` | pkg/wal/wal.go:178-251 | what it leaves, interrupted anywhere or not, is refused again |
| `RecoveryIdempotence.RecoverClosed` | pkg/wal/wal.go:83-154 | recovery in closed form on every directory with segment files: when it succeeds, the files and index it ends with, and every directory on the way |
| `RecoveryIdempotence.PruneEffect` | pkg/wal/wal.go:285-315 | pruning ends with exactly the segments and files of that closed form, although it deletes backwards and then forwards, and although it may drop segments with records when the last of them has LSN 0 |
| `RecoveryIdempotence.OnlyLastEmpty` | pkg/wal/wal.go:285-315 | among contiguous segments only the last can be empty, so pruning removes at most one file |
| `RecoveryUnsynced.RecoverIdempotent` | pkg/wal/wal.go:83-154 | a recovery killed at any step, on any directory it accepts that is `Interruptible`, synced or not, and run again ends with the same index and the same file contents; for every scanner that reads back what it accepted, as the segment scanner does |
| `RecoveryInterrupted.RecoverIdempotentIff` | pkg/wal/wal.go:285-315 | and on no other: on every directory Open accepts, killing the recovery anywhere leaves its end unchanged if and only if it does not drop segments that hold records because the last record has LSN 0, or drops only one and the last LSN of the segment left lies below its base |
| `RecoveryIdempotence.NumberedInterruptible` | pkg/wal/wal.go:285-315 | a directory whose records carry LSN 1 or more, as every one the writer leaves, is interruptible |
| `RecoveryUnsynced.RecoverIdempotentOnDisk` | pkg/wal/wal.go:83-154 | after a power failure at any step, on such a directory that is on stable storage, even the files are the same, sync marks included |
| `Resting.RecoverLaid` | pkg/wal/wal.go:83-154 | any directory an interrupted operation can leave opens, with the index of exactly its history, and every directory on the way is one of those again |
| `Crash.CrashLaid` | pkg/wal/writer.go:279-302 | a crash of such a directory leaves one over a prefix of its history that includes every durable record; nothing is lost when the active segment was synced |
| `AtomicCut.CrashRecovers` | pkg/wal/wal.go:83-154 | so whatever a crash leaves opens to a prefix of the history with every durable record, from the same first LSN on |
| `AtomicCut.CutAllOrNothing` | pkg/wal/writer.go:557-606 | a crash at any step of a rewriting cut leaves, after opening, the old log or the log cut at the argument, short of unsynced records at most |
| `AtomicCut.CutExactlyOldOrNew` | pkg/wal/writer.go:557-606 | with the active segment synced that is exactly one of the two, decided by whether the rename has happened, and the LSN counters are unchanged |
| `CutSafety.CutSafeIff` | pkg/wal/writer.go:493-651 | CutOffset survives a crash at each of its steps if and only if it publishes no file above the active segment or that segment is synced when it starts |
| `Runs.RunGood` | pkg/wal/wal.go:83-154 | one invariant holds in every state of every run: the disk opens to a history that has all promised records |
| `RunTheorems.RunFaithful` | pkg/wal/wal.go:83-154 | in every state of every run the log opens, is gapless, holds only written records and every acknowledged one still promised that no truncation or cut asked to remove, and gives out no acknowledged LSN again |
| `Refinement.RunRefines` | pkg/wal/wal.go:83-154 | every move of every run, crashes included, turns the log into a stretch of the old log followed by what the move set out to write: from some LSN on, up to some point, and up to the end unless the move is a crash |
| `Refinement.NothingReturns` | pkg/wal/wal.go:83-154 | a record that is not in the log is in it later in a run only if a move in between set out to write it: nothing lost comes back |
| `RunTheorems.AcknowledgementsStay` | pkg/wal/writer.go:279-302 | with a policy that syncs each commit no crash ever takes an acknowledged record out of the promise |
| `RunTheorems.PowerRunIsRun` | pkg/wal/writer.go:296-302 | with such a policy and power failures only, every cut is safe: runs without any condition on cuts are runs in the sense of the theorems above |
| `RunTheorems.PowerRunFaithful` | pkg/wal/wal.go:83-154 | the unconditional theorem: with such a policy and power failures only, everything `RunFaithful` and `AcknowledgementsStay` say holds of all runs |
| `RunStarts.CutsStayCut` | pkg/wal/wal.go:492-504 | the start of the log never moves back in a run, crashes and reopenings included: what a completed truncation or cut removed is never there again |
| `Sizes.RunSized` | pkg/wal/writer.go:322-358 | in every state of every run each segment is within the size limit or holds at most one record |
| `Witnesses.UnsafeCutRun` | pkg/wal/writer.go:493-651 | under SyncInterval, after a single append, cutting the whole log does not survive a crash |
| `Witnesses.KilledCutRun` | pkg/wal/writer.go:493-651 | under every policy, after a process killed between a write and its sync and a reopening, cutting the whole log does not survive a crash |
| `Witnesses.EmptyBatchRun` | pkg/wal/writer.go:262-292 | appending an empty batch to a fresh log publishes a first LSN that no record carries |
| `Witnesses.CollapsingLog` | pkg/wal/wal.go:304-312 | a directory of two segments with one record each, the second of LSN 0, opens, and is not interruptible |
| `Witnesses.ZeroBase` | pkg/wal/wal.go:337-366 | a lone empty segment based at 0 opens with last LSN 2^64 - 1 and next LSN 1: the predecessor of the base wraps in 64 bits |
| `Witnesses.TwoSegmentsRun` | pkg/wal/writer.go:322-358 | two appends reach a running log of two segments when two records do not fit one |
| `Readers.Reader.OpenNext` | pkg/wal/reader.go:127-190 | opens the next file that is still there, whatever the writer removes meanwhile; re-listing neither skips nor repeats anything; it ends |
| `Readers.Reader.Accept` | pkg/wal/reader.go:108-121 | a record is yielded exactly when it is in the window, and the window moves past it; a record above the window ends the cursor |
| `Readers.Reader.Next` | pkg/wal/reader.go:76-102 | each call yields one more record than before or is done, and keeps the invariant that everything passed was yielded or is gone from the disk; a record comes from the file already open, and is then the next one, or from a file opened in this call while it was on disk; if it is not the next one, it is the first of that file, and the next one was gone when the file was opened; corruption is never reported, however the writer's steps fall |
| `Readers.Replay` | pkg/wal/reader.go:230-244 | the entries ascend, each is what was written under its LSN and was not gone when the replay began, and every record of the window that is on disk at the end is among them; the reading ends |
| `Beside.ReplayBeside` | pkg/wal/reader.go:32-102 | all of this holds beside every sequence of operations of the writer, wherever the reader starts and however the writer's steps, rolls included, fall between its own |
| `Followers.Follower.ScanBatch` | pkg/wal/follower.go:84-124 | the scan reports a gap exactly when it meets a record above the one due and not above its end; drained, it has left nothing on disk between the high-water mark and its end |
| `Followers.Follower.Turn` | pkg/wal/follower.go:148-180 | with the snapshot of the index as a result, which is the moment of the writer's course that the follower's first look falls on: a turn ends as truncated exactly when that index says the record due is gone, or else the scan meets a record above the one due; each record it hands over or meets comes from a file opened, while it was on disk, at a later moment of that course, and one that is not the record due starts a file opened when the record due was gone |
| `Followers.Follower.StreamRecords` | pkg/wal/follower.go:129-210 | what the consumer gets is an unbroken run of LSNs, from the one asked for on, and is what a series of such turns hands over, each of which takes up where the one before was drained; unless stopped, the stream ends as truncated exactly when its last turn does, and otherwise with nothing on disk between the high-water mark and the end it went for, and with the error of the wait that ended it: closed for a closed log, cancelled for a cancelled context, none when the user closed the follower |
| `Beside.FollowBeside` | pkg/wal/follower.go:129-210 | this holds beside every sequence of operations of the writer, the turns taking place on the course of its moments; without error and without being stopped the stream ends with each record that was committed when it began either delivered or removed; the error of a wait is as above |
| `Silence.CalmTurn` | pkg/wal/follower.go:148-180 | with the files at rest in a turn: it ends as truncated if and only if the index says so or the record due is gone and something up to the end is left; it ends without an error short of that end if and only if the index does not say so and nothing up to the end is left |
| `Silence.GoneBefore` | pkg/wal/follower.go:148-180 | with everything up to the end gone at the snapshot the turn delivers nothing, and ends as truncated if and only if the index says so, whatever the writer does meanwhile |
| `Silence.PacedTurn` | pkg/wal/follower.go:148-180 | however the writer's steps fall between the looks: a turn ends as truncated only if at some moment between its snapshot and its end the index, or a file that starts above the record due and not above the end, shows that it is gone; it ends without an error short of the end only if nothing is left |
| `Silence.LeftAfter` | pkg/wal/follower.go:148-180 | with the record at the end still there and short of it, the turn ends as truncated |
| `Silence.WokenTurn` | pkg/wal/follower.go:129-180 | a turn of a follower that is behind delivers a record, ends the stream, or leaves the record due gone |
| `Overtaking.StallsExactly` | pkg/wal/follower.go:152-158 | between operations, and with the files at rest, a turn of a follower that is behind misses its records without an error if and only if the published first LSN is 0 |
| `Overtaking.FollowGone` | pkg/wal/follower.go:129-210 | a snapshot follower that everything was taken from before its first look delivers nothing and ends as truncated if and only if the index it looks at then says so, beside every sequence of operations and at every pace of the writer |
| `Overtaking.FollowAfterCut` | pkg/wal/follower.go:152-210 | so a snapshot follower of a log with records ends with none and without an error when everything is cut before its first look |
| `Overtaking.FollowThroughCut` | pkg/wal/reader.go:141-190 | a snapshot follower overtaken by a cut that leaves records, made while its consumer has the first record, ends without an error: it delivers the file it has open and misses the records of the others |
| `Overtaking.CutSpares` | pkg/wal/writer.go:493-651 | a cut changes nothing that an open handle reads, whatever file of the log, or below it, the handle was opened on |
| `Overtaking.FollowStalled` | pkg/wal/writer.go:86-97 | after a cut of everything a follower in follow mode that is behind subscribes, is signalled at once by the rule of `Protocol.Subscribes`, takes a turn and subscribes again; any number of turns delivers nothing and ends nothing |
| `Exactness.LowWaterAfterCut` | pkg/wal/follower.go:154 | right after a cut that took away the record due, the comparison at this line is true exactly when the cut left something |
| `Beside.CommitUnfolds` | pkg/wal/writer.go:244-370 | every directory and index of a commit, the index a roll extends before anything is published included, is one readers can work with, and follows from the one before |
| `Courses.CourseShows` | pkg/wal/writer.go:244-370 | and none is left out: the course that readers and followers are placed on shows every directory that any of the operations passes through |
| `Protocol.EachRequestAnsweredOnce` | pkg/wal/writer.go:111-240 | in every interleaving each accepted request is answered at most once, in order, and all are answered when the writer has left; nobody is then still sending |
| `Protocol.NothingEntersAfterClose` | pkg/wal/wal.go:522-545 | once Close holds its lock nothing enters the queue any more |
| `Protocol.NoLostWakeup` | pkg/wal/writer.go:59-107 | when the writer is back in its loop every parked follower has seen everything committed; no channel is closed twice; at the end every subscription was notified |
| `Parking.SubscribeOutcome` | pkg/wal/writer.go:86-97 | a follower that has consumed everything committed is parked and not signalled by its subscription, one that is behind is signalled and not parked |
| `Parking.NotifiedForReason` | pkg/wal/writer.go:86-107 | in every interleaving a follower is signalled only if it was behind when it subscribed, or a commit was published or the writer was leaving afterwards |
| `Parking.EveryWaiterWoken` | pkg/wal/writer.go:99-107 | a follower parked when a commit is published is signalled before the writer does anything else |
| `Parking.ParkedAreUpToDate` | pkg/wal/writer.go:86-107 | whenever the writer is back in its loop, each parked follower has consumed everything that was ever published |
| `Parking.LimitsKept` | pkg/wal/writer.go:159-240 | the queue stays within its capacity and a batch within its limit, but for a single request |
| `Parking.RefusedOnlyClosed` | pkg/wal/writer.go:136-153 | an append is refused only once the log is closed, and closed it stays |
| `Protocol.WriterNeverStuck` | pkg/wal/writer.go:159-240 | the writer has a next step whenever there is something to answer or a Close to serve |
| `Protocol.ShutdownEnds` | pkg/wal/writer.go:111-240 | once the writer drains, a measure that nobody else raises falls with each of its steps and is 0 exactly when it has left: it leaves after at most so many steps |

## Findings

Some promises hold less often than their wording says. In each case the model does what the code does, and the
exact condition is proved.

| where | promise | what holds |
|---|---|---|
| pkg/wal/writer.go:493-651 | a cut is crash-safe (pkg/wal/wal.go:492-504) | If the cut publishes a file above the active segment while that segment has unsynced bytes, a power failure can leave a torn segment that is not the last one, and the log no longer opens. `CutSafety.CutSafeIff` gives the exact condition. `Witnesses.UnsafeCutRun` reaches the failing state under SyncInterval, `Witnesses.KilledCutRun` under every policy. `RunTheorems.PowerRunIsRun` shows that it cannot be reached with a policy that syncs each commit as long as processes die only with the machine. Syncing the active segment first would remove the condition. |
| pkg/wal/writer.go:262-268 | `FirstLSN() == 0` says that the log is empty (README.md:161-163) | A batch without payloads counts as written, so the first LSN is published over an empty log. `Flags.FlagAfterMove` says that in a run this happens exactly then, `Witnesses.EmptyBatchRun` reaches it. |
| pkg/wal/follower.go:154 | a follower overtaken by a truncation or a cut ends with `ErrTruncated` (README.md:143-146) | It does exactly when, in its last turn, the index says that the record due is gone or the scan meets a record above the one due (`Followers.Follower.StreamRecords`). So a removal goes unnoticed when the test at this line has passed, or the first LSN is 0, and nothing is left up to where the turn goes (`Silence.GoneBefore`, `Silence.LeftAfter`, `Silence.PacedTurn`; if and only if, with the files at rest: `Silence.CalmTurn`; with everything gone before the first look, at any pace: `Overtaking.FollowGone`). That happens after a cut of everything (`Overtaking.FollowAfterCut`), and between operations only then (`Overtaking.StallsExactly`). It also happens in snapshot mode when a cut or a truncation leaves only records above the snapshot while the turn lasts (pkg/wal/reader.go:141-190): `Overtaking.FollowThroughCut`, from a state that `Witnesses.TwoSegmentsRun` reaches. |
| pkg/wal/writer.go:86-97 | a follower waits for the next commit | After a cut of everything one that is behind is signalled at once, finds nothing and waits again, without end until something is committed (`Overtaking.FollowStalled`); otherwise a turn after a wake delivers, ends the stream or finds the record due gone (`Silence.WokenTurn`). |
| pkg/wal/writer.go:604-608 | an interrupted cut of everything reverts to the log before it | Only before the first removal. After it the log starts at the next base (`Sweeps.CutAllSteps`, with the active segment on stable storage; otherwise it may not open at all, `UnsyncedSweeps.CutAllOpens` says when). |
| pkg/wal/wal.go:304-312 | a log without records collapses to its first segment | A log whose last record has LSN 0 does too, records or not. The writer makes no such record, but Open takes one. A recovery that is killed while it collapses can then end differently, or not open: `RecoveryInterrupted.RecoverIdempotentIff` says exactly when, `Witnesses.CollapsingLog` is such a directory. |

## Left out

- Segment header bytes (internal/segment/header.go): a header is a flag, good or bad; its length counts in the
  size rule.
- Half-created segments: creating a segment and writing its header is one step, so a crash between the two is
  not modelled.
- I/O errors returned to a running writer (a failed write, fsync, rename or remove) and what the log does after
  them.
- Engine.Wal: the open file handles. `Scanning.Segment` models the handle's own file, size and last LSN; the
  log opens one to scan a file but otherwise applies directory steps by base LSN, so a handle kept open across
  operations, and its aliasing with the directory entry, is not modelled. What a reader still sees through the
  handle of a removed file is.
- Readers.Reader: the buffered reader. The scanner is applied to the file from the current offset on at each
  call, so bytes buffered before the writer appended more are not modelled separately.
- Protocol: timers, the batch linger window, operation timeouts and goroutine fairness; the payload of requests
  (that part is `WriterOps.Commit`); truncations and cuts sent to the writer, which are served one at a time
  between commits.
- Followers.Follower: `RecordsChan`, and the moment at which Close of a follower cancels a wait; how a wait ends is
  a parameter. The turns that waits lead to are covered whatever they come to (`Silence.WokenTurn`).
- Exactness.CommitExact: durability of an acknowledged record under SyncInterval before the next flush is not
  promised, as in the source; the flush itself is the operation `DoSync`.
- Sizes.RunSized: one size limit over the whole run; the source lets each opening choose another.
- Readers.Replay: the callback and an error it returns; the entries it would be given are collected instead.
- LSN wrap-around at 2^64.
- Options, logging, the recovery report, metrics, accessors and error texts.
