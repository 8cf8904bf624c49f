# The boat's recorder and its off-boat safety chain, in Dafny

A model, with proofs, of the parts of the boat's software that must not lose or corrupt anything: the
archive recorder and its copy off the boat, the backup store, the transmitter on the instrument bus, and the
planning tools whose edits must mean what they say. `dafny verify dfyconfig.toml` checks all of it.

Code that changes things step by step is modelled as methods and classes with the source's fields, proved
against functions and predicates about values; protocols that several threads or machines run together are
state machines over their steps, with theorems over whole runs. Anything the outside world decides (whether
a write, transfer or answer arrives, what another thread does meanwhile, when the power goes) is an
arbitrary choice, so a theorem holds for every such choice. A flag `calm` of a method turns the choices that
interfere off; what it promises then is what the code must do when nothing goes wrong, and it promises the rest
with the flag off as well.

## What each module is about

- `Ledger`, `CopyOffSpec`, `CopyOffSafety`, `CopyOffGuards`, `CopyOffExact`, `CopyOffLimits`, `CopyOff`: copying
  id ranges off the boat, whose ledger is the recorder's licence to delete. `CopyOffSpec` is the protocol of
  everybody who touches a row (commits, prunes, rotations, seals, ships, crashes, power cuts on the boat and at
  the receiver); a change to a directory is seen at once and can be undone until it is fsynced.
  `CopyOffSafety` proves no row is lost, `CopyOffGuards` what the programs could test to be sure of it,
  `CopyOffExact` which cuts can lose one; `CopyOffLimits` has three concrete runs; `CopyOff` has the programs
  themselves, whose `Valid` says that their fields are exactly where a run of the protocol leads, so the theorem
  about runs is a theorem about them.
- `Rotation`: the three renames that move a corrupt archive aside. A directory has a durable state and
  changes not yet fsynced; a power cut keeps any subset of those.
- `RotationLocks`: flusher, pruner, check scheduler, check threads and rotation in any interleaving.
- `Flush`: the fate of every row between its arrival and the disk.
- `PruneGaps`, `Prune`: what the retention prune may delete, and what its chunked loop does delete.
- `Retention`, `Backup`: grandfather-father-son retention, and a store of sets that point into older sets.
- `LegTracker`, `Broadcaster`, `AddressClaim`, `N2kCodec`: the active leg and its licence, worker
  generations, the address claim (section 4 of ISO 11783-5), identifiers (section 5.3 of SAE J1939-21),
  fast-packet framing and the route list message.
- `GridWalk`: which cells of an obstacle grid a straight segment touches.
- `WatchPlan`: the crew rotation as a function of time, and its edits.
- `TwoStepCommit`, `PlaybookUse`: the playbook load from the Pi to the Orin under the race log's session lock,
  both sides of it, and which playbook the copilot then uses: it asks the Pi, remembers the answer for a few
  seconds, and may fail to hear it.
- `Salvage`: the bisect that reads what can be read from a damaged archive.
- `RaceWindow`: the race window a record supports.
- `Sorting`, `IntSets`, `Options`: a stable sort, finite sets, optional values.

## Where the code does less than it is meant to

Each of these is a theorem about the code as it is, with a concrete run or input, next to the exact condition
under which the promise does hold.

- A row can be lost. If a crash falls between a segment's sidecar and the saved cursor, the orphan segment is
  shipped and verified, the prune deletes under that licence, and the same range is cut again with rows
  missing, the second segment has the first one's name and replaces it off the boat
  (`CopyOffLimits.RecutLosesRow`). Testing that the verified id is not past the cursor does not help: the prune
  may obey a ledger that is saved and not yet fsynced, and after a power cut the ledger that is left says
  nothing was verified (`CopyOffLimits.UndoneSaveLosesRow`). A cut is safe, whatever is carefully done after it,
  if and only if every row that has left its file is in the cut or carried for good under another name
  (`CopyOffExact.SafeCuts`). Two guards are enough: a name under which nothing is at the destination
  (`CopyOffGuards.FreshNothingLost`), or that test, if the prune obeys only a licence that is on disk
  (`CopyOffGuards.BoatNothingLost`).
- With a receiver that writes in place, a clean-up killed between its two unlinks leaves a sidecar without its
  segment. A segment cut again under that name can be sent before its copy is on disk, and then even a complete
  cut can lose its rows (`CopyOffExact.HalfCleanedLoses`).
- A re-send can break a verified segment at its destination if the receiver writes in place; until the
  re-send is verified the row is then only in the outbox (`CopyOffLimits.ResendNeedsOutbox`). The theorem is
  stated for both kinds of receiver.
- If fsyncing the directory after writing the rotation marker fails, and the same process tries again
  without a restart, a crash can leave part of the archive behind without a marker; it can if and only if
  more than one file is left to move (`Rotation.UnsyncedMarkerSplits`). If fsyncing the marker's removal
  fails, and the same process goes on to create the fresh archive, a crash can bring the marker back beside
  it, and the restart moves the fresh archive under the old destination; it can if and only if the removal
  was not on disk (`Rotation.UnsyncedRemovalTakesFresh`, `Rotation.FreshMovesAside`). Nothing is overwritten
  in either case.
- A session stamped with an end before its start can make kept rows deletable: exactly when it starts after
  every earlier window has ended and ends before one of them does (`PruneGaps.PruneGaps`,
  `PruneGaps.BackwardSessionExposesKept`).
- `chunk_route` is documented to raise only if a single waypoint does not fit. With more than 65536 waypoints
  a field does not fit 16 bits, which is another error than the one it retries on (`N2kCodec.ChunkRoute`).
- Two producers of one name whose bytes differ spoil the set they are in: its INDEX points twice at one
  object. Only such a pair does (`Backup.Destination.RunBackup`).
- The Orin's rename is meant to come right after its last time check. If it comes a second or more later, it
  can land in a race; the playbook in use still does not change, because its hash is not approved
  (`TwoStepCommit.LockBoundsWritesIff`, `TwoStepCommit.ConfirmedIsPinned`).
- `copilot_load` is documented never to raise, but writing the approved hash can, on a full or bad card. After
  a confirmed load the old hash can then stay approved over the new file (`TwoStepCommit.LostApproval`); after
  an unconfirmed one the wait for the commit window is skipped, and a rename can land in a race
  (`TwoStepCommit.SkippedSleep`). An approved bundle is live, and what the Pi confirms in a race is pinned, in
  every run if and only if such a failure comes only after the new hash is in place; the lock bounds the Orin's
  writes if and only if it never comes and the rename is prompt (`TwoStepCommit.ApprovedIsLiveIff`,
  `TwoStepCommit.ConfirmedIsPinnedIff`, `TwoStepCommit.LockBoundsWritesIff`).
- The playbook the copilot uses can change during a race even when nothing fails: what it remembers for five
  seconds may be older than the last approval before the gun (`PlaybookUse.UseBeginsInTheRace`,
  `PlaybookUse.UseEndsInTheRace`), and one lost ask leaves one use without (`PlaybookUse.LostAskInterrupts`).
  With every ask answered the use is pinned if and only if what is remembered at the gun agrees with what is
  approved (`PlaybookUse.PinnedIff`), and it does after five quiet seconds (`PlaybookUse.QuietGun`). In any case
  nothing but the approved bundle is used once that memory has expired (`PlaybookUse.AfterExpiry`).

## Model

| member | source | states |
|---|---|---|
| CopyOffSafety.NothingLost | pi/archiver/copyoff.py:163-256 | over every run of commits, prunes, rotations, seals, ships, bad transfers, false receipts, crashes, and power cuts on either side (undoing any renames, unlinks and ledger saves not yet fsynced, and transfers no receipt vouched for) in which every cut holds the rows that have left its file or leaves them to another name, every row ever committed is in its file (live or moved aside) or off the boat |
| CopyOffSafety.StepKeeps | pi/archiver/copyoff.py:97-119 | one step of anybody keeps: every ledger seen or to come back has the contiguous top of its ranges; every row it calls verified, and every row that has left its file, is off the boat under a name where no re-send, clean-up or power cut can take it away; whatever stands or can come back in the outbox holds every row of its range still in the file |
| CopyOffSafety.JustVerified | pi/archiver/copyoff.py:484-491 | when a range is recorded, every row of it that is still in its file and was not verified before is at the receiver for good, in the segment the receipt was for, and in everything else that stands or can come back under that name |
| CopyOffSafety.RowsStay | pi/archiver/archiver.py:1539-1597 | only the prune takes a row out of its file, and only at or below the verified id of the ledger it sees |
| CopyOffSafety.SafeKept | pi/archiver/copyoff.py:410-499 | a row that is off the boat for good, and in all that stands under its name, stays so through every step: re-sends (with a receiver that writes in place, on the strength of a durable outbox copy), clean-ups, and power cuts on either side |
| CopyOffGuards.FreshNothingLost | pi/archiver/copyoff.py:193-246 | if no cut takes the name of a segment that is at the destination, nothing is lost, whatever power cuts undo |
| CopyOffGuards.BoatNothingLost | pi/archiver/archiver.py:1367-1374 | if each prune obeys a licence that is on disk, the boat's own ledger is enough: nothing is lost when each cut starts where the licence ends or later (and, for a receiver that writes in place, not under a name whose sidecar was left without its segment) |
| CopyOffGuards.CutComplete | pi/archiver/copyoff.py:199-246 | if what is gone is within the licence of every ledger that can come back, and the cursor is not behind it, a cut holds every row ever committed in the range its receipt will claim |
| CopyOffExact.SafeCuts | pi/archiver/copyoff.py:193-246 | after any run whose cuts took fresh names, power cuts included, and whose transfers leave the source's bytes or no readable segment: a cut under any name can be followed by a careful run that loses a row if and only if some row that has left its file is neither in the cut nor carried for good under another name; under a half cleaned-up name with a receiver that writes in place, losing no row needs every such row elsewhere |
| CopyOffExact.SafeIffOthersHold | pi/archiver/copyoff.py:193-246 | the same for any state that keeps the invariant, where all that is carried for good is in all that stands under its name, and the rest can be lost by the receiver |
| CopyOffExact.RunNested | pi/archiver/copyoff.py:410-494 | over every such run: what is at the destination, or can come back there, is part of every copy and sidecar that stands or can come back under its name, and a copy still in the outbox once it was sent is there for good |
| CopyOffExact.OnlyCopyLoses | pi/archiver/copyoff.py:235-246 | the run that loses it: the receiver drops what no receipt vouched for, the cut is placed, a crash comes before the cursor is saved, and shipping it replaces the only carrier |
| CopyOffExact.HalfCleanedLoses | pi/archiver/copyoff.py:481-494 | under a name whose sidecar was left without its segment, even a cut that holds the row can lose it: killed before the placed copy is on disk, sent in place and broken, and the copy undone by a power cut |
| CopyOffLimits.RecutLosesRow | pi/archiver/copyoff.py:235-246 | a concrete run of the code as it is, ending with a committed row nowhere: crash between sidecar and cursor, ship, prune, cut again under the same name, ship over it |
| CopyOffLimits.UndoneSaveLosesRow | pi/archiver/copyoff.py:97-107 | a second concrete run, in which the cursor is not behind the licence at any cut: the prune obeys a saved ledger whose directory is not yet fsynced, a power cut brings the one before it back, the range is cut again and shipped over the only carrier |
| CopyOffLimits.ResendNeedsOutbox | pi/archiver/copyoff.py:410-422 | a re-send that breaks a file in place leaves a row only in the outbox: why the outbox copy is part of "not lost" |
| CopyOff.Station.NothingLostHere | pi/archiver/copyoff.py:441-499 | the same for the programs: whatever calls were made and wherever they died, if every cut held the rows that have left its file or left them to another name nothing is lost |
| CopyOff.Station.SealOne | pi/archiver/copyoff.py:187-249 | every write is a protocol step, fsynced before the next, with anything in between and a crash after any; made means the next rows above the cursor, as many as asked for or else all there are, are in the outbox with a sidecar that starts at the old cursor, the cursor has moved past them, and all three are on disk; not made and not killed, nothing has changed and no row in the file is above the cursor |
| CopyOff.Station.SealSegments | pi/archiver/copyoff.py:163-252 | the cut loop only extends a run of the protocol and says why it stopped: no archive, the number asked for, the outbox over its cap, killed, or no row of the file above the cursor; nothing is cut into an outbox over its cap |
| CopyOff.Station.SealNext | pi/archiver/copyoff.py:193-249 | one turn of that loop: over the cap nothing is done, otherwise the next segment, or nothing is left above the cursor |
| CopyOff.Station.RecordVerified | pi/archiver/copyoff.py:481-494 | the ledger first, then, once it is fsynced, the outbox copy, then its sidecar, with the recorder and the receiver at work between any two; the segment's last id is covered afterwards, in a ledger that is on disk |
| CopyOff.Station.ShipOne | pi/archiver/copyoff.py:446-499 | shipped exactly when something arrived, the receipt matches the boat's sidecar and the destination holds that content, fsynced, if nothing kills it; then the outbox copy and sidecar are gone and the ledger has gained exactly that range; refused, they and the ledger are as before; skipped exactly when copy or sidecar is no longer there |
| CopyOff.Station.ShipAll | pi/archiver/copyoff.py:441-499 | the loop over the sidecars only extends a run of the protocol; `done` counts exactly the segments cleaned up and `fail` the others it sent, those already gone counting as neither |
| CopyOff.ReadCut | pi/archiver/copyoff.py:199-206 | the rows above the cursor, by id, are a complete stretch: as many as asked for, or fewer only if nothing is above the last |
| Ledger.ContiguousThrough | pi/archiver/copyoff.py:145-152 | the highest id with all of 1..id covered: every id up to it is, the next is not |
| Ledger.ContiguousThroughUnique | pi/archiver/copyoff.py:145-152 | that id is determined by the ranges |
| Ledger.ContiguousThroughMonotone | pi/archiver/copyoff.py:145-152 | more coverage never lowers the licence |
| Ledger.Merge | pi/archiver/copyoff.py:502-509 | the same ids, sorted, no two ranges adjacent or overlapping |
| Rotation.CrashKeepsRotation | pi/archiver/archiver.py:249-307 | after a power cut at any point of a rotation, with any subset of its un-fsynced changes kept, the directory is a state of the same rotation to the same destination |
| Rotation.RotationOverwritesNothing | pi/archiver/archiver.py:249-307 | at every point, running or after a power cut, every archive file of the start exists and none has replaced another |
| Rotation.DoneIsOneUnit | pi/archiver/archiver.py:249-307 | a finished rotation leaves nothing and no marker at the live path; the db, -wal and -shm are under one destination, each under its own name, or, exactly where that was taken, under the first free number beside it |
| Rotation.UnsyncedMarkerSplits | pi/archiver/archiver.py:227-236 | if the marker's directory fsync failed and the process goes on, some crash strands part of the archive without a marker, exactly when more than one file is to move |
| Rotation.UnsyncedRemovalTakesFresh | pi/archiver/archiver.py:302-307 | if the fsync of the marker's removal failed and the process goes on to create the fresh archive, some crash leaves that archive beside the old marker; exactly when the removal was not on disk |
| Rotation.FreshMovesAside | pi/archiver/archiver.py:267-301 | then the restart moves the fresh archive under the old destination: beside the archive there, or, exactly when none was moved or stood there, to its very name |
| Rotation.UnsyncedOverwritesNothing | pi/archiver/archiver.py:249-307 | even with the marker not on disk, running or after any crash, every archive file of the start exists and none has replaced another |
| Rotation.TargetSame | pi/archiver/archiver.py:289-301 | looking a target up half-way through a rotation gives the name it had at the start |
| Rotation.SurvivingMoves | pi/archiver/archiver.py:289-302 | any subset of the pending moves leaves a state of the same rotation with that many files moved |
| Rotation.FreeBase | pi/archiver/archiver.py:279-287 | the first numbered destination none of whose three names is taken |
| Rotation.ArchiveDir.RaiseMarker | pi/archiver/archiver.py:276-288 | the destination is durable before anything moves, or nothing has moved |
| Rotation.ArchiveDir.MoveAll | pi/archiver/archiver.py:289-302 | each present file goes to a name that is free now and after any crash |
| Rotation.ArchiveDir.TakeMarkerDown | pi/archiver/archiver.py:302-304 | the moves are on disk before the marker's removal is |
| Rotation.ArchiveDir.RotateCorrupt | pi/archiver/archiver.py:249-307 | begins a rotation or finishes the one the marker names, also in a retry whose marker is not on disk; every intermediate directory is a state of that rotation (of one without a durable marker only if it was so at the start); success means it is done; nothing to do exactly when neither marker nor file is there; it fails only if a change or fsync does |
| Rotation.ArchiveDir.ReopenFresh | pi/archiver/archiver.py:405-426 | the fresh database is created only when neither marker nor any file of another unit is to be seen at the live path, and always when nothing fails; all that can still come back is the marker's unsynced removal |
| Rotation.ArchiveDir.RotateThroughPowerCuts | pi/archiver/archiver.py:339-377 | any number of attempts, each possibly cut short by a power cut, stay one rotation to one destination |
| RotationLocks.FilesMoveAlone | pi/archiver/archiver.py:405-426 | in every interleaving, whenever the recorder has no connection (closed by the rotation, or after a failed move or a failed open), none is open and no check, prune or other job holds or can get one |
| RotationLocks.AloneUntilFresh | pi/archiver/archiver.py:405-429 | from the close of the old connection, through any number of failed moves, failed opens and new attempts, that stays so until a fresh file is opened |
| RotationLocks.StaysUnowned | pi/archiver/archiver.py:405-429 | only opening the fresh file gives the recorder a connection again |
| RotationLocks.ClosedBetweenQueries | pi/archiver/archiver.py:411-419 | the old connection is never closed under a running prune query or other job |
| RotationLocks.VerdictRotatesItsOwnFile | pi/archiver/archiver.py:1617-1642 | while a background check's verdict is pending, what moves is the file that check read, or an empty one a failed open left |
| RotationLocks.AcceptedVerdictIsCurrent | pi/archiver/archiver.py:1627-1642 | a verdict that passes the generation test is about the file being recorded into |
| RotationLocks.OneHolder | pi/archiver/archiver.py:405-419 | in every reachable state the rotation, prune and write locks, and each check's own end, have at most one holder, with any number of executor jobs |
| RotationLocks.NoWaitCycle | pi/archiver/archiver.py:405-419 | in no reachable state do the rotation, the pruner, the executor jobs and the check threads it joins wait for each other in a circle |
| RotationLocks.CanAlwaysFinish | pi/archiver/archiver.py:405-429 | from every reachable state in which a rotation is asked for, whatever checks, prunes and jobs are under way, some run of steps ends with the recorder on a fresh file, one generation on |
| RotationLocks.VerdictAsks | pi/archiver/archiver.py:1680-1757 | from every reachable state with the scheduler asleep and no rotation asked for, a check can run on the file being recorded into and its corrupt verdict asks for the rotation of that file |
| RotationLocks.RunKeeps | pi/archiver/archiver.py:1246-1268 | one owner of the connection, files, generations, checks and the lock rules hold after every run |
| Flush.Recorder.Conserved | pi/archiver/archiver.py:1271-1344 | received = on disk + counted drops (cap, disk full, unwritable) + waiting; none on disk twice; earlier files hold earlier rows; what waits is later than what is on disk |
| Flush.Recorder.FlushOnce | pi/archiver/archiver.py:1271-1334 | keeps that conservation and order; nothing is left in flight; if it wrote, nothing that waited at its start still waits; if not, nothing new is on disk; the cap drops nothing while what waits fits it, and an allowed flush throws nothing else away; a pending rotation goes first, and if it fails nothing is written or thrown away; with the disk guard's leave and nothing else failing it writes, even over a file found corrupt |
| Flush.Recorder.RotatePending | pi/archiver/archiver.py:1271-1280 | a rotation is tried first exactly when one is pending; otherwise nothing happens |
| Flush.Recorder.WriteBatch | pi/archiver/archiver.py:1290-1327 | two attempts, the second into a fresh file after corruption; the batch is written, as it is when nothing else fails, or back in the buffer |
| Flush.Recorder.RotateFirst | pi/archiver/archiver.py:1295-1301 | a rotation is tried exactly when one is pending and the file was not just found busy, before the write and with the batch safe in the buffer; otherwise nothing changes |
| Flush.Recorder.TryWrite | pi/archiver/archiver.py:1302-1312 | the whole batch, or the writable rows of it in order, or nothing |
| Flush.Recorder.WriteRows | pi/archiver/archiver.py:851-882 | one transaction: all rows at the end of the live file, or none |
| Flush.Recorder.WriteRowsEach | pi/archiver/archiver.py:897-918 | exactly the unbindable rows are left out and counted |
| Flush.Recorder.Recover | pi/archiver/archiver.py:1246-1268 | a fresh file, a busy one or neither; the rows stay waiting |
| Flush.Recorder.CapBuffer | pi/archiver/archiver.py:1099-1117 | by arrival numbers: every row dropped arrived before every row that stays, as many stay as a positive limit allows, and the dropped ones are counted |
| Flush.Recorder.DropForDisk | pi/archiver/archiver.py:1281-1287 | a refusing disk guard empties the buffer and counts it |
| Flush.Recorder.Requeue | pi/archiver/archiver.py:1337-1344 | of the batch and what has arrived since, the newest up to the cap stay, in order; every row dropped is older than every row that stays |
| Flush.EarlierFileEarlierRows | pi/archiver/archiver.py:1271-1334 | commits follow arrival order across files |
| Flush.GoodKeepsOrder | pi/archiver/archiver.py:897-918 | dropping unwritable rows keeps the order of the rest |
| PruneGaps.PruneGaps | pi/archiver/archiver.py:1508-1525 | disjoint ordered ranges; they hold exactly the times before the cutoff that no window keeps, if and only if no backward window steps back over an earlier one |
| PruneGaps.ForwardIsSafe | pi/archiver/archiver.py:1508-1525 | windows that end no earlier than they start are always exact |
| PruneGaps.BackwardSessionExposesKept | pi/archiver/archiver.py:1508-1525 | two windows, one backward, for which kept times are in a deletable range |
| PruneGaps.MergeWindows | pi/archiver/archiver.py:1512-1517 | the merged windows cover exactly the kept times, in order, each starting after its predecessor's end |
| PruneGaps.GapsBetween | pi/archiver/archiver.py:1518-1525 | the ranges between the merged windows up to the cutoff, none missed that can hold a time |
| PruneGaps.GapsExact | pi/archiver/archiver.py:1518-1525 | when the gaps are exactly the unkept times before the cutoff |
| PruneGaps.LaterIrrelevant | pi/archiver/archiver.py:1513 | windows that start at or after the cutoff decide nothing |
| Prune.Archive.PruneRun | pi/archiver/archiver.py:1539-1597 | of all rows ever appended, those that came during the run included, only ones before the cutoff, outside every kept window and licensed go; all such rows that were there at the start are gone unless a rotation stopped the run, and nothing else but an unreadable ledger, which deletes nothing, does |
| Prune.Archive.DeleteGap | pi/archiver/archiver.py:1571-1593 | the chunk loop ends, and takes all matching rows that were there and none that does not match, while the recorder appends between chunks; only a rotation stops it early |
| Prune.Archive.SelectChunk | pi/archiver/archiver.py:1579-1584 | the earliest matching rows, at most a chunk, and fewer only when they are all; empty exactly when none is left |
| Backup.Destination.History | tools/backup/lab_backup.py:566-787 | over any history of backups and prunes that fail or die anywhere, at every moment every set with an INDEX is fully restorable, but those in which two producers of one name made different bytes |
| Backup.Destination.RunBackup | tools/backup/lab_backup.py:566-671 | INDEX goes last and only over a whole set: nothing failed, the manifest is there, every producer is listed and nothing else, whether or not it is then reported done; every other set stays as restorable as it was; the new one is restorable unless two producers of one name made different bytes, and then, if nothing fails, it is not; if nothing fails it is done, and if nothing has changed since the newest set no artifact is uploaded |
| Backup.Destination.ClashSpoils | tools/backup/lab_backup.py:604-646 | a finished set that lists two producers' different bytes under one name is not restorable |
| Backup.Destination.RunPrune | tools/backup/lab_backup.py:703-787 | kept sets survive whole; a set without INDEX younger than the minimum age is left as it is; a clean run leaves only kept sets complete, and of retired and of older unfinished sets only what a complete set points at; an INDEX that cannot be read, or no finished set at all, deletes nothing; with neither, and nothing failing, it is clean; every intermediate store is restorable |
| Backup.Destination.StoreOne | tools/backup/lab_backup.py:621-646 | an artifact whose last entry has the same content is pointed at exactly while its object is really there and can be looked at, and nothing is uploaded; any other is uploaded and read back before it counts |
| Backup.Destination.ReadIndexes | tools/backup/lab_backup.py:539-557 | every set with its INDEX, or a failure; never a partial view taken for a whole one |
| Backup.Destination.NewestEntries | tools/backup/lab_backup.py:573-575 | the entries of the newest set whose INDEX parses, none only if there is no such set, or a read error |
| Backup.Destination.Retire | tools/backup/lab_backup.py:730-743 | phase 1 deletes INDEX files of the candidates and nothing else |
| Backup.Destination.Protect | tools/backup/lab_backup.py:757-761 | phase 2 protects exactly what standing INDEX files point at |
| Backup.Destination.Sweep | tools/backup/lab_backup.py:763-784 | phase 3 deletes nothing a standing set needs, and nothing from the first set on that cannot be listed |
| Backup.Destination.FinishKeepsRestorable | tools/backup/lab_backup.py:658-665 | putting the INDEX last keeps every complete set restorable, the new one included |
| Backup.CompleteIffListed | tools/backup/lab_backup.py:560-563 | a set is complete exactly when the strict listing has its INDEX |
| Retention.PruneThenAdd | tools/backup/lab_backup.py:682-700 | confluence: pruning, adding a newer set and pruning again keeps exactly what one prune of everything keeps |
| Retention.NightlyIsOnePrune | tools/backup/lab_backup.py:682-700 | pruning after every new set keeps exactly the sets of one prune over the whole history |
| Retention.KeepIdempotent | tools/backup/lab_backup.py:682-700 | pruning twice is pruning once |
| Retention.KeepBounded | tools/backup/lab_backup.py:682-700 | never more sets than the counts add up to, or one when they are all zero |
| Retention.RuleKeepsExactly | tools/backup/lab_backup.py:688-699 | a rule keeps exactly one set, the newest, of each of the last `count` buckets that hold any, or of every bucket when there are no more |
| Retention.KeepStable | tools/backup/lab_backup.py:682-700 | removing any sets the rules do not keep changes nothing about which they keep |
| Retention.ChooseKeep | tools/backup/lab_backup.py:682-700 | the loop over newest-first names computes exactly the kept sets |
| Retention.KeepByRule | tools/backup/lab_backup.py:688-699 | one rule's walk keeps exactly the newest set of each of the last buckets, and may stop early |
| LegTracker.LegTracker.Update | pi/n2kout/navcalc.py:174-206 | the leg moves forward at most one, never past the last, only on an explicit True and with a reason (inside the radius, a navigator past the course mark, or past the turn line of a point that is no mark), and with such a reason and an approval that may be asked for it does; shown or blocked is determined by the answer, the five seconds after a refusal and the thirty after an approval; the closing rate is over this leg's last two minutes |
| LegTracker.LegTracker.Advance | pi/n2kout/navcalc.py:156-172 | at most one advance per fix on one engine approval; refused or unknown leaves the leg and blocks |
| LegTracker.LegTracker.Ask | pi/n2kout/navcalc.py:147-154 | exactly True unblocks and dates the licence; anything else blocks and sets the retry time |
| LegTracker.LegTracker.Recheck | pi/n2kout/navcalc.py:181-186 | a blocked leg is asked about again only once five seconds have passed since the refusal, a good one only after thirty, and then it is; unblocked means fresh |
| LegTracker.LegTracker.Measure | pi/n2kout/navcalc.py:192-200 | the distances of the last 120 s on this leg are kept and no older ones; the closing rate is over them, from 20 s on, and there is an ETA exactly at 0.25 m/s or more |
| Broadcaster.Broadcaster.Stop | pi/n2kout/n2kout_app.py:255-263 | on an active route: retired, then exactly the termination frames, with no worker frame among them; a course change's stop leaves a route already sent for the new course alone |
| Broadcaster.Broadcaster.Start | pi/n2kout/n2kout_app.py:234-253 | a new worker exactly once the old one has exited; if not, nothing is started and the old one is still running |
| Broadcaster.Broadcaster.EndLocked | pi/n2kout/n2kout_app.py:265-286 | retire, terminate if it was navigating, wait; a stuck worker stays retired |
| Broadcaster.Broadcaster.Retire | pi/n2kout/n2kout_app.py:269-276 | from here no generation up to the old one sends or writes status |
| Broadcaster.Broadcaster.Terminate | pi/n2kout/n2kout_app.py:220-232 | the trace grows by exactly the termination frames whatever the workers try meanwhile |
| Broadcaster.Broadcaster.SendG | pi/n2kout/n2kout_app.py:206-213 | a frame goes out exactly when the worker is the current, unstopped one |
| Broadcaster.Broadcaster.SetStatus | pi/n2kout/n2kout_app.py:215-218 | a retired worker never changes the status |
| Broadcaster.Broadcaster.Cycle | pi/n2kout/n2kout_app.py:288-352 | one broadcast second: live frames only for an approved leg and a fix fresh at that moment, and with nothing interfering exactly then, the second behind the first if the bus took that; an approval shows the leg, a worker retired meanwhile approves nothing; it ends itself on expiry, with nothing sent, and otherwise exactly when the feed has a course token, null included, that differs from the route's |
| Broadcaster.Broadcaster.SendNav | pi/n2kout/n2kout_app.py:327-352 | each live frame passes a fresh-fix check just before its own send; with nothing interfering they go out for a fix at most ten seconds old, the second behind the first if the bus took that, and the status says live exactly when it took both |
| Broadcaster.Broadcaster.Run | pi/n2kout/n2kout_app.py:354-377 | whatever cycles and interleavings: retired workers stay silent, nothing is sent between a retirement and the next launch, nav frames are licensed; with nothing interfering it ends itself in the first second that has expired or names another course; one that ended itself and was not retired has sent its three pairs of termination frames, in order, and then its reason; one retired before it began does nothing |
| Broadcaster.Broadcaster.OneSecond | pi/n2kout/n2kout_app.py:358-370 | one turn of the worker: it ends for the reason of that second or goes on, and the route follows the cycle's frames exactly when it is due |
| Broadcaster.Broadcaster.RouteIfDue | pi/n2kout/n2kout_app.py:364-369 | the route is sent again, up to the first message the bus does not take, once five seconds have passed since it was last begun, and not before |
| Broadcaster.Broadcaster.Close | pi/n2kout/n2kout_app.py:371-377 | a worker still current at the end has sent all six termination frames in order, then its status; one retired on the way stops there |
| AddressClaim.Sender.SendCounted | pi/n2kout/n2k.py:369-397 | on the bus trace an ordinary frame appears only after a claim from its address since the last move and at least the settle time later; a message sent is exactly its frames, after the pending claim if there was one; with nothing failing it is sent, or told how long the settle still lasts |
| AddressClaim.Sender.TryClaim | pi/n2kout/n2k.py:354-367 | a pending claim is tried whenever it is forced or a second has passed since the last try, and never sooner; the claim goes out exactly when true comes back for a pending one, and traffic then waits 0.25 s |
| AddressClaim.Sender.Send | pi/n2kout/n2k.py:315-332 | an ordinary send inside the settle is held outside the lock, then goes under the same guarantee; with no other thread moving the address and nothing failing it goes, from that address |
| AddressClaim.Sender.ChangeAddress | pi/n2kout/n2k.py:336-347 | the move and its claim in one hold of the lock; no other frame comes between, and the claim is out or pending |
| AddressClaim.BusThread.Handle | pi/n2kout/n2kout_app.py:475-500 | a contest against a lower NAME ends at the first address of 128 to 247 no peer is known to use, never the one just lost, or at 254 when there is none, and the claim of it follows; against a higher NAME the address is claimed again from where we are; a request to us or to all is answered with exactly its message |
| AddressClaim.BusThread.FreeAddress | pi/n2kout/n2kout_app.py:465-473 | the first free address of the range; 254 exactly when none is |
| AddressClaim.BusThread.Answer | pi/n2kout/n2kout_app.py:444-463 | claim, product information, both PGN lists or heartbeat for what we send; a refusal only for another request sent to us directly by someone else |
| AddressClaim.BusThread.Note | pi/n2kout/n2kout_app.py:475-495 | who was heard when, and the NAME last claimed; nobody else's entry changes |
| AddressClaim.AnnouncedAppend | pi/n2kout/n2k.py:369-397 | the trace property is kept by any move or claim, and by a covered ordinary frame |
| N2kCodec.IdRoundTrip | pi/n2kout/n2k.py:59-77 | the PGN comes back exactly when it is PDU2, or PDU1 with a zero low byte; priority, source and a PDU1 destination always do |
| N2kCodec.IdFields | pi/n2kout/n2k.py:59-77 | both data pages and the format stand next to the priority, the group extension below them |
| N2kCodec.FastPacketRoundTrip | pi/n2kout/n2k.py:399-419 | any payload reassembles from frames of 8 bytes counted 0, 1, 2, ...: the length, the payload, and 0xFF to the end; the counters fit 5 bits exactly up to 223 bytes |
| N2kCodec.SendFastPacket | pi/n2kout/n2k.py:404-419 | the sending loop makes exactly those frames |
| N2kCodec.EncodeRouteList | pi/n2kout/n2k.py:216-233 | the message, or refused exactly when a field does not fit 16 bits, or too large only above the cap |
| N2kCodec.RouteListRoundTrip | pi/n2kout/n2k.py:216-233 | a message reads back as its start, route name and waypoints, with names cut to 16 ASCII characters and coordinates clamped |
| N2kCodec.HeadBytes | pi/n2kout/n2k.py:224-227 | the bytes of the head: start and count with the low byte first, database 1, route 1, the flags 0xE0, the name behind its length and the ASCII mark, the reserved 0xFF |
| N2kCodec.RowBytes | pi/n2kout/n2k.py:228-230 | those of a row: number, name, latitude, longitude |
| N2kCodec.Le32Bytes | pi/n2kout/n2k.py:230 | a coordinate is four bytes, the low one first, in two's complement |
| N2kCodec.I32RoundTrip | pi/n2kout/n2k.py:55-56 | a present coordinate never reads as "not available", an absent one always does |
| N2kCodec.ChunkRoute | pi/n2kout/n2k.py:236-254 | fails exactly when some field does not fit 16 bits; otherwise every message is within 223 bytes, at its own start, as full as it can be, and a receiver of them reads one item for each waypoint, in order: its place, its own latitude and longitude (clamped, or absent), and the first 16 characters of its name in ASCII, or WP and its number in at least two digits |
| N2kCodec.NextChunk | pi/n2kout/n2k.py:244-252 | the retry with one waypoint fewer always ends: one waypoint fits |
| N2kCodec.DeliveredIsReceived | pi/n2kout/n2k.py:236-254 | messages that deliver are, joined, the waypoints themselves |
| N2kCodec.DefaultNameIs | pi/n2kout/n2k.py:240 | an unnamed waypoint is WP and its number from one, in at least two digits and without other leading zeros |
| GridWalk.Supercover | shared/gridwalk.py:43-57 | every closed cell that meets the segment is yielded |
| GridWalk.NothingFar | shared/gridwalk.py:22-57 | every yielded cell is within 2e-9 of the segment in each axis |
| GridWalk.NearRow | shared/gridwalk.py:14-28 | a height within 1e-9 of a grid line counts as on it, on both sides |
| GridWalk.NarrowIsVertical | shared/gridwalk.py:47-50 | a segment no wider than 1e-9 is one column, or two beside a grid line, over its whole height |
| GridWalk.DirectionFree | shared/gridwalk.py:43-50 | the cells do not depend on which end comes first |
| GridWalk.ObstacleNeverMissed | shared/gridwalk.py:60-84 | a set cell the segment meets, even at a corner, is always found |
| GridWalk.CellsTouched | shared/gridwalk.py:43-57 | the loop yields each closed cell that meets the segment, none further than 2e-9 from it, each once, column by column |
| GridWalk.AnySet | shared/gridwalk.py:60-84 | true exactly when some yielded cell inside the grid is set: always when the segment meets a set cell, and only when one is within 2e-9 of it |
| WatchPlan.NormalizeCorrect | shared/watchplan.py:52-86 | whatever the rows, the blocks are sorted, disjoint and non-empty, and at every moment show the last-starting valid row if it has not ended (a tie goes to the later row) |
| WatchPlan.NormalizeKeepsRows | shared/watchplan.py:66-82 | each block is what is left of a valid row: its start, team and note, and an end no later |
| WatchPlan.NormalizeKeepsStarts | shared/watchplan.py:66-82 | where a valid row starts, a block does |
| WatchPlan.NormalizeIdempotent | shared/watchplan.py:52-86 | normalizing twice is normalizing once |
| WatchPlan.Normalize | shared/watchplan.py:66-82 | the filter, sort and clip loops compute that |
| WatchPlan.StatusAt | shared/watchplan.py:115-152 | for any blocks: the team and end of the last one that covers now, or the first listed start after it; the team named as next is that of the first block listed that starts later, if it starts within a second of the change; for a plan in normal form nobody changes before the change, and with no team named the second after it is empty |
| WatchPlan.Hold | shared/watchplan.py:161-176 | block by block: the one that covers now ends later by the minutes, those before it stay, those after it start and end that much later; without a current block, or nothing to add, the normal form is left as it is; and the timeline of that |
| WatchPlan.HeldShows | shared/watchplan.py:161-176 | as a timeline: the current team for delta more at its end, the past untouched, the rest the same but later |
| WatchPlan.Swap | shared/watchplan.py:179-189 | block by block: A and B change places in every one that has not ended, all hands stay, and nothing but the team changes |
| WatchPlan.SwapShows | shared/watchplan.py:179-189 | as a timeline: from now on every watch is the other team's, all hands stay |
| WatchPlan.SwapUndoesItself | shared/watchplan.py:179-189 | two swaps at the same moment are none |
| WatchPlan.AllHands | shared/watchplan.py:192-211 | the block called for is in, everything else is a piece of the plan outside it with its own team and note, and at every other moment the plan shows what it showed |
| WatchPlan.AllHandsShows | shared/watchplan.py:192-211 | as a timeline: everyone during [now, end), the old plan at every other moment |
| WatchPlan.Generate | shared/watchplan.py:89-105 | empty exactly on empty input; else blocks back to back from the anchor to the stop, the teams alternating, block i as long as entry i modulo the length of the pattern, only the last one cut; the loop ends |
| WatchPlan.TilesCover | shared/watchplan.py:89-105 | somebody is on at exactly the moments of [anchor, stop), and the plan is canonical |
| WatchPlan.PresetBlocks | shared/watchplan.py:31-36 | the lengths of the four named patterns in seconds, and no others are named |
| WatchPlan.SwedishDay | shared/watchplan.py:29-36 | five blocks of the Swedish pattern are one day, and the same slot of the next day is the other team's |
| WatchPlan.PositiveSnoc | shared/watchplan.py:94 | the lengths given that parse and are above zero, in their order |
| TwoStepCommit.ApprovedIsLive | pi/engine/engine_app.py:386-426 | over every run of delays, losses, stalls, Orin restarts and approvals that raise late: while the lock is free, an approved bundle is the Orin's live file |
| TwoStepCommit.ApprovedIsLiveIff | pi/engine/engine_app.py:414-462 | that holds in every run if and only if an approval that raises has at least put the new hash in place |
| TwoStepCommit.LostApproval | pi/engine/engine_app.py:415-417 | a run in which it does not: the Orin has the new file, writing its hash raises, and the old hash stays approved over the new file |
| TwoStepCommit.SkippedSleep | pi/engine/engine_app.py:418-422 | a run in which writing "nothing approved" raises: the wait is skipped, a race begins inside the commit window, the rename can still come, and with the old hash in place it ends the use of the playbook |
| TwoStepCommit.OnlyRaisesMatter | pi/engine/engine_app.py:444-462 | a run without approvals that raise is a run of a card that never fails: all the results for such a card hold of it |
| TwoStepCommit.PromptWritesUnderLock | pi/engine/engine_app.py:386-426 | if the rename follows its last time check within a second and no approval raises, the Orin's file changes only while the Pi holds the lock for that very load |
| TwoStepCommit.LockBoundsWritesIff | pi/orin/copilot/app.py:206-240 | the lock bounds every write in every run if and only if that stall is under a second and writing the approved hash never raises |
| TwoStepCommit.StalledRenameLandsInARace | pi/orin/copilot/app.py:228-231 | a run with a longer stall: the Pi has let go, a race runs, and the rename is still to come |
| TwoStepCommit.RaceFreezes | pi/engine/engine_app.py:340-349 | throughout a race the approved hash does not change, nor (prompt rename, no approval that raised) the live file |
| TwoStepCommit.ConfirmedIsPinned | pi/engine/engine_app.py:414-462 | even a stalled rename, or an approval that raises after the new hash is in place, never changes which playbook an immediate answer of the Pi confirms in a race |
| TwoStepCommit.ConfirmedIsPinnedIff | pi/engine/engine_app.py:414-462 | the playbook confirmed at the gun stays so in every run if and only if no approval raises with the old hash in place |
| TwoStepCommit.StepKeeps | pi/orin/copilot/app.py:186-240 | requests and commits are in one place, what is live was received before its commit was sent, what is not live is out of time or, after an approval that raised, can do no harm unless the old hash is still in place |
| TwoStepCommit.Engine.CopilotLoad | pi/engine/engine_app.py:386-426 | loaded means approved and live on the Orin; not loaded means nothing is approved or nothing changed; raised means the approval did, and then the old hash is left only if the write failed before the new one was in place; it returns only with no load in progress; with nothing lost and an idle Orin it is loaded exactly when the commit arrives within the window, and otherwise the lock is kept a second past it |
| TwoStepCommit.Engine.PlaybookLoad | pi/engine/engine_app.py:326-353 | refused, with nothing changed, while a race runs; otherwise as the load above |
| PlaybookUse.PinnedIff | pi/orin/copilot/playbook.py:166-196 | with every ask answered, every use in the race is of the playbook approved at the gun if and only if at the gun every use under way, and every use of what the copilot remembers, would be |
| PlaybookUse.AgreementHolds | pi/orin/copilot/playbook.py:166-196 | from such a gun on, with lost asks too: every use is of the approved playbook, but one whose ask is lost goes without |
| PlaybookUse.QuietGun | pi/orin/copilot/playbook.py:156-177 | if no load is begun, and no use was already under way, for longer than five seconds before the gun, the race begins so |
| PlaybookUse.RemembersFiveSeconds | pi/orin/copilot/playbook.py:156-177 | what is remembered is used without asking for exactly five seconds from when the ask began |
| PlaybookUse.ApprovedOrNone | pi/orin/copilot/playbook.py:166-196 | whatever the card, the stalls and the lost asks: once no other hash is remembered or on its way, only the approved bundle or none is used |
| PlaybookUse.AfterExpiry | pi/orin/copilot/playbook.py:156-177 | that is so more than five seconds into any race, once no reply to an ask begun before the gun is still on its way |
| PlaybookUse.UseBeginsInTheRace | pi/orin/copilot/app.py:232-235 | a run with a sound card: the copilot asks between the new file and its approval, uses nothing at the gun, and the approved bundle later in the race |
| PlaybookUse.UseEndsInTheRace | pi/orin/copilot/playbook.py:172-177 | a run with a sound card: it asks just before an unconfirmed commit ends the approval, uses the unapproved bundle at the gun, and none later |
| PlaybookUse.LostAskInterrupts | pi/orin/copilot/playbook.py:174-177 | one lost ask takes the approved playbook away for one use |
| Salvage.Salvager.Bisect | pi/archiver/tools/salvage.py:106-129 | exactly the readable rows of the range are inserted, exactly the unreadable ids listed, once and in order, with that many reads |
| Salvage.DoneMeans | pi/archiver/tools/salvage.py:106-129 | in rows and ids: saved is what is in the range and not damaged, listed is what is damaged, in order, and both are counted |
| Salvage.ReadsBounded | pi/archiver/tools/salvage.py:106-129 | n ids with k unreadable cost at most 1 + 2 k ceil(log2 n) reads |
| Salvage.CeilLog2Is | pi/archiver/tools/salvage.py:127-129 | the logarithm in that bound is the least power of two that reaches n |
| Salvage.Salvager.Run | pi/archiver/tools/salvage.py:131-147 | the chunks up to where it stopped, and their total cost; it stops after the first chunk at which the disk is looked at and found nearly full, and only there |
| Salvage.ChunksIs | pi/archiver/tools/salvage.py:131-132 | the number of chunks in that cost |
| Salvage.Salvager.ResumeAt | pi/archiver/tools/salvage.py:91-95 | resuming starts just above the highest id already saved, if that is past the start asked for; a highest id of 0 counts as none |
| Salvage.Recover | pi/archiver/tools/salvage.py:89-147 | any number of stops and resumes, any chunk sizes: once a run reaches the end, exactly the readable rows are saved and exactly the unreadable ids listed; a run that meets no full disk reaches it |
| RaceWindow.Stitch | shared/race_window.py:103-126 | one window per group: first start, last end, all ids in order; a group starts exactly at a marker within the gap of no earlier one; every session that has a start, one still open included, is in a window that holds it |
| RaceWindow.MarkersCons | shared/race_window.py:110-116 | one marker for each session that has a start, in order; one still open is the moment it started |
| RaceWindow.OrderedIs | shared/race_window.py:117 | the same markers by start, and by end where they start together |
| RaceWindow.WindowIs | shared/race_window.py:118-125 | a window's start, latest end and ids, each of the right marker |
| RaceWindow.WindowsAreComponents | shared/race_window.py:103-126 | the groups are the connected components: two markers share a window exactly when a chain of near markers joins them |
| RaceWindow.UnderwaySpan | shared/race_window.py:128-156 | none exactly when there is no moving seed; else the run holds the seed and cannot be longer at either end |
| RaceWindow.SeedIs | shared/race_window.py:140-148 | the seed is the first of the nearest samples; where that one is stopped, the first nearest moving one within a gap; none exactly when there is none |
| RaceWindow.SpanIsLargest | shared/race_window.py:128-156 | every underway run that holds the seed lies within it |
| RaceWindow.FindTurnaround | shared/race_window.py:159-185 | the first sample at which the course reverses and stays reversed, never before the start asked for; none exactly when no sample qualifies |
| RaceWindow.TurnIsSustained | shared/race_window.py:178-182 | after it every sample of the sustain time is at least half the turn away from the old course |
| RaceWindow.WrapIs | shared/race_window.py:86-87 | the wrapped angle is in [-180, 180) and differs by whole turns |
| RaceWindow.ChooseSeed | shared/race_window.py:205-214 | the first of the longest windows without an anchor; else the first that holds it, else the first with the nearest edge |
| RaceWindow.Derive | shared/race_window.py:188-263 | a window for every record with a session that has a start, and it always contains its seed marker: its end is the smaller of the underway run's end and the first sample at which the course turns home for good (looked for only if asked), its start is the run's exactly if asked and earlier |

## Left out

- HTTP endpoints, asyncio, WebSockets, sockets, subprocesses, file and database errors by kind: each call is a
  step that may succeed, fail or answer anything.
- SQLite: a table with strictly increasing, never reused ids and atomic transactions. A commit that reports
  failure after it took effect is not modelled.
- Hashes are injective; inodes are never reused, because rotated files are kept.
- Floating point: times, positions and speeds are reals. The generated watch plan's loop ends over the reals;
  in floating point a block shorter than the spacing of floats near the anchor would not advance it. NaN and
  infinities are not modelled.
- ISO time strings in the prune are reals with the same order; the empty string is 0.
- The disk guard's hysteresis: its verdict is an arbitrary choice at each flush.
- Calendars: days, weeks and months are any monotone bucket functions. Great-circle formulas and circular
  means are parameters.
- Copying closed (moved-aside) files as units, and checks of moved-aside files: the safety theorem counts a
  moved-aside file as kept.
- The pruner's own corruption flag (pi/archiver/archiver.py:1608-1613) carries no generation, so the theorem
  about verdicts is about background checks only.
- Directories that cannot be fsynced (an error the code ignores), and an empty rotation marker.
- CopyOffExact.SafeCuts: counts runs in which a transfer, or a power cut at the receiver, leaves bytes that were
  sent, or nothing that reads as a segment. For a half cleaned-up name and a receiver that writes in place only
  one direction holds of the condition: rows that are still in the file and that a later prune may take would
  have to be counted too.
- The kernel's own write-back of a directory between two fsyncs: it only leaves fewer outcomes of a power cut.
  The archive's commits are durable when they return (synchronous=FULL).
- Rotation.ArchiveDir.RotateThroughPowerCuts: each attempt but the first follows a power cut; a retry without
  one is Rotation.ArchiveDir.RotateCorrupt from any state of the rotation.
- Prune.Archive.PruneRun: a run with retention off, or with the session table unreadable, deletes nothing; it is not
  modelled.
- Backup.Destination.RunBackup: dry runs, empty-set folders and log texts are left out.
- Backup.Destination.History: a set's name counts as spoiled for good once two of its producers clashed.
- AddressClaim.Sender.Send: the wait for the settle time can be renewed for as long as other threads keep
  changing the address; the model gives up after a number of renewals that the caller chooses.
- N2kCodec.ChunkRoute: needs at least one waypoint per message; with none the loop would not end. Names are
  sequences of character codes.
- Salvage.Salvager.Bisect: the destination holds only rows of the same source, so an ignored insert is of the
  same row; a kill in the middle of an uncommitted chunk is not modelled.
- RaceWindow.Stitch: markers are ordered by start and end; ids only name them. Choosing the motion source is
  left out.
- TwoStepCommit.PromptWritesUnderLock: both monotonic clocks run at the same rate, and each request is
  delivered at most once. A crash of the Pi in the middle of a load, and a power cut of the Orin between its
  rename and the directory fsync, are left out.
- PlaybookUse.PinnedIff: for races in which the live file cannot change (an approved bundle is live, or renames
  are prompt and no approval raises). The Pi serves what is approved at that moment; a failed read of it there
  is a lost ask.
- The edit log of the watch plan, its team names, `set_on` and the list of upcoming blocks: display, or one
  field of one block.
- Everything else in the repository: dashboards, replay and analysis tools, weather, routing, tactics and
  strategy text, the uplink, configuration and deployment.
