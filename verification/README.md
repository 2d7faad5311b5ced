# Arcology: ArcFS volumes and runtime algorithms, verified in Dafny

The main part models the ArcFS copy-on-write volume of `arcfs-utils/src/host.cpp`: the four-slot
superblock ring, checkpoints with generations, the fan-out-4 trees, the in-memory dirty layer, commit,
mount, snapshots and rollback. Seven smaller parts model algorithms of the Arcology runtime: Fisher-Yates
shuffling, the PCG32 rejection sampler, splitting/joining/replacing text, the stable index sort, slices and
ranges, UTF-8/UTF-16 transcoding, and the jump fix-ups of the JIT assembler.

`dafny verify dfyconfig.toml` checks everything.

## How the volume is modelled

* A disk is a sequence of sectors; each sector is a record (`Super`, `Check`, part of a tree node, bitmap,
  file data) or `Junk`, which passes no checksum. A torn or foreign sector is `Junk`.
* `Reader` and `Writer` are the functions of the on-disk format: select a superblock, collect a tree, load a
  generation; write file chunks, trees, bitmap and checkpoint. `Operations` holds the in-memory operations.
* `Sound(d, v)` is the invariant of a mounted volume `v` on a disk `d`. Formatting establishes it
  (`FormatSound`), every step of a run, crashes included, keeps it (`StepKeeps`, `RunSound`), and so every
  state reached from a formatted disk has it (`ReachableSound`): a theorem that requires `Sound` is about
  every reachable state.
* `Live(d, v)` is the abstract file system: objects with types and bytes, directory entries, attributes,
  pending data included.
* `MountedVolume.Volume` is the class with the fields of the C++ `Volume`. Its methods keep the loops and
  the order of assignments of the source, write through a logging block source, and are proved equal to the
  functions above; the theorems about the functions are therefore theorems about the methods.
* `RoomFor(v)` is the space condition of a commit, a count of chunks and tree nodes taken before it;
  `Remountable(v)` says that the counts are within the reader's limits and no attribute is dangling.
* What these functions compute is stated a second time without naming them or their helpers: what a mount
  accepts in `Decoding`, what a commit leaves on the disk in `RowOrder`, `TreeIndex`, `BitmapProofs` and
  `Durability`, the formatted disk in `FormatShape`, reads and writes byte by byte in `OperationProofs`.
* A crash is a prefix of the write log with at most one torn sector at its end.

## What was found

Each property that fails has its exact condition, and a lemma with an input on which it fails.

* `write_file` and `resize_file` insert an empty pending entry before they read the old bytes, so the read
  sees the empty entry. `WriteKeepsIff` and `ResizeKeepsIff` say exactly when nothing is lost: the file
  already had pending bytes, or what would be lost is beyond the data or zero. `WriteLoses` is a run that
  loses bytes: format, create, write, commit, write. `HoistedKeeps` proves the repaired order for all files.
* The size check of both adds in 64 bits: the last 4095 sizes wrap around to no chunks and pass
  (`GuardPassesIff`). The buffer then cannot be made, but the empty pending entry stays, and empties a clean
  file (`EnteredKeepsIff`, `WrapEmpties`).
* A commit takes the size of a file from its pending bytes. `CommitKeepsSizesIff`: the sizes a client was
  shown survive exactly when each pending file has as many bytes as its size says. In `SizeShrinks` a size
  of two becomes one.
* `rename_child` does not look whether the new parent lies in the moved subtree. `RenameRootedIff`: the
  namespace stays a tree exactly when it does not. `RenameBreaks` makes `a` and `a/b` on a formatted disk
  and renames `a` to `a/b/a`.
* `commit` publishes before the reader's limits are checked. `CommitMountsIff`: the published volume mounts
  exactly when the counts are within the limits and no attribute is dangling. `NestingUnmounts` is a run
  past the limits: on a formatted disk, making 2048 nested directories and saving them leaves a disk that
  does not mount. `remove_child` leaves attributes behind: `RemoveAttachedIff` says exactly when none dangles
  afterwards, and by `RemoveUnmounts` removing any object that has an attribute, and committing, unmounts
  the disk; `AttributeUnmounts` builds such a disk from a formatted one.
* A commit is crash-atomic exactly when a ring slot other than the first still carries the current
  superblock (`CrashAtomicIff`). Formatting and every finished commit leave it in all four (`FormatSound`,
  `CommitBacks`); a volume recovered from a crash right after the first ring write has it in slot 0 alone
  (`CrashUnbacks`).
* `create_snapshot` accepts a label with a NUL, and the re-mount of its own commit cuts it there.
  `LabelSurvivesIff`: the record survives exactly when its label has no NUL; `LabelCut` is one that does not.
* A label of the JIT assembler bound a second time moves without its earlier jumps (`RebindIff`,
  `RebindBreaks`).
* The UTF-16 encoder accepts overlong forms. `AcceptedShortestIff` says which inputs are proper UTF-8;
  `ZeroUnitIff` says exactly when a zero unit stands before the terminator, and `OverlongZero` is such an
  input. The way back turns surrogates into bytes one by one: `BytesBackIff`, `SupplementaryLost`.
* The C port of the bounded generator does not check its bound: it agrees with the C++ one exactly for the
  bounds from 1 to 2^32 (`NativeAgreesIff`, `NativeDiffers`).

## Model

| member | source | states |
|---|---|---|
| CommitTheorems.CommitRefines | arcfs-utils/src/host.cpp:864-1072 | for every sound volume with room for the commit and within the limits, commit and its own re-mount raise no error, nothing stays dirty, the abstract file system is unchanged, the snapshot list is unchanged but for labels, which are as the reader cuts them, the generation grows by one, the high-water mark moves to the counted end, and the new state is sound |
| CommitTheorems.CommitMountsIff | arcfs-utils/src/host.cpp:538-541 | the published volume mounts if and only if its counts are within the reader's limits and every attribute names an existing object; both are checked only after the ring is overwritten |
| Limits.NestingUnmounts | arcfs-utils/src/host.cpp:538-541 | on every formatted disk of 40000 sectors or more, a run that makes 2048 nested directories is accepted in every step and has room, and saving it publishes a disk that does not mount |
| Witnesses.RemoveAttachedIff | arcfs-utils/src/host.cpp:807-821 | after a removal every attribute names an existing object if and only if, before it, each named an existing object other than the removed one |
| Witnesses.RemoveUnmounts | arcfs-utils/src/host.cpp:807-821 | removing an object that has an attribute, and committing, publishes a disk that does not mount |
| Witnesses.AttributeUnmounts | arcfs-utils/src/host.cpp:807-821 | from every formatted disk of 512 sectors or more a sound mounted disk with an attribute on its only file is reached by one commit; removing the file and saving unmounts it |
| CommitTheorems.FullCommitHarmless | arcfs-utils/src/host.cpp:874-879 | a commit without room fails as full and for no other reason; the disk mounts as before and the in-memory file system with its pending data is kept |
| CommitTheorems.MountsNew | arcfs-utils/src/host.cpp:470-502 | over a whole body, a ring of old, torn and new slots with at least one new slot mounts as the new volume: the highest valid generation is selected |
| CommitTheorems.MountsOld | arcfs-utils/src/host.cpp:470-502 | while one ring slot with the current superblock survives and none is new, the old volume is mounted |
| CommitTheorems.MountsOlder | arcfs-utils/src/host.cpp:470-502 | when no slot with the current superblock survives, mounting fails or falls back to a strictly older generation |
| Space.RoomIff | arcfs-utils/src/host.cpp:874-879 | a commit fits if and only if the old high-water mark plus eight sectors for each rewritten chunk and each tree node, plus bitmap and checkpoint, is within the volume; that sum is then the new high-water mark |
| Space.StageRoom | arcfs-utils/src/host.cpp:894-916 | after any number of files the loop has taken eight sectors for each chunk of a pending file, or failed exactly because these do not fit |
| Space.TreeRoom | arcfs-utils/src/host.cpp:918-954 | a tree over n rows takes eight sectors for each node of its levels, or fails exactly because these do not fit |
| Space.RoomBound | arcfs-utils/src/host.cpp:874-1040 | a commit ends no later than eight sectors for each row and rewritten chunk, and the bitmap for these, beyond the old high-water mark |
| Crash.CrashAtomicIff | arcfs-utils/src/host.cpp:864-1066 | every prefix of the commit's writes, the last sector possibly torn, mounts as exactly the old or exactly the new volume, if and only if a ring slot other than the first carries the current superblock |
| Crash.CrashAtFirst | arcfs-utils/src/host.cpp:1062-1066 | tearing the first ring write yields the old volume when another slot backs it, and otherwise an older generation or no volume |
| Crash.LogIsCommit | arcfs-utils/src/host.cpp:864-1066 | replaying the whole write log gives the committed disk, so the crash points are prefixes of what commit really writes |
| Witnesses.CrashUnbacks | arcfs-utils/src/host.cpp:1062-1066 | for every sound, pending volume with room and within the limits, a crash right after the first ring write mounts as the new volume with no other slot carrying its superblock: the condition of crash atomicity can fail on a received disk |
| Format.FormatSound | arcfs-utils/src/host.cpp:402-447 | a freshly formatted disk mounts as the empty tree, with the root directory alone, satisfies the invariant, has no snapshots, and carries its superblock in every ring slot |
| Format.FormatShape | arcfs-utils/src/host.cpp:106-115 | the formatted disk sector by sector: the ring, the bitmap with exactly the sectors below the high-water mark, every field of the checkpoint, the root node, the rest untouched but for a zeroed last sector; refused if and only if these do not fit |
| Format.CommitBacks | arcfs-utils/src/host.cpp:1062-1066 | a finished commit leaves its superblock in a slot other than the first, so the next commit is crash-atomic |
| Runs.StepKeeps | arcfs-utils/src/host.cpp:767-1132 | create, remove, rename, resize, write, commit, snapshot operations, rollback, remount and crash each keep the invariant and every sector of the committed part |
| Runs.RunSound | arcfs-utils/src/host.cpp:767-1132 | every run of these operations, crashes and re-mounts included, keeps the invariant |
| Histories.ReachableSound | arcfs-utils/src/host.cpp:402-447 | every state that any run reaches from a formatted disk satisfies the invariant |
| Runs.CrashedKeeps | arcfs-utils/src/host.cpp:653-688 | mounting after a crash gives a sound volume again, at any crash point of a commit within the limits, and at any point before the first ring write is complete of one beyond them, also when the volume was full |
| Runs.SnapshotImmutable | arcfs-utils/src/host.cpp:1081-1201 | over any run that leaves a snapshot on the list, the snapshot pins the same file system, object table and entry order at the end as at the start |
| Histories.SnapshotReadsAsTaken | arcfs-utils/src/host.cpp:1081-1099 | after taking a snapshot and any later run that leaves it on the list, through commits, rollbacks, other snapshots and crashes, reading any stretch of any object in the snapshot returns what reading the volume returned when it was taken, refusals included |
| Histories.SnapshotShowsAsTaken | arcfs-utils/src/host.cpp:1081-1099 | over the same runs the snapshot shows exactly the object table, entries, extents and attributes the volume had when it was taken, and pins the file system it held |
| Histories.SnapshotResolvesAsTaken | arcfs-utils/src/host.cpp:1134-1151 | over the same runs every path resolved in the snapshot leads where it led when it was taken |
| TreeRuns.TreeThroughout | arcfs-utils/src/host.cpp:767-837 | over any run whose renames stay outside the moved subtree, the namespace of the live volume, of every snapshot and of every ring generation is a tree rooted at object 1 |
| Histories.ReachableRooted | arcfs-utils/src/host.cpp:402-447 | every state that a run with such renames reaches from a formatted disk has all those namespaces rooted |
| TreeRuns.StepRooted | arcfs-utils/src/host.cpp:767-837 | each step keeps all those namespaces rooted trees |
| Snapshots.TakePins | arcfs-utils/src/host.cpp:1081-1099 | a snapshot gets an identifier above all others, the current generation and checkpoint, the time, no flags and the label, is appended to the list, and pins the file system held at that moment |
| Snapshots.LabelSurvivesIff | arcfs-utils/src/host.cpp:1081-1099 | once its commit is through, the new list is the old one and the new record with its label cut at the first NUL; the record itself is on it if and only if the label has no NUL |
| Witnesses.LabelCut | arcfs-utils/src/host.cpp:1081-1099 | on a formatted disk, taking a snapshot labelled a, NUL, b succeeds and lists it as a |
| Reader.ReadBackIff | arcfs-utils/src/host.cpp:257-272 | writing labels into their fields and reading them back changes a list of snapshots if and only if some label is longer than the field or has a NUL, and doing it twice changes nothing more |
| Snapshots.DropTakes | arcfs-utils/src/host.cpp:1101-1111 | deleting removes exactly the snapshot of that identifier, keeps the others in order, and changes nothing else |
| Snapshots.RollBackLoads | arcfs-utils/src/host.cpp:1113-1132 | the in-memory half of a rollback never fails on a listed snapshot of a clean volume and loads exactly what it pins, within the commit limits |
| Snapshots.RollBackSets | arcfs-utils/src/host.cpp:1113-1132 | a rollback replaces the four tables and nothing else; the next object identifier is the least from 2 on above the objects loaded |
| Snapshots.RollbackExact | arcfs-utils/src/host.cpp:1113-1132 | after a rollback that fits, the committed file system is the pinned one, the snapshot list is unchanged, the generation is one higher, and allocation continued from the current high-water mark; only lack of space can refuse it |
| Snapshots.SnapshotReadReturns | arcfs-utils/src/host.cpp:1174-1201 | reading a file in a snapshot never fails, and returns as many of the pinned bytes from the offset on as there are, at most the size asked for, byte by byte; any other object gives the not-a-file error |
| Snapshots.LoadedWithinLimits | arcfs-utils/src/host.cpp:538-541 | whatever the reader accepted is within the limits with its attributes attached, so it can be written again |
| Snapshots.ExtentsSound | arcfs-utils/src/host.cpp:888-916 | in every clean state each file has exactly one extent for each chunk of its size, and extents are pairwise disjoint eight-sector runs between the ring and the high-water mark |
| Snapshots.ExtentsAtMostEighth | arcfs-utils/src/host.cpp:618-633 | eight times the number of extents is at most the high-water mark, so the extent limits of the reader never refuse such a state |
| StageProofs.StageHolds | arcfs-utils/src/host.cpp:894-916 | after every file of the commit loop, exactly the files passed have moved slots and sizes, and their extents are placed, distinct and hold their bytes |
| CommitProofs.StageCount | arcfs-utils/src/host.cpp:894-916 | the file loop makes exactly as many extents as the new sizes need chunks |
| CommitProofs.ExtentsFit | arcfs-utils/src/host.cpp:625-627 | disjoint eight-sector extents below the total number at most an eighth of it |
| RowProofs.Pigeonhole | arcfs-utils/src/host.cpp:625-627 | starting sectors at least eight apart below a bound number at most an eighth of the bound |
| CommitProofs.FileSystemKept | arcfs-utils/src/host.cpp:894-916 | the view a commit builds, read from the new disk without pending data, stands for the same file system as the old view with its pending data |
| CommitProofs.ViewLoads | arcfs-utils/src/host.cpp:591-651 | loading the committed trees succeeds exactly when no attribute is dangling, and then returns the committed view |
| CommitProofs.ForestCollects | arcfs-utils/src/host.cpp:1019-1024 | all five trees of a commit collect to the sorted rows they were written from; what the order is, CommitWritesInOrder says |
| RowOrder.CommitWritesInOrder | arcfs-utils/src/host.cpp:955-1024 | on the disk a commit leaves, each of the five trees behind ring slot 0 collects to the rows of the volume, each as often as the volume has it, in ascending order: by object identifier; by parent, then name byte by byte; by slot, then chunk; by owner, then attribute identifier; by snapshot identifier |
| RowOrder.MountedInOrder | arcfs-utils/src/host.cpp:1019-1072 | after a commit the lists of the re-mounted volume are permutations of the old ones in that order |
| TreeIndex.CommitIndexes | arcfs-utils/src/host.cpp:918-954 | in every tree a commit leaves, each inner node has one key for each child, the leading field of the first row below that child |
| TreeIndex.CommitRecords | arcfs-utils/src/host.cpp:1041-1066 | after a commit all four ring slots hold one superblock with the old identifier and length and the feature flags; it leads to a checkpoint right below the new high-water mark with the next generation, the row counts, the bitmap sector and the sector of the checkpoint before it; no sector outside ring and body changed |
| RowProofs.AttributesDecode | arcfs-utils/src/host.cpp:636-648 | attribute rows decode exactly when each names an existing object, and then to the rows written |
| TreeProofs.TreeRoundTrip | arcfs-utils/src/host.cpp:545-582 | collecting a written tree returns its rows in order, for any number of rows, on any disk that keeps what was written |
| TreeProofs.AscendYields | arcfs-utils/src/host.cpp:939-952 | the level loop ends in one root below which every row is found in order |
| BitmapProofs.BitmapIsLeast | arcfs-utils/src/host.cpp:1025-1032 | the sizing loop ends at the least bitmap that covers the data, itself and the checkpoint |
| BitmapProofs.CommitBitmap | arcfs-utils/src/host.cpp:1033-1040 | after a commit the bitmap marks a sector allocated exactly when it is below the new high-water mark |
| Keys.SortKeeps | arcfs-utils/src/host.cpp:979-986 | sorting permutes the rows |
| Keys.SortSorts | arcfs-utils/src/host.cpp:979-986 | after sorting, no row has a smaller key than one before it, keys compared at their first difference and a proper prefix first |
| Keys.SortInOrder | arcfs-utils/src/host.cpp:979-986 | sorting rows that are already in order changes nothing, so repeated commits keep the row order |
| Soundness.DiskMounts | arcfs-utils/src/host.cpp:653-688 | a disk whose ring and generations are well formed mounts to a sound, clean volume |
| Decoding.FlagsIff | arcfs-utils/src/host.cpp:478-484 | feature flags are accepted if and only if bit 16 is set and bits 18 to 47 are clear |
| Decoding.CheckpointIff | arcfs-utils/src/host.cpp:504-541 | a checkpoint reads as a record if and only if its sector holds it and its counts are at most 2048, 4096, 4096 and 4096 |
| Decoding.SelectIsLatest | arcfs-utils/src/host.cpp:470-502 | the selected slot is the first of those with the highest nonzero generation among the slots whose superblock and checkpoint are accepted, and there is none exactly when selection fails |
| Decoding.CollectIff | arcfs-utils/src/host.cpp:545-582 | a tree reads as a list of rows if and only if root and count are zero together or the leaves below the root hold exactly these rows, as many as counted and within the limit, no node on the way with more than four entries or a child zero |
| Decoding.ObjectsIff | arcfs-utils/src/host.cpp:594-604 | object rows decode if and only if each has a nonzero identifier and is a file or a directory; a later row replaces an earlier one |
| Decoding.NamesIff | arcfs-utils/src/host.cpp:607-616 | name rows decode one by one if and only if each name has at most 32 bytes, no NUL and no colon, and both its objects exist; otherwise the first other row gives the error |
| Decoding.ExtentsIff | arcfs-utils/src/host.cpp:618-635 | extent rows decode if and only if each has a nonzero sector and eight sectors within the volume |
| Decoding.AttributesIff | arcfs-utils/src/host.cpp:637-648 | attribute rows decode one by one, or the first without its object gives the error |
| Decoding.SnapshotsIff | arcfs-utils/src/host.cpp:675-687 | snapshot rows decode if and only if identifier and checkpoint are nonzero, with all fields as written but the label, cut at 56 bytes or its first NUL |
| Decoding.ViewIff | arcfs-utils/src/host.cpp:591-651 | a generation loads as a view if and only if its four trees are read, their rows decode to the parts of the view, object 1 is a directory, and there are no more extents than chunks of files nor than an eighth of the sectors |
| Reader.LoadKnows | arcfs-utils/src/host.cpp:591-651 | a generation that loads from part of a disk loads the same from any disk that keeps that part |
| Reader.TooDeepIsCycle | arcfs-utils/src/host.cpp:545-569 | the depth limit of the collector is met only where some node lies below itself, so that the recursion of the source would not return |
| Reader.MountLeavesMounted | arcfs-utils/src/host.cpp:653-688 | the fields a mount leaves, described field by field up to the first error, are the mounted volume when there is none |
| Reader.FailedMountKeeps | arcfs-utils/src/host.cpp:653-688 | what a failed mount leaves: nothing changed without a superblock; only the superblock new without a checkpoint; no pending data from there on, and the old objects, entries and next identifier with an empty snapshot list if the trees do not load |
| Reader.NextAboveAll | arcfs-utils/src/host.cpp:669-673 | the next identifier is above all in use, and the least such from 2 on |
| OperationProofs.CreateAdds | arcfs-utils/src/host.cpp:767-805 | creating adds exactly one empty object and one entry under an unused identifier, the object with the fields spelled out, and keeps the invariant |
| OperationProofs.RemoveTakes | arcfs-utils/src/host.cpp:807-821 | removing takes exactly the named entry and its object, which has no entries below it |
| OperationProofs.RemoveSets | arcfs-utils/src/host.cpp:807-821 | a removal keeps the order of the other entries, drops the pending bytes of the object, and changes nothing else |
| OperationProofs.RenameMoves | arcfs-utils/src/host.cpp:823-837 | renaming replaces exactly the named entry in its place and touches no object |
| OperationProofs.ReadReturnsContents | arcfs-utils/src/host.cpp:736-765 | on a sound volume a read of a file never fails; it returns nothing past the end, otherwise the smaller of the size asked for and what is left, each byte the file's byte at the offset plus its position, pending or stored |
| OperationProofs.ReadsStored | arcfs-utils/src/host.cpp:736-765 | on any disk, sound or not, a read of a file without pending bytes that succeeds returns the bytes stored for each chunk, and zeros for a chunk without an extent |
| OperationProofs.WriteOverlays | arcfs-utils/src/host.cpp:851-862 | a write lays the data over what it starts from: the data from the offset on, the bytes it started from elsewhere, zeros in a gap; that file alone changes |
| OperationProofs.WriteSets | arcfs-utils/src/host.cpp:851-862 | the size shown after a write is the old one or the end of the write, whichever is greater; only the pending bytes of that file and, if it grew, its size and the mark for a commit change |
| OperationProofs.WriteKeepsIff | arcfs-utils/src/host.cpp:851-862 | the result is the old contents with the data laid over them if and only if the file had pending bytes, or the write reaches its end and every byte before the offset is zero |
| Witnesses.WriteLoses | arcfs-utils/src/host.cpp:851-862 | on a formatted disk of 64 sectors or more, saving a file of two bytes and writing its first byte again loses the second; resizing it to the size it has makes both zero |
| OperationProofs.ResizeFits | arcfs-utils/src/host.cpp:839-849 | a resize keeps the first bytes of what it starts from and fills up with zeros, and changes that file alone |
| OperationProofs.ResizeKeepsIff | arcfs-utils/src/host.cpp:839-849 | a resize keeps the bytes below the new size if and only if the file had pending bytes or those bytes are zero |
| OperationProofs.HoistedKeeps | arcfs-utils/src/host.cpp:839-862 | with the read before the insertion, write and resize keep the other bytes of every file |
| OperationProofs.GuardPassesIff | arcfs-utils/src/host.cpp:235-237 | a size needing more chunks than the capacity passes the size check if and only if it is one of the last 4095 of 64 bits, whose chunk count wraps to none, and the capacity is not the whole range |
| OperationProofs.EnteredKeepsIff | arcfs-utils/src/host.cpp:839-862 | the empty pending entry that an impossible size leaves keeps the invariant; it keeps the file system if and only if the file had pending bytes or none at all |
| Witnesses.WrapEmpties | arcfs-utils/src/host.cpp:839-849 | on a formatted disk of 64 sectors or more, resizing a saved file of two bytes to the largest 64-bit size passes the check, fails for lack of a buffer, and leaves the file empty |
| Durability.CommitKeepsReads | arcfs-utils/src/host.cpp:736-765 | any read returns the same bytes, or the same refusal, before a commit and after it |
| Durability.WriteReadsBack | arcfs-utils/src/host.cpp:851-862 | a write that keeps its surroundings reads back as the overlay, byte by byte, both while pending and after the commit |
| Durability.CommitSizes | arcfs-utils/src/host.cpp:894-916 | after a commit the object table is the old one with each file in its own slot, its size the length of its pending bytes if it had any |
| Durability.CommitPlaces | arcfs-utils/src/host.cpp:894-916 | after a commit each chunk of a pending file lies in eight sectors at or above the old high-water mark, byte by byte, padded with zeros behind the end; each chunk of another file stays in its sectors, which are untouched |
| Durability.CommitKeepsSizesIff | arcfs-utils/src/host.cpp:690-693 | a commit keeps every size a client was shown if and only if each file with pending bytes has as many as its size says |
| Witnesses.SizeShrinks | arcfs-utils/src/host.cpp:894-916 | on a formatted disk of 512 sectors or more, writing the first byte of a saved file of two bytes leaves its size at two with one pending byte, and the next commit makes it one |
| Refusals.CreateAnswers | arcfs-utils/src/host.cpp:767-805 | creating a file and creating a directory are refused for exactly the same requests, with the same errors, told from the abstract file system: a name that is not 1 to 32 bytes without NUL, slash and colon, a parent that is no directory, a taken name |
| Refusals.RemoveAnswers | arcfs-utils/src/host.cpp:807-821 | removal is refused exactly for a missing entry or a directory with entries; the missing-object error cannot occur |
| Refusals.RenameAnswers | arcfs-utils/src/host.cpp:823-837 | renaming is refused exactly for an invalid name, a parent that is no directory, a missing entry or a taken name, in this order |
| Refusals.WriteAnswers | arcfs-utils/src/host.cpp:839-862 | resize and write are refused only for a wrong object kind, for a chunk count above the capacity as 64-bit arithmetic computes it, or for a buffer of 2^63 bytes or more; the read inside them never fails |
| Refusals.SnapshotAnswers | arcfs-utils/src/host.cpp:1081-1132 | which requests to take, delete and roll back to a snapshot are refused, and that reading a listed snapshot never is the reason |
| Refusals.SnapshotMissing | arcfs-utils/src/host.cpp:1134-1201 | reading in a snapshot and resolving a path in one fail as unknown if and only if no snapshot on the list has that identifier |
| Namespace.PathsExactlyOne | arcfs-utils/src/host.cpp:720-734 | in a rooted tree every object has exactly one path, and path resolution finds it |
| Namespace.PathUnique | arcfs-utils/src/host.cpp:720-734 | two paths that resolve to the same object are equal |
| Namespace.SplitJoin | arcfs-utils/src/host.cpp:201-213 | splitting a path joined from non-empty parts without slashes returns the parts |
| Namespace.SplitAt | arcfs-utils/src/host.cpp:201-213 | a slash separates wherever it stands: the parts of a path are those before it, then those behind it; leading, trailing and double slashes add none; by SplitOne what is left without a slash is one part, or none |
| Namespace.PathSteps | arcfs-utils/src/host.cpp:720-734 | how any path string is followed: from object 1, for each part behind a slash to the child of the first entry of that name in the object reached, and nowhere if there is none; empty parts lead nowhere else |
| Namespace.CreateRooted | arcfs-utils/src/host.cpp:767-805 | creating keeps the namespace a rooted tree |
| Namespace.RemoveRooted | arcfs-utils/src/host.cpp:807-821 | removing keeps the namespace a rooted tree |
| Namespace.RenameRootedIff | arcfs-utils/src/host.cpp:823-837 | a rename keeps the rooted tree if and only if the new parent is neither the moved object nor below it |
| Witnesses.RenameBreaks | arcfs-utils/src/host.cpp:823-837 | on any formatted disk, making a and a/b and renaming a to a/b/a is accepted and leaves no rooted tree |
| Namespace.CycleHasNoRank | arcfs-utils/src/host.cpp:823-837 | after a rename into the moved subtree no ranking of the entries exists: the moved part is a cycle |
| Loading.SelectSuperblock | arcfs-utils/src/host.cpp:470-502 | the ring scan picks the slot the specification of selection picks |
| Loading.CollectTreeNode | arcfs-utils/src/host.cpp:545-569 | the recursive collector appends exactly the rows below its node, or fails as specified |
| Loading.CollectTree | arcfs-utils/src/host.cpp:571-582 | root and count are checked on both sides of the collection |
| Loading.LoadTreeView | arcfs-utils/src/host.cpp:591-651 | the loading loops build the specified view or raise the first specified error |
| MountedVolume.Volume.Mount | arcfs-utils/src/host.cpp:653-688 | mounting succeeds exactly when the specification does, with that state; the error is the specified one, and the fields are those set before it |
| MountedVolume.Volume.LoadSnapshots | arcfs-utils/src/host.cpp:676-687 | the row loop lists the snapshots up to the first bad row, each label cut at its first NUL, with the next identifier, and fails exactly when there is one |
| Loading.ReadFixedLabel | arcfs-utils/src/host.cpp:257-264 | the loop returns the field up to its first NUL |
| MountedVolume.Volume.ResolvePath | arcfs-utils/src/host.cpp:720-734 | the lookup loops resolve a path to the specified object |
| MountedVolume.Volume.CreateFile | arcfs-utils/src/host.cpp:767-786 | the new state is the specified one, or the error is and nothing changed |
| MountedVolume.Volume.CreateDirectory | arcfs-utils/src/host.cpp:788-805 | the new state is the specified one, or the error is and nothing changed |
| MountedVolume.Volume.RemoveChild | arcfs-utils/src/host.cpp:807-821 | the new state is the specified one, or the error is and nothing changed |
| MountedVolume.Volume.RenameChild | arcfs-utils/src/host.cpp:823-837 | the new state is the specified one, or the error is and nothing changed |
| MountedVolume.Volume.ReadFile | arcfs-utils/src/host.cpp:736-765 | the chunk loop returns the specified stretch; without an error that is the stretch of the bytes of the file, byte by byte |
| MountedVolume.ReadStored | arcfs-utils/src/host.cpp:747-764 | reading chunk by chunk equals cutting the stored bytes; a chunk without an extent reads as zeros |
| MountedVolume.Volume.ResizeFile | arcfs-utils/src/host.cpp:839-849 | the pending entry is inserted before the read, and the new state is the specified one; an impossible buffer leaves the entry behind, any other error changes nothing |
| MountedVolume.Volume.WriteFile | arcfs-utils/src/host.cpp:851-862 | the same for writing, including the growing resize |
| MountedVolume.WriteDirtyChunks | arcfs-utils/src/host.cpp:905-915 | the chunk loop writes the padded blocks and extents specified, or stops when full |
| MountedVolume.KeepCleanChunks | arcfs-utils/src/host.cpp:897-904 | the extents of a clean file are carried over under its new slot, or a missing one is reported |
| MountedVolume.WriteTreeRows | arcfs-utils/src/host.cpp:918-954 | the leaf loop and the level loop write exactly the specified tree |
| MountedVolume.CountBitmap | arcfs-utils/src/host.cpp:1025-1032 | the sizing loop terminates with the specified count |
| MountedVolume.WriteBitmapAndCheckpoint | arcfs-utils/src/host.cpp:1033-1060 | the bitmap sectors and the checkpoint are written after the trees |
| MountedVolume.WriteRingSlots | arcfs-utils/src/host.cpp:1062-1066 | the ring loop overwrites slots 0 to 3 in order |
| MountedVolume.Volume.WriteOneObject | arcfs-utils/src/host.cpp:894-916 | one file of the commit moves its slot and size and produces the specified extents and writes |
| MountedVolume.Volume.WriteBody | arcfs-utils/src/host.cpp:864-1060 | the body of a commit equals its specification in disk, write log, object table and error |
| MountedVolume.Volume.Commit | arcfs-utils/src/host.cpp:864-1072 | the disk, the appended write log, the error and the fields are the specified ones for every ending, also when the published volume does not mount |
| MountedVolume.Volume.CreateSnapshot | arcfs-utils/src/host.cpp:1081-1099 | snapshot creation is its in-memory half followed by a commit, with the disk, error and fields of every ending, the label cut by the re-mount included |
| MountedVolume.Volume.DeleteSnapshot | arcfs-utils/src/host.cpp:1101-1111 | deletion likewise; an unknown identifier changes nothing |
| MountedVolume.Volume.RollbackToSnapshot | arcfs-utils/src/host.cpp:1113-1132 | rollback likewise; a refused rollback changes nothing |
| MountedVolume.Volume.ReadFileInSnapshot | arcfs-utils/src/host.cpp:1174-1201 | the snapshot reader returns the specified stretch or error; what the stretch is, SnapshotReadReturns says |
| MountedVolume.Volume.ResolvePathInSnapshot | arcfs-utils/src/host.cpp:1134-1151 | the lookup loops over the entries the snapshot pins resolve a path to the specified object |
| MountedVolume.FormatSource | arcfs-utils/src/host.cpp:402-447 | formatting writes the specified disk or refuses a source that is too small |
| Shuffle.ShuffleBijective | fission/native_runtime/host_bridge.c:971-987 | a sequence is a permutation of distinct elements if and only if some in-range draw sequence shuffles to it, and that draw sequence is the only one |
| Shuffle.ShufflePermutes | fission/native_runtime/host_bridge.c:971-987 | shuffling always permutes |
| Shuffle.ShuffleSelects | fission/native_runtime/host_bridge.c:971-987 | which permutation the draws make: the first draw names the element that comes last, the last element takes its place, and the other draws shuffle what remains |
| Shuffle.SamplePermutes | fission/native_runtime/host_bridge.c:993-1013 | the working array of a sample is a permutation of the source |
| Shuffle.SampleStays | fission/native_runtime/host_bridge.c:993-1013 | an element once drawn is never displaced by later draws |
| Shuffle.SampleSelects | fission/native_runtime/host_bridge.c:993-1013 | which sample the draws make: the first draw names the element that comes first, the first element takes its place, and the other draws sample what remains |
| Shuffle.SampleInjective | fission/native_runtime/host_bridge.c:993-1013 | different in-range draws give different samples of distinct elements |
| Shuffle.SampleBijective | fission/native_runtime/host_bridge.c:993-1013 | for distinct elements, a sequence is the front of a permutation if and only if some in-range draws of its length sample it, and those draws are the only ones |
| Shuffle.ShuffleArray | fission/native_runtime/host_bridge.c:971-987 | the swap loop on the fresh copy computes the specified shuffle and leaves the source alone |
| Shuffle.SampleArray | fission/native_runtime/host_bridge.c:993-1013 | the partial loop returns the drawn prefix of the specified working array |
| Pcg.RejectionUnbiased | src/runtime/random.cpp:44-51 | for every width from 1 to 2^32-1 each residue has the same number of accepted 32-bit words |
| Pcg.AcceptedWhole | src/runtime/random.cpp:44-45 | the accepted words are a whole number of widths |
| Pcg.StretchCount | src/runtime/random.cpp:44-51 | any run of `count` widths holds each residue exactly `count` times |
| Pcg.FullPeriod | src/runtime/random.cpp:29-35 | the generator has full period: for every odd increment, some number of steps leads from any 64-bit state to any other |
| Pcg.AcceptsEventually | src/runtime/random.cpp:46-51 | so the rejection loop ends: from every state, for every width, some later word is accepted |
| Pcg.FirstAccepted | src/runtime/random.cpp:46-51 | the number of rejected words before the first accepted one: that word is accepted and none before it is |
| Pcg.Generator.Reseed | src/runtime/random.cpp:21-27 | the state after seeding, step by step |
| Pcg.Generator.NextWord | src/runtime/random.cpp:29-35 | one step yields the permuted word of the state before it and the next state |
| Pcg.KnownAnswers | tests/unit/random_tests.cpp:43-52 | from seed 42 and stream 54 the first six words are those of the published PCG32 vector |
| Pcg.OutputParts | src/runtime/random.cpp:29-35 | the word made from any state, by its bits: bits 27 to 58 with those from 45 on laid over them, rotated right by the highest five bits |
| Pcg.SamplingDraws | src/runtime/random.cpp:37-52 | the value a bounded draw returns, from the words of the stream: all words before the one it uses lie below 2^32 mod the bound |
| Pcg.Generator.Bounded | src/runtime/random.cpp:37-52 | the loop, with no limit on its length, ends; the result is the remainder of the first word not below 2^32 mod the bound, is below the bound, and exactly the words up to it are consumed; bounds outside 1 to 2^32 are refused |
| Pcg.Generator.NativeBounded | fission/native_runtime/host_bridge.c:900-908 | the port returns the remainder of the first accepted word for the lower 32 bits of the bound, and consumes exactly the words up to it; where these bits are zero it divides by zero |
| Pcg.NativeAgreesIff | fission/native_runtime/host_bridge.c:900-908 | for every bound, result and state agree with the C++ generator if and only if the bound is from 1 to 2^32 |
| Pcg.NativeDiffers | fission/native_runtime/host_bridge.c:900-908 | at 2^32 + 1 the C++ generator refuses and the port returns 0 |
| Strings.ReplaceIsJoinSplit | fission/native_runtime/host_bridge.c:406-448 | for every non-empty pattern, replacing equals splitting at it and joining with the new text; an empty pattern replaces nothing |
| Strings.JoinSplitRoundTrip | fission/native_runtime/host_bridge.c:1689-1744 | joining the pieces with the delimiter returns the text |
| Strings.JoinFirst | fission/native_runtime/host_bridge.c:1657-1684 | joining is the first piece, then, if there are more, the separator and the join of the rest |
| Strings.PiecesClean | fission/native_runtime/host_bridge.c:1718-1744 | no piece contains the delimiter, and each piece ends at the first delimiter there is, compared byte by byte |
| Strings.MeasureReplaced | fission/native_runtime/host_bridge.c:417-428 | the first pass measures exactly the length of the result |
| Strings.FillReplaced | fission/native_runtime/host_bridge.c:429-447 | the second pass writes exactly the measured bytes and the terminator |
| Strings.ReplaceText | fission/native_runtime/host_bridge.c:406-448 | the returned buffer holds the replaced text; an empty pattern copies the text |
| Strings.SplitText | fission/native_runtime/host_bridge.c:1718-1744 | the count of the first pass is what the second pass fills, with the pieces of the split |
| Strings.JoinText | fission/native_runtime/host_bridge.c:1657-1684 | the length of the first pass is what the second pass fills, with the joined text and its terminator |
| IndexSort.StableOrderUnique | fission/native_runtime/host_bridge.c:2177-2197 | the stable order of given keys and direction is unique, so the sort's contract fixes its result |
| IndexSort.SortIndices | fission/native_runtime/host_bridge.c:2177-2221 | the insertion sort returns the stable order: every index once, each before all that follow it by key and, for equal keys, by position |
| IndexSort.SortIndicesNumber | fission/native_runtime/host_bridge.c:2177-2197 | the variant for numbers returns every index once, by key ascending or descending, equal keys by position |
| IndexSort.SortIndicesString | fission/native_runtime/host_bridge.c:2201-2221 | the variant for strings returns every index once, by key in byte order ascending or descending, equal keys by position; the order is spelled out by the first byte that differs |
| IndexSort.InsertIndex | fission/native_runtime/host_bridge.c:2183-2194 | the inner loop moves exactly the strictly worse indices up and inserts after the rest |
| IndexSort.ReorderSorts | fission/native_runtime/host_bridge.c:2228-2237 | reordering by the stable order keeps the multiset of elements, sorts their keys and leaves ties in place |
| IndexSort.Reorder | fission/native_runtime/host_bridge.c:2228-2237 | the copy loop produces the specified reordering |
| IndexSort.ArgBest | fission/native_runtime/host_bridge.c:2250-2275 | the scan returns the first of the best keys, 0 for none |
| IndexSort.ArgBestNumber | fission/native_runtime/host_bridge.c:2250-2261 | the variant for numbers returns the first position of the least or greatest key, 0 for none |
| IndexSort.ArgBestString | fission/native_runtime/host_bridge.c:2262-2275 | the variant for strings returns the first position of the least or greatest key in byte order, 0 for none |
| IndexSort.BestIsFirst | fission/native_runtime/host_bridge.c:2250-2275 | an index is that answer if and only if it is the first index of the stable order of the same direction |
| IndexSort.TextOrder | fission/native_runtime/host_bridge.c:138-145 | the byte order of strings is a strict weak order, as the sort needs |
| IndexSort.TextLessIff | fission/native_runtime/host_bridge.c:138-145 | one string is before another if and only if they agree up to some position where it ends first or has the smaller byte |
| IndexSort.StringsLessThan | fission/native_runtime/host_bridge.c:138-145 | the comparison loop over terminated strings decides byte order: at the first byte that differs, a proper prefix first |
| Slices.ContainsIff | include/arco/value.hpp:66-79 | a range contains a value if and only if some position holds it |
| Slices.LengthCounts | include/arco/value.hpp:86-99 | a position is below the range length exactly when its value lies before the end |
| Slices.AtIff | include/arco/value.hpp:76-79 | position k of a range has a value if and only if start plus k steps lies before the end, and then it is that value |
| Slices.SliceVisits | include/arco/value.hpp:354-378 | for any length, bounds and nonzero step, every visited index is in range, and they are the values of the range of the normalised bounds, as many as its length |
| Slices.SliceElements | include/arco/value.hpp:354-427 | the elements of any slice, bounds counted from the end where negative and cut to the sequence where too far: for a positive step those at the first position, one step on and so on below the end; for a negative step downwards likewise; errors for a zero step and an oversized collection |
| Slices.SliceParts | include/arco/value.hpp:354-427 | for step 1: s[:k] is the first k elements, all but the last -k for negative k, nothing below that and everything above; s[k:] is the rest, s[a:b] what lies between |
| Slices.SliceBounds | include/arco/value.hpp:354-378 | the first position and the end that explicit, negative and missing bounds give, for either direction |
| Slices.SliceValue | include/arco/value.hpp:392-427 | the slicing loop returns the elements at those positions, or the specified error |
| Slices.SliceSplits | include/arco/value.hpp:392-427 | the slices before and from any bound, negative and out-of-range ones included, concatenate to the value |
| Slices.ReverseTwice | include/arco/value.hpp:392-427 | the unbounded slice of step -1 is its own inverse |
| Slices.SharedArray.ReplaceSlice | include/arco/value.hpp:437-449 | erase and insert leave the specified array, and an error leaves it alone |
| Slices.ReplacedParts | include/arco/value.hpp:437-449 | what a replacement leaves: the elements before the slice, the new ones, the elements behind it |
| Slices.ReplaceThenSlice | include/arco/value.hpp:437-449 | what was written is what the slice then reads, and the parts before and after keep their elements |
| Slices.ReplaceOwnSlice | include/arco/value.hpp:437-449 | replacing a slice by itself changes nothing, crossed bounds included |
| Utf.Utf16RoundTrip | arcology-os/include/arco/utf16.hpp:15-74 | NUL-free text in shortest form encodes, its only zero unit is the terminator, and UTF-16 decoding returns the text |
| Utf.DecodeIff | arcology-os/include/arco/utf16.hpp:60-70 | units decode to scalar values if and only if they are the units of those values |
| Utf.AcceptedShortestIff | arcology-os/include/arco/utf16.hpp:15-74 | a byte string is shortest-form NUL-free UTF-8 if and only if the encoder accepts it and it meets no overlong form |
| Utf.ZeroUnitIff | arcology-os/include/arco/utf16.hpp:15-74 | for any accepted input, a zero unit stands before the terminator if and only if some code point starts with an overlong form of zero in two, three or four bytes |
| Utf.OverlongZero | arcology-os/include/arco/utf16.hpp:22-52 | such an input: the two-byte form of zero is accepted and yields a second zero unit |
| Utf.ReadPoint | arcology-os/include/arco/utf16.hpp:22-59 | the lead byte, its continuation loop and the range checks decode one code point or the first fault |
| Utf.DecodeOneIs | arcology-os/include/arco/utf16.hpp:22-59 | for any bytes: the code point of a form of up to four bytes, overlong or not, or the first fault, in the order lead byte, length, continuation bytes, surrogates, range |
| Utf.EncodeUtf16 | arcology-os/include/arco/utf16.hpp:15-74 | the loop returns the units of all code points and the terminator, or the first fault |
| Utf.Utf16ToUtf8 | src/native/runtime_abi.cpp:80-100 | the cursor loop returns the bytes of the units before the first zero; a null pointer is empty |
| Utf.UnitReads | src/native/runtime_abi.cpp:80-100 | each unit up to the first zero, surrogates included, becomes the shortest form that holds it |
| Utf.BytesBackIff | src/native/runtime_abi.cpp:80-100 | going to UTF-16 and back returns the original bytes if and only if no scalar value lies above the basic plane |
| Utf.SupplementaryLost | src/native/runtime_abi.cpp:80-100 | the first scalar value above the basic plane does not come back |
| Utf.CutKeepsBytes | include/arco/value.hpp:380-390 | cutting any bytes into code points and concatenating them gives the bytes back |
| Utf.CutFirst | include/arco/value.hpp:380-390 | how many bytes the first of any bytes cuts off: one below 0x80, two from 0xC0, three from 0xE0, four otherwise, or what is left |
| Utf.CutAtScalars | include/arco/value.hpp:380-390 | on well-formed text each part is the form of one scalar value |
| Utf.Utf8CodePoints | include/arco/value.hpp:380-390 | the cutting loop returns those parts |
| Jit.RunLinked | include/arco/jit_x86_64.hpp:60-73 | over any interleaving of emits, jumps and first-time binds below 2^31 bytes, every jump to a bound label holds target minus end of instruction, every jump to an unbound label is pending exactly once in order with a zero field, and every other byte is as emitted |
| Jit.RebindIff | include/arco/jit_x86_64.hpp:66-73 | binding a bound label again keeps this if and only if it has no jumps yet or stays where it was |
| Jit.RebindBreaks | include/arco/jit_x86_64.hpp:66-73 | after a jump, a bind, one byte and a second bind, the jump still leads to the first place |
| Jit.PatchReads | include/arco/jit_x86_64.hpp:182-190 | a patched field reads back as the signed displacement and no other byte changes |
| Jit.PatchHolds | include/arco/jit_x86_64.hpp:182-190 | the four bytes of a patched field, one by one |
| Jit.JitAssembler.EmitJump | include/arco/jit_x86_64.hpp:170-180 | what was emitted stays; then the prefix byte if there is one, the opcode, and the four bytes of the field: the displacement of a bound label, or zeros with the field pending |
| Jit.JitAssembler.Jmp | include/arco/jit_x86_64.hpp:99 | the byte 0xE9 and the field |
| Jit.JitAssembler.Jcc | include/arco/jit_x86_64.hpp:100-102 | the bytes 0x0F and 0x80 plus the condition, and the field |
| Jit.JitAssembler.Bind | include/arco/jit_x86_64.hpp:66-73 | the patch loop resolves every pending field and clears the list |
| Jit.JitAssembler.PatchRel32 | include/arco/jit_x86_64.hpp:182-190 | the four byte stores write target minus end of field modulo 2^32, lowest byte first, and change no other byte |

## Left out

- Byte encodings: records are structured sectors, so row layouts, the field widths other than that of labels, and CRC32C arithmetic are not modelled; a torn or foreign sector is assumed to fail its checksum, and a record written by this code is assumed not to pass as the old 104-byte checkpoint.
- The 104- and 112-byte checkpoint forms of older volumes: only the current record length is read.
- 64-bit wrap-around in the file system: object and snapshot identifiers, the sizes of files on a disk being loaded, and the extent overflow check are unbounded here; the size checks of `write_file` and `resize_file` are modelled as they wrap.
- Write order: writes are assumed to reach the disk in the order issued, with at most the last sector torn; `flush` and the `sync` flag are not modelled.
- Loading.CollectTreeNode: the source recurses without limit; the model reports `TooDeep` after as many levels as the disk has sectors, which by `TooDeepIsCycle` only a cyclic tree reaches.
- Ties in `std::sort`: rows with equal keys keep their order in the model; only attributes of the same object and identifier, and foreign volumes, can have any.
- The block source is at least as long as the volume it carries (`Bounded`); the theorems show that every sound volume satisfies it.
- Runs.CrashedKeeps: in a commit beyond the reader's limits, crashes after a completed ring write are not placed, because what they leave may not mount (`CommitMountsIff`); a run ends where a volume no longer mounts.
- Clock, volume-identifier source, GPT lookup, byte offset, POSIX file access: parameters or absent.
- Colon paths, `children`, `object` and its snapshot variants: one-loop accessors.
- Shuffling takes its draws as a sequence, one for each call of the bounded generator.
- Machine overflow in ranges and slices: the increment after the last visited index and `distance + stride - 1` are unbounded integers here.
- Sliced values: arrays, tuples, code points and bits share one loop; the element kinds, shared handles and the integrality check of the operands are not modelled.
- String buffers are fresh arrays of bytes with a terminator; allocation failure and NUL inside an argument are not modelled.
- Other x86 encodings of the assembler: any bytes emitted between jumps.
- Parser, evaluator, compiler, GUI, FUSE front end and the remaining C ABI are outside this project.
