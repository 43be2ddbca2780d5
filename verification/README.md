# Verified models of the ors kernel

This project models the hard parts of the ors kernel in Dafny and proves what the kernel promises about
them. Each file follows one part of the kernel.

- `Volume.dfy`: the sector cache of the block volume, with eviction, write-back, dropped references and
  failing transfers; `CacheOrder.dfy`: its reference counts and the order of eviction; `OldBytes.dfy`: runs
  in which it shows old bytes.
- `BootSector.dfy`, `FatEntry.dfy`, `LowLevel.dfy`: the geometry of a FAT volume, and clusters and table
  entries over cached sectors.
- `Fat.dfy`, `FatTable.dfy`: cluster chains, their owners, and the table operations.
- `FileContents.dfy`, `File.dfy`: files, readers and writers.
- `DirEntry.dfy`, `LongName.dfy`, `NameFormat.dfy`: the 32-byte directory entries and long file names.
- `Listing.dfy`, `ListingExact.dfy`, `Insertion.dfy`, `DirectorySlots.dfy`, `Directory.dfy`, `Removal.dfy`: directories over
  cluster chains, listing, creation, removal and renaming.
- `FullVolume.dfy`: files on volumes with few clusters that lose content.
- `VirtQueue.dfy`, `BlockRequest.dfy`: virtqueues with their device, and block requests;
  `EarlyReturn.dfy`: a run in which requests return early.
- `Task.dfy`, `Mutex.dfy`, `SyncQueue.dfy`, `Cli.dfy`: the scheduler, the mutex, the blocking queue and
  the interrupt-flag guards.
- `PhysMemory.dfy`, `Allocator.dfy`: the frame bitmap and the kernel allocator.
- `OpenAddressing.dfy`: the fixed-size map.
- `Bytes.dfy`, `Remainder.dfy`: bytes and remainders.

Code that changes state in place is a class or a method with loops, proved against functions on values;
protocols between tasks, interrupt handlers, devices and processors are machines whose steps are the
atomic actions, with theorems over every run. Integers are unbounded; widths are written out where they
matter (16-bit ring indices, 32-bit sizes and cluster numbers, 64-bit words of the frame bitmap). Time,
the outcome of a transfer, the order of the device and the choice of the next step are parameters.

Where the code does not do what one would expect, the model follows the code and the exact condition is
proved:

- A writer that ends before the end of its chain leaves the last kept cluster marked unused
  (`Chains.CutKeepsOwned`). Another file can take it (`Chains.CutClusterTaken`) and loses clusters when the
  first one is released (`Chains.SharedReleased`). If it is the lowest unused one, whatever the file cannot
  hold goes round in it (`Files.HeldExact`, with an input in `FullVolumes.AppendOverwrites`).
- A lookup that renames a dirty buffer and cannot write it back loses the changes, and one that renames a
  buffer to a sector it held before shows the bytes of the buffer, although the disk may have changed since
  or a failed read may have written to the buffer (`Volume.LookedKeepsView`, with runs in
  `OldBytes.OldByteRead` and `OldBytes.TornByteRead`).
- A write that does not fit into the clusters of the file and the free ones empties the file when the
  writer is dropped (`Files.Rewrite`, with an input in `FullVolumes.OverwriteEmpties`).
- An insertion that runs out of clusters leaves the directory without a terminal
  (`Insertions.FailedInsert`), so that the next one can overwrite entries in use
  (`Insertions.JammedInsert`). A new directory then leaks its cluster (`Directories.CreateDir`).
- Renaming erases the old entries first, and loses the file when there is no place for the new ones
  (`Removals.Rename`, with an input in `FullVolumes.RenameLoses`).
- Listing a directory with an orphaned long entry never ends, or panics (`Listings.LoopOutcome`).
- Inserting into a full directory without a terminal overwrites entries in use
  (`Insertions.InsertsIntoFree`).
- A name that fills its last long entry and ends in 0x0000 or 0xffff comes back shorter
  (`LongNames.LongNameRoundTrip`).
- Ring slots collide across the wrap of the index unless the queue size divides 65536
  (`VirtQueues.SlotsDistinctIff`).
- A block request whose task finds no other task to switch to returns before it is complete, and a later
  request of the task can then be woken by its completion (`BlockRequests.EarlyReturnExact`, with a run in
  `EarlyReturns.RequestsReturnEarly`).
- Alignments above the frame size are honoured only if the first fitting frame happens to be aligned
  (`Allocators.KernelAllocator.Alloc`, with an input in `Allocators.MisalignedFrames`).

## Model

| member | source | states |
|---|---|---|
| `Volume.InitializeKeeps` | ors-kernel/src/fs/volume.rs:212-227 | After a buffer was written back and its sector read, the cache is coherent if and only if a renamed buffer did not come with old bytes of the sector, and then every sector shows the same bytes (resident buffer if it holds the sector, else disk). |
| `Volume.FailedKeeps` | ors-kernel/src/fs/volume.rs:175-227 | After a failed transfer the cache is coherent if and only if it was not the write-back of a renamed buffer that failed; then the view is unchanged, although the buffer still names another sector over whatever bytes the failed read has left. |
| `Volume.BorrowedKeeps` | ors-kernel/src/fs/volume.rs:108-114 | Looking up a lent sector, successful or not, keeps the cache sound and the view unchanged. |
| `Volume.TakenKeeps` | ors-kernel/src/fs/volume.rs:116-135 | Lending a cached or recycled buffer keeps at most one buffer per sector, the lent/cached reference counts and the view, unless the buffer is renamed to a sector of which it has old bytes. |
| `Volume.LoadedKeeps` | ors-kernel/src/fs/volume.rs:127-135 | The same for a newly created buffer, including when its first read fails. |
| `Volume.LookedKeepsView` | ors-kernel/src/fs/volume.rs:103-136 | Sector lookup, successful or not, leaves the cache sound if and only if it neither renames a dirty buffer whose write-back fails nor renames a buffer to a sector it held before, of which the disk has other bytes by now; then every sector shows what it showed before. |
| `Volume.LookedShowsWrong` | ors-kernel/src/fs/volume.rs:103-136 | In these two cases wrong bytes are shown: the sector of the dirty buffer shows the disk without the changes, or the lookup succeeds with the old bytes. |
| `Volume.LookedSettled` | ors-kernel/src/fs/volume.rs:103-136 | As long as every buffer holds its own sector, no old bytes are taken; a lookup keeps that if and only if it succeeds or does not rename a loaded buffer. |
| `Volume.LookedExact` | ors-kernel/src/fs/volume.rs:103-136 | In a sound cache a lookup succeeds if and only if the write-back of the buffer it uses works, in case that is dirty, and the read of the sector, in case the buffer does not hold it and the sector is on the volume. |
| `Volume.LookedLends` | ors-kernel/src/fs/volume.rs:103-136 | After a successful lookup the sector is lent. |
| `Volume.DroppedKeeps` | ors-kernel/src/fs/volume.rs:265-284 | Dropping a reference, also the last one that moves the buffer to the cache, keeps soundness and view. |
| `Volume.StoredChangesView` | ors-kernel/src/fs/volume.rs:187-203 | A write through a lent buffer changes what its own sector shows, to exactly the spliced bytes, and nothing else. |
| `Volume.CleanView` | ors-kernel/src/fs/volume.rs:138-148 | Without dirty buffers the disk equals the view. |
| `Volume.FlushedNext` | ors-kernel/src/fs/volume.rs:138-148 | One round of commit leaves the buffer clean, unlent and at the front of the cache, other buffers in order. |
| `Volume.FlushedClean` | ors-kernel/src/fs/volume.rs:138-148 | When all cached buffers have been flushed and none is lent, the disk equals the view. |
| `Volume.BufferedVolume.constructor` | ors-kernel/src/fs/volume.rs:83-91 | A new cache shows the disk. |
| `Volume.BufferedVolume.Drop` | ors-kernel/src/fs/volume.rs:265-284 | Drop of a reference as swap-remove from the lent list and push to the front of the cache at count zero. |
| `Volume.BufferedVolume.Lend` | ors-kernel/src/fs/volume.rs:128-135 | Lends and initializes a buffer; a failure hands it to the cache by the drop of the reference. |
| `Volume.BufferedVolume.Look` | ors-kernel/src/fs/volume.rs:103-136 | The lookup loop over lent and cached buffers equals its specification; buffers never exceed 7 plus the peak number lent. |
| `Volume.BufferedVolume.Sector` | ors-kernel/src/fs/volume.rs:103-136 | Lookup with its error: exact success condition, exact condition before the call under which the cache stays sound, unchanged view, bounded buffers. |
| `Volume.BufferedVolume.Store` | ors-kernel/src/fs/volume.rs:187-203 | Writing through a reference is the specified change of one lent buffer. |
| `Volume.BufferedVolume.Release` | ors-kernel/src/fs/volume.rs:265-284 | Releasing a reference changes neither soundness nor view. |
| `Volume.BufferedVolume.CommitBuffer` | ors-kernel/src/fs/volume.rs:221-227 | A clean buffer is left alone, a dirty one goes to the sector it was loaded from. |
| `Volume.BufferedVolume.Flush` | ors-kernel/src/fs/volume.rs:144-146 | One cached buffer is looked up, written back and released, if and only if the transfers this needs work; the view stays. |
| `Volume.BufferedVolume.Commit` | ors-kernel/src/fs/volume.rs:138-148 | Commit keeps the view in all cases; it succeeds if and only if the transfers of each cached buffer work, and then with nothing lent the disk equals the view. |
| `OldBytes.VisitSound` | ors-kernel/src/fs/volume.rs:103-136 | Looking up a sector and dropping the reference keeps soundness and view under the conditions of the lookup. |
| `OldBytes.OldByteRead` | ors-kernel/src/fs/volume.rs:103-136 | A run from an empty cache with one unreadable sector and no failed write in which a lookup of a sector returns the byte it had before it was changed and written back. |
| `OldBytes.TornByteRead` | ors-kernel/src/fs/volume.rs:210-227 | A run without any write in which one failed read leaves its bytes in the buffer of another sector, and a lookup of that sector returns them. |
| `CacheOrder.LookedCounts` | ors-kernel/src/fs/volume.rs:103-136 | A lookup makes one reference to its sector exactly when it succeeds, and to no other sector. |
| `CacheOrder.DroppedCounts` | ors-kernel/src/fs/volume.rs:265-284 | A drop takes one reference off its sector and off no other; the buffer leaves the lent list with the last one. |
| `CacheOrder.RunCounts` | ors-kernel/src/fs/volume.rs:103-284 | In every run in which the cache stays sound the references to a sector that are out are its successful lookups less its drops. |
| `CacheOrder.LeastRecentlyUsed` | ors-kernel/src/fs/volume.rs:119-135 | In every run in which the cache stays sound the buffer that a lookup recycles is that of the least recently released sector: every other cached sector was released after it. |
| `BootSectors.BootSector.FatSlotInFirstFat` | ors-kernel/src/fs/fat/boot_sector.rs:112-177 | Under a consistent parameter block each 4-byte FAT slot lies within one sector of the first FAT. |
| `BootSectors.BootSector.FatSlotsDisjoint` | ors-kernel/src/fs/fat/boot_sector.rs:168-177 | FAT slots of different clusters share no byte. |
| `BootSectors.BootSector.ClusterInDataArea` | ors-kernel/src/fs/fat/boot_sector.rs:156-183 | The sectors of every available cluster lie in the data area of the volume. |
| `BootSectors.BootSector.ClustersDisjoint` | ors-kernel/src/fs/fat/boot_sector.rs:179-183 | Different clusters share no sector. |
| `BootSectors.BootSector.FatSlotPlace` | ors-kernel/src/fs/fat/boot_sector.rs:168-177 | The slot of cluster n is at byte 4 * n of the first FAT. |
| `BootSectors.BootSector.ClusterPlace` | ors-kernel/src/fs/fat/boot_sector.rs:112-183 | Cluster 2 begins behind the reserved sectors and all FATs, each next one a cluster further, whose bytes fill it, and a cluster is available if and only if its last sector is on the volume. |
| `FatEntries.DecodeMeans` | ors-kernel/src/fs/fat/fat_entry.rs:41-53 | Four bytes, lowest first, without the upper four bits: 0 is unused, 1 reserved, 2 to 0x0ffffff6 a link to that cluster, 0x0ffffff7 bad and everything above an end of chain, each exactly. |
| `FatEntries.EncodeMeans` | ors-kernel/src/fs/fat/fat_entry.rs:55-64 | The four bytes written for an entry stand for it, with the upper four bits clear; an unused entry is four zero bytes. |
| `FatEntries.EncodeRoundTrip` | ors-kernel/src/fs/fat/fat_entry.rs:41-64 | A FAT entry survives its 32-bit form if and only if its cluster number is in the range that means a chained cluster. |
| `LowLevel.FatAfterFatWrite` | ors-kernel/src/fs/fat/low_level.rs:143-155 | Writing a FAT slot sets that entry and no other. |
| `LowLevel.DataAfterDataWrite` | ors-kernel/src/fs/fat/low_level.rs:234-242 | A write into one sector of a cluster is a splice of the flat bytes of that cluster and leaves every other cluster alone. |
| `LowLevel.FsAfterFatWrite` | ors-kernel/src/fs/fat/low_level.rs:148-155 | At the level of table and cluster bytes a FAT write is one update of the table. |
| `LowLevel.FsAfterDataWrite` | ors-kernel/src/fs/fat/low_level.rs:234-242 | A sector write in the data area is one splice of one cluster; the table is unchanged. |
| `LowLevel.SectorRangeTiles` | ors-kernel/src/fs/fat/low_level.rs:199-215 | sector_range tiles [start, end) exactly, in order and without gap or overlap. |
| `LowLevel.TilesInside` | ors-kernel/src/fs/fat/low_level.rs:199-215 | Every piece of a tiling lies inside the cluster. |
| `LowLevel.PieceBytes` | ors-kernel/src/fs/fat/low_level.rs:190-232 | The bytes of a piece, read from its sector, are the corresponding slice of the flat cluster. |
| `LowLevel.SlotMeans` | ors-kernel/src/fs/fat/low_level.rs:143-146 | The table holds an entry for a cluster if and only if the four bytes of its slot on the volume stand for that entry. |
| `LowLevel.Root.Commit` | ors-kernel/src/fs/fat/low_level.rs:55-57 | Commit keeps the file system, succeeds when the transfers do, and on success puts it on the disk. |
| `LowLevel.Root.ReadFat` | ors-kernel/src/fs/fat/low_level.rs:143-146 | Returns the entry that the four bytes of the slot stand for, and changes nothing. |
| `LowLevel.Root.WriteFat` | ors-kernel/src/fs/fat/low_level.rs:148-155 | Updates exactly one table entry; the four bytes of the slot stand for it, and are zero for an unused one. |
| `LowLevel.Root.ReadCluster` | ors-kernel/src/fs/fat/low_level.rs:225-232 | Reading goes piece by piece over sectors and returns the slice of one flat array. |
| `LowLevel.Root.WriteCluster` | ors-kernel/src/fs/fat/low_level.rs:234-242 | Writing goes piece by piece over sectors and is one splice of one flat array. |
| `Chains.ChainsAreAcyclic` | ors-kernel/src/fs/fat/low_level.rs:119-141 | A chain that ends in an end-of-chain mark visits no cluster twice. |
| `Chains.FirstUnused` | ors-kernel/src/fs/fat/low_level.rs:119-128 | The cluster that allocate takes is the lowest unused one. |
| `Chains.AllocateCounts` | ors-kernel/src/fs/fat/low_level.rs:119-128 | Allocation fails if and only if the number of free clusters is zero, and otherwise makes it one less. |
| `Chains.Released` | ors-kernel/src/fs/fat/low_level.rs:130-141 | Release terminates on every table with links in range, cyclic ones included, with the number of used entries as measure. |
| `Chains.ReleaseFreesReachable` | ors-kernel/src/fs/fat/low_level.rs:130-141 | Release frees exactly the used clusters that the links reach, on any such table. |
| `Chains.ReleaseFreesChain` | ors-kernel/src/fs/fat/low_level.rs:130-141 | On a chain, release frees exactly the chain and touches nothing else. |
| `Chains.PrepareExtends` | ors-kernel/src/fs/fat/low_level.rs:277-286 | At the end of a chain prepare appends the lowest unused cluster and keeps the chain; it fails if and only if there is none. |
| `Chains.PrepareCounts` | ors-kernel/src/fs/fat/low_level.rs:277-286 | The same at the end of a chain. |
| `Chains.PrepareSelfLoop` | ors-kernel/src/fs/fat/low_level.rs:277-286 | From a cluster that is itself marked unused, prepare links the cluster to itself if and only if it is the lowest unused one. |
| `Chains.PrepareClosed` | ors-kernel/src/fs/fat/low_level.rs:277-286 | At the end of a chain, or of what a cut has left of one, prepare appends the lowest unused cluster, which makes it a chain again, unless the last cluster is itself the lowest unused one and becomes its own successor; it fails if and only if it does not do that and nothing is free beside it. |
| `Chains.CutFreesRest` | ors-kernel/src/fs/fat/low_level.rs:288-294 | Releasing behind a cluster frees the cluster itself and everything behind it if there is anything behind it, and nothing otherwise. |
| `Chains.CreateKeepsOwned` | ors-kernel/src/fs/fat.rs:320-330 | Giving a file its first cluster keeps chains terminated, pairwise disjoint and covering all used clusters. |
| `Chains.AppendKeepsOwned` | ors-kernel/src/fs/fat/low_level.rs:277-286 | Extending a chain keeps the same. |
| `Chains.RemoveKeepsOwned` | ors-kernel/src/fs/fat.rs:332-339 | Releasing a file keeps the same for all others. |
| `Chains.RunsKeepOwned` | ors-kernel/src/fs/fat.rs:320-339 | Over every run of allocations, extensions and releases all file chains stay acyclic, terminated, pairwise disjoint, and own every used cluster. |
| `Chains.CutKeepsOwned` | ors-kernel/src/fs/fat.rs:541-549 | Cutting a chain behind a writer keeps the ownership invariant if and only if nothing was behind it; otherwise the last kept cluster is marked unused. |
| `Chains.CutClusterTaken` | ors-kernel/src/fs/fat/low_level.rs:119-128 | The next allocation takes the last cluster of a file that was cut if and only if no lower one is unused. |
| `Chains.CutClusterCreated` | ors-kernel/src/fs/fat.rs:320-330 | A new file that takes it shares it with the file that was cut. |
| `Chains.CutClusterAppended` | ors-kernel/src/fs/fat/low_level.rs:277-286 | So does another file that takes it behind the clusters it had. |
| `Chains.SharedReleased` | ors-kernel/src/fs/fat/low_level.rs:130-141 | Releasing the file that was cut then frees exactly its clusters and those of the other file from the shared one on, whose chain is broken. |
| `FatTable.Allocate` | ors-kernel/src/fs/fat/low_level.rs:119-128 | The scan over the table allocates the lowest cluster whose slot on the volume is zero in its low 28 bits, or reports Full if and only if there is none, and changes nothing then. |
| `FatTable.Release` | ors-kernel/src/fs/fat/low_level.rs:130-141 | The release loop equals its specification, with termination on cyclic tables; afterwards exactly the slots that were zero before or are reached are zero. |
| `FatTable.Next` | ors-kernel/src/fs/fat/low_level.rs:269-275 | The chained cluster, unchanged state. |
| `FatTable.Prepare` | ors-kernel/src/fs/fat/low_level.rs:277-286 | The next cluster or a new one linked in; on Full nothing has changed. |
| `FatTable.ReleaseRest` | ors-kernel/src/fs/fat/low_level.rs:288-294 | Equals the cut of the table. |
| `FileContents.StreamSplits` | ors-kernel/src/fs/fat.rs:479-502 | The content of a file can be taken in any pieces that stay within a cluster. |
| `FileContents.StreamFollowsPath` | ors-kernel/src/fs/fat.rs:479-514 | Reading along a path of clusters gives their bytes in order. |
| `FileContents.OtherStreamSame` | ors-kernel/src/fs/fat.rs:524-549 | A file whose clusters were not touched reads the same from every position, whatever was written to another one. |
| `FileContents.WrittenReadsBack` | ors-kernel/src/fs/fat.rs:541-549 | After the cut behind the cursor and the update of the entry, the file reads as exactly what was written. |
| `FileContents.WrappedReadsBack` | ors-kernel/src/fs/fat/low_level.rs:288-294 | When a writer is dropped whose last cluster is its own successor, that cluster is marked unused again, and a reader gets what the clusters hold: each cluster of bytes lies over the one before. |
| `FileContents.RemainsExact` | ors-kernel/src/fs/fat.rs:524-549 | What is left is what was written if and only if it did not go round in the last cluster; otherwise it is as long as the clusters of the file. |
| `Files.File.WriteBack` | ors-kernel/src/fs/fat.rs:253-259 | The entry is stored in its slot with the archive bit; name and kind stay. |
| `Files.File.SetFileSize` | ors-kernel/src/fs/fat.rs:309-312 | The size is recorded in the stored entry. |
| `Files.File.PrepareCluster` | ors-kernel/src/fs/fat.rs:320-330 | The first cluster, allocated and recorded if there is none; it fails, and changes nothing, if and only if the file has no cluster and none is free; others are undisturbed. |
| `Files.File.ReleaseCluster` | ors-kernel/src/fs/fat.rs:332-339 | All clusters of the file are given back, and only those. |
| `Files.FileReader.constructor` | ors-kernel/src/fs/fat.rs:341-351 | A reader starts with the whole content ahead. |
| `Files.FileReader.Read` | ors-kernel/src/fs/fat.rs:479-502 | Returns the next bytes of the content, fewer than asked only at the end, and leaves the rest. |
| `Files.FileReader.ReadToEnd` | ors-kernel/src/fs/fat.rs:504-514 | Returns everything that is left. |
| `Files.EndOf` | ors-kernel/src/fs/fat.rs:369-384 | Walks to the cluster where the content ends; a chain shorter than the recorded size counts as all there is. |
| `Files.FileWriter.Overwriter` | ors-kernel/src/fs/fat.rs:353-363 | An overwriter has written nothing, also on a file that an earlier writer has cut. |
| `Files.Appender` | ors-kernel/src/fs/fat.rs:365-392 | An appender starts behind the last byte of the existing content and changes nothing, also on a file that an earlier writer has cut. |
| `Files.FileWriter.MoveOn` | ors-kernel/src/fs/fat.rs:524-538 | At the end of a cluster the writer goes on to the next one, a new one at the end of the chain, or the last one again if that is marked unused and no lower one is; it loses its cursor if and only if there is none of these; clusters of the file and free ones beside its last together stay as many. |
| `Files.FileWriter.Write` | ors-kernel/src/fs/fat.rs:524-538 | Succeeds if and only if what was written and the buffer fit into the clusters the file has and the free ones beside its last, or the last one stands for all that follow; then what has been written grows by exactly the buffer; a failure leaves no cursor; others are undisturbed. |
| `Files.FileWriter.Drop` | ors-kernel/src/fs/fat.rs:541-549 | The file keeps its clusters up to the cursor, with the table cut behind it, and holds what was written, or what is left of it after going round in the last cluster (nothing after a failure); size and first cluster are recorded in the stored entry. |
| `Files.Rewrite` | ors-kernel/src/fs/fat.rs:353-392 | Opening, any sequence of writes and drop, on every file that writers leave, again and again: the content is exactly what was wanted, what is left of it after going round in the last cluster, or nothing, each under its exact condition; the file keeps as many clusters as it needs, and a longer chain is cut behind them. |
| `Files.HeldExact` | ors-kernel/src/fs/fat.rs:353-392 | The content is the concatenation of the buffers, after the old content for an appender, if and only if that fits into the clusters of the file, or into these and the free ones beside its last and the last one is not the lowest unused cluster. |
| `Files.RoundTrip` | ors-kernel/src/fs/fat.rs:478-549 | Reading to the end afterwards returns exactly this content, with an error if and only if it does not fit; clusters of others keep table entries and bytes. |
| `FullVolumes.OverwriteEmpties` | ors-kernel/src/fs/fat.rs:524-549 | On a volume of two clusters, both in use, overwriting a file of one byte with one byte more than a cluster leaves it empty. |
| `FullVolumes.AppendOverwrites` | ors-kernel/src/fs/fat.rs:524-549 | A file of two clusters overwritten with one cluster of bytes: a byte that is then appended replaces the first byte, and the file stays as long as it was. |
| `DirEntries.SfnLayout` | ors-kernel/src/fs/fat/dir_entry.rs:356-374 | Every field of a short entry is at its place in the 32 bytes, given byte by byte, low bytes first. |
| `DirEntries.LfnLayout` | ors-kernel/src/fs/fat/dir_entry.rs:475-490 | Every field and each of the 13 code units of a long entry is at its place in the 32 bytes, low bytes first. |
| `DirEntries.EntryKind` | ors-kernel/src/fs/fat/dir_entry.rs:56-86 | The first byte 0xe5 means unused, 0 the terminal, and otherwise attributes of 0x0f in the low six bits a long entry, each exactly; what was read is written as the same 32 bytes but for the reserved ones of a long entry. |
| `DirEntries.OrderBits` | ors-kernel/src/fs/fat/dir_entry.rs:430-437 | A long entry begins a name if and only if its first byte is 0x41 to 0x54; the number of a part is the first byte without 0x40. |
| `DirEntries.OnlyBit` | ors-kernel/src/fs/fat/dir_entry.rs:279-293 | Setting or clearing an attribute or case bit leaves all other bits as they are. |
| `DirEntries.RotatedBits` | ors-kernel/src/fs/fat/dir_entry.rs:295-299 | The sum of a short name moves the upper seven bits down and the lowest one to the top. |
| `DirEntries.SumDiffers` | ors-kernel/src/fs/fat/dir_entry.rs:295-299 | Two short names that differ in one byte have different sums. |
| `DirEntries.SfnRoundTrip` | ors-kernel/src/fs/fat/dir_entry.rs:318-386 | A short entry survives its 32 bytes. |
| `DirEntries.LfnEntryRoundTrip` | ors-kernel/src/fs/fat/dir_entry.rs:448-490 | A long entry survives its 32 bytes up to the reserved cluster field. |
| `DirEntries.EntryRoundTrip` | ors-kernel/src/fs/fat/dir_entry.rs:56-86 | An entry is read back as itself if and only if first byte, attributes and reserved field do not mean something else. |
| `DirEntries.ReadIsEncodable` | ors-kernel/src/fs/fat/dir_entry.rs:56-86 | What is read as a short entry is written back as itself, also with another cluster and the archive bit. |
| `DirEntries.SetClusterRoundTrip` | ors-kernel/src/fs/fat/dir_entry.rs:245-257 | A cluster that is set is the cluster that is read if and only if it is nonzero and fits 32 bits. |
| `DirEntries.MarkArchiveKeeps` | ors-kernel/src/fs/fat/dir_entry.rs:271-293 | Marking the archive bit changes no other bit that decides the kind of the entry. |
| `LongNames.SetNameRoundTrip` | ors-kernel/src/fs/fat/dir_entry.rs:142-243 | A name accepted as short name is shown as itself, with its case. |
| `LongNames.PaddingReadsBack` | ors-kernel/src/fs/fat/dir_entry.rs:26-29 | Padding is taken off again exactly if the name does not fill its last entry or does not end like padding. |
| `LongNames.FeedParts` | ors-kernel/src/fs/fat/dir_entry.rs:506-546 | From the middle of a sequence the reader collects the remaining parts and completes with the whole name. |
| `LongNames.LongNameRoundTrip` | ors-kernel/src/fs/fat/dir_entry.rs:18-44 | The entries made for an accepted name, through the 32-byte form and the reader, give the name and the short entry, whatever happens to attributes, cluster, size and times, and whatever follows; the name is the same if and only if it does not end like padding. |
| `NameFormats.AcceptedExact` | ors-kernel/src/fs/fat/dir_entry.rs:18-44 | A name gets entries if and only if it has at most 255 code units and no separator or wildcard among them. |
| `NameFormats.ShortExact` | ors-kernel/src/fs/fat/dir_entry.rs:142-243 | A name is stored in a single short entry if and only if some short entry of upper case characters shows it. |
| `NameFormats.SetNameBytes` | ors-kernel/src/fs/fat/dir_entry.rs:193-243 | A short name is stored in upper case, padded with spaces to 8 and 3 bytes, with bit 3 for a base and bit 4 for an extension in lower case. |
| `NameFormats.ShownAt` | ors-kernel/src/fs/fat/dir_entry.rs:142-171 | A short name is shown up to the first space, its upper case letters in lower case if so marked, and U+FFFD for what is not a visible ASCII character. |
| `NameFormats.GeneratedExact` | ors-kernel/src/fs/fat/dir_entry.rs:175-191 | Byte k of the short entry of a long name is the k-th of its characters that a short name can have, in upper case, or a space behind the last. |
| `NameFormats.PartBytes` | ors-kernel/src/fs/fat/dir_entry.rs:22-40 | The bytes of each part of a long name: numbers that count down to 1, the first part marked with 0x40, attributes 0x0f, the sum, and at each place of a code unit that of the name, the zero behind it or 0xffff. |
| `ExactListings.ListingExact` | ors-kernel/src/fs/fat.rs:214-241 | A listing ends if and only if there is no orphan, and then shows exactly, in order: every short entry before the terminal that is not a volume label without a long name and is not shown as dots, under the long name whose parts stand before it if part 1 is there with its sum, and under its short name otherwise. |
| `Listings.ListingEnds` | ors-kernel/src/fs/fat.rs:214-241 | Listing a directory comes to an end without panic if and only if no long entry before the terminal is an orphan (neither begins a name nor continues one). |
| `Listings.LoopOutcome` | ors-kernel/src/fs/fat.rs:217-233 | On every directory the loop of the iterator comes, after finitely many rounds, to stay at the end if there is no orphan, in a panic if the first orphan goes on with a name, and at the orphan itself otherwise. |
| `Listings.ListedIfEnded` | ors-kernel/src/fs/fat.rs:214-241 | A listing is defined if and only if the loop ends. |
| `Listings.OrphanNeverEnds` | ors-kernel/src/fs/fat.rs:221-229 | A single orphan is read again forever: the loop never leaves it. |
| `Listings.ListCuts` | ors-kernel/src/fs/fat.rs:214-241 | A listing is the listing of a prefix followed by the listing of the rest wherever no name goes on. |
| `Listings.SearchFinds` | ors-kernel/src/fs/fat.rs:138-161 | The search finds the first long enough run before the terminal, else the free entries that end at the terminal or the end, else a place that is in use. |
| `Insertions.InsertsIntoFree` | ors-kernel/src/fs/fat.rs:130-174 | Insertion overwrites free entries only, if and only if there is a terminal, a long enough run, or a free entry at the very end. |
| `Insertions.FullDirectoryOverwritten` | ors-kernel/src/fs/fat.rs:130-174 | In a directory full to its last entry with no terminal an existing file is overwritten. |
| `Insertions.SequenceIsBlock` | ors-kernel/src/fs/fat/dir_entry.rs:18-44 | The entries made for a name form one whole block that is listed as one file. |
| `Insertions.InsertAddsOne` | ors-kernel/src/fs/fat.rs:130-174 | A successful insertion adds exactly the new file to the listing, in its place, and keeps every other. |
| `Insertions.InsertKeepsWhole` | ors-kernel/src/fs/fat.rs:130-174 | Names stay whole, so that later insertions, listings and removals have the same guarantees. |
| `Insertions.InsertedEnd` | ors-kernel/src/fs/fat.rs:161-172 | The terminal stays, or is written anew right behind the inserted entries. |
| `Insertions.FailedInsert` | ors-kernel/src/fs/fat.rs:163-172 | An insertion that runs out of clusters loses no file, and shows the new one only if just the terminal is missing; but the directory is left without a terminal and with a last entry in use. |
| `Insertions.JammedInsert` | ors-kernel/src/fs/fat.rs:130-174 | In such a directory the next insertion overwrites free entries only if and only if there is a run of unused entries that is long enough. |
| `Insertions.EraseRemovesOne` | ors-kernel/src/fs/fat.rs:420-438 | Erasing the entries the iterator reported takes exactly that file out of the listing. |
| `Insertions.EraseKeepsWhole` | ors-kernel/src/fs/fat.rs:420-438 | The terminal and all other names stay. |
| `Insertions.WholeLists` | ors-kernel/src/fs/fat.rs:214-241 | A directory of whole names can always be listed. |
| `DirectorySlots.SlotStored` | ors-kernel/src/fs/fat/low_level.rs:256-259 | Writing an entry of one cluster is one update of the flat sequence of entries over the whole chain. |
| `Directories.EntryCursor.Next` | ors-kernel/src/fs/fat/low_level.rs:303-321 | The iterator gives the entries of the chain in order, across clusters, and stops at the terminal. |
| `Directories.FindRoom` | ors-kernel/src/fs/fat.rs:138-161 | The search loop over the iterator finds the specified place. |
| `Directories.Advance` | ors-kernel/src/fs/fat.rs:166-170 | The next place to write, in the next cluster or a new one; it fails, and changes nothing, if and only if the directory is full and no cluster is free; entries and what fits into free clusters together stay as many. |
| `Directories.WriteEntry` | ors-kernel/src/fs/fat/low_level.rs:256-259 | Writing an entry changes exactly that entry of the directory. |
| `Directories.InsertEntries` | ors-kernel/src/fs/fat.rs:130-174 | The entries and, if needed, the terminal are written from the place found on, growing the chain; it succeeds if and only if all of them have a place in the directory or in free clusters, and otherwise writes exactly as many as have one. |
| `Directories.EraseBlock` | ors-kernel/src/fs/fat.rs:394-436 | The loops over clusters and offsets make exactly the entries between the two reported places unused. |
| `Directories.NextFile` | ors-kernel/src/fs/fat.rs:214-241 | The iterator over files gives the files of the listing in order, with the places of their first and last entry. |
| `Directories.NameTaken` | ors-kernel/src/fs/fat.rs:121-128 | True if and only if a listed file has the name. |
| `Directories.CreateFile` | ors-kernel/src/fs/fat.rs:176-181 | On every directory of whole names: fails exactly for a taken or an invalid name, or if the entries and the terminal have no place; if there is a terminal, a long enough run or a free entry at the end, the listing has one more file with the name, without content, if and only if all its entries had a place, no file is lost, and only a failure loses the terminal; otherwise an entry in use is replaced; the file is no directory; clusters of others are undisturbed. |
| `Insertions.EditKeepsListing` | ors-kernel/src/fs/fat.rs:253-259 | Changing attributes, cluster, size and times in the stored short entry changes just that in the listing; names and terminal stay. |
| `Directories.DotsShown` | ors-kernel/src/fs/fat/dir_entry.rs:126-140 | The entries for a directory itself and its parent are directory entries shown as one and two dots that lead to the given cluster, and listings leave them out. |
| `Directories.NewDirectory` | ors-kernel/src/fs/fat.rs:187-197 | A new directory is well-formed and lists no file; it begins with "." for itself, ".." for the parent, or for no cluster below the root, and the terminal; nothing in use is disturbed; it fails, and changes nothing, if and only if no cluster is free. |
| `Directories.CreateDir` | ors-kernel/src/fs/fat.rs:183-205 | Like create_file, for an entry with the directory bit whose cluster, the lowest unused one, holds a well-formed directory that lists no file and whose ".." has the cluster of this one, or none if this is the root; the way up from it leads here; with one cluster less for the entries; if these have no place the new cluster stays allocated. |
| `Directories.Parent` | ors-kernel/src/fs/fat.rs:106-119 | The way up: none from the root directory, else what the second entry leads to, which is the root if that has no cluster; changes nothing. |
| `Directories.ParentOfNew` | ors-kernel/src/fs/fat.rs:106-119 | From a new directory it leads to the directory in which it was made, also to the root. |
| `Directories.LeakUncovers` | ors-kernel/src/fs/fat.rs:187-203 | Such a cluster is in use and in no chain: ownership of all used clusters is lost. |
| `Removals.Detach` | ors-kernel/src/fs/fat.rs:430-430 | Exactly the clusters of the file are given back; of the directory only its short entry changes. |
| `Removals.Remove` | ors-kernel/src/fs/fat.rs:420-438 | Refused if and only if it is a directory that lists files; otherwise exactly this file is gone from the listing, exactly its clusters are free, names stay whole and others are undisturbed; also for a file that a writer has cut. |
| `Removals.Rename` | ors-kernel/src/fs/fat.rs:440-469 | In the same directory; the same name changes nothing. Under another name: errors exactly for invalid and taken names and if, after the erasure, the new entries and the terminal have no place; on success the listing has the new name in place of the old one, with the same cluster and size; the file is lost if and only if not all its new entries have a place, and then the terminal is lost too. |
| `FullVolumes.RenameLoses` | ors-kernel/src/fs/fat.rs:440-469 | On a full volume with a root directory of 16 entries, renaming the only file to a name of 17 entries leaves an empty listing. |
| `VirtQueues.SlotsDistinctIff` | ors-kernel/src/devices/virtio/queue.rs:110-131 | Successive ring elements use distinct slots across the 16-bit wrap if and only if the queue size divides 65536. |
| `VirtQueues.OnceOnly` | ors-kernel/src/devices/virtio/queue.rs:135-217 | When free list and chains make up the descriptors once each, no descriptor is in two places or twice in one. |
| `VirtQueues.TransferKeeps` | ors-kernel/src/devices/virtio/queue.rs:148-184 | Unlinking the first free descriptors keeps free list and chains a partition of the descriptors, all null-terminated. |
| `VirtQueues.FetchKeeps` | ors-kernel/src/devices/virtio/queue.rs:174-184 | The partition survives the device taking a chain. |
| `VirtQueues.ReturnKeeps` | ors-kernel/src/devices/virtio/queue.rs:191-196 | The partition survives the device giving chains back in any order. |
| `VirtQueues.FreedKeeps` | ors-kernel/src/devices/virtio/queue.rs:199-214 | Pushing the head of a chain on the free list keeps the partition, and what its link said is the next head. |
| `VirtQueues.QueuePush` | ors-kernel/src/devices/virtio/queue.rs:178-182 | No element of a ring that has not been taken out is overwritten, across wrap of the index. |
| `VirtQueues.QueuePop` | ors-kernel/src/devices/virtio/queue.rs:192-196 | The element taken out is the oldest one put in. |
| `VirtQueues.QueueLength` | ors-kernel/src/devices/virtio/queue.rs:191-193 | The number of waiting elements is the difference of the indices modulo 65536, so the loop test is right. |
| `VirtQueues.VirtQueue.constructor` | ors-kernel/src/devices/virtio/queue.rs:56-76 | All descriptors are free and linked in order. |
| `VirtQueues.VirtQueue.Fill` | ors-kernel/src/devices/virtio/queue.rs:144-171 | Each buffer goes to a free descriptor in order; none of the assertions and unwraps fails. |
| `VirtQueues.VirtQueue.Transfer` | ors-kernel/src/devices/virtio/queue.rs:135-187 | Refused if and only if there are too few descriptors; otherwise one chain that carries exactly the buffers and their data becomes available; the invariant is kept. |
| `VirtQueues.VirtQueue.Fetch` | ors-kernel/src/devices/virtio/queue.rs:110-117 | The device gets the oldest available chain by its head. |
| `VirtQueues.VirtQueue.GiveBack` | ors-kernel/src/devices/virtio/queue.rs:123-131 | The device returns a chain it holds. |
| `VirtQueues.VirtQueue.Free` | ors-kernel/src/devices/virtio/queue.rs:199-209 | One descriptor is freed and its data taken; the data is there. |
| `VirtQueues.VirtQueue.FreeChain` | ors-kernel/src/devices/virtio/queue.rs:199-214 | The whole chain is freed and exactly its data handed over, in order. |
| `VirtQueues.VirtQueue.CollectOne` | ors-kernel/src/devices/virtio/queue.rs:191-216 | Takes back the oldest returned chain; given equals delivered plus present throughout. |
| `VirtQueues.VirtQueue.Collect` | ors-kernel/src/devices/virtio/queue.rs:191-217 | All chains given back are taken back in order, and the data of their descriptors is handed over in order. |
| `VirtQueues.VirtQueue.FreeOrInFlight` | ors-kernel/src/devices/virtio/queue.rs:135-217 | Each descriptor is either free or in exactly one chain, and carries data exactly in a chain. |
| `VirtQueues.VirtQueue.AllDelivered` | ors-kernel/src/devices/virtio/queue.rs:135-217 | When all descriptors are free, every datum ever given has been delivered exactly once. |
| `BlockRequests.CapacityExact` | ors-kernel/src/devices/virtio/block.rs:91-98 | A transfer passes the capacity check if and only if every sector it touches is on the device. |
| `BlockRequests.CompletionFindsTask` | ors-kernel/src/devices/virtio/block.rs:155-163 | Whoever is about to release the completion channel of a request that has not returned wakes exactly the task of that request. |
| `BlockRequests.NobodyWaitsInVain` | ors-kernel/src/devices/virtio/block.rs:114-123 | In every interleaving: while the request queue is not locked, a task pending on the queue channel means fewer than three free descriptors. |
| `BlockRequests.NextKeeps` | ors-kernel/src/devices/virtio/block.rs:100-163 | Every step of tasks, handler and device keeps the invariant of locks, sent requests, pending tasks and descriptors, whether or not a task that blocks finds another one to run. |
| `BlockRequests.RequestsSafe` | ors-kernel/src/devices/virtio/block.rs:100-163 | In every interleaving in which no task found nobody to switch to as it blocked on its completion channel, the requests with the device or the handler are exactly those that have not returned, whatever blocks on the queue channel found. |
| `BlockRequests.EarlyReturnExact` | ors-kernel/src/devices/virtio/block.rs:100-131 | In every interleaving a request returns while the device or the handler still has it if and only if its task found nobody to switch to as it blocked on the completion channel, or was woken by the completion of another request; that is an earlier one at the same footer address whose task found nobody; only a request that returns early can report something else than the device, and it reports success. |
| `BlockRequests.AloneExact` | ors-kernel/src/task.rs:180-222 | The requests recorded as going on alone are exactly those whose blocking step found no runnable task. |
| `BlockRequests.DescriptorsConserved` | ors-kernel/src/devices/virtio/queue.rs:191-217 | In every interleaving the free descriptors and three for each request that is with the device or given back make up the initial number; all are free if and only if there is no such request. |
| `BlockRequests.TasksConserved` | ors-kernel/src/task.rs:180-233 | A task that blocks takes the place of a runnable one, and one that is woken becomes runnable: runnable and pending tasks together stay as many. |
| `BlockRequests.RequestReturns` | ors-kernel/src/devices/virtio/block.rs:100-131 | In every interleaving a call returns only after it has sent exactly one request, having asked until then, and that request has returned. |
| `BlockRequests.CollectReturns` | ors-kernel/src/devices/virtio/block.rs:155-163 | In every interleaving the handler returns only after a moment at which no request was left given back, and after it has woken everybody who waits for descriptors. |
| `BlockRequests.NoDeadlock` | ors-kernel/src/devices/virtio/block.rs:100-163 | In every interleaving in which nobody can go on, whoever is in the middle of something sleeps: for a request that the device has or has given back, or for descriptors while too few are free, and then some request is outstanding. |
| `EarlyReturns.RequestsReturnEarly` | ors-kernel/src/devices/virtio/block.rs:100-131 | A run in which a request returns early because its task found nobody, and the next request of the task, which found somebody, returns early because the completion of the first one releases the same address. |
| `Tasks.Top` | ors-kernel/src/task.rs:186-193 | The highest non-empty level that is not below the given one. |
| `Tasks.TopReplaces` | ors-kernel/src/task.rs:180-193 | The search from the top down finds nobody if and only if no task is runnable, for a task that yields none of its level or above, and otherwise the first task of the highest such level. |
| `Tasks.NobodyToRun` | ors-kernel/src/task.rs:186-222 | A task that blocks or sleeps goes on if and only if no task is runnable at all. |
| `Tasks.BlockedKeeps` | ors-kernel/src/task.rs:202-205 | A blocked task is listed under its channel, last. |
| `Tasks.ReleaseKeeps` | ors-kernel/src/task.rs:225-233 | Taking out all waiters of a channel keeps waits, channel lists and timeouts consistent; left-over timeouts are harmless. |
| `Tasks.ExpireKeeps` | ors-kernel/src/task.rs:235-252 | Handling the first timeout keeps the same, also when its task is gone. |
| `Tasks.TaskQueue.constructor` | ors-kernel/src/task.rs:155-167 | An empty queue. |
| `Tasks.TaskQueue.Enqueue` | ors-kernel/src/task.rs:175-177 | The task goes to the end of the queue of its own level. |
| `Tasks.TaskQueue.PopTop` | ors-kernel/src/task.rs:186-193 | Takes the front of the highest eligible level. |
| `Tasks.TaskQueue.Suspend` | ors-kernel/src/task.rs:201-214 | The task becomes pending under a fresh id with its channel and deadline as wake sources. |
| `Tasks.TaskQueue.Dequeue` | ors-kernel/src/task.rs:180-223 | The current task goes on if and only if no task is runnable, or for one that yields none of its level or above; otherwise the next one was the first of its level, with every higher level empty, not below that of a task that yields; that task is last in its level then, and one that blocks or sleeps waits for its channel, for now plus its ticks, or for both; tasks are conserved. |
| `Tasks.TaskQueue.WaitersExact` | ors-kernel/src/task.rs:225-233 | The list of a channel is exactly the pending tasks blocked on it, in order of arrival, each once. |
| `Tasks.TaskQueue.WakeSources` | ors-kernel/src/task.rs:180-252 | Every pending task has its channel or its timeout as a wake source; ids in channel lists are pending. |
| `Tasks.TaskQueue.Release` | ors-kernel/src/task.rs:225-233 | Exactly the tasks blocked on the channel become runnable, in order of arrival. |
| `Tasks.TaskQueue.Expire` | ors-kernel/src/task.rs:237-249 | A timeout wakes its task if and only if that is still pending. |
| `Tasks.TaskQueue.Elapse` | ors-kernel/src/task.rs:235-252 | Exactly the pending tasks with a deadline up to now become runnable, each once, in order of deadline. |
| `Tasks.TaskScheduler.Add` | ors-kernel/src/task.rs:57-68 | A new task has a new id and is runnable at its level. |
| `Tasks.TaskScheduler.Take` | ors-kernel/src/task.rs:80-84 | The running task of a processor, or a new one for a context that has none. |
| `Tasks.TaskScheduler.SwitchTask` | ors-kernel/src/task.rs:70-108 | The processor runs the first task of the highest level that may take over, told by the levels alone, never one below a task that yields; the previous one is runnable at the end of its level or pending as it asked, and every task ever created stays in exactly one place; other processors are not touched. |
| `Tasks.TaskScheduler.ReleaseChannel` | ors-kernel/src/task.rs:129-131 | Exactly the waiters of the channel become runnable, in order; every task stays in exactly one place. |
| `Tasks.TaskScheduler.Tick` | ors-kernel/src/task.rs:133-135 | Exactly the tasks whose deadline has come become runnable, the earliest first; every task stays in exactly one place. |
| `Tasks.OnePlaceEach` | ors-kernel/src/task.rs:49-51 | Ids are unique, so that no task is in two places. |
| `Tasks.RoundRobin` | ors-kernel/src/task.rs:180-193 | Among tasks of the top level that only yield, each runs in turn; whoever is at place i of the queue runs after i + 1 yields. |
| `Mutexes.NextKeeps` | ors-kernel/src/sync/mutex.rs:45-64 | Every atomic step of every task keeps the invariant of locks, owner and waiters. |
| `Mutexes.MutexSafe` | ors-kernel/src/sync/mutex.rs:45-64 | In every interleaving at most one guard exists, and a task pending on the mutex means that it is locked or that a release is in flight. |
| `Mutexes.LockReturns` | ors-kernel/src/sync/mutex.rs:45-58 | In every interleaving a call to lock returns with the guard and in no other way, as the only task that has the mutex. |
| `Mutexes.NoDeadlock` | ors-kernel/src/sync/mutex.rs:45-64 | In every interleaving somebody can go on as long as anybody is in the middle of locking or unlocking. |
| `SyncQueues.NextKeeps` | ors-kernel/src/sync/queue.rs:24-123 | Every atomic step, time-outs included, keeps the invariant. |
| `SyncQueues.QueueSafe` | ors-kernel/src/sync/queue.rs:24-123 | In every interleaving of the blocking, timed and try forms the queue is first in, first out and bounded, and a task pending on the empty (full) channel means that the queue is empty (full) or that a release is in flight. |
| `SyncQueues.UseEnds` | ors-kernel/src/sync/queue.rs:24-123 | In every interleaving a blocking call returns only after it has put in or taken out exactly one item, the given one if it puts one in; a timed or try call that returns without having done so leaves the queue full or empty. |
| `SyncQueues.MoveExact` | ors-kernel/src/sync/queue.rs:24-123 | An item that is put in or taken out belongs to exactly one call. |
| `SyncQueues.NoDeadlock` | ors-kernel/src/sync/queue.rs:24-123 | In every interleaving in which nobody can go on, every task in the middle of a call sleeps, to take something out of an empty queue or to put something into a full one. |
| `Guards.NextKeeps` | ors-kernel/src/interrupts.rs:23-50 | Making and dropping guards, interrupts, context switches and new contexts keep the registers of every thread in step with its guards. |
| `Guards.OuterConstant` | ors-kernel/src/interrupts.rs:23-50 | The flag of a thread outside its guards and interrupts never changes. |
| `Guards.GuardsSafe` | ors-kernel/src/interrupts.rs:23-50 | In every interleaving a running thread with a guard has interrupts off and the assertion in drop holds. |
| `Guards.FlagRestored` | ors-kernel/src/interrupts.rs:23-50 | Between any two moments of a run: if a thread has read the flag for its first guard and is later without guards again, at the same depth of interrupts, its flag is what it was before the first guard. |
| `Guards.GuardsProceed` | ors-kernel/src/interrupts.rs:23-50 | In every interleaving a guard that is being made or dropped can be finished, the drop of one that is held can begin, and after the last one the flag is back. |
| `Guards.NobodyLost` | ors-kernel/src/context.rs:102-108 | A thread that runs or is saved at some time does so ever after, on one processor at most. |
| `Guards.SwitchKeeps` | ors-kernel/src/context.rs:102-108 | A context switch carries depth and flag over to the next thread and back. |
| `PhysMemory.PutBit` | ors-kernel/src/phys_memory.rs:91-106 | Setting or clearing a bit of a word changes exactly that bit. |
| `PhysMemory.BitmapFrameManager.constructor` | ors-kernel/src/phys_memory.rs:60-66 | Nothing is allocated. |
| `PhysMemory.BitmapFrameManager.GetBit` | ors-kernel/src/phys_memory.rs:91-95 | The packed bit says whether the frame is allocated. |
| `PhysMemory.BitmapFrameManager.SetBit` | ors-kernel/src/phys_memory.rs:97-106 | Changes exactly one frame. |
| `PhysMemory.BitmapFrameManager.Mark` | ors-kernel/src/phys_memory.rs:130-144 | Marks or frees exactly the given frames. |
| `PhysMemory.BitmapFrameManager.Allocate` | ors-kernel/src/phys_memory.rs:112-128 | First fit with skip-ahead: the least start of a free run of the length, an error if and only if there is none, exactly these frames marked. |
| `PhysMemory.BitmapFrameManager.Initialize` | ors-kernel/src/phys_memory.rs:147-165 | On a valid memory map exactly the described frames in range are free that were not marked before. |
| `Allocators.ModeFits` | ors-kernel/src/allocator.rs:15-25 | The class or frame count chosen for a layout has room for it, its size is a multiple of the alignment up to the frame size, and no smaller class or number of frames would do. |
| `Allocators.FrameAlignment` | ors-kernel/src/allocator.rs:15-25 | Above the frame size, the address of a frame is aligned if and only if its number is a multiple of the alignment in frames. |
| `Allocators.LiveDisjoint` | ors-kernel/src/allocator.rs:41-92 | No byte belongs to two live allocations. |
| `Allocators.FreeNotLive` | ors-kernel/src/allocator.rs:41-92 | No byte of a free block belongs to a live allocation. |
| `Allocators.WriteKeeps` | ors-kernel/src/allocator.rs:41-92 | A client write inside live memory changes no free list. |
| `Allocators.PopKeeps` | ors-kernel/src/allocator.rs:44-53 | Taking the head of a free list keeps all lists null-terminated, acyclic and apart from live memory. |
| `Allocators.PushKeeps` | ors-kernel/src/allocator.rs:79-82 | Giving a block back keeps the same. |
| `Allocators.RefillKeeps` | ors-kernel/src/allocator.rs:94-118 | A new frame of blocks keeps the same. |
| `Allocators.TakeKeeps` | ors-kernel/src/allocator.rs:61-68 | An allocation of whole frames keeps the same. |
| `Allocators.GiveKeeps` | ors-kernel/src/allocator.rs:84-89 | Giving frames back keeps the same and takes them from nobody else. |
| `Allocators.BlocksComplete` | ors-kernel/src/allocator.rs:94-118 | The linked blocks are all blocks of the frame. |
| `Allocators.KernelAllocator.Format` | ors-kernel/src/allocator.rs:107-117 | Links all blocks of a frame and writes nowhere else. |
| `Allocators.KernelAllocator.Refill` | ors-kernel/src/allocator.rs:94-118 | The first of all blocks of a new frame, or null if and only if there is no frame. |
| `Allocators.KernelAllocator.Alloc` | ors-kernel/src/allocator.rs:42-69 | A result was not live and has room; it is the first free block, else the first fit of free frames; it is aligned up to the frame size, and above that if and only if the first fitting frame number is a multiple; null if and only if no frames fit; memory in use is not written; no block is lost. |
| `Allocators.MisalignedFrames` | ors-kernel/src/allocator.rs:42-69 | With all frames free, 8192 bytes aligned to 8192 are allocated at 4096. |
| `Allocators.KernelAllocator.Dealloc` | ors-kernel/src/allocator.rs:71-91 | Exactly this allocation is no longer live; only its first word is written. |
| `Allocators.KernelAllocator.Write` | ors-kernel/src/allocator.rs:41-92 | Client writes inside live memory keep the allocator valid. |
| `OpenAddressing.PresentAt` | ors-common/src/non_contiguous.rs:94-105 | The search for a key that is there meets no gap before it. |
| `OpenAddressing.ProbeReaches` | ors-common/src/non_contiguous.rs:94-105 | The search for a key comes to every bucket. |
| `OpenAddressing.Array.constructor` | ors-common/src/non_contiguous.rs:29-39 | An empty map. |
| `OpenAddressing.Array.Find` | ors-common/src/non_contiguous.rs:94-105 | Occupied if and only if the key is there, else the first gap, else none if and only if all buckets hold other keys. |
| `OpenAddressing.Array.Get` | ors-common/src/non_contiguous.rs:52-60 | Agrees with a finite map. |
| `OpenAddressing.Array.Insert` | ors-common/src/non_contiguous.rs:72-84 | Agrees with a finite map, with the length as its size; fails if and only if the key is new and as many keys are present as buckets. |
| `OpenAddressing.Array.Clear` | ors-common/src/non_contiguous.rs:45-50 | Empties the map. |

## Left out

- Reading of the boot sector from bytes: the parameters are a record with the consistency conditions the parser checks; that there is a FAT, that the areas fit the volume and that the table covers the data area is added, because the parser does not check it.
- Transfer errors above the sector cache: the file system layers assume transfers that succeed; the cache itself is modelled with failing ones.
- The cached last sector of `BufferedFat` and `BufferedCluster`: a reference is taken and dropped for each access, so that a reference kept across accesses and two users of one cache at the same time are not modelled.
- FAT copies, FSInfo, timestamps, collisions of short names, the reserved upper bits of table entries: the code does not handle them.
- UTF-8 and UTF-16: long names are sequences of 16-bit units, short names are ASCII; replacement of invalid code units is not modelled.
- Recursive removal and moves between directories: they repeat the modelled operations on other directories.
- Files.FileWriter.Drop: requires a size below 2^32, which the original checks by a panic.
- Files.Rewrite: requires the total size to be below 2^32, for the same reason; so does Files.RoundTrip.
- Removals.Remove: not recursive; the recursive case repeats it on the files of the directory.
- Removals.Rename: within one directory; the file is not a volume label; a label under a short name would no longer be listed.
- Directories.NextFile: requires a listing that comes to an end, because the original does not return otherwise; `Listings.LoopOutcome` says exactly when.
- Directories.CreateFile: names are whole before it, as after every insertion that succeeds; a name that a failed insertion has left unfinished at the end is not covered.
- LowLevel.Root.Commit: no reader or writer holds a sector meanwhile; with lent sectors `Volume.BufferedVolume.Commit` holds.
- VirtQueues.VirtQueue.constructor: requires a size that divides 65536, as the VirtIO specification does; the layout in memory, fences and notifications are not modelled, and a used-ring element is read as the element itself.
- VirtQueues.VirtQueue.GiveBack: the device is assumed to return each chain it took once.
- VirtQueues.VirtQueue.Collect: runs without steps of the device in between; those may come between rounds of `VirtQueues.VirtQueue.CollectOne`.
- BlockRequests.NoDeadlock: says that somebody can go on, not that everybody does in the end; so do Mutexes.NoDeadlock and SyncQueues.NoDeadlock.
- BlockRequests.CapacityExact: sector numbers do not wrap at 64 bits.
- BlockRequests.NextKeeps: footers that are on stacks at the same time have different addresses; the status byte is not modelled, and the runnable tasks are counted, not listed.
- Tasks.TaskQueue.Elapse: the heap of timeouts is a sorted sequence; ids do not wrap at 64 bits.
- Tasks.TaskScheduler.SwitchTask: one atomic step; saving and waiting for the saved context is not modelled.
- Mutexes.MutexSafe, SyncQueues.QueueSafe: memory is sequentially consistent, spin locks are atomic, and the lock-free queue is an atomic bounded FIFO.
- Guards.GuardsSafe: code that sets or clears the interrupt flag by other means is not modelled.
- PhysMemory.BitmapFrameManager.Initialize: needs a memory map of page-aligned regions in order without overlap, which the original demands of its caller.
- Allocators.KernelAllocator.Alloc: frames are below 64 GiB, where the original has its mapping and otherwise panics; memory is words of 8 bytes.
- Allocators.KernelAllocator.Dealloc: only of live allocations with their own layout, as the original demands of its caller.
- OpenAddressing.Array.Insert: keys are natural numbers that are their own index; `get_mut` and the iterators are not modelled.
- Memory mapping, interrupt controllers, PCI, the boot loader, drivers of screen and keyboard, fonts, console and shell: no algorithmic core.
