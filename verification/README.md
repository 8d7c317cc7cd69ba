# A FAT32 engine, verified

This project models the FAT32 file system of a small kernel (`kernel/fs/fat32/fat32.c`) and the path normaliser of its shell
(`kernel/lib/shell.c`), and proves what they promise: that an array of 512-byte sectors, accessed through one shared sector
buffer, is a tree of named byte strings.

## How the model is built

Each layer refines the one below it.

1. **Device.** `Volumes.BlockDevice` is an array of sectors with a ghost trace of the disk after every block write.
   `Volumes.Volume` is the mounted volume; its `sectorBuffer` is the one buffer all operations share, clobbered by every
   nested call exactly as in the source. Its ghost journal holds the abstract view after every block write: a *boundary*.
2. **View.** `ViewOf` reads a disk as 28-bit FAT values (copy 0) and data sectors. `Kept` says what no operation ever does:
   let mirrored FAT copies drift apart, change reserved bits, or touch a sector outside the FATs and the data area. It is part
   of `Ready`, which every operation keeps.
3. **Chains.** `IsChain` is a run of distinct clusters, linked, ending in an end mark. Freeing and walking are related to it
   on every FAT content, corrupt ones included.
4. **Bytes and slots.** `ChainBytes` is the byte string of a chain; a directory's byte string is a sequence of 32-byte slots.
5. **Tree.** `Trees.Tree` names the chains, the directories with their depth, and for every chain the one slot that names it.
   - `Sound`: chains are disjoint and acyclic, and every live entry names its own chain, or nothing.
   - `Safe`: moreover every size fits its chain. `Consistent`: some tree is safe. `Coherent`: some tree is sound.
   - `WellFormed`: moreover exactly one live entry names each chain but the root's, and every other cluster is free or has
     kept its value (a bad-cluster mark, say). A view determines its tree (`TreeUnique.TreeDetermined`).
6. **Operations.** Read, write, truncate, create, mkdir, remove, rmdir, rename, open, opendir, readdir. Each is an imperative
   method proved against these conditions: what it returns in every case, the whole new state, what it leaves alone, and what
   holds at every boundary on the way.
7. **Tree of named byte strings.** `TreeSpec.Effect` gives each operation's effect on a map of directories, names and byte
   strings, with no cluster or slot in sight, and `TreeSpec.Done` what the code makes of it (they differ for names that begin
   with 0xE5 only). `Runs.Step` and `Runs.Run` show that the volume does exactly that, with the exact status of every call.

The definitions these layers share with the operations are tied to something outside them: to the bytes of the raw disk in
plain numbers (`DiskLayout`, `SlotLayout`, `TreeLayout`, the end of `Geometry` and of `Mounting`), to an encoder for long names
written from the format alone (`LongLayout`), or to their meaning case by case (`Meanings`, `PlanMeanings`, and the lemmas on
splitting in `Paths` and on reduction in `Normalize`).

A directory is *map-like* if no long-name slot is in use, live short names are distinct and do not start with a dot, and
nothing is in use behind the first never-used slot. No code here writes long-name slots, and every operation keeps all of
these; `Good` (well formed, map-like, no volume label outside the root) is the invariant of runs, and a freshly formatted
volume has it (`Formatted`). `Witnesses` leads from such volumes to the failing cases of operations below.

`hide` statements in bodies only keep definitions out of the solver's way; they assume nothing.

## What the proofs found

"Clusters are lost" below means: no tree for which the volume is well formed has the foreign clusters it had before
(`TreeUnique.LeakIsForGood`, `TreeUnique.OrphanIsLost`).

- **Mount checks too little.** `fat32_mount` does not check that FAT count times FAT size fits 32 bits, that the FATs are
  large enough for the clusters, that the highest cluster lies below the bad-cluster mark, or that the root cluster is on the
  volume. These four conditions are exactly what is missing (`Geometry.MountedValid`), and for each of them there is an accepted
  boot sector on which it alone fails (`Mounting.MountAcceptsUnsound`). Every later result assumes a valid geometry.
- **Truncating to zero leaves a dangling entry.** The chain is freed but only the size field is rewritten, so the entry goes
  on naming freed clusters: no tree whatever is sound for such a volume (`Truncating.ZeroUnsound`). Truncation leaves a well
  formed volume if and only if the new size is positive or the old one was zero. The entry is all that is amiss
  (`Truncating.ZeroStale`): a write through the same handle that finds its clusters records them, and the volume is well formed
  again; after one that fails it is so if and only if the cluster taken first is the one the entry still names
  (`Truncating.Refill`, `LooseSlots.LooseSettled`). One byte in a file is enough to see it (`Witnesses.TruncateLeavesNothing`).
- **Truncating otherwise** is sound at every boundary. Between the cut and the recording of the new size the entry's size may
  be ahead of its chain: all boundaries are consistent if and only if the old size fits the clusters kept
  (`Truncating.CutConsistent`, `Truncating.Truncate`). In a run, these truncations are the only operations with a boundary that
  is not consistent (`Runs.Calm`, `Runs.Run`). A file of one byte more than a cluster, truncated to 1, is one
  (`Witnesses.TruncateIsNotCalm`).
- **Names that start with the byte 0xE5** are accepted and stored as slots that look deleted. After a successful create, mkdir
  or rename the path leads to the entry if and only if the name does not start with that byte; otherwise it leads nowhere
  (`Creating.CreateFile`, `MakingDirs.Mkdir`, `Renaming.RenameFile`). mkdir under such a name loses its cluster, always; rename
  to one loses the file's chain if and only if it has one; create loses nothing. In the tree of names such an operation binds
  nothing, and a rename still unbinds the old name (`TreeSpec.Done`, `Runs.Leaks`). Both losses happen on every freshly
  formatted volume that has room (`Witnesses.MkdirLeaks`, `Witnesses.RenameLoses`).
- **rmdir and the emptiness test.** `fat32_directory_is_empty` passes over every name that begins with two dots, and counts
  volume labels as content. Its answer agrees with what a listing shows if and only if something live is there whose name does
  not begin with two dots, or a label is in use exactly when there is a live name with two dots
  (`EmptyDirs.LooksEmptyIsRight`); it is wrong in both directions (`EmptyDirs.PassedOver`, `EmptyDirs.LabelCounts`). When rmdir
  removes a directory with such a name in it, that name and all below it are out of reach; every boundary is consistent, and
  clusters are lost if and only if one of the live names in the directory has a chain (`Removing.RemoveDirectory`), as it is for
  a directory that holds nothing but a file `..A` with a cluster (`Witnesses.DottedWell`, `Witnesses.RmdirLoses`). The names
  create, mkdir and rename bind never begin with a dot, so none of this happens to a `Good` volume.
- **The test for "/" in `fat32_remove_directory`** refuses only what the path split has refused already
  (`Removing.RootRefused`).
- **A write that wants clusters.** With F clusters free, and a file whose chain lacks N for the write, a sensible write succeeds
  if and only if N <= F. One that fails leaves the bytes of every file as they were. It leaves a chain that no entry names,
  known to the handle alone, if and only if the file had no cluster and F > 0 (or there was such a chain already); the handle
  is then ready for another write, and one that succeeds records the chain (`FileWrite.Write`, `FileWrite.ReadyMeans`). If the
  handle is given up instead, clusters are lost. It happens on every freshly formatted volume with too few clusters for a write
  (`Witnesses.WriteStrands`), and there is one (`Witnesses.WriteStrandsOnceFormatted`). The handle survives any run of operations
  on other entries (`Runs.RunResumes`).

## Assumptions

The geometry is valid, and the device has at least the sectors it counts (`totalSectors <= |device.sectors|`). File handles
passed to write and truncate agree with their directory slots, as `Open` and `CreateFile` leave them; those passed to write may
also be in the state a failed write or a truncation to 0 leaves them in. `Runs.RunHandles` shows that operations on other files
keep a handle so. The device performs every transfer inside its range. No directory has more than 2^32 slots, the range of the 32-bit running index of a scan (part of `Sound`; the
scans themselves are modelled with the index wrapping around). Strings are sequences of non-zero bytes.

## Model

| member | source | states |
|---|---|---|
| Volumes.BlockDevice.Read | kernel/storage/block_device.h:6-19 | a transfer inside the device fills the buffer with exactly that sector; outside it fails and changes nothing |
| Volumes.BlockDevice.Write | kernel/storage/block_device.h:6-19 | a transfer inside the device replaces exactly that sector and is noted in the trace; outside it fails and changes nothing |
| Mounting.Mount | kernel/fs/fat32/fat32.c:779-887 | succeeds exactly on boot sectors that pass every check, stores their geometry, and tells a missing signature and an unreadable device apart from the other failures |
| Mounting.IsPowerOfTwo | kernel/fs/fat32/fat32.c:404-408 | the bit trick accepts exactly the 32 powers of two a 32-bit value can be |
| Mounting.PowersInByte | kernel/fs/fat32/fat32.c:806-808 | a sectors-per-cluster byte passes that test exactly if it is one of the eight powers of two a byte can hold |
| Mounting.AcceptableMounted | kernel/fs/fat32/fat32.c:779-887 | an accepted boot sector describes a geometry that meets everything mount checks |
| Geometry.MountedValid | kernel/fs/fat32/fat32.c:779-887 | a mounted geometry is fit for the rest of the code if and only if it meets the four conditions mount leaves unchecked |
| Mounting.MountAcceptsUnsound | kernel/fs/fat32/fat32.c:779-887 | each of those four conditions fails, and it alone, on some boot sector that fat32_mount accepts |
| Mounting.MountVolume | kernel/fs/fat32/fat32.c:779-887 | mounting a disk whose geometry is sound and fits the device gives a volume in the state every operation starts from |
| Mounting.FieldsMean | kernel/fs/fat32/fat32.c:779-887 | the boot sector's fields are at the byte offsets the format gives them, least significant byte first |
| Mounting.AcceptableMeans | kernel/fs/fat32/fat32.c:779-887 | the boot sectors accepted, and those answered NOT_FAT32, in byte offsets and numbers; the geometry stored, with the number of clusters the data area holds |
| Geometry.DataIndexInjective | kernel/fs/fat32/fat32.c:890-928 | distinct sectors of distinct clusters never share a place on the disk |
| Geometry.ClusterToLbaPlaces | kernel/fs/fat32/fat32.c:890-928 | for a cluster on the volume the address is not 0, does not wrap around, and names that cluster's sectors |
| Geometry.ClusterToLbaIs | kernel/fs/fat32/fat32.c:890-928 | the first sector of cluster c on the volume is data_start + (c - 2) * sectors_per_cluster, behind the reserved sectors and all FATs; for any other c the address is 0 |
| Geometry.DataIndexIs | kernel/fs/fat32/fat32.c:890-928 | sector s of cluster c is (c - 2) * sectors_per_cluster + s sectors into the data area |
| Geometry.FatSectorInjective | kernel/fs/fat32/fat32.c:1003-1103 | sectors of the FAT copies never coincide |
| Geometry.FatSectorIs | kernel/fs/fat32/fat32.c:1003-1103 | sector o of FAT copy k is fat_start + k * fat_size + o |
| Geometry.ByteSector | kernel/fs/fat32/fat32.c:2556-2582 | dividing a byte position by the cluster size and the rest by 512 leads to the same cluster, sector and offset as dividing by 512 first |
| Geometry.QuotIsDivision | kernel/fs/fat32/fat32.c:438-470 | the quotient and remainder used in the addressing are those of integer division |
| Volumes.DataWriteView | kernel/fs/fat32/fat32.c:890-928 | a block write to a data sector changes that sector of the view and leaves FATs, mirroring and reserved bits alone |
| Bytes.WriteU32 | kernel/fs/fat32/fat32.c:375-384 | the four byte stores put the little-endian field there and change nothing else |
| Bytes.WriteU16 | kernel/fs/fat32/fat32.c:395-402 | the two byte stores put the little-endian field there and change nothing else |
| Bytes.PutGet32 | kernel/fs/fat32/fat32.c:366-384 | a 32-bit field written and read back is the value written |
| Bytes.PutGet16 | kernel/fs/fat32/fat32.c:386-402 | a 16-bit field written and read back is the value written |
| FatTable.ReadFatEntry | kernel/fs/fat32/fat32.c:931-1001 | gives the 28-bit value of copy 0 for a cluster on the volume, an error otherwise |
| DiskLayout.RawEntryOnDisk | kernel/fs/fat32/fat32.c:931-1103 | an entry of any copy is the four bytes 4 * c into that copy, least significant first |
| DiskLayout.FatOnDisk | kernel/fs/fat32/fat32.c:931-1001 | the value the file system takes for cluster c is the low 28 bits of those bytes in the first copy |
| FatTable.WriteFatEntry | kernel/fs/fat32/fat32.c:1003-1103 | changes the abstract map at that one cluster, at the first block write already; keeps the top four bits and every other 32-bit entry in every copy, the mirroring, and every sector outside the FATs |
| FatTable.CopiesView | kernel/fs/fat32/fat32.c:1082-1100 | after one or more copies are written the view has changed at exactly one cluster |
| FatTable.CopiesMirrored | kernel/fs/fat32/fat32.c:1082-1100 | once all copies are written, mirrored FATs are mirrored again and only the one entry's low 28 bits have changed |
| FatTable.CopiesEntry | kernel/fs/fat32/fat32.c:1082-1100 | what each entry of each copy is after the first n copies are written |
| FatTable.PatchedSectorEntries | kernel/fs/fat32/fat32.c:1065-1080 | replacing one entry in a FAT sector leaves the other 127 as they were |
| Chains.DistinctBound | kernel/fs/fat32/fat32.c:1341-1418 | distinct clusters cannot outnumber the clusters of the volume |
| Chains.PathLength | kernel/fs/fat32/fat32.c:1341-1418 | an acyclic chain is short enough for the cluster-index check of the walk |
| Chains.ChainUnique | kernel/fs/fat32/fat32.c:1146-1236 | a first cluster has at most one chain |
| Chains.ChainCut | kernel/fs/fat32/fat32.c:3140-3160 | marking a cluster as last leaves exactly the clusters up to it |
| Chains.ChainExtend | kernel/fs/fat32/fat32.c:1536-1566 | linking a marked cluster behind the last one makes the chain one longer |
| Chains.ChainFrame | kernel/fs/fat32/fat32.c:1146-1236 | a chain none of whose entries changed is still a chain |
| Chains.FreeNotOnChain | kernel/fs/fat32/fat32.c:1420-1510 | a free cluster is on no chain |
| Chains.WalkChain | kernel/fs/fat32/fat32.c:1341-1418 | the walk along a chain reaches its n-th cluster, and past its end reports the end |
| Chains.WalkTrail | kernel/fs/fat32/fat32.c:1341-1418 | the walk along any run of links, one that goes in circles included, reaches its n-th cluster, and past its end reports whether it was an end mark or a broken link |
| Allocation.NextCluster | kernel/fs/fat32/fat32.c:1146-1236 | follows, ends or refuses exactly as the entry says |
| DiskLayout.LinkMeans | kernel/fs/fat32/fat32.c:1146-1236 | values from 0x0FFFFFF8 on end a chain, 0x0FFFFFF7 and values off the volume break it, any other is the next cluster |
| Allocation.GetClusterAt | kernel/fs/fat32/fat32.c:1341-1418 | ends on every FAT, cyclic ones included, and agrees with the walk along links |
| Allocation.ZeroCluster | kernel/fs/fat32/fat32.c:1105-1144 | all sectors of the cluster are zero, nothing else has changed |
| Allocation.AllocateCluster | kernel/fs/fat32/fat32.c:1420-1510 | takes the lowest free cluster, zeroed and marked last; fails exactly when none is free, and then changes nothing |
| Allocation.AppendCluster | kernel/fs/fat32/fat32.c:1512-1571 | allocates, then links: no boundary shows a link to a free cluster; gives the cluster back when the link cannot be made |
| Freeing.FreeWalkPath | kernel/fs/fat32/fat32.c:3048-3119 | on any FAT the clusters zeroed are those of one path from the head, and the result is OK exactly when that path is a chain |
| Freeing.FreeWalkChain | kernel/fs/fat32/fat32.c:3048-3119 | freeing a chain zeroes all of it and nothing else, and succeeds |
| Freeing.FreeWalkSucceeds | kernel/fs/fat32/fat32.c:3048-3119 | freeing returns OK if and only if its argument heads an acyclic chain that ends in an end mark |
| Freeing.NonZeroUpdate | kernel/fs/fat32/fat32.c:3048-3119 | each step of freeing lowers the number of non-zero entries, which is why it ends on every FAT |
| Freeing.FreeClusterChain | kernel/fs/fat32/fat32.c:3048-3119 | has the effect and the result of that walk, with every boundary between the two FATs |
| Freeing.CutAfterChain | kernel/fs/fat32/fat32.c:3121-3184 | cutting a chain after its k-th cluster keeps exactly the first k + 1 clusters and frees exactly the rest |
| Freeing.FreeClusterChainAfter | kernel/fs/fat32/fat32.c:3121-3184 | cuts first and frees then, so that no boundary shows the kept part linked to a freed cluster |
| Contents.ChainSectorInjective | kernel/fs/fat32/fat32.c:890-928 | distinct sectors of a chain are distinct sectors of the disk |
| DiskLayout.ChainByteOnDisk | kernel/fs/fat32/fat32.c:2536-2582 | byte p of a chain, with p = q * (512 * sectors_per_cluster) + r, is byte r % 512 of sector data_start + (ch[q] - 2) * sectors_per_cluster + r / 512 of the raw disk |
| DiskLayout.ByteOnDiskUnique | kernel/fs/fat32/fat32.c:2536-2582 | and no other byte is there |
| Contents.WriteChainSector | kernel/fs/fat32/fat32.c:2852-3007 | overwriting a sector of a chain splices it into the chain's bytes and does nothing else to them |
| Contents.ChainBytesExtend | kernel/fs/fat32/fat32.c:1512-1571 | a cluster appended to a chain adds zero bytes, so no stale bytes become readable |
| Contents.ChainBytesFrame | kernel/fs/fat32/fat32.c:2852-3007 | a chain none of whose sectors changed holds the same bytes |
| Contents.ChainBytesPrefix | kernel/fs/fat32/fat32.c:3186-3304 | the first clusters of a chain hold its first bytes |
| FileRead.Locate | kernel/fs/fat32/fat32.c:2536-2582 | the sector and offset a file position is read from hold that byte of the chain |
| FileRead.Advance | kernel/fs/fat32/fat32.c:2615-2655 | moving on within a sector stays in the cluster or lands on the start of the next |
| FileRead.ReadLoop | kernel/fs/fat32/fat32.c:2556-2662 | delivers as much of what is wanted as the run of clusters holds, whatever sectors and clusters it crosses, and fails with FAT32_ERROR if that is not all |
| FileRead.Read | kernel/fs/fat32/fat32.c:2491-2662 | on every FAT and for every first cluster: delivers bytes position..position + n of what its run of clusters holds, for the largest n that request, size and clusters allow, and advances by that much; byte for byte these are the raw disk's bytes in the sectors of those clusters; END_OF_FILE at or past the size; if the clusters end too soon it returns FAT32_ERROR after the bytes there are, or at once the status of the walk if the position is past them; the disk is unchanged |
| FileRead.WalkedExists | kernel/fs/fat32/fat32.c:2491-2662 | every first cluster, be it below 2, on the volume or beyond it, has such a run of clusters to read from, whatever the FAT holds |
| FileRead.Addressed | kernel/fs/fat32/fat32.c:2556-2590 | the address a position is read from holds that part of those bytes; for a cluster beyond the volume that is the start of the disk |
| FileRead.StoresNotPast | kernel/fs/fat32/fat32.c:2491-2662 | on a chain with room for the file's size no read fails for want of clusters, and what is delivered is the file's content |
| ShellRead.ReadChunks | kernel/lib/shell.c:335-385 | reads through a buffer of any size concatenate to the whole file |
| ShellRead.ReadFile | kernel/lib/shell.c:312-385 | what rd puts out for a path is what the path's file holds in the tree of names; a path that leads to no file is refused |
| Slots.SlotsOfSplice | kernel/fs/fat32/fat32.c:410-591 | replacing 32 bytes of a directory at a multiple of 32 replaces that slot and no other |
| Slots.EntrySlotFields | kernel/fs/fat32/fat32.c:1875-1917 | a slot written whole has the name, attributes, first cluster and size it was given |
| Slots.ExtentSlotFields | kernel/fs/fat32/fat32.c:547-576 | rewriting first cluster and size leaves name, attributes and all other bytes alone |
| Slots.SizedSlotFields | kernel/fs/fat32/fat32.c:669-676 | rewriting the size leaves all other bytes, the first cluster among them, alone |
| SlotLayout.SlotMeans | kernel/fs/fat32/fat32.c:3407-3519 | what a slot is, in byte values: never used (0x00) or deleted (0xE5), part of a long name (0x0F), a label (bit 3), . or .., else live, and a directory by bit 4 |
| SlotLayout.ExtentMeans | kernel/fs/fat32/fat32.c:529-576 | cluster at 26 and 20, size at 28, least significant byte first |
| SlotLayout.EntryMeans | kernel/fs/fat32/fat32.c:1875-1917 | every byte of a slot written whole |
| SlotLayout.RewriteMeans | kernel/fs/fat32/fat32.c:529-686 | rewriting cluster and size, the size alone, or the deleted mark changes those bytes, to those values, and no other |
| SlotStore.LocateSlot | kernel/fs/fat32/fat32.c:438-510 | a slot's running index leads to the sector of the directory's chain that holds it, for every chain and cluster size |
| SlotStore.LoadSlot | kernel/fs/fat32/fat32.c:438-539 | the 32 bytes at the computed offset are the slot with that running index |
| SlotStore.UpdateFileEntry | kernel/fs/fat32/fat32.c:410-591 | the handle's slot gets its first cluster and size; no other slot changes |
| SlotStore.UpdateEntrySize | kernel/fs/fat32/fat32.c:593-686 | that slot gets the size; no other byte of the directory changes |
| SlotStore.DeleteEntry | kernel/fs/fat32/fat32.c:4023-4117 | that slot's first byte becomes the deleted mark; nothing else changes |
| SlotStore.WriteEntryData | kernel/fs/fat32/fat32.c:1791-1927 | that slot becomes the new entry; nothing else changes |
| TreeSteps.RecordInSector | kernel/fs/fat32/fat32.c:1816-1873 | the 32 bytes where division of a running index leads are that slot of the directory's bytes |
| TreeSteps.WithSlotEffect | kernel/fs/fat32/fat32.c:1816-1927 | replacing one slot changes that directory at that slot and no other chain's bytes |
| Trees.Untouched | kernel/fs/fat32/fat32.c:1420-1571 | changes that touch no chain's entries and no directory's sectors keep every condition on the tree |
| TreeUnique.TreeDetermined | kernel/fs/fat32/fat32.c:1146-1236 | a view determines its tree: chains, directories and foreign clusters are not a matter of choice |
| TreeUnique.LeakIsForGood | kernel/fs/fat32/fat32.c:1420-1510 | a chain that no live entry names is lost: in every tree for which the volume is well formed its head belongs to no chain |
| TreeUnique.OrphanIsLost | kernel/fs/fat32/fat32.c:1420-1510 | with a chain that nobody names, no tree that counts no cluster as foreign that was not makes the volume well formed |
| TreeChains.TookSafe | kernel/fs/fat32/fat32.c:1463-1484 | a cluster just taken belongs to nobody, so a safe volume stays safe at every boundary of the allocation |
| TreeChains.LongerChain | kernel/fs/fat32/fat32.c:1532-1550 | linking a taken cluster behind a file's chain makes that chain one longer, leaves every slot and every other chain, and every cluster is accounted for |
| TreeChains.GrewSafe | kernel/fs/fat32/fat32.c:1420-1571 | chains of files that begin or grow keep a safe volume safe |
| TreeChains.NewChain | kernel/fs/fat32/fat32.c:2757-2775 | a taken cluster may become a chain of its own that no entry names yet |
| TreeChains.CutChain | kernel/fs/fat32/fat32.c:3148-3183 | a file's chain cut after its k-th cluster leaves a sound volume whatever has become of the rest |
| TreeChains.CutAccounted | kernel/fs/fat32/fat32.c:3148-3183 | once the rest is zeroed every cluster is accounted for again |
| TreeNames.Named | kernel/fs/fat32/fat32.c:1875-1927 | writing an entry for a chain nobody names yet, or a new extent of its own, keeps every condition |
| TreeNames.Removed | kernel/fs/fat32/fat32.c:4180-4208 | marking an entry deleted takes its chain, and whatever hangs below it, out of the tree before a single cluster is freed |
| TreeNames.SubtreeSevered | kernel/fs/fat32/fat32.c:4335-4444 | removing a directory severs exactly what hangs below it, whether or not it was empty |
| TreeNames.SubtreeUnnamed | kernel/fs/fat32/fat32.c:4335-4444 | the chain of a live entry of a removed directory is left without a name |
| TreeNames.DeadPut | kernel/fs/fat32/fat32.c:1875-1927 | a dead entry in the first free slot changes nothing the tree conditions know of |
| TreeNames.DisownedWell | kernel/fs/fat32/fat32.c:1420-1510 | a chain that nobody names, counted as foreign, leaves a well-formed volume |
| TreeNames.AdoptedShape | kernel/fs/fat32/fat32.c:2757-2775 | a run of foreign clusters that is a chain can be taken into the tree again, with no other chain or slot changed |
| LooseSlots.RecordedWell | kernel/fs/fat32/fat32.c:410-591 | where all but one file entry is in order, rewriting that entry, whatever it said, for a chain that nobody names makes the volume well formed, with no other slot changed |
| LooseSlots.LooseSettled | kernel/fs/fat32/fat32.c:410-591 | where all but one file entry is in order, a tree with the same foreign clusters fits the volume as it stands if and only if that entry happens to name the chain that waits for it, with a size that fits, or no chain if none waits |
| LooseSlots.GrewBut | kernel/fs/fat32/fat32.c:2757-2844 | that all but one file entry is in order survives every growth of that file's chain |
| TreeNames.BeingFreed | kernel/fs/fat32/fat32.c:4180-4208 | while the chain is freed nothing the rest of the tree knows is touched |
| TreeNames.FreedAccounted | kernel/fs/fat32/fat32.c:3048-3119 | when the whole chain is zeroed every cluster is accounted for again |
| TreeNames.Renamed | kernel/fs/fat32/fat32.c:4605-4634 | after the new entry is written two entries share the chain, safely; after the old one is deleted the volume is well formed with the file at its new place |
| Formatted.EmptyIsGood | kernel/fs/fat32/fat32.c:1420-1510 | a freshly formatted volume meets every condition, and its tree of names is a root without names |
| Formatted.EmptyExists | kernel/fs/fat32/fat32.c:779-887 | for every valid geometry there is such a volume |
| Formatted.EmptyFree | kernel/fs/fat32/fat32.c:1420-1510 | on it every cluster but the root's is free |
| Formatted.Format | kernel/fs/fat32/fat32.c:1003-1103 | from a disk of zeros, one FAT write makes such a volume, ready for every operation |
| FileWrite.WriteLoop | kernel/fs/fat32/fat32.c:2849-3007 | splices the input into the chain's bytes across full and partial sectors and clusters; at every boundary only that chain's data has changed |
| FileWrite.PieceInChain | kernel/fs/fat32/fat32.c:2895-2975 | a partial sector read, patched and written back is a splice of those bytes and nothing more |
| FileWrite.EnsureChain | kernel/fs/fat32/fat32.c:2792-2844 | succeeds if and only if as many clusters are free as the chain lacks; the chain is then as long as it was or as the write needs, whichever is more; on failure no cluster is free; at every boundary the chain has grown and nothing else has changed |
| FileWrite.AppendBoundary | kernel/fs/fat32/fat32.c:1512-1571 | every boundary inside an append shows the chain as it was until the link is made, and then one longer |
| FileWrite.PutBytes | kernel/fs/fat32/fat32.c:2792-3007 | room for the whole write, then the bytes: the file shows old[..pos] + input + the rest of old |
| FileWrite.Recording | kernel/fs/fat32/fat32.c:3009-3040 | recording first cluster and size completes the write, whatever the entry said of them before: well formed, one slot changed, no other file touched |
| FileWrite.RecordWrite | kernel/fs/fat32/fat32.c:3009-3046 | rewrites the entry exactly if its extent changed, also if a write that failed has left a first cluster the entry does not know |
| FileWrite.WriteFrom | kernel/fs/fat32/fat32.c:2792-3046 | a write to a file that has its first cluster: success if and only if enough clusters are free, and then a splice and a well-formed volume, even if the entry did not name the chain; failure leaves every file as it was and the handle as ready as it was |
| FileWrite.Write | kernel/fs/fat32/fat32.c:2664-3046 | the status for every request, in plain numbers too: a write of n > 0 bytes to a file succeeds if and only if position <= size, position + n <= 0xFFFFFFFF and as many clusters are free as the file's chain lacks; then content becomes old[..pos] + input + old[min(pos + n, size)..], position pos + n, the entry agrees with the handle, the chain has max(old length, clusters needed) clusters, the volume is well formed, and no FAT entry off the chain, no other slot and no other file's byte changes; all this also for a handle whose entry a truncation to 0 has left naming a freed cluster; a failure leaves every file's bytes as they were, and a chain that no entry names if and only if there was one before or the file had no cluster and some cluster was free; the handle is ready for the next write in every case; every boundary is consistent unless the volume was not so before |
| FileWrite.WriteStatusMeans | kernel/fs/fat32/fat32.c:2664-2775 | a write of n > 0 bytes is granted if and only if position <= size, position + n <= 0xFFFFFFFF, and position + n bytes fit the file's clusters and the free ones together |
| FileWrite.WrittenOnDisk | kernel/fs/fat32/fat32.c:2849-3007 | after a write the raw disk holds the input from the position on in the file's clusters, and everywhere else what the file held |
| FileWrite.GrownMeans | kernel/fs/fat32/fat32.c:2792-2844 | and the file's chain is as long as it was, or as short as the new end of the file allows, with its old clusters first |
| FileWrite.ReadyMeans | kernel/fs/fat32/fat32.c:2724-2775 | a handle whose entry agrees with it, with every chain named, is one on a well-formed volume; with a chain not named, no tree with the same foreign clusters fits the volume |
| FileWrite.ReadyKept | kernel/fs/fat32/fat32.c:2792-3007 | growing its chain and writing into it leaves a file ready as it was, with its entry right, not yet told of its chain, or left behind by a truncation to 0 |
| Truncating.CutFile | kernel/fs/fat32/fat32.c:3249-3285 | finds the cluster of the last byte kept and frees exactly what follows; sound at every boundary |
| Truncating.CutConsistent | kernel/fs/fat32/fat32.c:3249-3285 | while the chain is cut and the old size still stands, some tree is safe for the volume if and only if that size fits the clusters kept |
| Truncating.SizeRecorded | kernel/fs/fat32/fat32.c:3287-3303 | recording the smaller size makes the volume well formed again, with one slot changed |
| Truncating.TruncateTo | kernel/fs/fat32/fat32.c:3249-3304 | content[..size], the first ceil(size / cluster size) clusters kept, the rest free, position clamped, nothing else changed; every boundary sound, and all consistent if and only if the old size fits the clusters kept |
| Truncating.TruncateToZero | kernel/fs/fat32/fat32.c:3217-3247 | the chain is freed and the size zeroed, but the first-cluster field still names the freed chain |
| Truncating.ZeroUnsound | kernel/fs/fat32/fat32.c:3217-3247 | after truncating a file with bytes to 0 no tree at all is sound for the volume: an entry names a free cluster |
| Truncating.Truncate | kernel/fs/fat32/fat32.c:3186-3304 | the outcome in every case; the volume is well formed afterwards if and only if the new size is positive or the old one was 0; a smaller positive size passes through consistent boundaries only if and only if the old size fits the clusters kept; after a truncation to 0 the handle is ready to write |
| Truncating.KeptMeans | kernel/fs/fat32/fat32.c:3249-3285 | the chain keeps its first clusters, as few as hold the file, and the others are free |
| Truncating.ZeroStale | kernel/fs/fat32/fat32.c:3217-3247 | after a truncation to 0 the one entry is all that is amiss |
| Truncating.Refill | kernel/fs/fat32/fat32.c:3018-3024 | after a truncation to 0 no tree fits the volume; a write through the same handle succeeds if and only if enough clusters are free, and then records them: the volume is well formed again, the file reads as the input, and nothing else has changed; after a write that fails it is so if and only if the cluster taken first is the one the entry still names |
| Names83.MakeName83 | kernel/fs/fat32/fat32.c:1582-1668 | succeeds exactly for a base of at most 8 and an extension of at most 3 characters, and yields their padded upper case |
| Names83.MakeDisplayName | kernel/fs/fat32/fat32.c:236-291 | writes as much of the dotted form as the buffer has room for, and a zero, into a buffer of any size; nothing into one of size 0 |
| Names83.DisplayThenEncode | kernel/fs/fat32/fat32.c:236-291 | storing what is shown of a canonical stored name gives the stored name back |
| Names83.EncodeThenDisplay | kernel/fs/fat32/fat32.c:1582-1668 | a name survives storing and showing, up to case, if and only if it has no space and does not end in its first dot |
| Names83.EncodeIgnoresCase | kernel/fs/fat32/fat32.c:1582-1668 | case does not matter to what is stored |
| Names83.EncodeInjective | kernel/fs/fat32/fat32.c:1582-1668 | two such names are stored alike if and only if they match ignoring case |
| SlotLayout.AcceptedMeans | kernel/fs/fat32/fat32.c:1582-1668 | a name can be stored if and only if at most eight characters stand before its first dot and at most three behind it |
| SlotLayout.EncodeMeans | kernel/fs/fat32/fat32.c:1582-1668 | each of the eleven bytes it is stored as |
| SlotLayout.DisplayMeans | kernel/fs/fat32/fat32.c:236-291 | what is shown of a stored name, whatever its bytes |
| SlotLayout.FoldIsUppercase | kernel/fs/fat32/fat32.c:2196-2235 | long names match ignoring the same differences in case that short names are stored without |
| LongNames.LfnWriteChars | kernel/fs/fat32/fat32.c:300-343 | lays a fragment's characters where its number says, as far as the declared size reaches, and without bound if that is 0, ignoring fragment 0 |
| LongNames.InlinedFragment | kernel/fs/fat32/fat32.c:2064-2149 | the copy inlined in the lookup does the same, although its position for fragment 0 wraps around |
| LongNames.WrappedPosition | kernel/fs/fat32/fat32.c:2064-2090 | a position just below zero wraps around to far behind the name buffer |
| LongNames.FindFirst | kernel/fs/fat32/fat32.c:1947-2293 | a lookup finds a match that is there, or an earlier one |
| LongNames.FindNone | kernel/fs/fat32/fat32.c:1947-2293 | if a lookup finds nothing, nothing in the directory matches |
| LongNames.ReportedIsFound | kernel/fs/fat32/fat32.c:3407-3519 | a name readdir reports, from a long name or a canonical short one, is found by the lookup at that slot or at an earlier match |
| LongLayout.LongNameReported | kernel/fs/fat32/fat32.c:300-343 | a name of up to 255 16-bit characters, laid out in slots as the FAT specification says, is what readdir reports for the entry behind them: in full if it is ASCII, with ? for other characters |
| LongLayout.LongNameFound | kernel/fs/fat32/fat32.c:1947-2293 | and a lookup of it, in any case, leads to that entry or to an earlier match |
| LongLayout.FragmentMeans | kernel/fs/fat32/fat32.c:300-343 | what a fragment of any kind puts into a buffer, position by position |
| LongLayout.AfterSlotMeans | kernel/fs/fat32/fat32.c:2023-2177 | what any slot does to the long name put together so far |
| SlotLayout.FindMeans | kernel/fs/fat32/fat32.c:1947-2293 | a lookup finds a slot if and only if it is the first in use, before the first never-used one, that matches by long name or short name |
| SlotLayout.FoldMeans | kernel/fs/fat32/fat32.c:2196-2235 | two texts match if and only if they are of one length and differ in the case of ASCII letters at most |
| Lookup.ExamineSlot | kernel/fs/fat32/fat32.c:1999-2251 | one slot: end, match or go on, with the long-name machine in the same state as the reader's |
| Lookup.EqualNames | kernel/fs/fat32/fat32.c:2196-2235 | the comparison loop decides equality ignoring case |
| Lookup.FindInDirectory | kernel/fs/fat32/fat32.c:1947-2293 | cluster, size, kind and 32-bit running index of the first matching slot before the end of the directory, or not found |
| DirScan.SectorSlots | kernel/fs/fat32/fat32.c:1709-1787 | the sector a scan reads holds the slots its running index says |
| DirScan.FindFreeEntry | kernel/fs/fat32/fat32.c:1694-1789 | the lowest free slot, by its 32-bit running index; failure means there is none |
| Paths.SplitParentPath | kernel/fs/fat32/fat32.c:133-234 | parent and name of a path, for buffers of any size, by the positions of its slashes; refused exactly for paths too long, without a slash or a name behind it, or too big for the buffers |
| Paths.SplitIntoIs | kernel/fs/fat32/fat32.c:133-234 | a path with a slash at k, a name up to e and slashes behind is cut into path[..k] and path[k + 1..e], or into / and the name if k is 0, unless it has 256 characters or a part does not fit its buffer |
| Paths.SplitIntoWhen | kernel/fs/fat32/fat32.c:133-234 | for buffers of any sizes a path is cut if and only if there are such k and e and both parts fit |
| Paths.SplitWhen | kernel/fs/fat32/fat32.c:133-234 | with buffers of 256 bytes: if and only if it has less than 256 characters and somewhere behind a slash one that is none |
| Paths.SplitAbsolute | kernel/fs/fat32/fat32.c:133-234 | an absolute path: if and only if it has at most 255 characters and some component |
| Paths.ComponentsSnoc | kernel/fs/fat32/fat32.c:2295-2442 | one component appended behind a slash is one more component at the end |
| Paths.ComponentsJoin | kernel/fs/fat32/fat32.c:2295-2442 | the components of two paths with a slash between them are those of the one and those of the other |
| Paths.ComponentsLong | kernel/fs/fat32/fat32.c:2357-2378 | a component of more than 255 characters is taken in pieces of 255 |
| Paths.SplitComponents | kernel/fs/fat32/fat32.c:133-234 | the components of a path are those of its parent and its name, with repeated and trailing slashes |
| Paths.FollowSnoc | kernel/fs/fat32/fat32.c:2295-2442 | following one more component is looking it up where the others led |
| Paths.FollowStep | kernel/fs/fat32/fat32.c:2295-2442 | one component more, with every status: a failure stays what it was, a file is NOT_A_DIRECTORY, a name that is not there NOT_FOUND |
| Paths.SplitResolve | kernel/fs/fat32/fat32.c:2295-2442 | resolving a path is resolving its parent and looking the name up there, with the same outcome in every case |
| Resolving.FoundIsLive | kernel/fs/fat32/fat32.c:1947-2293 | a lookup never answers with . or .., whatever is asked for |
| Resolving.FollowSound | kernel/fs/fat32/fat32.c:2295-2442 | in a sound tree a path leads to one of its directories or to a live, properly linked entry |
| Resolving.ExtractComponent | kernel/fs/fat32/fat32.c:2357-2378 | the component taken from the path, at most 255 characters of it |
| Resolving.ResolvePath | kernel/fs/fat32/fat32.c:2295-2442 | the outcome that following the components from the root says, for every path |
| Resolving.Open | kernel/fs/fat32/fat32.c:2444-2489 | a handle on exactly the entry the path leads to, if that is a file |
| Listing.OpenDir | kernel/fs/fat32/fat32.c:3306-3356 | a handle on the first slot of the directory the path leads to |
| Listing.ExamineDirSlot | kernel/fs/fat32/fat32.c:3391-3545 | one slot: end, skip, or report under the name due; the long-name state moves on as the machine says |
| Listing.Readdir | kernel/fs/fat32/fat32.c:3358-3601 | reports the next live slot in order with its name, kind and size, END_OF_FILE when none is left, and from then on |
| Listing.NextVisibleMeans | kernel/fs/fat32/fat32.c:3358-3601 | the slot reported next is the first live one, if no never-used slot stands before it |
| Listing.ListedAll | kernel/fs/fat32/fat32.c:3358-3601 | a whole listing has each live entry exactly once, in slot order |
| Listing.ListAll | kernel/lib/shell.c:229-310 | the ls loop collects the names of exactly those entries |
| EmptyDirs.DirectoryIsEmpty | kernel/fs/fat32/fat32.c:4211-4333 | true exactly if every slot before the first never-used one is free, part of a long name, or starts with a dot followed by a space or a dot; for every content of the directory |
| SlotLayout.LooksEmptyMeans | kernel/fs/fat32/fat32.c:4211-4333 | the same in byte values |
| EmptyDirs.EmptyMeans | kernel/fs/fat32/fat32.c:4211-4333 | without labels and live names that start with a dot, the answer is true if and only if nothing is live, and if and only if the first readdir is END_OF_FILE |
| EmptyDirs.LooksEmptyIsRight | kernel/fs/fat32/fat32.c:4211-4333 | on every sequence of slots, the answer agrees with the first readdir (END_OF_FILE or not) if and only if something live is there whose name does not begin with two dots, or a volume label is in use exactly when there is a live name with two dots |
| EmptyDirs.LooksEmptyWhen | kernel/fs/fat32/fat32.c:4211-4333 | on every sequence of slots, the answer is yes if and only if there is neither a live name without two dots nor a volume label |
| EmptyDirs.PassedOver | kernel/fs/fat32/fat32.c:4294-4302 | a file called ..A is passed over, so a directory that holds it alone looks empty; beside a file called B it does no harm |
| EmptyDirs.LabelCounts | kernel/fs/fat32/fat32.c:4286-4310 | a directory with nothing but a volume label in it is called not empty |
| Plans.OldPlaceResolves | kernel/fs/fat32/fat32.c:4119-4209 | the entry an operation is about is the one the whole path resolves to, and what refuses it refuses the path |
| Plans.NewPlaceIsNew | kernel/fs/fat32/fat32.c:3603-3730 | a new entry goes where the path led to nothing |
| PlanMeanings.ParentOfMeans | kernel/fs/fat32/fat32.c:2295-2442 | the parent of an absolute path is where its components but the last lead, with the status that refuses it |
| PlanMeanings.NewPlaceMeans | kernel/fs/fat32/fat32.c:3603-3730 | a new entry is granted if and only if its name can be stored, nothing there matches it and a slot is free, and goes to the lowest such slot |
| PlanMeanings.OldPlaceMeans | kernel/fs/fat32/fat32.c:4119-4209 | an entry that is to be there: the slot a lookup finds, or NOT_FOUND |
| PlanMeanings.RemovalMeans | kernel/fs/fat32/fat32.c:4119-4444 | remove takes files only, rmdir directories that look empty, each refusal with its status |
| Plans.NewEntryLive | kernel/fs/fat32/fat32.c:3846-4021 | an entry as create, mkdir and rename write it is live if and only if its name does not begin with the byte 0xE5 |
| Plans.FindNew | kernel/fs/fat32/fat32.c:3603-3730 | the first free slot, filled with an entry for a name not found before, is where that name is found |
| Plans.NewEntryResolves | kernel/fs/fat32/fat32.c:3603-3730 | after create or mkdir the path resolves to the new entry |
| DeadNames.FindDead | kernel/fs/fat32/fat32.c:1947-2293 | no lookup sees an entry whose name begins with 0xE5 |
| DeadNames.FollowDead | kernel/fs/fat32/fat32.c:2295-2442 | nor does any path lead anywhere else than before it was written |
| DeadNames.DeadEntryMissing | kernel/fs/fat32/fat32.c:3603-3730 | after create or mkdir under such a name the path leads nowhere |
| DeadNames.FollowMissing | kernel/fs/fat32/fat32.c:4446-4639 | a path that leads nowhere still does when a file's entry is deleted |
| Plans.HeldAfterDelete | kernel/fs/fat32/fat32.c:4095-4117 | deleting an entry changes no long name put together elsewhere in the directory |
| Plans.FollowCleared | kernel/fs/fat32/fat32.c:4119-4209 | after a removal every path to another entry still leads there |
| Locating.FindParent | kernel/fs/fat32/fat32.c:3603-3660 | the directory and name a path splits into, or the status that refuses it |
| Locating.PlaceNew | kernel/fs/fat32/fat32.c:3603-3700 | where a new entry goes and under which stored name, or the status that refuses it |
| Locating.FindOld | kernel/fs/fat32/fat32.c:4119-4170 | the live entry a path names, or the status that refuses it |
| Creating.Created | kernel/fs/fat32/fat32.c:3603-3730 | creating a file adds an empty file to an otherwise unchanged tree, found under its path; under a name that begins with 0xE5 it changes nothing a path shows |
| Creating.CreateFile | kernel/fs/fat32/fat32.c:3603-3730 | the outcome NewPlace decides; on success one slot has changed, the volume is well formed, and the path leads to the handle's entry if and only if the name does not begin with 0xE5, otherwise nowhere; on failure nothing has changed |
| TreeLayout.NewEntryMeans | kernel/fs/fat32/fat32.c:3603-4639 | create and rename write an entry with attribute 0x20, mkdir one with 0x10, with the stored name, the cluster and the size, and zeros elsewhere |
| TreeLayout.NameInMeans | kernel/fs/fat32/fat32.c:133-234 | the name an operation stores is what stands behind the path's last slash, slashes at its end aside |
| MakingDirs.InitializeDirectory | kernel/fs/fat32/fat32.c:3732-3844 | the first sector holds . and .. with their clusters, and nothing else changes |
| MakingDirs.FreshDirFacts | kernel/fs/fat32/fat32.c:3732-3844 | a new directory is an empty map, and both ways of asking say it is empty |
| TreeLayout.FreshDirMeans | kernel/fs/fat32/fat32.c:3732-3844 | a new directory begins with entries . and .., of the directory attribute, naming its own cluster and its parent's, with size 0 and zeros behind |
| TreeLayout.DotsAfterMkdir | kernel/fs/fat32/fat32.c:3846-4021 | mkdir leaves such a directory |
| MakingDirs.DirectoryReady | kernel/fs/fat32/fat32.c:3992-4005 | before the parent's entry is written the new directory is a sound part of the tree that nobody names |
| MakingDirs.DirectoryNamed | kernel/fs/fat32/fat32.c:3992-4005 | the parent's entry makes the volume well formed |
| MakingDirs.MadeIsFound | kernel/fs/fat32/fat32.c:3846-4021 | the path leads to the new directory |
| MakingDirs.MadeOrphan | kernel/fs/fat32/fat32.c:3846-4021 | under a name that begins with 0xE5 nobody names the cluster taken |
| MakingDirs.Mkdir | kernel/fs/fat32/fat32.c:3846-4021 | the outcome NewPlace decides, except that a full volume is refused too; one cluster is taken, one slot written, . and .. in place; the path leads to the directory, and the volume is well formed with no more foreign clusters than before, if and only if the name does not begin with 0xE5; all boundaries consistent; on failure nothing has changed |
| Removing.Released | kernel/fs/fat32/fat32.c:3048-3119 | once the chain is free every directory left is as it was, and if nothing with a chain hung below the entry the volume is well formed again |
| Removing.WellFormedAgain | kernel/fs/fat32/fat32.c:4335-4444 | the volume is well formed again, with no more foreign clusters than before, if and only if no live entry of the removed directory had a chain |
| Removing.ReleaseBoundary | kernel/fs/fat32/fat32.c:4180-4208 | every boundary while the chain is released is consistent |
| Removing.DeleteAndFree | kernel/fs/fat32/fat32.c:4180-4208 | the entry is marked deleted before its chain is freed; nothing else changes but what a removed directory takes along; every boundary consistent; well formed afterwards if and only if no live entry below had a chain |
| Removing.RemoveFile | kernel/fs/fat32/fat32.c:4119-4209 | the outcome RemovePlace decides; that entry and its chain are gone, nothing else has changed, every boundary is consistent; on failure nothing has changed |
| Removing.RemoveDirectory | kernel/fs/fat32/fat32.c:4335-4444 | the outcome RemoveDirectoryPlace decides; the directory's entry and chain are gone with every boundary consistent, and the volume is well formed again, with no more foreign clusters than before, if and only if no live entry that was passed over had a chain |
| Removing.RootRefused | kernel/fs/fat32/fat32.c:4359-4363 | the test for / refuses only what the split has refused already |
| Renaming.MovedIsFound | kernel/fs/fat32/fat32.c:4446-4639 | after a rename the new path leads to the entry |
| Renaming.RenameWhole | kernel/fs/fat32/fat32.c:4605-4634 | both writes of a rename: safe in between, well formed afterwards |
| Renaming.RenameLost | kernel/fs/fat32/fat32.c:4605-4634 | both writes of a rename to a name that begins with 0xE5: safe in between, and afterwards nobody names the file's chain |
| Renaming.RenameFile | kernel/fs/fat32/fat32.c:4446-4639 | the outcome RenameMove decides; the entry has moved with its first cluster and size, no chain, byte or other slot has changed, both boundaries are consistent; the new path leads to the file if and only if the name does not begin with 0xE5, and the volume is well formed with no more foreign clusters than before if and only if that is so or the file has no chain; on failure nothing has changed |
| NameMaps.NoLongNames | kernel/fs/fat32/fat32.c:1947-2293 | in a directory without long-name slots no long name is ever put together |
| NameMaps.FindIsLookup | kernel/fs/fat32/fat32.c:1947-2293 | there a lookup is map lookup by the stored form of the name |
| NameMaps.AddBinding | kernel/fs/fat32/fat32.c:1694-1927 | an entry put into the first free slot adds one binding and keeps all directory conditions |
| NameMaps.RemoveBinding | kernel/fs/fat32/fat32.c:4023-4117 | deleting an entry removes its binding and keeps all directory conditions |
| NameMaps.UpdateBinding | kernel/fs/fat32/fat32.c:410-591 | rewriting an entry under its own name rebinds that name and keeps all directory conditions |
| Directories.CreateAddsBinding | kernel/fs/fat32/fat32.c:3603-3730 | create adds exactly one binding, to an empty file |
| Directories.MkdirAddsBinding | kernel/fs/fat32/fat32.c:3846-4021 | mkdir adds exactly one binding, to a new directory without bindings |
| Directories.RemoveDropsBinding | kernel/fs/fat32/fat32.c:4119-4209 | remove and rmdir delete exactly the binding of the path's last name |
| Directories.RemovedPathGone | kernel/fs/fat32/fat32.c:4119-4209 | afterwards the path leads nowhere |
| Directories.RenameMovesBinding | kernel/fs/fat32/fat32.c:4446-4639 | rename moves one binding, within a directory or between two, keeping first cluster and size |
| Directories.ExtentKeepsBindings | kernel/fs/fat32/fat32.c:410-591 | write and truncate rebind the file's own name to an entry that differs in first cluster and size only |
| Directories.ListingIsBindings | kernel/fs/fat32/fat32.c:3358-3601 | a whole listing names each binding exactly once |
| TreeSight.ResolveSeen | kernel/fs/fat32/fat32.c:2295-2442 | paths lead to the same places on the volume and in the tree of named byte strings |
| TreeSight.NewSeen | kernel/fs/fat32/fat32.c:3603-3730 | a place for a new entry is a name not yet bound; the only further reason for refusal is a full directory |
| TreeSight.OldSeen | kernel/fs/fat32/fat32.c:4119-4209 | the entry an operation is about is the name the tree binds, and stands for the same node |
| FileTree.NodeStays | kernel/fs/fat32/fat32.c:2852-3007 | an entry whose chain an operation does not own stands for the same bytes afterwards |
| FileTree.ModelPut | kernel/fs/fat32/fat32.c:410-591 | a change at one slot and one chain is the rebinding of one name and nothing else |
| FileTree.ModelDrop | kernel/fs/fat32/fat32.c:4119-4209 | taking one entry away unbinds one name and leaves every other node as it was |
| TreeLayout.SlotOnDisk | kernel/fs/fat32/fat32.c:1816-1873 | byte k of slot i of a directory is byte 32 * i + k of its clusters on the raw disk |
| TreeLayout.NamesMean | kernel/fs/fat32/fat32.c:3358-3601 | the names of a directory in the tree are the first eleven bytes of its live slots |
| TreeLayout.NodesMean | kernel/fs/fat32/fat32.c:2491-2662 | a name stands for a directory, by its cluster field, or for as many bytes as its size field says, which are on the raw disk in the chain of its cluster field |
| Meanings.SeekMeans | kernel/fs/fat32/fat32.c:2295-2442 | following a path in the tree of names, name by name, with every status |
| Meanings.ParentMeans | kernel/fs/fat32/fat32.c:133-234 | an absolute path of at most 255 characters leads, but for its last name, to the parent directory |
| Meanings.WayRefused | kernel/fs/fat32/fat32.c:3603-4444 | what refuses that way refuses create, mkdir, remove and rmdir, with the same status; every other path is refused with FAT32_ERROR |
| Meanings.NewMeans | kernel/fs/fat32/fat32.c:3603-4021 | create and mkdir bind the name if and only if it can be stored and is not bound |
| Meanings.RemoveMeans | kernel/fs/fat32/fat32.c:4119-4209 | remove unbinds a file's name, with NOT_FOUND and NOT_A_FILE for anything else |
| Meanings.RemoveDirectoryMeans | kernel/fs/fat32/fat32.c:4335-4444 | rmdir unbinds an empty directory's name, with NOT_FOUND, NOT_A_DIRECTORY and DIRECTORY_NOT_EMPTY for anything else |
| Meanings.RenameMeans | kernel/fs/fat32/fat32.c:4446-4639 | rename: the old name must be a file's, then the new one must be free, with the status of what fails first |
| Meanings.MovedMeans | kernel/fs/fat32/fat32.c:4446-4639 | a rename moves one node: every name of every directory afterwards |
| Meanings.RenameRefused | kernel/fs/fat32/fat32.c:4446-4639 | a way refused refuses the rename, the old path's first |
| Meanings.FileMeans | kernel/fs/fat32/fat32.c:2444-2489 | which paths lead to a file, and the status of those that do not |
| Meanings.WriteMeans | kernel/fs/fat32/fat32.c:2664-3046 | a write at a position takes effect if and only if position <= size and position + n <= 0xFFFFFFFF |
| Meanings.SplicedMeans | kernel/fs/fat32/fat32.c:2849-3007 | every byte of a file after a write |
| Meanings.CutMeans | kernel/fs/fat32/fat32.c:3186-3304 | a truncation takes effect if and only if the file is at least so long, and keeps its first bytes |
| Refining.CreateRefines | kernel/fs/fat32/fat32.c:3603-3730 | create on the volume is binding a name to the empty string in the tree |
| Refining.MkdirRefines | kernel/fs/fat32/fat32.c:3846-4021 | mkdir is binding a name to a new empty directory |
| Refining.RemoveRefines | kernel/fs/fat32/fat32.c:4119-4209 | remove is unbinding a file's name |
| Refining.EmptySeen | kernel/fs/fat32/fat32.c:4211-4333 | a subdirectory looks empty if and only if it is an empty map in the tree |
| Refining.RemoveDirectoryRefines | kernel/fs/fat32/fat32.c:4335-4444 | rmdir is unbinding an empty directory's name and forgetting the directory |
| Refining.RenameRefines | kernel/fs/fat32/fat32.c:4446-4639 | rename is binding a file's node to its new name and unbinding the old one |
| Refining.FileRefines | kernel/fs/fat32/fat32.c:2664-3304 | a change confined to one file is the rebinding of its name to its new bytes |
| Refining.OpenedSeen | kernel/fs/fat32/fat32.c:2444-2489 | an opened file's bytes are what its path stands for in the tree |
| Refining.UnopenedSeen | kernel/fs/fat32/fat32.c:2444-2489 | a path that cannot be opened leads to no file in the tree, with the same status |
| DeadRefining.CreateDead | kernel/fs/fat32/fat32.c:3603-3730 | create under a name that begins with 0xE5 leaves the tree of names as it was |
| DeadRefining.MkdirDead | kernel/fs/fat32/fat32.c:3846-4021 | mkdir under such a name does too, with the lost cluster counted as foreign |
| DeadRefining.RenameDead | kernel/fs/fat32/fat32.c:4446-4639 | rename to such a name unbinds the old name and binds nothing |
| Handles.BesideFile | kernel/fs/fat32/fat32.c:2664-3304 | an open handle stays good, and its file reads as before, when another file is written or truncated |
| Handles.BesideFailure | kernel/fs/fat32/fat32.c:2664-3046 | the same when a write to another file fails for want of clusters |
| Handles.BesideCreate | kernel/fs/fat32/fat32.c:3603-3730 | the same when another file is created |
| Handles.BesideMkdir | kernel/fs/fat32/fat32.c:3846-4021 | the same when a directory is made |
| Handles.BesideRemove | kernel/fs/fat32/fat32.c:4119-4444 | the same when another file, or a directory it is not in or below, is removed |
| Handles.BesideRename | kernel/fs/fat32/fat32.c:4446-4639 | the same when another file is renamed |
| Handles.CreateHandles | kernel/fs/fat32/fat32.c:3603-3730 | every open file stays good and reads as before when a file is created |
| Handles.MkdirHandles | kernel/fs/fat32/fat32.c:3846-4021 | the same for every open file when a directory is made |
| Handles.MkdirDeadHandles | kernel/fs/fat32/fat32.c:3846-4021 | the same when its name begins with 0xE5 and its cluster is lost |
| Handles.RemoveHandles | kernel/fs/fat32/fat32.c:4119-4444 | the same for every open file but the one a remove is about, and for all when an empty directory is removed |
| Handles.RenameHandles | kernel/fs/fat32/fat32.c:4446-4639 | the same for every open file but the one a rename is about |
| Handles.RenameDeadHandles | kernel/fs/fat32/fat32.c:4446-4639 | the same when the new name begins with 0xE5 and the chain is lost |
| Handles.FileHandles | kernel/fs/fat32/fat32.c:2664-3304 | the same for every open file but the one a write or truncation is about |
| Handles.FailedHandles | kernel/fs/fat32/fat32.c:2664-3046 | the same when a write fails, whether or not it leaves a chain that nobody names |
| Handles.StrandedStands | kernel/fs/fat32/fat32.c:2757-2844 | with the chain a failed write has left counted as foreign, its handle is one on an empty file of a well-formed volume |
| Handles.AdoptedReady | kernel/fs/fat32/fat32.c:2664-2775 | whatever becomes of the rest of the volume: as long as that chain is foreign and the entry that of an empty file, the handle can be written again from its first cluster on |
| Runs.DoCreate | kernel/fs/fat32/fat32.c:3603-3730 | one create: its status is the tree's refusal, or an error exactly if the directory the new name goes to has no free slot, or OK; then it does what the code makes of it in the tree, and otherwise nothing |
| Runs.DoMkdir | kernel/fs/fat32/fat32.c:3846-4021 | one mkdir: its status is the tree's refusal, or an error exactly if the directory the new name goes to has no free slot or no cluster is free, or OK; then it does what the code makes of it in the tree, and otherwise nothing |
| Runs.DoRemove | kernel/fs/fat32/fat32.c:4119-4209 | one remove: the tree's effect, or the tree's refusal with its status and no change |
| Runs.DoRmdir | kernel/fs/fat32/fat32.c:4335-4444 | one rmdir: the tree's effect, or the tree's refusal with its status and no change |
| Runs.DoRename | kernel/fs/fat32/fat32.c:4446-4639 | one rename: its status is the tree's refusal, or an error exactly if the directory the new name goes to has no free slot, or OK; then it does what the code makes of it in the tree, and otherwise nothing |
| Runs.DoWrite | kernel/fs/fat32/fat32.c:2664-3046 | one write by path: its status is the tree's refusal, or an error exactly if fewer clusters are free than the file's chain lacks, or OK with the tree's effect; a write that fails leaves the tree as it was, and loses a cluster exactly if the file had none and some was free |
| Runs.DoCut | kernel/fs/fat32/fat32.c:3186-3304 | one truncation to a positive size by path: the tree's effect, or the tree's refusal with its status and no change; all boundaries consistent exactly if it is calm |
| Runs.Step | kernel/fs/fat32/fat32.c:2664-4639 | any one operation returns exactly what its effect on the tree of named byte strings and the room on the volume say; if OK the tree is what the code makes of it, otherwise it is what it was; the volume stays good, clusters are lost exactly in the cases Leaks names, and every open file the operation is not about stays good and reads as before; all boundaries are consistent if and only if it is not a truncation whose old size exceeds the clusters kept |
| Runs.Run | kernel/fs/fat32/fat32.c:2664-4639 | any sequence of operations, whatever each returns: each returns exactly what Step says in the state it finds, and leads to a state as Step says; the volume stays good and what is foreign stays so; some tree that fits the volume in the end has no more foreign clusters than at the start if and only if no operation leaks any; every boundary is sound, and all are consistent if and only if every operation is calm in the tree it finds |
| Meanings.NewStatus | kernel/fs/fat32/fat32.c:3603-4021 | create of a name that may be bound returns OK if and only if some slot of its directory begins with 0x00 or 0xE5, mkdir if moreover some FAT entry is 0 |
| Meanings.RenameStatusMeans | kernel/fs/fat32/fat32.c:4446-4639 | so does rename, for the new name's directory |
| Meanings.WriteStatusOf | kernel/fs/fat32/fat32.c:2664-3046 | a write by path returns OK if and only if its numbers are in range and the file's clusters and the free ones have room for it |
| Meanings.DoneMeans | kernel/fs/fat32/fat32.c:1694-1927 | what comes of an operation whose new name begins with 0xE5, and of every other |
| Meanings.UnnoticedRename | kernel/fs/fat32/fat32.c:4446-4639 | a rename to such a name takes the old name away and does nothing else |
| Runs.RunAnswers | kernel/fs/fat32/fat32.c:2664-4639 | at any point of a run the tree of names alone, before and after, answers for the operation |
| Runs.RunHandles | kernel/fs/fat32/fat32.c:2664-4639 | an open file that no operation of a run is about stays good to the end of it, and reads as before |
| Runs.RunForeign | kernel/fs/fat32/fat32.c:2664-4639 | a cluster lost stays lost to the end of a run, with its FAT entry as it was |
| Runs.RunResumes | kernel/fs/fat32/fat32.c:2664-2775 | a handle that a failed write has left with a chain of its own can be written again after any run of operations on other entries |
| Witnesses.MkdirLeaks | kernel/fs/fat32/fat32.c:3846-4021 | on every freshly formatted volume that is not full, mkdir of the name 0xE5 succeeds and loses its cluster |
| Witnesses.WriteStrands | kernel/fs/fat32/fat32.c:2757-2844 | on every freshly formatted volume, create and then a write that wants more clusters than there are: the write fails and a cluster is lost |
| Witnesses.StrandsThen | kernel/fs/fat32/fat32.c:2757-2844 | the same as a case of Leaks, with the volume it happens on |
| Witnesses.StrandsSomewhere | kernel/fs/fat32/fat32.c:2757-2844 | there are such a volume and such a write |
| Witnesses.WriteStrandsOnceFormatted | kernel/fs/fat32/fat32.c:2757-2844 | format, create, write: the cluster is lost, with nothing assumed |
| Witnesses.TruncateLeavesNothing | kernel/fs/fat32/fat32.c:3217-3247 | create, write a byte, truncate to 0: no tree fits the volume |
| Witnesses.TruncateIsNotCalm | kernel/fs/fat32/fat32.c:3249-3304 | create, write a byte more than a cluster, truncate to 1: a boundary on the way is not consistent, although the volume is well formed before and after |
| Witnesses.RenameLoses | kernel/fs/fat32/fat32.c:4446-4639 | create, write a byte, rename to the name 0xE5: the rename succeeds and the file's cluster is lost |
| Witnesses.DottedWell | kernel/fs/fat32/fat32.c:4211-4333 | a live entry ..A with a cluster of its own leaves a well-formed volume on which its directory looks empty |
| Witnesses.RmdirLoses | kernel/fs/fat32/fat32.c:4335-4444 | rmdir of that directory succeeds and the cluster is lost |
| Conservation.FollowExtent | kernel/fs/fat32/fat32.c:2664-3046 | writing does not change where any path leads |
| Conservation.WriteRemoveRestores | kernel/fs/fat32/fat32.c:4119-4209 | a new file's chain, removed, leaves the FAT as it was before the write |
| Conservation.CreateWriteRemove | kernel/fs/fat32/fat32.c:3603-4209 | create, write, remove: if the first two succeed so does the third, and every FAT entry is restored |
| Conservation.MakeRemoveDirectory | kernel/fs/fat32/fat32.c:3846-4444 | rmdir of a directory just made succeeds and restores every FAT entry |
| Normalize.BuildAbsolute | kernel/lib/shell.c:56-92 | the absolute path, cut to 255 characters, whether the input is absolute or relative |
| Normalize.AbsoluteMeans | kernel/lib/shell.c:56-92 | an absolute input as it is; a relative one as the components of the current directory and its own; cut to 255 characters if longer |
| Normalize.ReduceMeans | kernel/lib/shell.c:99-184 | the reduction of a list of components, one more at a time: . changes nothing, .. takes the last one away if there is one, any other is added |
| Normalize.PushKeeps | kernel/lib/shell.c:163-183 | appending a component pushes it on the stack the string holds |
| Normalize.PopKeeps | kernel/lib/shell.c:137-157 | the handling of .. pops one component, and absorbs it at the root |
| Normalize.HalfwayOn | kernel/lib/shell.c:105-184 | each turn does to the stack what its component says, in no more room than the input took |
| Normalize.ReduceTwice | kernel/lib/shell.c:42-199 | reducing a list of components twice is reducing it once |
| Normalize.ReduceInto | kernel/lib/shell.c:99-186 | the component loop computes the stack reduction and never runs out of room |
| Normalize.NormalizePath | kernel/lib/shell.c:42-199 | the output's components are the stack reduction of those of the absolute path; at most 255 characters; a buffer of 256 bytes cuts nothing off |
| Normalize.SecondPass | kernel/lib/shell.c:42-199 | a second pass keeps the component list |

## Left out

- Device faults inside the device's range: transfers there succeed, so the I/O-error branches and the roll-backs that follow
  them (after a failed FAT write in append, after a failed initialisation or entry write in mkdir, in write when recording the
  first cluster fails) are not reached; what an interrupted run leaves behind is covered by the boundary results instead.
- Null arguments: references are non-null.
- Writing and truncating files whose chains are broken or too short: these contracts start from a sound volume. Reading,
  freeing and walking are proved on every FAT.
- Directory scans on cyclic chains: these loops have no bound in the source, so a directory's chain is assumed acyclic.
- Transfers of more than one sector per call, which the file system never asks the device for.
- Truncating.TruncateToZero: says nothing about well-formedness afterwards, because that is false (see above).
- Runs.Run: covers truncation to positive sizes only, since truncation of a file with bytes to zero leaves no sound volume;
  each of its operations starts from a path. `Truncating.Refill` shows how a volume truncated so becomes sound again.
- Long names in the tree of named byte strings: `Good` excludes directories with long-name slots in use; lookup and readdir
  themselves are modelled with long names.
- The entry `..` of a child of the root holds the root's cluster number, as the code writes it; whether that conforms to the
  FAT specification is not discussed. The long-name checksum is never verified by the code and does not occur.
- The unused functions `fat32_extend_file_chain`, `fat32_rename_directory_entry`, `string_equals_ignore_case` and
  `string_length`, and the fields of `fat32_t` that no operation reads (`bytes_per_sector` is always 512).
- Console output, logging, timestamps, shell dispatch, `parse_args`, `exec_script`, and all hardware drivers.
