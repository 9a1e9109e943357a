# A verified model of the FatFs engine and of three grlib drawing algorithms

The project models the FAT12/16/32 file system engine in `src/external/fatfs/ff.c`, in the configuration of
`ff.h` (writable, private sector buffer per file, 8.3 names only, no relative paths, 512-byte sectors, code
page 932), and three algorithms of the graphics library in `src/external/grlib`: the streaming decoder of
compressed images, line clipping with Bresenham's algorithm, and the off-screen fills of 1 and 4 bits per pixel.
On-disk constants are those of the Microsoft FAT32 File System Specification, version 1.03, sections "FAT Data
Structure", "FAT Type Determination", "FAT Directory Structure" and "FAT32 FSInfo Sector Structure".

`dafny verify dfyconfig.toml` checks everything.

## How the model is built

The disk is a sequence of 512-byte sectors (`Drive.dfy`). Above it come, each resting on the one before:

1. `FatFs.dfy`: the FATFS object with its one-sector write-back window. The *logical volume* (`Vol`) is the disk
   overlaid by the dirty window, with the mirror FATs and the reserved sectors blanked; the *table* (`Fat`) is one
   number per cluster read from it (`Codec.dfy`). Methods are proved against these two functions. `TableNumber.dfy`
   places the entries in the table by its digits, without the packing functions.
2. `Chains.dfy`, `Allocation.dfy`, `AllocRuns.dfy`, `FreeScan.dfy`: cluster chains, `create_chain`,
   `remove_chain`, the free count, and whole runs of allocations, releases and cuts.
3. `FileState.dfy` to `FileSync.dfy`: the FIL object with its private buffer. `Store` is what the clusters of a
   file hold as the file sees it, the dirty buffer included; `Data` is its first `fsize` bytes. `FileRuns.dfy`
   composes the calls on one file, `Isolation.dfy` says what a call leaves alone, and `OpenFiles.dfy` runs any
   interleaving of calls on several file objects. `SpoiltSeek.dfy` gives a volume where a seek goes wrong.
   `DirFiles.dfy` puts directory operations beside open files, and `MixedRuns.dfy` runs any mixture of both.
4. `Listing.dfy`, `DirTable.dfy`, `Directory.dfy`, `DirOps.dfy`: directory tables as lists of entries and as maps
   from names; `ShortNames.dfy` and `NameOps.dfy`: 8.3 names; `AcceptedName.dfy` says which are accepted, and
   what is stored and printed for them, without the parser.
5. `Segment.dfy`, `Line.dfy`, `LineDraw.dfy`; `Lzss.dfy`, `ImageDraw.dfy`; `PixelBuffer.dfy`, `OffScreen.dfy`, `OffScreen1.dfy`,
   `OffScreen4.dfy`: the graphics algorithms.

A transfer of the modelled drive may fail at any time unless `Drive.reliable` holds. Contracts that the code keeps
under failures are stated for every drive; those it does not keep are stated for a reliable one. The geometry of a
mounted volume is a hypothesis (`Layout.Geometry.Valid`): a power-of-two cluster size of at most 128 sectors, a
root directory of whole sectors, a FAT large enough for its clusters, the type decided by the cluster count.

## Where the code and its comments differ

The model follows the code in each case.

- `f_truncate` neither writes back nor drops a private buffer whose sector it frees
  (`src/external/fatfs/ff.c:2384-2399`). `FileTruncate.Truncate` shows that the file's invariant holds afterwards
  exactly if, before the call, nothing is cut, or the buffer is empty, or clean, or on a sector the file keeps
  (`FileTruncate.CutSafe`); `FileTruncate.TruncateStrands` gives a volume where it does not, and
  `FileRuns.BufferStays` is a test a caller can make. `FileTruncate.StrandedDamage` says what comes of it: once
  another file has the sector, the write-back changes that file's content unless it stored just those bytes.
- A cut may also leave the clean buffer on a released sector, which another file may take and change. The file goes on
  as it should all the same: `f_read` and `f_write` load a sector before they use it, and a clean buffer has to be
  right below the file's size only (`FileStates.RightTo`). The one call that goes wrong is an `f_lseek` that extends
  the file over that very sector, for it loads the sector under the pointer only if that is another one
  (`src/external/fatfs/ff.c:2155-2168`), and `f_read` does not load it either (`src/external/fatfs/ff.c:1814`).
  `FileSeek.Seek` shows that the file's invariant holds after a seek if and only if the state before is not one of
  `FileSeek.SeekSpoils`: the chain the seek makes has the buffered sector, the clean buffer differs from it below the
  new end, and the pointer does not come to rest inside another sector. `FileSeek.ExactSeeks` shows that no seek goes
  wrong while the clean buffer is what its sector holds, and `SpoiltSeeks.SeekSpoilsHere` gives a volume where one
  does. What comes of it: the buffer has some byte of the file wrong (`SpoiltSeeks.MisledBytes`), and `f_read` delivers
  it (`SpoiltSeeks.ReadsWrong`). `FileRuns.Intact` is a test a caller can make after a call.
- `dir_register` is documented to answer FR_DENIED when there is no free entry (`src/external/fatfs/ff.c:928`). With
  every entry in use it answers FR_NO_FILE if and only if the table is the static root or has 65536 entries, and
  FR_DENIED if and only if it could be stretched and no cluster is free (`DirOps.Register`); `DirFiles.FullRoot`
  gives a full static root.
- `create_chain` takes a disk error of its first `get_fat` for the end of the chain
  (`src/external/fatfs/ff.c:468-471`), and `put_fat` marks the window dirty even after a failed read.
- `put_fat` overwrites the reserved top four bits of a FAT32 entry (`src/external/fatfs/ff.c:392`), `get_fat` masks
  them, and the scan of `f_getfree` compares the unmasked word (`src/external/fatfs/ff.c:2350`).
- The characters `create_name` refuses do not include the colon, semicolon, less-than, greater-than and question
  mark (`src/external/fatfs/ff.c:1253`).
- The `RectFill` routines test the alignment of the first row only (`src/external/grlib/offscr1bpp.c:681-711`).
  Their stores into whole bytes are all aligned if and only if the rectangle has one row, or the length of a row is
  a multiple of four where word stores are made and of two where half-word stores are
  (`OffScreens.FillAligned`). `OffScreen1.UnalignedRow` gives a buffer of ten bytes a row where words are stored at
  addresses that are no multiple of four. `LineDrawH` makes aligned stores only.

## Model

| member | source | states |
|---|---|---|
| Layout.ClusterSectors | src/external/fatfs/ff.c:513-521 | clust2sect is non-zero exactly for data clusters and places all sectors of a cluster inside the data area |
| Layout.ClustersDisjoint | src/external/fatfs/ff.c:513-521 | sector ranges of distinct clusters do not meet |
| Layout.ClusterPlace | src/external/fatfs/ff.c:513-521 | cluster c begins (c - 2) cluster lengths behind the first data sector, so the clusters follow one another upward |
| Layout.VolumeUpdate | src/external/fatfs/ff.c:229-261 | a store into a live sector of the disk is that store into the logical volume |
| Layout.VolumeAgree | src/external/fatfs/ff.c:229-261 | images that differ in mirror or reserved sectors only are the same logical volume |
| Words.StWord | src/external/fatfs/ff.h:719-721 | the stored word reads back and no other byte changes |
| Words.StDword | src/external/fatfs/ff.h:720-722 | the stored double word reads back and no other byte changes |
| Words.DwordBytes | src/external/fatfs/ff.h:719-720 | words and double words have their lowest byte first |
| Disk.MemCpy | src/external/fatfs/ff.c:162-166 | copies exactly the given stretch |
| Disk.MemSet | src/external/fatfs/ff.c:170-173 | sets exactly the given stretch |
| Codec.Pack12 | src/external/fatfs/ff.c:369-381 | the two masked byte stores of a FAT12 entry pack 12 bits whatever the bytes held |
| Codec.Neighbour12 | src/external/fatfs/ff.c:369-381 | the entry sharing a byte with the stored one keeps its nibble |
| Codec.PutEntrySame | src/external/fatfs/ff.c:351-402 | a stored entry reads back, cut to 12, 16 or 28 bits; FAT32 keeps all 32 bits on disk |
| Codec.PutEntryOther | src/external/fatfs/ff.c:351-402 | a store changes no other entry, for all three formats |
| Codec.PutEntryMap | src/external/fatfs/ff.c:351-402 | a store into the packed table is an update of one element of the table |
| Codec.PutEntrySameOutside | src/external/fatfs/ff.c:351-402 | a store into the table leaves every other logical sector alone |
| Mirror.CopyInside | src/external/fatfs/ff.c:246-249 | every copy of a FAT sector lies inside the FAT area |
| Mirror.CopyUnique | src/external/fatfs/ff.c:246-249 | distinct FAT sectors and copies have distinct places |
| Mirror.CopyFound | src/external/fatfs/ff.c:246-249 | sector s of the table is found again k table lengths further on, in every copy k |
| Mirror.ReflectAt | src/external/fatfs/ff.c:246-249 | the reflection loop changes exactly the copies of the written sector |
| Mirror.ReflectAgrees | src/external/fatfs/ff.c:240-250 | writing a FAT sector back and reflecting it makes all copies agree again |
| Mirror.OutsideAgrees | src/external/fatfs/ff.c:240-250 | writing another sector back keeps the agreement |
| FileSystem.FatFs.constructor | src/external/fatfs/ff.c:1522-1570 | the object auto_mount leaves: a clean window, the logical volume is the disk, and both hints those of FSInfo if its sector has the signatures, else an unknown count |
| FileSystem.FatFs.ReflectCopies | src/external/fatfs/ff.c:244-250 | the loop stores the window in every further FAT copy and in no live sector |
| FileSystem.FatFs.FlushWindow | src/external/fatfs/ff.c:237-251 | writing back never changes the logical volume, ends clean, and restores the agreement of the FAT copies |
| FileSystem.FatFs.MoveWindow | src/external/fatfs/ff.c:229-261 | the window is transparent: the logical volume is unchanged, also after a failure, and on success the window shows the requested logical sector |
| FileSystem.FatFs.Sync | src/external/fatfs/ff.c:271-298 | afterwards the disk alone is the logical volume, the copies agree, no hint is marked changed, and a known free count and the last cluster are at offsets 488 and 492 of FSInfo on the disk |
| FileSystem.FatFs.WriteFsInfo | src/external/fatfs/ff.c:281-291 | FSInfo is rewritten with both hints through the window, which is invalidated; the volume is untouched |
| FileSystem.FatFs.BuildFsInfo | src/external/fatfs/ff.c:281-290 | the sector built carries the signatures and hints that mounting accepts and is zero otherwise |
| FileSystem.FsInfoBytes | src/external/fatfs/ff.c:281-290 | byte for byte: the two signatures, the free count at 488, the last cluster at 492, the boot signature |
| FileSystem.FatFs.GetFat | src/external/fatfs/ff.c:309-341 | answers the entry of the logical table for a cluster, 1 for a number that is none, and changes nothing |
| FileSystem.FatFs.GetFat12 | src/external/fatfs/ff.c:323-329 | the FAT12 entry, also when it straddles two sectors |
| FileSystem.FatFs.PutFat | src/external/fatfs/ff.c:351-402 | updates exactly that element of the logical table, cut to the entry's width; IntErr exactly for a number that is no cluster; the window is marked dirty, after a failed read too |
| FileSystem.FatFs.PutFat12 | src/external/fatfs/ff.c:369-381 | the FAT12 stores through a window that may be swapped between them are the packed store |
| FileSystem.FatFs.PutFat16 | src/external/fatfs/ff.c:383-387 | the FAT16 branch is the packed word store |
| FileSystem.FatFs.PutFat32 | src/external/fatfs/ff.c:389-393 | the FAT32 branch is the packed double-word store |
| TableNumbers.Entry12Digits | src/external/fatfs/ff.c:323-329 | FAT12: entry c is hexadecimal digits 3c to 3c+2 of the whole table read as one little-endian number, that is, bits 12c to 12c+11 |
| TableNumbers.Entry16Digits | src/external/fatfs/ff.c:331-333 | FAT16: digits 4c to 4c+3 |
| TableNumbers.Entry32Digits | src/external/fatfs/ff.c:335-337 | FAT32: digits 8c to 8c+6, the eighth left out |
| FileSystem.FatFs.WriteData | src/external/fatfs/ff.c:1808-1812 | a data sector written past the window is that store in the logical volume |
| FileSystem.FatFs.WriteDataRun | src/external/fatfs/ff.c:1898-1902 | data sectors written past the window are that store in the logical volume |
| FileSystem.FatFs.ReadData | src/external/fatfs/ff.c:1814-1817 | a data sector read past the window is the logical one |
| FileSystem.FatFs.ReadDataRun | src/external/fatfs/ff.c:1788-1792 | data sectors read past the window are the logical ones |
| FileSystem.Index16 | src/external/fatfs/ff.c:331-333 | the 16-bit arithmetic of the FAT16 branches addresses the right entry |
| FileSystem.Index32 | src/external/fatfs/ff.c:335-337 | so does that of the FAT32 branches, which drops the high half of the cluster number |
| Chains.ChainUnique | src/external/fatfs/ff.c:413-443 | the table determines the chain of a start cluster |
| Chains.ReleasedOnlyFrees | src/external/fatfs/ff.c:413-443 | on every table, cyclic and cross-linked ones included, release only frees entries |
| Chains.ReleasedChain | src/external/fatfs/ff.c:413-443 | on a proper chain, release frees exactly its clusters and succeeds |
| Chains.FreeCountUpdate | src/external/fatfs/ff.c:434-437 | the number of free clusters moves by one with each entry freed or taken |
| Chains.FreeCountZero | src/external/fatfs/ff.c:473-486 | no cluster is counted free exactly if none is |
| Chains.LinkedChain | src/external/fatfs/ff.c:488-493 | a taken cluster makes a one-cluster chain or lengthens the given one by one |
| Chains.ForestCreate | src/external/fatfs/ff.c:454-502 | starting a chain keeps the live chains proper and disjoint |
| Chains.ForestStretch | src/external/fatfs/ff.c:454-502 | stretching appends one cluster to one chain and keeps all others |
| Chains.ForestRemove | src/external/fatfs/ff.c:413-443 | removing frees exactly one chain and keeps all others |
| Allocation.EndMark | src/external/fatfs/ff.c:488 | the end mark, cut to the entry's width, is FFF, FFFF or 0FFFFFFF, and beyond every cluster number |
| Allocation.MarkEmpty | src/external/fatfs/ff.c:432-437 | one cluster is freed and counted: a right count stays right, an unknown one unknown; and FSInfo on the disk has the count unless it is marked changed |
| Allocation.RemoveChain | src/external/fatfs/ff.c:413-443 | terminates on every table and leaves what release leaves; a right count stays right, an unknown one unknown, and FSInfo has it unless it is marked changed |
| Allocation.SeenNext | src/external/fatfs/ff.c:473-486 | one step of the cyclic search: what is found is the first free cluster, what is passed is in use |
| Allocation.SearchFree | src/external/fatfs/ff.c:462-486 | ends for every start point; 0 only if all clusters are in use, 1 only on a bad entry, else the first free cluster upward from the start, the part in front of it after the wrap last |
| Allocation.LinkEntries | src/external/fatfs/ff.c:488-493 | closes the new cluster and links the old end to it |
| Allocation.LinkCluster | src/external/fatfs/ff.c:488-500 | links, remembers the cluster; a right count stays right, an unknown one unknown |
| Allocation.CreateChain | src/external/fatfs/ff.c:454-502 | every outcome: successor, bad table, full volume, or the first free cluster, closed and linked; the search goes upward from the given cluster, for a new chain from the last one allocated if that is one, and the cluster taken is remembered; the count is kept as above |
| Allocation.CloseAndRelease | src/external/fatfs/ff.c:2391-2398 | the current cluster is closed and what followed it is released; a bad entry is reported with nothing changed, a free one after the close; the count is kept as above |
| Allocation.HintsOnDisk | src/external/fatfs/ff.c:281-291 | the hint law that every call keeps: on a reliable drive a known free count and the last cluster are in FSInfo on the disk unless they are marked changed |
| FreeScan.ScanDifference | src/external/fatfs/ff.c:2323-2357 | how far the raw scan is off the true count: the zero words of entries 0 and 1 and the masked FAT32 words |
| FreeScan.ScanExact | src/external/fatfs/ff.c:2323-2357 | the raw scan counts the free clusters if and only if those two corrections cancel |
| FreeScan.ScanClean | src/external/fatfs/ff.c:2323-2357 | they vanish if the reserved nibbles are zero |
| FreeScan.Count12 | src/external/fatfs/ff.c:2328-2335 | the FAT12 loop counts the free clusters |
| FreeScan.CountRaw | src/external/fatfs/ff.c:2337-2357 | the sector scan counts the zero words of the table, entry by entry |
| FreeScan.GetFree | src/external/fatfs/ff.c:2301-2362 | answers the remembered number or the counted one and remembers it |
| FreeScan.GetFreeCounts | src/external/fatfs/ff.c:2301-2362 | the answer is the number of free clusters on a table with clean reserved entries |
| AllocRuns.CreateKeeps | src/external/fatfs/ff.c:454-502 | an allocation keeps the forest of live chains and loses no cluster |
| AllocRuns.StretchKeeps | src/external/fatfs/ff.c:454-502 | so does stretching a chain |
| AllocRuns.RemoveKeeps | src/external/fatfs/ff.c:413-443 | so does removing one |
| AllocRuns.TruncateKeeps | src/external/fatfs/ff.c:2384-2399 | so does cutting one |
| AllocRuns.RunKeeps | src/external/fatfs/ff.c:413-502 | so does every run of these steps |
| AllocRuns.Conservation | src/external/fatfs/ff.c:434-437 | every data cluster is free or in exactly one live chain |
| AllocRuns.RunConserves | src/external/fatfs/ff.c:413-502 | at every point of a run the free clusters and the lengths of the live chains add up to the volume |
| AllocRuns.FullExactly | src/external/fatfs/ff.c:462-486 | on such a volume create_chain reports a full one exactly if no cluster is free, and never a bad entry |
| AllocRuns.CutReleases | src/external/fatfs/ff.c:2391-2398 | the cut of a live chain meets no bad entry |
| AllocRuns.Perform | src/external/fatfs/ff.c:413-502 | each call of create_chain and remove_chain, and the cut of f_truncate, on a live chain is such a step; FAT copies and count are kept |
| AllocRuns.Run | src/external/fatfs/ff.c:413-502 | any sequence of these calls on a mounted volume is a run of such steps; a right free count is right after it, makes up the volume with the live chains, and is on the disk unless marked changed |
| FileData.SectorsData | src/external/fatfs/ff.c:513-521 | every sector of a chain lies in the data area |
| FileData.SectorsDistinct | src/external/fatfs/ff.c:513-521 | no sector of a chain occurs twice |
| FileData.FileByte | src/external/fatfs/ff.c:513-521 | byte o of sector i of cluster number k of a file is byte 512 (k csize + i) + o of its content, and on the volume byte o of sector database + (cs[k] - 2) csize + i |
| FileData.BytesInRun | src/external/fatfs/ff.c:1787-1792 | sectors in a row on the disk are consecutive bytes of the file |
| FileData.BytesOverwrite | src/external/fatfs/ff.c:1897-1902 | sectors stored in a row replace exactly those bytes of the file |
| FileStates.PositionUnique | src/external/fatfs/ff.c:2107-2140 | pointer and chain determine sector offset and current cluster, whichever way the pointer was reached |
| FileStates.ChainFacts | src/external/fatfs/ff.c:513-521 | the sectors of a proper file are distinct data sectors of the volume |
| FileSteps.FlushKeeps | src/external/fatfs/ff.c:1808-1812 | writing the private buffer back changes nothing the file sees |
| FileSteps.FillKeeps | src/external/fatfs/ff.c:1814-1819 | loading another sector of the file into the clean buffer neither |
| FileSteps.DirectBytes | src/external/fatfs/ff.c:1787-1800 | whole sectors read past the buffer, the dirty one replaced, are the file's bytes |
| FileSteps.UnsignedTest | src/external/fatfs/ff.c:1798 | the 32-bit test decides whether the buffered sector is among those transferred |
| FileGrow.GrowKeeps | src/external/fatfs/ff.c:1870-1882 | a cluster taken for a file keeps its invariant and all its bytes, and touches only the table |
| FileGrow.DirectKeeps | src/external/fatfs/ff.c:1897-1917 | whole sectors written past the buffer, the buffer refreshed, store exactly those bytes |
| FileGrow.CopyKeeps | src/external/fatfs/ff.c:1933-1942 | bytes stored in the buffered sector change exactly those bytes |
| FileGrow.ProgressTrans | src/external/fatfs/ff.c:1867-1944 | the passes of the write loop add up to one store of all bytes |
| Files.File.constructor | src/external/fatfs/ff.c:1728-1739 | the object opened from an entry is valid, at the top of the file, with the recorded size and start cluster; unless marked written, nothing is left to save |
| Files.File.FlushBuffer | src/external/fatfs/ff.c:1808-1812 | the dirty buffer reaches the volume and the file's bytes stay |
| Files.File.EnterForRead | src/external/fatfs/ff.c:1776-1783 | the chain is followed to the cluster the pointer enters |
| Files.File.ReadDirect | src/external/fatfs/ff.c:1787-1804 | the caller gets the file's bytes, the dirty buffer's included |
| Files.File.ReadSome | src/external/fatfs/ff.c:1773-1831 | one pass delivers the next bytes and moves the pointer behind them |
| Files.File.ReadBytes | src/external/fatfs/ff.c:1773-1831 | the loop delivers exactly the bytes asked for |
| Files.File.Read | src/external/fatfs/ff.c:1749-1834 | f_read: exactly min(count, size - pointer) bytes of the content, pointer moved, content, table and all other sectors unchanged; a refused call changes nothing and delivers nothing; on a file that is not proper, the buffer's bytes as far as they reach |
| Files.NotedKept | src/external/fatfs/ff.c:1749-1834 | a call that changes the file's data only leaves its directory entry and what it records |
| Files.NextCluster | src/external/fatfs/ff.c:1776-1783 | the cluster after a pointer on a cluster boundary is the next of the chain |
| FileWrite.StretchOutcome | src/external/fatfs/ff.c:1870-1882 | what create_chain answers, in terms of the file's chain and bytes |
| FileWrite.EnterForWrite | src/external/fatfs/ff.c:1870-1883 | the cluster boundary step: the next cluster, a new one, a full volume or a bad table |
| FileWrite.LocateForWrite | src/external/fatfs/ff.c:1869-1896 | the sector a write enters, with the dirty buffer written back before |
| FileWrite.PutSectors | src/external/fatfs/ff.c:1897-1917 | the direct transfer stores whole sectors of the caller's data |
| FileWrite.PutBuffered | src/external/fatfs/ff.c:1924-1942 | the buffered transfer stores bytes under the pointer |
| FileWrite.WriteSome | src/external/fatfs/ff.c:1867-1944 | one pass stores the next bytes, or none if the volume is full |
| FileWrite.WriteBytes | src/external/fatfs/ff.c:1867-1944 | the loop stores all bytes unless the volume is full |
| FileWrite.SizeWraps | src/external/fatfs/ff.c:1865 | the 32-bit test detects exactly the sizes beyond 4 GB |
| FileWrite.WriteEnds | src/external/fatfs/ff.c:1946-1947 | after the size is raised the content is the old one with the bytes stored |
| FileWrite.Write | src/external/fatfs/ff.c:1844-1950 | f_write: the content changes in exactly the bytes written; a short count means that every cluster is in use and the pointer is at the end of the file's last cluster, or that the size would pass 4 GB and then nothing is written; only own clusters and sectors change; a refused call changes nothing; the error cases |
| FileSeek.ShortcutAgrees | src/external/fatfs/ff.c:2107-2127 | the walk from the current cluster ends where the walk from the first one ends, for every target it is used for |
| FileSeek.WalkSkips | src/external/fatfs/ff.c:2128-2146 | skipping whole clusters does not change where the walk ends |
| FileSeek.ClusterFloor | src/external/fatfs/ff.c:2110-2112 | the division and the mask of the shortcut give the number and the first byte of the current cluster |
| FileSeek.SeekStart | src/external/fatfs/ff.c:2107-2127 | the walk starts at the current cluster for a target in the same or a later one, else at the first, which is created if missing |
| FileSeek.WalkChain | src/external/fatfs/ff.c:2128-2153 | the walk reaches the target's cluster, stretching the chain in write mode by the first free clusters, or the end of the chain on a full volume |
| FileSeek.TowardDone | src/external/fatfs/ff.c:2128-2153 | a walk that took one first free cluster after the other ends with the chain that can be told from the table before |
| FileSeek.LoadForSeek | src/external/fatfs/ff.c:2155-2168 | the buffer is moved to the sector under the pointer, written back before if dirty |
| FileSeek.SeekRight | src/external/fatfs/ff.c:2155-2168 | after the move the clean buffer is right as far as the new end if and only if the state before is none that the seek spoils |
| FileSeek.SeekDone | src/external/fatfs/ff.c:2088-2177 | all a seek comes to: the old bytes in front, the end it reaches, and the invariant if and only if it did not spoil the buffer |
| FileSeek.ExactSeeks | src/external/fatfs/ff.c:2088-2177 | a clean buffer that is what its sector holds is spoilt by no seek |
| FileSeek.Seek | src/external/fatfs/ff.c:2088-2177 | f_lseek: read-only, the pointer is the smaller of the offset and the size; for writing, it is the offset, or the end of the last cluster with every cluster in use; all bytes below the old size stay, the size is raised to the pointer; only own clusters and sectors change; valid afterwards if and only if, before the call, the seek was not to extend the file over the sector of a clean buffer that differs from it and load no other |
| SpoiltSeeks.MisledBytes | src/external/fatfs/ff.c:1814-1819 | a clean buffer is wrong about the file if and only if some byte of the file in its sector differs from the buffer's |
| SpoiltSeeks.ReadsWrong | src/external/fatfs/ff.c:1749-1834 | on such a file f_read, with the pointer on such a byte inside the sector, answers FR_OK and another byte than the file's |
| SpoiltSeeks.SeekSpoilsHere | src/external/fatfs/ff.c:2155-2168 | a proper file on a two-cluster volume whose stale clean buffer a seek spoils |
| SpoiltSeeks.HalfExists | src/external/fatfs/ff.c:2155-2168 | there is such a volume |
| FileTruncate.CutChainFacts | src/external/fatfs/ff.c:2384-2399 | the kept clusters form a chain, the others are free, no other entry changes |
| FileTruncate.AtClusters | src/external/fatfs/ff.c:2390-2398 | the current cluster is number ceil(pointer / cluster size) of the chain |
| FileTruncate.CutKeeps | src/external/fatfs/ff.c:2382-2399 | the cut keeps the bytes in front of the pointer, and the invariant exactly if the buffered sector is kept |
| FileTruncate.Truncate | src/external/fatfs/ff.c:2369-2404 | f_truncate: content cut at the pointer, exactly ceil(pointer / cluster size) clusters kept, the rest freed, nothing but the table changed; valid afterwards if and only if, before the call, nothing was to be cut, or the buffer was empty, clean, or on a kept sector, and proper but for the buffer in any case; a refused call changes nothing |
| FileTruncate.CutSafeExactly | src/external/fatfs/ff.c:2384-2399 | that condition on the state before the call says exactly when the cut keeps the buffer |
| FileTruncate.StrandedIsFree | src/external/fatfs/ff.c:2384-2399 | otherwise the buffer is left on a cluster that is free |
| FileTruncate.TruncateStrands | src/external/fatfs/ff.c:2384-2399 | a proper file on a two-cluster volume whose dirty buffer is left so |
| FileTruncate.SmallExists | src/external/fatfs/ff.c:2384-2399 | there is such a volume |
| FileTruncate.StrandedDamage | src/external/fatfs/ff.c:1808-1812 | the later write-back of such a buffer keeps the content of the file that has the sector by then if and only if it holds the very bytes that file stored there |
| FileSync.EntryKeeps | src/external/fatfs/ff.c:1979-1990 | rewriting a directory sector changes no byte and no invariant of the file |
| FileSync.Reopens | src/external/fatfs/ff.c:1728-1739 | a clean file with an up-to-date entry is what f_open makes of the volume, bytes included |
| FileSync.OpenedUnique | src/external/fatfs/ff.c:1732-1733 | an entry determines its chain |
| FileSync.StoreEntry | src/external/fatfs/ff.c:1981-1987 | the stores of f_sync into the entry |
| Entries.FieldBytes | src/external/fatfs/ff.c:1732-1734 | byte for byte: the size in bytes 28 to 31 of an entry, the start cluster in 26 and 27 and, its high half, in 20 and 21 |
| Entries.UpdatedReads | src/external/fatfs/ff.c:1981-1987 | the entry reads back with the new size, start cluster and time, and no byte of another entry or of the name changes |
| Entries.ArchiveBit | src/external/fatfs/ff.c:1982 | bit 5 of the attributes is set and no other changes |
| FileSync.SyncFile | src/external/fatfs/ff.c:1959-1996 | f_sync: after every FR_OK f_open on the volume finds the same size, start cluster, chain and bytes; on the disk alone if the file was written or the window is clean; if it was written, the entry has time stamp and archive bit, and FSInfo on the disk the free count; an unwritten file changes nothing, and was saved before |
| FileSync.UnwrittenSaved | src/external/fatfs/ff.c:1970 | a file not marked written has a clean buffer and is what f_open makes of the volume |
| FileSync.SyncWritten | src/external/fatfs/ff.c:1970-1992 | a file marked written: buffer, entry with time stamp and archive bit, window and FSInfo reach the disk |
| FileRuns.SeekFile | src/external/fatfs/ff.c:2088-2177 | f_lseek in any state is a step of the byte array, and the file can be used on if and only if the seek did not spoil its buffer |
| FileRuns.CutFile | src/external/fatfs/ff.c:2369-2404 | f_truncate in any state: the bytes in front of the pointer stay, the file can be used on if and only if the cut was safe |
| FileRuns.Intact | src/external/fatfs/ff.c:1814-1819 | a caller's test after a call whether the file can be used on: the walk, and a comparison with the sector; it changes the window only |
| FileRuns.BufferStays | src/external/fatfs/ff.c:2384-2399 | a caller's walk along the chain decides whether the cut is safe, and changes the window only |
| FileRuns.GrownClean | src/external/fatfs/ff.c:488-493 | a chain that grew brings no entry into the table that create_chain takes for an error |
| FileRuns.Perform | src/external/fatfs/ff.c:1749-2404 | each permitted call of f_read, f_write, f_lseek, f_sync and f_truncate succeeds and is a step of a byte array with a cursor: a write is short only if every cluster is in use, and writes nothing if the size would pass 4 GB; a seek goes to the offset, read-only at most to the size, for writing short of it only if every cluster is in use; the file can be used on if and only if, on the state before, it is not a cut that strands a dirty buffer or a seek that spoils a clean one; agreement of the FAT copies and the free count are kept, and nothing of other files is touched |
| FileRuns.Run | src/external/fatfs/ff.c:1749-2404 | every sequence of calls the file is open for is a run of that byte array from the content at the start to the content at the end; it ends early only behind a call that left the buffer wrong, a truncation or a seek, and from a file just opened a truncation |
| Isolation.ReadTouches | src/external/fatfs/ff.c:1749-1834 | a read stays within the file's own sectors |
| Isolation.GrowTouches | src/external/fatfs/ff.c:1844-1950 | a write or a seek stays within own and free clusters |
| Isolation.TruncateTouches | src/external/fatfs/ff.c:2369-2404 | a cut changes own table entries only |
| Isolation.SyncTouches | src/external/fatfs/ff.c:1959-1996 | a sync changes own sectors and the own directory entry only |
| Isolation.SectorsApart | src/external/fatfs/ff.c:513-521 | chains without a common cluster have no common sector |
| Isolation.SparedKept | src/external/fatfs/ff.c:1749-2404 | a file whose chain, sectors and entry are left alone keeps its position and every byte, and its invariant holds if and only if it held before |
| Isolation.OtherSpared | src/external/fatfs/ff.c:1749-2404 | an operation on one file leaves chain, sectors and entry of every separate file alone |
| Isolation.OtherKept | src/external/fatfs/ff.c:1749-2404 | so an operation on one file leaves position, invariant and every byte of another as they were, whatever sector its buffer is on, and the two separate |
| Isolation.EntryKept | src/external/fatfs/ff.c:1979-1990 | and the 32 bytes of its directory entry, in the same sector or not |
| Isolation.NotedStays | src/external/fatfs/ff.c:1979-1988 | an entry that records its file goes on doing so while its bytes stay |
| OpenFiles.Bystander | src/external/fatfs/ff.c:1749-2404 | by value: another open file stays separate, shows the same bytes, keeps its entry, and is as usable as before |
| OpenFiles.Unseen | src/external/fatfs/ff.c:1749-2404 | so an open file object that was not called, in use or not, is and shows what it did |
| OpenFiles.Turn | src/external/fatfs/ff.c:1749-2404 | one call on one of several open files: every other file and its entry show the same and are as usable as before, and the file itself goes out of use if and only if, on the state before, the call strands or spoils its buffer |
| OpenFiles.RunAll | src/external/fatfs/ff.c:1749-2404 | any interleaving of calls on several open files: each file ends with what its own calls, in order, make of its content, and its directory entry changes by its own f_sync only, all the others notwithstanding; out of use are exactly the files whose own last call left the buffer wrong, a truncation a dirty one or a seek a clean one; the free count is on the disk unless it is marked changed |
| DirTables.StandsUnique | src/external/fatfs/ff.c:531-636 | an index has one cluster, sector and offset: walk and seek agree wherever both succeed |
| DirTables.TableFacts | src/external/fatfs/ff.c:531-569 | the sectors of a directory table are distinct live sectors outside the FAT |
| DirTables.EntryByte | src/external/fatfs/ff.c:541-566 | byte k of entry i is byte 32 i + k of the sectors of the table |
| DirTables.RootEntry | src/external/fatfs/ff.c:541-551 | the root directory: on FAT12 and FAT16 entry i is in sector dirbase + i / 16, on FAT32 its table is the chain that begins at dirbase |
| DirTables.ListingStore | src/external/fatfs/ff.c:1009-1018 | storing 32 bytes at an entry changes that entry of the listing and no other |
| Directories.FollowTable | src/external/fatfs/ff.c:553-562 | the loop of dir_seek finds the cluster of an index, or reports that the table is too short |
| Directories.Dir.Seek | src/external/fatfs/ff.c:531-569 | dir_seek succeeds exactly for indices inside the table, for the static root, subdirectories and the FAT32 root, and stands on that entry; a start cluster that is none is refused |
| Directories.CleanCluster | src/external/fatfs/ff.c:613-621 | the new cluster reads as all zero, everything else as before, and the window shows its first sector |
| Directories.GrowTable | src/external/fatfs/ff.c:604-628 | a cluster taken and zeroed makes a longer table of the same directory |
| Directories.Dir.Next | src/external/fatfs/ff.c:579-636 | dir_next stands on the next entry, reports the end, or stretches the table by one zeroed cluster; every other sector keeps its content |
| Listings.FindExactly | src/external/fatfs/ff.c:821-858 | the search result is the first match in front of the end mark, in both directions |
| Listings.EntryMeans | src/external/fatfs/ff.c:821-858 | byte for byte what a search compares: the eleven bytes, attribute bit 3 clear; unused is a first byte E5 or 0, and deleting an entry sets it to E5 |
| Listings.NewBytes | src/external/fatfs/ff.c:1009-1018 | byte for byte a new entry: the name, bits 3 and 4 of its flags in byte 12, zeros |
| Listings.RegisterFinds | src/external/fatfs/ff.c:997-1018 | a registered name is found, every other lookup is as before |
| Listings.RegisterKeeps | src/external/fatfs/ff.c:997-1018 | nothing gets live behind the end mark and no name occurs twice |
| Listings.StretchKeeps | src/external/fatfs/ff.c:613-621 | a zeroed stretch changes no lookup |
| Listings.RegisterRefines | src/external/fatfs/ff.c:997-1018 | registering an absent name adds exactly that name to the map, stretched or not |
| Listings.RemoveLoses | src/external/fatfs/ff.c:1055-1062 | a removed name is not found, every other lookup is as before |
| Listings.RemoveUndoes | src/external/fatfs/ff.c:1055-1062 | dir_remove undoes dir_register |
| DirOps.Find | src/external/fatfs/ff.c:805-861 | dir_find stops at the entry the map lookup names, or reports that there is none |
| DirOps.FindBlank | src/external/fatfs/ff.c:997-1006 | the first unused entry, in a stretched table if there is none; chain and table of clusters as they were, or exactly this chain longer by the first free cluster |
| DirOps.NextBlank | src/external/fatfs/ff.c:1004 | from an entry in use to the next one, or to the first of a zeroed stretch of exactly this chain |
| DirOps.JudgedExactly | src/external/fatfs/ff.c:997-1006 | each outcome of the search has its exact condition on the directory before |
| DirOps.Register | src/external/fatfs/ff.c:997-1021 | dir_register adds exactly its name to the directory map; NoFile if and only if all entries are in use and the table cannot be stretched, Denied if and only if it could be and no cluster is free; only sectors of the directory change, and the table of clusters by at most the first free cluster behind this directory's chain |
| DirOps.Remove | src/external/fatfs/ff.c:1055-1066 | dir_remove marks one entry deleted and drops exactly its name from the map; the table of clusters stays |
| DirFiles.DirectorySpares | src/external/fatfs/ff.c:997-1066 | a directory operation leaves chain, sectors and entry of every file with no cluster of the directory alone |
| DirFiles.DirectoryBystander | src/external/fatfs/ff.c:997-1066 | such an open file is as usable as before, shows the same bytes, and its directory entry, in that very directory or not, is the same |
| DirFiles.FindAmong | src/external/fatfs/ff.c:805-861 | a name looked for while files are open: they and their entries show the same and are as usable as before |
| DirFiles.RegisterAmong | src/external/fatfs/ff.c:997-1021 | a name registered while files are open: every open file is apart from the others and as usable as before, and shows the same bytes and entry |
| DirFiles.RemoveAmong | src/external/fatfs/ff.c:1055-1066 | the same for the removal of a name that is no open file's |
| DirFiles.DirectoryKept | src/external/fatfs/ff.c:1749-2404 | a call on a file beside a directory leaves it the same table with the same names, and every entry but the file's own as it was |
| DirFiles.SlotNames | src/external/fatfs/ff.c:1981-1987 | what f_sync stores in an entry changes no other entry, and neither the name of this one nor whether it is a volume label |
| DirFiles.FullRoot | src/external/fatfs/ff.c:587-595 | a volume whose static root has sixteen entries, all in use, and whose table has no bad entry: dir_register answers NoFile there |
| Listings.SameFound | src/external/fatfs/ff.c:821-858 | a search finds the same index in two listings with the same names |
| MixedRuns.MakeName | src/external/fatfs/ff.c:1673-1685 | a name looked for and registered if missing, while files are open: it is in the directory afterwards unless table or volume is full, and no other name comes or goes |
| MixedRuns.LoseName | src/external/fatfs/ff.c:2428-2451 | a name looked for and removed: gone afterwards, and no other one; it is refused exactly if the entry is that of an open file |
| MixedRuns.RunMixed | src/external/fatfs/ff.c:805-2451 | any sequence of calls on open files and on names of a directory beside them: each file ends with what its own calls make of it, the directory with the set of names that the calls on names make of the set at the start, and every answer on a name is that of the set; the free count is on the disk unless it is marked changed |
| ShortNames.TextShape | src/external/fatfs/ff.c:1228-1264 | what is stored for a part is legal and upper case, and only lower case seen means ASCII with a letter |
| ShortNames.TextAgain | src/external/fatfs/ff.c:1228-1264 | a printed part parses to the stored bytes |
| ShortNames.RoundTrip | src/external/fatfs/ff.c:1205-1327 | parse, store, print, parse: the same 11 bytes and the same case flags, for every accepted non-blank segment |
| ShortNames.PrintsAsTyped | src/external/fatfs/ff.c:1205-1327 | single-case ASCII segments that do not end with their dot print as typed |
| ShortNames.NeverDeleted | src/external/fatfs/ff.c:1269 | no stored name starts with the deletion or the end mark |
| ShortNames.FlagsAsciiOnly | src/external/fatfs/ff.c:1236-1262 | a case flag is set on ASCII parts only, so no byte of a double-byte character is lower-cased |
| ShortNames.PrintedParts | src/external/fatfs/ff.c:1302-1321 | what is printed for a stored name |
| AcceptedNames.AcceptedExactly | src/external/fatfs/ff.c:1228-1271 | create_name accepts a segment if and only if it is a body of at most 8 bytes and, behind a dot, an extension of at most 3, both made of the characters listed and of double-byte ones, and not empty without a dot |
| AcceptedNames.AcceptedStores | src/external/fatfs/ff.c:1228-1276 | what is then stored, byte for byte: both parts in upper case and blank-padded, a first E5 as 05, and flag bits 2, 3 and 4 for the end of the path and for body and extension in small letters only |
| AcceptedNames.PrintedBytes | src/external/fatfs/ff.c:1302-1321 | what is printed for any entry, byte for byte: body and extension up to their first blank, 05 as E5, the dot, and small letters by bits 3 and 4 of byte 12 |
| NameOps.StoreChar | src/external/fatfs/ff.c:1236-1263 | one character is stored or refused as the parse function says |
| NameOps.CreateName | src/external/fatfs/ff.c:1210-1278 | create_name computes the parse function, byte by byte, and refuses exactly what it refuses |
| NameOps.FileName | src/external/fatfs/ff.c:1302-1327 | get_fileinfo writes the printed name and closes it |
| Lines.CodeMeans | src/external/grlib/line.c:218-268 | the clip code says on which sides of the region a point lies; 0 means inside |
| Lines.CrossingBetween | src/external/grlib/line.c:353-411 | a crossing computed with truncating division lies between the two ends |
| Lines.CrossingNear | src/external/grlib/line.c:353-411 | it is off the exact line by less than a pixel |
| Lines.CrossingWhole | src/external/grlib/line.c:353-411 | the crossing is the first end moved toward the second by as many whole pixels as the line has covered, the fraction dropped |
| Lines.WholeUnique | src/external/grlib/line.c:353-411 | there is one such pixel only |
| Lines.ProductsFit | src/external/grlib/line.c:353-411 | with 15-bit coordinates no product leaves 32 bits |
| Lines.MoveEnd | src/external/grlib/line.c:341-441 | a move goes to the first edge, top, bottom, left, right, that the end is beyond, at exactly the whole-pixel crossing; it stays in the box of the ends, lowers the number of crossed edges, is within a pixel of the exact crossing, and never divides by zero |
| Lines.CrossingFraction | src/external/grlib/line.c:353-411 | the computed crossing is within a pixel of the exact point of the line on the edge |
| Lines.ClippedMove | src/external/grlib/line.c:341-441 | each move costs at most one pixel of accuracy and drops only what is outside the region |
| Lines.NothingDeep | src/external/grlib/line.c:330-333 | a line whose remainder lies beyond one edge has no point well inside the region |
| Lines.LineClip | src/external/grlib/line.c:299-443 | terminates; the result is that of the moves of whole pixels, first end first (`Lines.ClipsTo`); on 1 both ends are inside and inside ends have not moved; a line with an inside end is never rejected; what is left lies within four pixels of the given line and covers all of it that is four pixels inside the region; no point of a rejected line is four pixels inside |
| Lines.RunUnique | src/external/grlib/line.c:299-443 | the given line determines that result pixel for pixel |
| LineDrawing.LineDrawH | src/external/grlib/line.c:57-118 | exactly the pixels of the row inside the region |
| LineDrawing.LineDrawV | src/external/grlib/line.c:139-200 | exactly the pixels of the column inside the region |
| LineDrawing.TrackStep | src/external/grlib/line.c:585-625 | the error term stays the distance to the exact line and in its range |
| LineDrawing.TrackNear | src/external/grlib/line.c:585-625 | a pixel drawn is a nearest one |
| LineDrawing.TrackBounds | src/external/grlib/line.c:585-625 | the scan does not pass its end and reaches it at the last step |
| LineDrawing.Scan | src/external/grlib/line.c:562-625 | one pixel a step along the major axis, both ends exact, every pixel nearest to the exact line, of two equally near ones that nearer to the start, and between the ends |
| LineDrawing.ScanUnique | src/external/grlib/line.c:562-625 | the ends of a scan determine every pixel |
| LineDrawing.PixelNear | src/external/grlib/line.c:562-625 | every pixel of a scan is within half a pixel of the exact line |
| LineDrawing.LineNear | src/external/grlib/line.c:562-625 | every point of the exact line has a pixel of the scan within one pixel |
| LineDrawing.DrawnAccurate | src/external/grlib/line.c:464-626 | clipping and scan together: pixels within 4.5 of the given line, and all of it that is four inside the region marked within five |
| LineDrawing.LineDraw | src/external/grlib/line.c:464-626 | all pixels inside the region; exact rows and columns; other lines scanned between exactly the ends that clipping by whole pixels leaves, which lie within four pixels of the given line, and accurate as above; no point of a line that draws nothing is four pixels inside |
| Lzss.CopiedAt | src/external/grlib/image.c:288-357 | byte n of a match is byte n - (32 - m) of the output, zero before its start |
| Lzss.FlagBits | src/external/grlib/image.c:270-288 | token i behind an encoding byte is a match exactly if bit 7 - i is set |
| Lzss.Unpacks | src/external/grlib/image.c:290-295 | for m below 32 and n from 2 to 9 the byte 8 m + n - 2 is the match of n bytes at m |
| Lzss.DecodeEncode | src/external/grlib/image.c:259-357 | decoding undoes encoding: any tokens, packed behind their encoding bytes, decode to the bytes they mean |
| Lzss.RingPut | src/external/grlib/image.c:339-357 | the 32-byte ring holds the newest bytes, in front of the write index those of this round |
| Lzss.RingLook | src/external/grlib/image.c:344-346 | the ring entry the code copies is that byte of the unbounded history |
| ImageDrawing.RowArithmetic | src/external/grlib/image.c:368-458 | the byte and pixel arithmetic of the row loop for 1, 4 and 8 bits per pixel |
| ImageDrawing.RowGoesOn | src/external/grlib/image.c:422-438 | a row that goes on behind the ring: the chunk is the next part of the row |
| ImageDrawing.RowFinished | src/external/grlib/image.c:439-457 | a row that ends in the ring: the chunk is the rest of the row |
| ImageDrawing.FlushRing | src/external/grlib/image.c:363-464 | the ring is drawn as exactly the rows and parts of rows its bytes are |
| ImageDrawing.CopyIntoRing | src/external/grlib/image.c:339-357 | the copy loop appends the match to the output, up to the end of the ring |
| ImageDrawing.DrawToken | src/external/grlib/image.c:275-470 | one token of the stream decoded and, when due, drawn |
| ImageDrawing.ImageDraw | src/external/grlib/image.c:230-472 | the display receives row y of the unbounded-history decoding at line y of the image, for every row, and nothing else; of an encoded stream, the bytes its tokens mean |
| ImageDrawing.EnoughBytes | src/external/grlib/image.c:249 | a row has just the bytes its pixels need |
| ImageDrawing.RowValue | src/external/grlib/image.c:368-458 | pixel i of a row is in byte i, i / 2 or i / 8, at place i % 2 or i % 8 |
| ImageDrawing.BytePixels | src/external/grlib/image.c:368-458 | the pixels of a byte make it up, the leftmost in the highest bits |
| PixelBuffers.PaintedOnce | src/external/grlib/offscr1bpp.c:75-112 | painting a set of pixels in one colour has one result |
| PixelBuffers.PixelPaints | src/external/grlib/offscr1bpp.c:75-112 | the masked store of one pixel changes that pixel only |
| PixelBuffers.RowPaints | src/external/grlib/offscr1bpp.c:75-112 | pixel after pixel paints exactly the stretch |
| OffScreens.Canvas.PlaceUnique | src/external/grlib/offscr1bpp.c:95-106 | no pixel of one row lies in another row or its padding |
| OffScreens.Canvas.PixelByte | src/external/grlib/offscr1bpp.c:95-111 | pixel (x, y) is bit 7 - x % 8 of the byte behind 5 header bytes, y rows and x / 8 bytes; with 4 bits, the high or low half of the byte behind 54 header bytes, y rows and x / 2 bytes |
| OffScreens.Canvas.PixelDraw | src/external/grlib/offscr4bpp.c:140-178 | PixelDraw changes exactly its pixel |
| OffScreens.FillMiddle | src/external/grlib/offscr1bpp.c:439-498 | the byte, half-word and word stores paint exactly their pixels, each at an aligned address |
| OffScreens.FillBands | src/external/grlib/offscr1bpp.c:681-765 | the same by columns of bytes for a rectangle; the stores of the first row are aligned, all stores exactly if the row length suits the widest ones made |
| OffScreens.ColumnAligned | src/external/grlib/offscr1bpp.c:704-728 | a column of half-word or word stores that starts aligned is aligned throughout exactly if there is one row or the row length is a multiple |
| OffScreens.RowsPaint | src/external/grlib/offscr1bpp.c:602-783 | row after row, pixel after pixel, paints exactly the rectangle |
| OffScreen1.LeadBits | src/external/grlib/offscr1bpp.c:413-433 | the mask of a partial first byte selects exactly the pixels of the line |
| OffScreen1.RestBits | src/external/grlib/offscr1bpp.c:503-510 | the mask of a partial last byte as well |
| OffScreen1.LineDrawH | src/external/grlib/offscr1bpp.c:371-511 | the same buffer as PixelDraw at each pixel of the line, for every alignment; no other bit changes |
| OffScreen1.RectFill | src/external/grlib/offscr1bpp.c:602-783 | the same buffer as the lines of all rows; no other bit changes; the exact condition under which all stores are aligned |
| OffScreen1.UnalignedRow | src/external/grlib/offscr1bpp.c:716-728 | in a buffer of ten bytes a row, word stores of the second row are not aligned |
| OffScreen4.SpreadSolid | src/external/grlib/offscr4bpp.c:481-483 | the spread word holds the colour in all eight pixels |
| OffScreen4.LineDrawH | src/external/grlib/offscr4bpp.c:448-573 | the same buffer as PixelDraw at each pixel of the line, for every alignment; no other bit changes |
| OffScreen4.RectFill | src/external/grlib/offscr4bpp.c:677-843 | the same buffer as the lines of all rows; no other bit changes; the exact condition under which all stores are aligned |

## Left out

- FileSystem.FatFs.PutFat: after a disk error only the dirty mark is promised, because the code sets it over a stale buffer.
- Allocation.CreateChain: the outcome is stated for a drive without failures, because the code takes a disk error for the end of a chain.
- FileWrite.Write: the content is stated for a drive without failures, for the same reason; after a failure only the error codes and the abort flag are.
- FileSeek.Seek: likewise.
- DirOps.Register: stated for a drive without failures, because it may stretch the table.
- DirOps.Find: needs a directory whose start cluster begins a proper chain, as do registration and removal; dir_seek's check of a bad start cluster is modelled.
- Lines.LineClip: coordinates are unbounded integers; `Lines.ProductsFit` says when 32 bits are enough.
- ImageDrawing.ImageDraw: images wholly inside the clipping region and streams that cover their data exactly; clipped compressed images, uncompressed ones, the header and the palette are not modelled.
- FileRuns.Run: a drive without failures and a table without bad entries (`AllocRuns.NoBadEntry`) are assumed; a call that leaves the buffer wrong ends the run.
- OpenFiles.RunAll: the same drive and table; a file whose own call left its buffer wrong is not used again.
- MixedRuns.RunMixed: likewise, for one directory of at least one sector; the files are opened before the run, and the removal of a name whose entry is an open file's ends it (f_unlink itself does not check this). The release of a removed file's chain is not part of it.
- DirFiles.RegisterAmong: a drive without failures and a table without bad entries, as above.
- The time stamp of f_sync is a parameter; creation and access times, attributes other than the archive bit, f_chmod and f_utime are left out.
- auto_mount: media detection, partition search and status codes; only the layout it computes is assumed, as the geometry.
- validate, the mount identifier and re-entrancy: the objects are taken to be mounted.
- f_open's path search and creation modes, follow_path, f_opendir, f_readdir, f_unlink, f_mkdir: combinations of modelled steps.
- f_rename, f_forward, f_mkfs, f_gets, f_printf, long file names, the tiny and relative-path configurations: switched off, or not part of this model.
- The card drivers and the hardware: disk_read and disk_write are the contract of `Disk.Drive`.
- The vertical line and multi-pixel routines of the off-screen drivers, the 8-bit driver, circles, strings, containers and widgets.
