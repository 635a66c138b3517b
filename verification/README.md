# The FAT file system, the frame allocator, the page tables and the kernel heap

This project models four parts of the kernel and proves what they promise.

**The FAT16/FAT32 driver and the file layer on top of it** (`drivers/fat`, `kernel/fatfs`)
is a stack of refinements, one layer per module:

| layer | modules |
|---|---|
| bytes and little-endian words in 512-byte sectors, a disk that may refuse transfers | `Words`, `BlockDevice` |
| where FAT, root directory and clusters lie | `Layout`, `Arith` |
| FAT entries behind write-back sector buffers, seen by clients as one ghost table `T` | `FatTables` |
| the table as cluster chains and free clusters | `Chains`, `Allocation`, `Ownership` |
| a chain as sectors, and as bytes | `Contents`, `FileBytes` |
| a directory as 32-byte slots, and those as a list of (name, record) pairs | `LongNames`, `Directories`, `DirScan`, `DirLookup`, `DirWrite`, `DirInsert`, `Listings` |
| name comparison and short-name choice | `FatStrings`, `ShortNames`, `ShortChoice` |
| the volume invariant and its steps | `Volumes` |
| create, make directory, remove, open, read, write | `Operations`, `FileIo`, `Files` |
| the whole life of a file | `Lifetimes` |
| format and mount, with and without a partition table | `Format` |
| runs of operations, and what they never lose | `Runs` |
| open files during such runs | `Handles` |
| inputs on which the driver fails | `Limits`, `Crowds` |

The central definition is `Volumes.Inv`. A `Tree` gives, beside the stored volume, the
chains by their first cluster, the pairs of each directory, and the chains nothing names
yet. The invariant says that the FAT is a set of pairwise disjoint, acyclic, in-range,
end-marked chains with every other entry from cluster 2 up free; that each directory's
slots spell its pairs; that entries and chains other than the root's correspond one to
one; that names and short names differ within a directory; and that no file is longer
than its chain. `Format.FreshFileSystem` establishes it. Every operation of `Operations`
and `Files` takes a volume that has it (`Operations.Ready`) to one that has it again, says
exactly which pairs, chains and bytes changed, and is a run of elementary steps
(`Volumes.Reaches`): allocate, clean, drop, enter, unlink, grow, write, resize.
`Volumes.StepKeeps`, `Volumes.RunKeeps` and `Format.EveryRun` carry the invariant over all
such runs, to every point of them. `Runs.NoClusterLost` draws the conclusion for runs of whole
operations from a fresh volume: every directory can be reached from the root, the chains
nothing names are as many as the calls lost, and if they lost none every used cluster is in
one chain with one name. `Handles.StaysOpen` follows an open file through them, and
`Lifetimes.FileLife` plays a file's whole life.

**The kernel heap** (`kernel/memory/kheap.c`, `ordered_array.c`): modules `KHeap`,
`HeapRuns` and `OrderedArrays`. Headers and footers are bytes of the managed memory; the
tiling of the memory by tagged blocks and the index of holes are kept in agreement.

**Physical frames and page tables** (`kernel/memory/phys_mem.c`, `paging.c`): modules
`PhysicalMemory` and `Paging`. Page directories and page tables are objects, and tables
are really shared between directories.

Where the code falls short of what one would expect of it, the model does what the code
does, and the exact condition is proved:

- The search for a free cluster covers the whole FAT, also the entries behind the last
  data cluster. `Operations.AmpleExactly` gives the condition under which an allocation
  yields clusters with data sectors; `Format.FullVolume` shows that every FAT32 volume
  fails it once it is full, and `Limits.FillFresh` fills one. Operations that allocate
  require the condition; `Limits.GrowUnchecked` says what allocation does without it: it
  leaves a volume that no tree puts in order, if and only if the condition fails.
- The short-name search treats the number 9999 as the sign of failure
  (`kernel/fatfs/fatfs.c:772`): `ShortChoice.ChosenFresh` and `ShortChoice.LastCandidate`.
  `Crowds.GiveFresh` runs into a short name that is given out twice.
- When the short names run out, `_fs_create_dir` has allocated a cluster already and
  leaves it allocated (`kernel/fatfs/fatfs.c:726-729`): `Operations.CreateDir` says
  exactly when, and `Crowds.LoseFresh` runs into it.
- `_fs_remove` removes directories that are not empty, and what is below them loses its
  name: `Runs.RemovalOrphans` says exactly what, and when. By `Runs.ActLoose` these two are
  the only ways to lose anything.
- The lookup compares a short name's extension with its spaces, so that a record without a
  long name answers to its 8.3 name exactly if its extension is empty or has three bytes:
  `DirLookup.AnswersExactly`, and `DirLookup.Unfound` for A.C.
- `heap_free` joins a block with the hole on its right but leaves that hole's footer as it is
  (`kernel/memory/kheap.c:388-391`). `KHeap.Heap.Free` keeps the heap a tiling of tagged blocks
  if and only if there is no such hole; `HeapRuns.FreeBefore` runs into one.
- FAT16 formatting accepts sizes that do not mount as FAT16: `Format.Mounts16` gives the
  two ranges of those that do, and `Format.MountsAsFormatted` says it for `fatfs_format`,
  which chooses the type.
- `_fs_read_file` compares a 32-bit sum with the length (`kernel/fatfs/fatfs.c:161`). If the
  sum wraps, it may read on behind the length, to the end of the chain:
  `Files.ReadsToLength` has the condition, and `Limits.ReadPastLength` runs into it.
- A FAT32 entry is stored with all 32 bits, so its top four bits are not preserved, unlike
  the section "FAT Data Structure" of the Microsoft FAT32 File System Specification 1.03.
- `_fs_write_file` panics when it finds no cluster for part of a sector
  (`kernel/fatfs/fatfs.c:455-458`), and stops short when it finds none for whole sectors.
  `Files.WriteFile` returns the panic as a flag and says from the chain and the free list
  before the call which of the two it will be (`Files.OutcomeOf`). Both need a FAT without
  entries behind the data clusters: on the volumes that this driver formats as FAT32 such an
  entry would be handed out instead (`Limits.NeverShort`, `Limits.FormattedSpare`). On a
  volume laid out without them `Limits.WriteOnSnug` runs into either.

Panics (`ASSERT(false)` and allocation failure of frames) are results. Calls that the
source guards by `ASSERT` require the asserted condition.

## Model

| member | source | states |
|---|---|---|
| `Layout.Geometry.LbaIsRel` | drivers/fat/fat_access.c:195-201 | for every data cluster and sector number the address that `fatfs_lba_of_cluster` computes in 32 bits is the unwrapped one and lies in the data region |
| `Layout.Geometry.RegionsApart` | drivers/fat/fat_access.c:137-144 | the FAT, the FAT16 root directory and the clusters are pairwise apart, and (cluster, sector) to address is injective |
| `Layout.Geometry.CopiesApart` | drivers/fat/fat_access.c:137-144 | the copies of the FAT are apart from each other, and all of them lie before the root directory and the data |
| `Layout.Geometry.ClustersInOrder` | drivers/fat/fat_access.c:195-201 | cluster 2 is the first of the data, behind the sectors of the FAT16 root directory, and each cluster follows the one before it |
| `Words.Put32Get32` | drivers/fat/fat_table.c:376-379 | a little-endian word stored in a sector reads back, and no other word of it changes |
| `Words.LowByteFirst` | drivers/fat/fat_table.c:376-379 | the low byte of a word comes first |
| `Contents.AddrsDistinct` | drivers/fat/fat_access.c:195-201 | two different sectors of one chain never share an address |
| `Contents.AddrsDisjoint` | drivers/fat/fat_access.c:195-201 | chains without a common cluster have no common sector |
| `Contents.DirAddrsDisjoint` | drivers/fat/fat_access.c:220-269 | a directory, the FAT16 root included, shares no sector with a chain it has no cluster in common with |
| `Contents.SplitOffset` | kernel/fatfs/fatfs.c:82-84 | the cluster index and the sector in the cluster of a sector offset; the index is the chain length exactly at its end |
| `FatTables.FatTable.constructor` | drivers/fat/fat_table.c:60-79 | n buffers, all empty: the table is what the FAT sectors on disk store |
| `FatTables.DecodeStored` | drivers/fat/fat_table.c:349-383 | overwriting the bytes of one entry in its sector changes the table at that entry only, to the stored value (16 bits, or all 32) |
| `FatTables.EntryBytes` | drivers/fat/fat_table.c:349-383 | where entry c of the FAT has its bytes: two or four of them, the low one first, 256 or 128 entries to a sector |
| `FatTables.FatTable.Writeback` | drivers/fat/fat_table.c:83-112 | writing a buffer back leaves the table alone and marks that buffer clean; on a failed write nothing changes |
| `FatTables.FatTable.ReadSector` | drivers/fat/fat_table.c:116-175 | the sector is in the buffer returned, no sector is ever held twice, the number of buffers stays, and the table does not change, whatever the disk answers |
| `FatTables.FatTable.Purge` | drivers/fat/fat_table.c:179-195 | after success the disk alone stores the table |
| `FatTables.FatTable.FindNextCluster` | drivers/fat/fat_table.c:205-256 | the masked link of the table entry, or the end marker; cluster 0 is taken for 2 |
| `Layout.LinkOf32` | drivers/fat/fat_table.c:205-256 | the top four bits of a FAT32 entry are not part of the link, 0x0FFFFFF8 and up end the chain, and all 32 bits are stored |
| `Layout.LinkOf16` | drivers/fat/fat_table.c:205-256 | a FAT16 entry is its link, and 0xFFF8 and up end the chain |
| `FatTables.FatTable.SetFsInfoNextFree` | drivers/fat/fat_table.c:260-283 | the hint is on disk in the FSINFO sector, and the table does not change |
| `FatTables.FatTable.FindBlankCluster` | drivers/fat/fat_table.c:288-342 | terminates with the least free entry at or above the start, or with failure exactly if there is none |
| `FatTables.FatTable.SetCluster` | drivers/fat/fat_table.c:349-383 | changes the table at one entry, to all 32 bits of the value on FAT32, or not at all on a failed read |
| `FatTables.FatTable.FreeClusterChain` | drivers/fat/fat_table.c:389-407 | terminates on every table whose links are in range, cyclic ones included, and leaves `Freed` of it |
| `FatTables.FatTable.AddClusterToChain` | drivers/fat/fat_table.c:414-440 | walks from the head of a chain to its end and appends one cluster there |
| `FatTables.FatTable.CountFreeClusters` | drivers/fat/fat_table.c:445-478 | the number of raw zero entries of the table |
| `FatTables.OnlyFatTransitive` | drivers/fat/fat_table.c:116-175 | FAT accesses one after another write no sector but those of the FAT and FSINFO |
| `Chains.FreedChain` | drivers/fat/fat_table.c:389-407 | on a well-formed chain exactly its entries become zero, and the free count rises by its length |
| `Chains.FreedStep` | drivers/fat/fat_table.c:395-404 | each turn of the freeing loop either clears one more nonzero entry or is the last |
| `Chains.AppendedChain` | drivers/fat/fat_table.c:414-440 | linking distinct free clusters behind the tail gives the longer end-marked chain, and no entry but the tail and the new ones changes |
| `Chains.ChainKept` | drivers/fat/fat_table.c:349-383 | a chain does not notice changes at entries outside it |
| `Chains.FreeInMembers` | drivers/fat/fat_table.c:288-342 | `FreeIn` lists exactly the free clusters of a range, ascending |
| `Chains.FreeInFirst` | drivers/fat/fat_table.c:288-342 | the least free entry is the head of that list |
| `Chains.FreeExactly` | drivers/fat/fat_table.c:288-342 | an entry is free when the low 28 bits of a FAT32 entry, or all 16 of a FAT16 entry, are zero |
| `Chains.ZeroCountIs` | drivers/fat/fat_table.c:445-478 | what is counted are the entries that are zero in all bits |
| `Allocation.FreeIs` | drivers/fat/fat_write.c:104-107 | the free list has the free clusters from the root directory's cluster on, ascending |
| `Allocation.AddFreeSpace` | drivers/fat/fat_write.c:45-76 | links the n lowest free clusters from the root cluster up behind the tail, in ascending order, and reports the first; succeeds exactly if there are n; on shortage links all there are |
| `Allocation.AllocateNew` | drivers/fat/fat_write.c:82-125 | for a size of at most one cluster: the least free cluster becomes a chain of its own; fails exactly for size 0 or no free cluster, and then changes nothing |
| `Allocation.ClusterCount` | drivers/fat/fat_write.c:95-101 | rounds the size up to whole clusters |
| `Allocation.FindFree` | drivers/fat/fat_write.c:104-107 | the least free cluster from the root directory's first cluster on |
| `Operations.AmpleExactly` | drivers/fat/fat_table.c:288-342 | the search covers the whole FAT: n clusters can be taken safely if and only if n data clusters are free or no entry behind the last data cluster is free |
| `Format.FullVolume` | drivers/fat/fat_write.c:45-76 | on every volume formatted as FAT32, if all data clusters are used up, the least free FAT entry is the one right behind the last data cluster, whose first sector is the first one behind the data |
| `Limits.FillFresh` | drivers/fat/fat_write.c:45-76 | a run of the driver that gets there: format, mount, one file of the size of the volume; the next cluster handed out is the one without data sectors |
| `Limits.FillVolume` | drivers/fat/fat_write.c:45-76 | one file takes up every data cluster of a fresh volume, and what is left free has no data sectors |
| `Format.SparesExist` | drivers/fat/fat_format.c:475-520 | every volume formatted as FAT32 has FAT entries without data sectors |
| `Access.FatFs.SectorReader` | drivers/fat/fat_access.c:220-269 | makes sector n of a chain, or of the FAT16 root, the current sector, with the contents it has on disk; fails exactly past the end; nothing stored changes |
| `Access.FatFs.Walk` | drivers/fat/fat_access.c:239-248 | following n links from the head of a chain gives its n-th cluster, or the end |
| `Access.FatFs.WriteCurrent` | drivers/fat/fat_access.c:329-382 | the current sector goes to its own place and agrees with the disk again |
| `Access.FatFs.WriteRun` | drivers/fat/fat_access.c:212-215 | a run of data sectors is replaced and nothing else |
| `Access.DataWriteKeeps` | drivers/fat/fat_access.c:212-215 | writes behind the FAT do not disturb what the FAT buffers show |
| `FatStrings.CompareNoCase` | drivers/fat/fat_string.c:182-212 | zero exactly if the first n bytes are the same, or the same letters in another case: one in 0x41 to 0x5A, the other that plus 32 |
| `FatStrings.GetExtension` | drivers/fat/fat_string.c:217-232 | the position of the last dot, or -1 |
| `FatStrings.TrimLength` | drivers/fat/fat_string.c:237-255 | the length without trailing spaces |
| `FatStrings.CompareNames` | drivers/fat/fat_string.c:260-319 | equality of a normal form, hence an equivalence; names that differ in case only are equal |
| `FatStrings.NormalExactly` | drivers/fat/fat_string.c:260-319 | when two names are equal: what follows the last dot is the same but for case, and so is what precedes it, without trailing spaces |
| `FatStrings.CaseIgnored` | drivers/fat/fat_string.c:182-319 | names that differ in the case of letters only are equal |
| `FatStrings.OnlyCaseIgnored` | drivers/fat/fat_string.c:182-319 | of names without a dot and without spaces at their end only these are |
| `FatStrings.TrimmedIs` | drivers/fat/fat_string.c:237-255 | trimming takes the spaces 0x20 at the end, all of them and nothing else |
| `LongNames.WriteLongSlot` | drivers/fat/fat_misc.c:207-244 | the slot carries its ordinal, with 0x40 added in the slot of the highest, attribute 0x0F, the checksum in byte 13 and, read back, its 13 bytes of the name, the terminator and the padding |
| `LongNames.LongSlotBytes` | drivers/fat/fat_misc.c:58-91 | the bytes in which a long-name slot has its 13 characters, 0xFF read as a space, and the ordinal in the low bits of byte 0 |
| `LongNames.ChunkBytes` | drivers/fat/fat_misc.c:193-244 | a name takes a slot for every 13 bytes begun; slot k has those from 13 k on |
| `LongNames.AttributeBits` | drivers/fat/fat_misc.c:110-182 | bit by bit which attributes make a slot a long-name slot, a directory, hidden from lookups, live, or in use |
| `LongNames.LongNameCache.Take` | drivers/fat/fat_misc.c:58-91 | lays the slot's text over its place in the cache and sets the count once; ordinals 0 and above 20 are ignored |
| `LongNames.LongNameCache.Get` | drivers/fat/fat_misc.c:97-108 | the cached bytes up to the first zero, cut at the count |
| `LongNames.LongNameCache.constructor` | drivers/fat/fat_misc.c:39-52 | an empty cache |
| `LongNames.LongNameCache.Reset` | drivers/fat/fat_misc.c:39-52 | an empty cache, the text left as it is |
| `LongNames.ChunksRoundTrip` | drivers/fat/fat_misc.c:193-244 | the slots of a name of any length, multiples of 13 included, read back as exactly the name |
| `Directories.EntryName` | drivers/fat/fat_misc.c:58-108 | the long-name slots, highest ordinal first and followed by the record, read back as the name that was written |
| `Directories.GatherStep` | drivers/fat/fat_misc.c:58-91 | feeding the slots of a run to the cache, one by one, keeps in it the name the run spells |
| `Directories.InsertPair` | drivers/fat/fat_write.c:266-372 | writing an entry over a usable row of slots inserts exactly its (name, record) pair and keeps all others in order, also between deleted slots and orphaned long-name slots |
| `Directories.InsertWellFormed` | drivers/fat/fat_write.c:266-372 | and the long-name slots before every live record are numbered properly again |
| `Directories.ReplacePair` | drivers/fat/fat_access.c:616-777 | changing one record changes that pair's record only; marking it deleted removes exactly that pair |
| `Directories.ReplaceWellFormed` | drivers/fat/fat_access.c:616-777 | and no other name is disturbed |
| `Directories.BlankTail` | drivers/fat/fat_write.c:236-257 | a blank cluster behind a directory adds no pair |
| `Directories.SlotsWritten` | drivers/fat/fat_access.c:329-382 | rewriting 32 bytes of a directory sector changes one slot |
| `Directories.SlotBytes` | drivers/fat/fat_access.c:428-434 | slot i of a sector is its 32 bytes from 32 i on |
| `DirScan.ShortNameExists` | drivers/fat/fat_access.c:513-558 | true exactly if a live slot has these 11 bytes, compared as `strncmp` does |
| `FatStrings.SameShortNameIs` | drivers/fat/fat_access.c:513-558 | without zero bytes that means all eleven bytes |
| `DirScan.UpdateFileLength` | drivers/fat/fat_access.c:616-678 | the first live slot with the short name gets the new size, and nothing else on the volume changes; fails exactly if there is none |
| `DirScan.MarkFileDeleted` | drivers/fat/fat_access.c:714-777 | the first live slot with the short name gets 0xE5 as first byte, and nothing else on the volume changes |
| `DirLookup.SpellShort` | drivers/fat/fat_access.c:464-489 | the 8.3 name as it is spelled for comparison |
| `Directories.ShortSpelled` | drivers/fat/fat_access.c:464-489 | byte by byte: eight of the name, a dot exactly if the extension is not blank and the name does not begin with one, three of the extension, spaces included |
| `DirLookup.AnswersExactly` | drivers/fat/fat_access.c:461-496 | a record without a long name is found under its 8.3 name if and only if its extension is empty or has all three bytes, since the spaces behind a shorter one are compared |
| `DirLookup.Unfound` | drivers/fat/fat_access.c:461-496 | an input: the record of A.C is not found under A.C |
| `DirLookup.GetFileEntry` | drivers/fat/fat_access.c:407-507 | the record of the first live slot whose name, long if it has one, matches; not found exactly if none does |
| `DirLookup.GatheredName` | drivers/fat/fat_access.c:437-459 | before a live slot the cache holds its long name, or nothing if it has none |
| `Listings.NamedOnList` | drivers/fat/fat_access.c:407-507 | the lookup finds the first pair of the listing whose name matches |
| `Listings.AnyCase` | drivers/fat/fat_access.c:407-507 | the case of the name looked for makes no difference to what is found |
| `Listings.ShortOnList` | drivers/fat/fat_access.c:616-777 | the short-name scan stops at the first pair with that short name |
| `Listings.TakenOnList` | drivers/fat/fat_access.c:513-558 | a short name is in use on the listing exactly if the scan meets it |
| `Listings.DeleteOnList` | drivers/fat/fat_access.c:714-777 | deleting removes exactly one pair |
| `Listings.ResizeOnList` | drivers/fat/fat_access.c:616-678 | a length update changes only that size |
| `DirWrite.RoomInSector` | drivers/fat/fat_write.c:151-225 | over one sector the search keeps track of the usable slots at its end and finds the first row that is long enough |
| `DirWrite.TrackUsable` | drivers/fat/fat_write.c:176-216 | a usable slot completes a row or extends it |
| `DirWrite.SearchRoom` | drivers/fat/fat_write.c:144-229 | over all sectors: a usable row, or the certainty that there is none |
| `DirWrite.EraseThroughCurrent` | drivers/fat/fat_write.c:240-246 | all sectors of the new cluster are zero, and nothing else changes |
| `DirWrite.GrowDirectory` | drivers/fat/fat_write.c:227-246 | the least free cluster is linked behind the directory and blanked; fails, changing nothing, exactly if no cluster is free |
| `DirInsert.FindFreeDirOffset` | drivers/fat/fat_write.c:130-262 | the first usable row of the asked length, from its leftmost slot on; the directory grows, by the least free cluster, only if it had no such row; fails only for a count of zero or if there is neither row nor cluster |
| `DirInsert.RoomAfterGrowth` | drivers/fat/fat_write.c:227-258 | the usable slots at the end of the directory together with the blank ones of a new cluster make a usable row |
| `DirInsert.Record` | drivers/fat/fat_misc.c:250-279 | the record holds the short name, the start cluster in two halves, the size and the directory flag, each of which reads back |
| `DirInsert.RecordBytes` | drivers/fat/fat_misc.c:250-279 | all 32 bytes: attribute 0x10 or 0x20 in byte 11, the high half of the start cluster in bytes 20 and 21, the low half in 26 and 27, the size in 28 to 31, the fixed dates, and zeros |
| `DirInsert.RecordFields` | kernel/fatfs/fatfs.c:496-499 | the start cluster and the size are read from these bytes |
| `DirInsert.ShortChecksum` | drivers/fat/fat_write.c:302-305 | the checksum stored in the long-name slots |
| `DirInsert.ChecksumBytes` | drivers/fat/fat_write.c:302-305 | one turn rotates the sum right by one bit and adds the next byte |
| `DirInsert.FillSector` | drivers/fat/fat_write.c:316-356 | over one sector the slots from the offset on become the next slots of the entry, highest ordinal first and the record last |
| `DirInsert.WriteEntry` | drivers/fat/fat_write.c:307-371 | over all sectors, cluster boundaries included, exactly the slots of the entry are written |
| `DirInsert.AddFileEntry` | drivers/fat/fat_write.c:266-372 | the listing of the directory gains exactly this pair, all others keep their order, and no sector outside the directory changes; fails if and only if the name is empty, or there is neither room for the entry nor a free cluster, and then changes nothing |
| `ShortNames.CreateShort` | drivers/fat/fat_misc.c:285-346 | eight bytes of the part before the last dot, upper case, without spaces and dots, and three of the extension; no byte of it is a lower-case letter; refused exactly for a leading dot |
| `ShortNames.ShortBytes` | drivers/fat/fat_misc.c:285-346 | byte for byte: a stem without spaces and dots gives its first eight bytes, an extension its first three; they stay as they are but for letters in 0x61 to 0x7A, which lose 32, and spaces stand for what is missing |
| `ShortNames.ShortReadme` | drivers/fat/fat_misc.c:285-346 | readme.txt becomes README, two spaces, TXT |
| `ShortNames.Itoa` | drivers/fat/fat_misc.c:350-371 | the decimal digits, most significant first |
| `ShortNames.DigitsValue` | drivers/fat/fat_misc.c:350-371 | the digits 0x30 to 0x39 have the value of the number, base ten |
| `ShortNames.DigitsInjective` | drivers/fat/fat_misc.c:350-371 | different numbers have different digits |
| `ShortNames.GenerateTail` | drivers/fat/fat_misc.c:380-401 | `~n` over the end of the first eight bytes; refused exactly above 99999 |
| `ShortNames.TailBytes` | drivers/fat/fat_misc.c:380-401 | the tilde 0x7E and the digits end the first eight bytes; the bytes before them and the extension stay |
| `ShortNames.CandidateIs` | kernel/fatfs/fatfs.c:761-775 | the first candidate is the base name itself, then come the tails ~1, ~2 and so on |
| `ShortNames.TailsDiffer` | drivers/fat/fat_misc.c:380-401 | for one base name different numbers give different 11-byte names |
| `ShortChoice.ChooseShort` | kernel/fatfs/fatfs.c:761-775 | the search stops at the first candidate not in use |
| `ShortChoice.ChosenFresh` | kernel/fatfs/fatfs.c:761-775 | the search ends well, with a name not in use, if and only if one of the first 9999 candidates is unused |
| `ShortChoice.LastCandidate` | kernel/fatfs/fatfs.c:761-775 | otherwise the last candidate comes out, refused if it is unused and given out if it is in use |
| `ShortChoice.FewEntries` | kernel/fatfs/fatfs.c:761-775 | a directory of fewer than 9998 entries always leaves a candidate |
| `Crowds.LoseFresh` | kernel/fatfs/fatfs.c:684-744 | an input for the lost cluster, run from a freshly formatted volume: 9999 files AAAAAAAA0 to AAAAAAAA9998 are created, then a directory AAAAAAAA; that last call is refused and loses a cluster, and it is the only loss of the run |
| `Crowds.LoseCluster` | kernel/fatfs/fatfs.c:684-744 | the same in every directory without these names, on every volume in order with clusters enough |
| `Crowds.GiveFresh` | kernel/fatfs/fatfs.c:761-775 | an input for the duplicate: with AAA~9999 created first, the search for the short name of AAAAAAAA ends well on a name that is in use |
| `Crowds.GiveAway` | kernel/fatfs/fatfs.c:761-775 | the same in every directory without these names |
| `Crowds.CrowdedMore` | kernel/fatfs/fatfs.c:761-775 | the m-th of these names gets exactly the m-th candidate, and no other candidate comes into use |
| `Crowds.CrowderShort` | drivers/fat/fat_misc.c:285-346 | names that differ behind their first eight letters have the same base short name |
| `Crowds.NamesApart` | drivers/fat/fat_string.c:260-319 | and they are different names |
| `Ownership.AllocKeeps` | drivers/fat/fat_write.c:82-125 | a free cluster that becomes a chain keeps the FAT a set of pairwise disjoint, end-marked chains with everything else free |
| `Ownership.GrowKeeps` | drivers/fat/fat_table.c:414-440 | so does lengthening a chain, and only that chain changes |
| `Ownership.FreeKeeps` | drivers/fat/fat_table.c:389-407 | so does freeing a chain, which takes away exactly that chain |
| `Volumes.NothingLost` | kernel/fatfs/fatfs.c:550-805 | in every volume that satisfies the invariant each used cluster is in exactly one chain; this is the root's or one of the nameless ones that the tree counts, and then no entry names it, or it is named by exactly one entry |
| `Volumes.StepKeeps` | kernel/fatfs/fatfs.c:550-805 | each step of creating, writing and removing keeps the invariant: chains disjoint, acyclic, in range and end-marked; listings and chains in one-to-one correspondence; names and short names of a directory pairwise different; no file longer than its chain |
| `Volumes.RunKeeps` | kernel/fatfs/fatfs.c:550-805 | at every point of every run of such steps the invariant holds |
| `Volumes.ReachesKeeps` | kernel/fatfs/fatfs.c:550-805 | what a run leads to from a volume in order is in order |
| `Runs.NoClusterLost` | kernel/fatfs/fatfs.c:550-805 | from a volume freshly formatted as FAT32, after every run of creating, writing, removing and refused calls: the invariant holds, every directory can be reached from the root, the chains without an entry are as many as the calls lost (one for each directory creation refused for its short name alone, and all that was below for each removal of a directory that was not empty), and if none was lost every used cluster is in exactly one chain, which is the root's or has exactly one entry, in a directory that can be reached |
| `Runs.HistoryKeeps` | kernel/fatfs/fatfs.c:550-805 | the same induction from any volume in order |
| `Runs.ActLoose` | kernel/fatfs/fatfs.c:550-805 | no operation leaves chains without an entry but the refused directory creation and the removal of a directory that is not empty, and these leave as many as the action counts |
| `Runs.CallCreateFile` | kernel/fatfs/fatfs.c:746-805 | the method is one of the actions of a run: an entry made, or nothing |
| `Runs.CallCreateDir` | kernel/fatfs/fatfs.c:684-744 | an entry made, nothing, or one cluster lost, each exactly when |
| `Runs.CallRemove` | kernel/fatfs/fatfs.c:550-582 | an entry deleted, and with it the names below, or nothing |
| `Runs.CallWriteFile` | kernel/fatfs/fatfs.c:350-494 | a file written, unless the kernel panics |
| `Runs.RemovalOrphans` | kernel/fatfs/fatfs.c:550-582 | what a removal leaves without a name is what was below the chain removed, and it leaves something exactly if that was a directory and not empty |
| `Runs.RootedMayRemove` | kernel/fatfs/fatfs.c:550-582 | where every directory can be reached from the root, what `_fs_remove` requires here holds of every name |
| `Runs.StepRooted` | kernel/fatfs/fatfs.c:550-805 | each step keeps every directory within reach of the root |
| `Runs.LevelLeads` | kernel/fatfs/fatfs.c:550-805 | each directory of the invariant is reached from the root by as many entries, one inside the other, as its level says: there are no detached cycles |
| `Runs.InOrderAccounted` | kernel/fatfs/fatfs.c:550-805 | what the invariant and reachability mean for one used cluster |
| `Volumes.StepFrame` | kernel/fatfs/fatfs.c:267-348 | a step overwrites sectors of one chain only; every other chain keeps its clusters and its contents |
| `Volumes.EnteredKeeps` | drivers/fat/fat_write.c:266-372 | entering a chain into a directory keeps the invariant |
| `Volumes.UnlinkedKeeps` | kernel/fatfs/fatfs.c:550-582 | freeing a chain and deleting its record keeps the invariant, with what was below it nameless from then on |
| `Volumes.BelowExactly` | kernel/fatfs/fatfs.c:550-582 | something is below a chain if and only if it is a directory that is not empty |
| `Volumes.BelowHangs` | kernel/fatfs/fatfs.c:550-582 | what is below a chain is closed under entries, and each of it has its entry in there |
| `Volumes.FileGrownKeeps` | drivers/fat/fat_write.c:45-76 | lengthening a file keeps the invariant |
| `Volumes.FileWrittenKeeps` | kernel/fatfs/fatfs.c:267-348 | overwriting sectors of a file keeps the invariant |
| `Volumes.ResizedKeeps` | drivers/fat/fat_access.c:616-678 | updating a length that the chain can hold keeps the invariant |
| `Volumes.FreshInv` | drivers/fat/fat_format.c:392-422 | a volume whose FAT has only the reserved entries and the root's end mark, with a blank root cluster, satisfies the invariant |
| `Operations.Lookup` | drivers/fat/fat_access.c:407-507 | on a volume in order the lookup answers for the directory's list of pairs |
| `Operations.NewChain` | kernel/fatfs/fatfs.c:639-682 | one cluster, the least free one, becomes a chain that nothing names yet |
| `Operations.EraseNew` | kernel/fatfs/fatfs.c:704-713 | the cluster of a new directory becomes blank and so lists nothing |
| `Operations.CreateFile` | kernel/fatfs/fatfs.c:746-805 | the directory gains exactly one pair, of this name, with a chain of one cluster, size 0, and the first candidate for its short name that is not in use; the clusters come off the head of the free list; no other chain changes in clusters or contents; refused if and only if the name is in use or empty, its first 9999 short names are in use, or the clusters do not suffice (one for the file, and one more if the directory has no row of slots for the entry), and then nothing changes; the effect is a run of the steps above |
| `Operations.CreateDir` | kernel/fatfs/fatfs.c:684-744 | the same for a directory, which starts empty; refused in exactly the same cases, and then nothing changes except that one cluster is lost exactly if the short names alone ran out |
| `Operations.Remove` | kernel/fatfs/fatfs.c:550-582 | the first pair of the name is gone, exactly its chain is free again, the chains below it lose their names and nothing else, and no other chain changes; fails exactly if the name is not there |
| `Operations.SameEntry` | kernel/fatfs/fatfs.c:564-574 | the record that is marked deleted, found by its short name, is the one that was looked up by its name |
| `Operations.SpentBy` | kernel/fatfs/fatfs.c:639-682 | the clusters a creation takes are the first one or two of the free list, the second one only if the directory grew |
| `Operations.BornBy` | kernel/fatfs/fatfs.c:746-805 | a cluster taken and then entered is a file or directory more, and nothing else |
| `Operations.FoundAgain` | kernel/fatfs/fatfs.c:796-801 | a lookup of the new name finds the new record |
| `FileIo.OpenFile.constructor` | kernel/fatfs/fatfs.c:501-537 | an open file starts from its record: the cluster from bytes 26, 27, 20 and 21, the length from bytes 28 to 31, the low byte first; its lookup and its sector buffer are unset |
| `FileIo.ReadLookup` | kernel/fatfs/fatfs.c:90-134 | the last-cluster shortcut equals the full walk: the cluster for index i is element i of the chain, or the end, and the recorded lookup goes on naming the chain element at its index |
| `FileIo.WriteLookup` | kernel/fatfs/fatfs.c:285-326 | the same for writing, with the last cluster at the end of the chain |
| `FileIo.LookupLonger` | kernel/fatfs/fatfs.c:328-342 | the recorded lookup survives growth of the chain |
| `FileIo.ReadSectors` | kernel/fatfs/fatfs.c:74-145 | 1 to n whole sectors of the file from the offset on, none past a cluster boundary; 0 exactly at the end of the chain |
| `FileIo.GrowFile` | drivers/fat/fat_write.c:45-76 | the file's chain gets the lowest free clusters behind its end, and the invariant is kept |
| `FileIo.ClusterToWrite` | kernel/fatfs/fatfs.c:285-342 | the cluster for the sector, after growth by what the rest of the write needs |
| `FileIo.WriteSectors` | kernel/fatfs/fatfs.c:267-348 | 1 to n sectors of the file from the offset on become those of the buffer, the others stay, growing the chain at its end; no other file changes |
| `FileBytes.ProgressWhole` | kernel/fatfs/fatfs.c:385-416 | whole sectors written extend the bytes in place |
| `FileBytes.ProgressPart` | kernel/fatfs/fatfs.c:417-470 | part of a sector, written over what it held, extends the bytes in place |
| `FileBytes.ProgressDone` | kernel/fatfs/fatfs.c:350-494 | the content c becomes c[..off] + data + c[off+n..] |
| `FileBytes.ByteAt` | kernel/fatfs/fatfs.c:136-215 | byte k of a file is byte k modulo 512 of sector k / 512 of its chain |
| `Files.ReadFile` | kernel/fatfs/fatfs.c:147-232 | exactly the bytes of the file from the offset on, as many as `BytesRead` says, and not a byte more of the buffer, across partial sectors, runs and cluster ends, for every offset and count of 32 bits; nothing on the volume changes |
| `Files.ReadsToLength` | kernel/fatfs/fatfs.c:158-162 | the read ends at the length of the file, as min(count, len-off) says, if and only if the 32-bit sum of offset and count does not wrap, or wraps to more than the length, or the chain ends with the file |
| `Files.ReadsBeyond` | kernel/fatfs/fatfs.c:158-162 | an input whose sum wraps: 4091 bytes come out of a file that has 5 left |
| `Limits.ReadPastLength` | kernel/fatfs/fatfs.c:147-232 | an input run from a freshly formatted volume: of a file just short of four gigabytes 512 bytes are asked for at its last byte, and 256 or more come out |
| `Files.WriteFile` | kernel/fatfs/fatfs.c:350-494 | the content becomes c[..off] + data + c[off+n..], node and record have the new length, the chain is as long as the bytes need, its new clusters are the first free ones, and no other chain changes; all is written if and only if the free clusters suffice for all of it, the kernel panics if and only if they suffice for the whole sectors only, and otherwise the write stops where the old chain ended, after taking every free cluster |
| `Files.AtTheEnd` | kernel/fatfs/fatfs.c:455-458 | part of a sector that is due right behind the chain gets a cluster exactly if one is free, while the whole sectors before it need none |
| `Files.AllThere` | kernel/fatfs/fatfs.c:350-494 | if all bytes are in place the clusters sufficed for all of them |
| `FileIo.EnoughStays` | drivers/fat/fat_write.c:45-76 | growing a chain by the first free clusters does not change for which lengths the clusters suffice |
| `Limits.NeverShort` | kernel/fatfs/fatfs.c:350-494 | on a volume whose FAT has an entry behind the last data cluster, a write whose clusters have data sectors is always done: it neither panics nor stops short |
| `Limits.FormattedSpare` | drivers/fat/fat_format.c:475-520 | every volume formatted as FAT32 has such an entry |
| `Limits.RefusedForNames` | kernel/fatfs/fatfs.c:684-805 | there a creation is refused for its name or its short names only |
| `Limits.GrowUnchecked` | drivers/fat/fat_write.c:45-76 | what growth does there whose clusters do not all have data sectors: an entry without data sectors is linked behind the file, and no tree puts the volume in order again; both exactly if not all the entries it comes to have data sectors |
| `Limits.GrowthBreaks` | drivers/fat/fat_write.c:45-76 | the same of the table, for every volume in order |
| `Limits.FullOutcome` | kernel/fatfs/fatfs.c:350-494 | on a volume without free entries, n more bytes behind a file whose sectors are all in use: the kernel panics if they are less than a sector, and otherwise none is written |
| `Limits.SnugMounts` | drivers/fat/fat_access.c:43-190 | there are volumes that the driver mounts whose FAT has no entry behind the last data cluster |
| `Limits.WriteOnSnug` | kernel/fatfs/fatfs.c:350-494 | inputs for both failures: such a volume, filled by one file, and then one byte more, which panics, or one sector more, which stops short |
| `Files.Extend` | kernel/fatfs/fatfs.c:473-484 | the length in the node and in the record changes, and nothing else in the directory |
| `Files.Open` | kernel/fatfs/fatfs.c:501-537 | the first entry of the name is opened, at the cluster and with the length that the bytes of its record say, and with chain, buffers and length in agreement with the volume; none exactly if there is no such name |
| `Files.ReadBack` | kernel/fatfs/fatfs.c:147-494 | what was written is what a later read finds there; the bytes before and behind it are the old ones |
| `Files.OpenReadable` | kernel/fatfs/fatfs.c:147-494 | every open file may be read |
| `Handles.StaysOpen` | kernel/fatfs/fatfs.c:501-537 | an open file stays open and its bytes stay what they are through every call that neither writes it nor takes its entry or a directory above it away; its pair may move within its directory |
| `Handles.WriteBeside` | kernel/fatfs/fatfs.c:350-494 | two files are open and one is written: both are open still |
| `Handles.CreateBeside` | kernel/fatfs/fatfs.c:746-805 | the same for the creation of a file |
| `Handles.RemoveBeside` | kernel/fatfs/fatfs.c:550-582 | and for the removal of an entry that is neither the file's nor that of a directory above it |
| `Lifetimes.FileLife` | ktest/src/fatfs_test.c:53-95 | for every name and content that fit: create, write, open again, read and remove all succeed, what is read is what was written, and afterwards all names and all chains but the directory's own are exactly as before |
| `Lifetimes.DirectoryLife` | ktest/src/fatfs_test.c:214-228 | for every name that fits: a directory is made and removed, and afterwards all names and all other chains are exactly as before |
| `Lifetimes.CancelOut` | kernel/fatfs/fatfs.c:550-805 | creation and removal of one name cancel out, whatever was written in between |
| `Lifetimes.FreshWelcome` | kernel/fatfs/fatfs.c:746-805 | on a fresh volume every name the driver can create is welcome, with any content up to the size of the volume |
| `Format.CalcClusterSize` | drivers/fat/fat_format.c:77-95 | the first row of the table that is wide enough |
| `Format.LeastFat` | drivers/fat/fat_format.c:186-187 | the FAT has the least number of sectors that hold an entry for every cluster of the volume and two more |
| `Format.EraseSectors` | drivers/fat/fat_format.c:99-111 | these sectors are zero, and no other changes |
| `Format.BootSector16` | drivers/fat/fat_format.c:115-347 | the fields the mount reads from a FAT16 boot sector are those of the format; jump, maker, medium, geometry, serial number, name and type are the bytes of the source |
| `Format.BootSector32` | drivers/fat/fat_format.c:115-347 | the same of FAT32 |
| `Format.FsInfoReads` | drivers/fat/fat_format.c:351-388 | the signatures of the FSINFO sector, and both of its hints set to unknown |
| `Format.Sizes16` | drivers/fat/fat_format.c:52-62 | the FAT16 table in numbers |
| `Format.Sizes32` | drivers/fat/fat_format.c:64-72 | the FAT32 table in numbers |
| `Format.FirstFatBytes` | drivers/fat/fat_format.c:392-421 | the bytes of the first FAT sector |
| `Format.Format16Bytes` | drivers/fat/fat_format.c:429-467 | byte for byte what the driver reads of a volume formatted as FAT16, and where |
| `Format.Format32Bytes` | drivers/fat/fat_format.c:475-520 | the same of FAT32 |
| `Format.PutName` | drivers/fat/fat_format.c:227-233 | the volume name in its eleven bytes, filled up with spaces; no other byte changes |
| `Format.EraseFat` | drivers/fat/fat_format.c:392-422 | the reserved entries, the end of the FAT32 root directory, and zeros over all copies of the FAT; no other sector changes |
| `Format.FormatFat16` | drivers/fat/fat_format.c:426-471 | after success boot sector, volume name, FATs and root directory are in place and no other sector has changed; succeeds on a reliable disk of sufficient size |
| `Format.FormatFat32` | drivers/fat/fat_format.c:475-520 | after success boot sector, volume name, FSINFO, FATs and the root cluster are in place and no other sector has changed; succeeds on a reliable disk of sufficient size |
| `Format.Mount` | drivers/fat/fat_access.c:43-190 | the geometry, type or error that the volume's boot sector calls for; on a reliable disk nothing else |
| `Format.VolumeStart` | drivers/fat/fat_access.c:84-111 | the volume begins at the sector named by bytes 454 to 457 of sector 0 if byte 450 is 1 to 6, 0x0B, 0x0C, 0x0E or 0x0F, and otherwise at sector 0 |
| `Format.BootMounts` | drivers/fat/fat_access.c:113-190 | what any boot sector whose numbers fit 32 bits mounts as: FATs behind the reserved sectors, data behind the FATs, refused, FAT16 or FAT32 by the number of clusters |
| `Format.BootRefused` | drivers/fat/fat_access.c:117-146 | the errors for a wrong sector size, a missing signature, and no sectors to a cluster |
| `Format.MountsPartition32` | drivers/fat/fat_access.c:84-190 | a disk with a partition table whose first partition is formatted as FAT32: it mounts with the geometry of the format moved to the partition, every region inside it, and is in order and empty |
| `Format.MountsPartition16` | drivers/fat/fat_access.c:84-190 | the same geometry for FAT16, for the sizes that mount as FAT16 |
| `Format.Mounts16` | drivers/fat/fat_access.c:43-190 | whatever `fatfs_format_fat16` formats, up to the last row of its table, mounts as FAT16 if and only if it has 8244 to 4194151 or 4194305 to 8387751 sectors, and then with the geometry it was formatted with and all regions inside the volume |
| `Format.FormatVolume` | drivers/fat/fat_format.c:524-531 | FAT16 up to 4194304 sectors and FAT32 above; succeeds on a reliable disk of sufficient size |
| `Format.MountsAsFormatted` | drivers/fat/fat_format.c:524-531 | a volume that `fatfs_format` has written mounts as the type it was formatted as if and only if it has 8244 to 4194151 sectors, or more than 4194304 |
| `Format.Mounts32` | drivers/fat/fat_access.c:43-190 | every volume formatted as FAT32, of any 32-bit count above 4194304, mounts as FAT32 with the geometry it was formatted with, and all regions lie inside the volume |
| `Format.CountFits` | drivers/fat/fat_format.c:426-520 | the FAT has an entry for every data cluster and two more, and the data fit behind the overhead |
| `Format.FreshVolume` | drivers/fat/fat_format.c:475-520 | a volume freshly formatted as FAT32 satisfies the invariant with an empty root directory |
| `Format.EveryRun` | drivers/fat/fat_format.c:475-520 | at the end of every run that starts on a freshly formatted FAT32 volume the invariant holds |
| `Format.FreshVolume16` | drivers/fat/fat_format.c:426-471 | a volume freshly formatted as FAT16 has no chain, every entry from cluster 2 up free, and an empty root directory |
| `Format.FreshFileSystem` | drivers/fat/fat_format.c:475-520 | format, mount and set-up succeed on every reliable disk of FAT32 size and give a file system in order |
| `OrderedArrays.OrderedArray.constructor` | kernel/memory/ordered_array.c:23-32 | an empty array |
| `OrderedArrays.OrderedArray.Insert` | kernel/memory/ordered_array.c:39-60 | the item goes in front of the first one that is not less than it; the others keep their order |
| `OrderedArrays.OrderedArray.Lookup` | kernel/memory/ordered_array.c:62-66 | the i-th item |
| `OrderedArrays.OrderedArray.Remove` | kernel/memory/ordered_array.c:68-76 | the i-th item is gone; the others keep their order |
| `OrderedArrays.InsertedSorted` | kernel/memory/ordered_array.c:39-60 | insertion keeps a sorted array sorted |
| `OrderedArrays.RemovedSorted` | kernel/memory/ordered_array.c:68-76 | removal keeps a sorted array sorted |
| `OrderedArrays.InsertedItems` | kernel/memory/ordered_array.c:39-60 | exactly one item more |
| `OrderedArrays.RemovedItems` | kernel/memory/ordered_array.c:68-76 | exactly one item less |
| `KHeap.Heap.constructor` | kernel/memory/kheap.c:182-222 | the heap is one hole, without a footer, and the index holds it |
| `KHeap.Heap.FindSmallestHole` | kernel/memory/kheap.c:146-175 | the first hole of the index that has the size, or -1 only if no hole of the heap has it, whether or not the index is sorted |
| `KHeap.Heap.Alloc` | kernel/memory/kheap.c:224-345 | the block lies inside one former hole, the first of the index that fits; a remainder is split off exactly if a header and a footer are left, and goes into the index in front of the first hole that is not smaller; memory outside that hole is unchanged; the heap stays an exact tiling of tagged blocks and the index holds exactly the holes; expansion is asked for exactly if no hole is big enough |
| `KHeap.BestFit` | kernel/memory/kheap.c:146-175 | on an index in order of size the hole taken is the smallest that fits |
| `HeapRuns.UseAgain` | kernel/memory/kheap.c:224-345 | an input: three blocks of 100 bytes, the second freed, 50 bytes asked for; they are found in the second block |
| `KHeap.CarvedExactly` | kernel/memory/kheap.c:257-262 | a hole is split exactly if twenty bytes or more are left |
| `KHeap.TagBytes` | kernel/memory/kheap.c:313-323 | the bytes of headers and footers: the magic number 0x123890AB, the flag in byte 4, the size in bytes 8 to 11; the magic number and the address |
| `KHeap.Heap.Free` | kernel/memory/kheap.c:347-435 | the block becomes a hole, one with its left neighbour exactly if that is a hole, and one with its right neighbour exactly if that is; the index holds exactly the holes; memory outside them is unchanged; the tiling stays exact if and only if the right neighbour is no hole; a null pointer changes nothing |
| `KHeap.BlocksUnique` | kernel/memory/kheap.c:347-435 | the memory alone says which blocks there are |
| `KHeap.StaleBroken` | kernel/memory/kheap.c:382-404 | after a join with the hole on the right no row of blocks tiles the heap: the footer of the hole still leads to the header that was joined |
| `KHeap.StaleLeads` | kernel/memory/kheap.c:369-380 | freeing the block behind such a hole finds in front of it a footer whose header is marked a hole and belongs to no block |
| `HeapRuns.FreeBefore` | kernel/memory/kheap.c:347-435 | an input, on a fresh heap: three blocks, the second freed and then the first |
| `KHeap.BlocksApart` | kernel/memory/kheap.c:224-345 | blocks of a tiled heap do not overlap |
| `KHeap.ReplacedTiled` | kernel/memory/kheap.c:224-435 | new tagged blocks of the same extent in the place of old ones tile the heap again |
| `KHeap.CarvedRow` | kernel/memory/kheap.c:283-341 | what becomes of a hole has the hole's extent: no byte is lost |
| `KHeap.CarvedIndex` | kernel/memory/kheap.c:309-341 | taking the hole out and putting the remainder in leaves exactly the holes in the index |
| `KHeap.NoneFits` | kernel/memory/kheap.c:146-175 | if the index shows no hole of the size the heap has none |
| `KHeap.MergedHeap` | kernel/memory/kheap.c:369-380 | after a merge with the left hole the index is right as it stands |
| `KHeap.AloneHeap` | kernel/memory/kheap.c:347-435 | a block with a live left neighbour becomes a hole of its own, and its address goes into the index |
| `HeapRuns.RunKeepsPayload` | kernel/memory/kheap.c:224-435 | over every run of allocations, frees and stores into blocks, a block that is neither freed nor stored into stays a block, and every byte of it stays what it was |
| `HeapRuns.RunConserves` | kernel/memory/kheap.c:224-435 | over every run the live blocks and the holes together are the heap, to the byte |
| `HeapRuns.RunTiled` | kernel/memory/kheap.c:224-435 | over every run the blocks tile the heap and carry their tags |
| `HeapRuns.TakeGives` | kernel/memory/kheap.c:224-345 | what is handed out is a live block of at least the size asked for |
| `HeapRuns.CallAlloc` | kernel/memory/kheap.c:224-345 | the method is one of the actions of such a run, or changes nothing |
| `HeapRuns.CallFree` | kernel/memory/kheap.c:347-435 | and so is this one |
| `PhysicalMemory.FrameMap.constructor` | kernel/memory/phys_mem.c:190-196 | no frame is marked, and the count is zero |
| `PhysicalMemory.FrameMap.FirstUnmarked` | kernel/memory/phys_mem.c:171-188 | the least unmarked frame, or none exactly if all are marked |
| `PhysicalMemory.FrameMap.MarkFrame` | kernel/memory/phys_mem.c:156-169 | marks or unmarks that frame and no other |
| `PhysicalMemory.FrameMap.AllocFrame` | kernel/memory/phys_mem.c:198-206 | the least unmarked frame is marked, and the count equals the number of marked bits; panics exactly if all are marked |
| `PhysicalMemory.FrameMap.FreeFrame` | kernel/memory/phys_mem.c:208-212 | that frame is unmarked, and the count equals the number of marked bits |
| `PhysicalMemory.BitWritten` | kernel/memory/phys_mem.c:156-169 | setting or clearing bit j of a word changes bit j only |
| `PhysicalMemory.BitIs` | kernel/memory/phys_mem.c:156-169 | bit j is the one worth two to the power of j |
| `PhysicalMemory.MarkedIs` | kernel/memory/phys_mem.c:156-198 | frame f is bit f modulo 32 of word f / 32 |
| `Paging.VirtualMemory.constructor` | kernel/memory/paging.c:207-216 | a kernel directory without tables |
| `Paging.VirtualMemory.CreatePageTable` | kernel/memory/paging.c:124-142 | the directory gets a blank table for the address if it had none; no translation changes |
| `Paging.VirtualMemory.MapPage` | kernel/memory/paging.c:164-179 | the page entry of the address names the least free frame, which is marked; nothing else changes; panics exactly if no frame is free |
| `Paging.VirtualMemory.UnmapPage` | kernel/memory/paging.c:153-162 | the entry is no longer present and its frame is unmarked; nothing else changes |
| `Paging.VirtualMemory.GetPhysAddr` | kernel/memory/paging.c:189-195 | the translation of the address |
| `Paging.AddressParts` | kernel/memory/paging.c:189-195 | an address is ten bits of table, ten of entry and twelve inside the page; its translation is the frame's address plus these twelve bits, or 0xFFFFFFFF |
| `Paging.VirtualMemory.CloneDir` | kernel/memory/paging.c:86-122 | a new directory with exactly the tables that the source shares with the kernel directory |
| `Paging.VirtualMemory.BootMap` | kernel/memory/paging.c:217-221 | after the first loop every address below 1 MB translates to itself, and exactly the first 256 frames are marked |
| `Paging.WithTableKeeps` | kernel/memory/paging.c:124-142 | a new table keeps frames owned once and tables shared only with the kernel directory |
| `Paging.WithPageKeeps` | kernel/memory/paging.c:153-179 | mapping and unmapping keep every frame in at most one present entry, a shared table counted once, and each present entry's frame marked |
| `Paging.CloneKeeps` | kernel/memory/paging.c:86-122 | so does cloning |
| `Paging.WithPageSeen` | kernel/memory/paging.c:153-179 | a changed entry shows on that page in every directory that shares the table, and nowhere else |
| `Paging.ChangeIsolated` | kernel/memory/paging.c:153-179 | mapping or unmapping a page in a table that is not the kernel's changes no translation of any other directory |
| `Paging.MeetStays` | kernel/memory/paging.c:124-179 | directories that share a table go on sharing it |
| `Paging.CloneSees` | kernel/memory/paging.c:86-122 | a clone translates the addresses of the shared kernel tables as the kernel directory does, and no others |
| `Paging.ChangeKeeps` | kernel/memory/paging.c:86-179 | each change, mapping, unmapping or cloning, keeps the page tables in order |
| `Paging.MeetKept` | kernel/memory/paging.c:86-179 | two directories that share a table at an address go on sharing it, whichever of the three changes is made |
| `Paging.RunInOrder` | kernel/memory/paging.c:86-179 | at every point of every run of changes each frame is owned once, and tables are shared with the kernel directory only |
| `Paging.RunAlike` | kernel/memory/paging.c:86-179 | over every run of changes, two directories that once had the kernel's table at an address go on translating it alike, and as the kernel directory does |
| `Paging.RunIsolated` | kernel/memory/paging.c:86-179 | a run of changes made neither in a directory nor in the kernel's tables leaves every translation of that directory as it is |

## Left out

- Buffers as memory: the FAT buffer list, the disk and the one-sector window on
  directories are fields holding sequences, replaced as a whole where the source writes
  bytes in place and relinks nodes; pointer identity of the buffers is not modelled. The
  long-name cache, read buffers, the heap's memory, the hole index, the frame bitmap, page
  tables and page directories are arrays or shared objects as in the source.
- I/O errors: `FatTables`, `BlockDevice` and `Format` allow any transfer to fail; from
  `Access` on the disk is one that only refuses transfers outside itself.
- Crash consistency, and the second FAT copy after formatting: the driver writes the first
  copy only.
- Missing write access (`write_media` unset), timestamps (compiled out), `fat_filelib.c`,
  `fat_list.h`, and `fat_cache.c` (compiled out).
- FAT sector buffers of more than one sector: the shipped configuration has one; the
  number of buffers is a parameter.
- Growth of a full FAT16 root directory, which hands cluster 0 to the chain code: adding
  an entry there requires room.
- The volume invariant and the operations on it are stated for FAT32; the layers below,
  lookup, insertion, deletion and length update included, cover both types.
- Allocation.AllocateNew: covers sizes of at most one cluster, the only ones asked for; the path for
  more clusters does not set the caller's start cluster.
- Operations.CreateFile: names are ASCII without a leading dot, and need at most 16 slots per sector of a
  cluster; `fatfs_find_free_dir_offset` adds one cluster only, whatever the name needs.
- Operations.CreateFile: requires that not all ten thousand candidates for the short name are in use
  (`SomeLeft`); there the source goes on with a name that is in use (`Crowds.GiveFresh`), and
  short names would no longer tell entries apart. It also requires that the clusters it comes to
  have data sectors (`Ample`).
- Operations.CreateDir: the same requirements as for Operations.CreateFile.
- Operations.CreateFile: the clean-up after a failed open of the new file is not reached, because the
  lookup is proved to find the new record.
- Operations.Remove: what is removed does not contain the directory it is named in, which holds wherever
  every directory can be reached from the root (Runs.RootedMayRemove). What becomes of an open
  file that is removed, and the lists of nodes in memory, are not modelled.
- DirLookup.GetFileEntry: covers directories whose long-name slots are numbered from 1 without a gap, at
  most 20 of them, as this driver writes them; stale long-name slots elsewhere do not
  matter.
- DirInsert.AddFileEntry: requires that the next free cluster, if any, has data sectors, and an entry that
  fits into one cluster.
- DirInsert.FindFreeDirOffset: requires the same; for more slots than one cluster has the source grows the
  directory by one cluster and answers yes.
- DirWrite.GrowDirectory: requires that the next free cluster, if any, has data sectors.
- Operations.NewChain: requires that the next free cluster, if any, has data sectors.
- FatTables.FatTable.FreeClusterChain: requires a reliable disk; the source takes no notice of refused
  transfers.
- FatTables.FatTable.AddClusterToChain: covers heads of whole chains on a reliable disk; on a cyclic chain the
  source does not end.
- FatTables.FatTable.CountFreeClusters: requires a reliable disk.
- Access.FatFs.SectorReader: sector offsets up to one past the end of the chain.
- Access.FatFs.Walk: as many steps as the chain has clusters.
- ShortChoice.ChooseShort: a leading dot is excluded; the source ignores the refusal of such names and goes
  on with whatever the name buffer held.
- Files.WriteFile: writes start at most at the end of the file, offset plus count stays below 2^32,
  where the source's counter would wrap, and the free clusters it will take have data sectors; after
  a panic nothing is claimed about the volume.
- FileIo.ReadLookup: cluster indexes up to one past the chain's last; the layers above ask for no others.
- FileIo.WriteLookup: cluster indexes up to one past the chain's last.
- FileIo.ReadSectors: sector offsets up to the end of the chain.
- FileIo.GrowFile: requires that the clusters to be taken have data sectors.
- FileIo.ClusterToWrite: requires that the clusters to be taken have data sectors.
- FileIo.WriteSectors: requires that the clusters to be taken have data sectors.
- FileIo.OpenFile.constructor: copies the 11 bytes of the short name; the source's `strcpy` goes on to the
  next zero byte.
- Volumes.RunKeeps: allows chains that nothing names, which single steps leave between them;
  Runs.NoClusterLost counts those that are left by whole operations.
- Volumes.ReachesKeeps: the same.
- Format.EveryRun: the same.
- Runs.NoClusterLost: after a panic of a write nothing is claimed, so a run ends there.
- Handles.StaysOpen: is about calls that do not write the file through another open file of its own.
- Limits.GrowUnchecked: FATs of at most 2^28 - 8 entries, which all formatted ones are; it stops at the FAT:
  what a write then does with the sectors behind the data is not modelled.
- HeapRuns.RunKeepsPayload: a run consists of allocations as KHeap.Heap.Alloc covers them, and of frees of
  blocks with a live block on their right.
- HeapRuns.CallFree: requires that live block; with a hole there the heap does not stay in order
  (KHeap.Heap.Free).
- Limits.FillFresh: covers volumes that one file can fill, whose clusters hold less than 2^32 bytes.
- Format.Mount: the checks of structure packing and byte order at its start are not modelled.
- KHeap.Heap.constructor: the index lies beside the memory instead of at the heap's start, and addresses
  count from eight bytes before the heap, which hold no footer tag; the page alignment of
  the start is left out.
- KHeap.Heap.FindSmallestHole: unaligned searches only.
- KHeap.Heap.Alloc: unaligned requests only, whose size plus tags does not wrap; the answer "expand" is
  given where the source calls `expand`, which is not modelled.
- KHeap.Heap.Free: the extent freed does not reach the end of the heap; there the source goes on to
  `contract`, which is not modelled. The index is not claimed to stay sorted, since sizes
  change in place. What later calls do to a heap that a join to the right has broken is stated
  for what they find first only (KHeap.StaleLeads).
- OrderedArrays.OrderedArray.Remove: requires a place behind the last item, which the loop of the source
  reads.
- PhysicalMemory.FrameMap.constructor: the index is taken as so many words, all zero, and of at most 2^20 bits,
  the range of a page entry's frame field. The older bitmap of `phys_mem.c` is unused.
- Paging.VirtualMemory.CreatePageTable: the physical address stored beside the table is omitted.
- Paging.VirtualMemory.CloneDir: the physical addresses copied beside the tables are omitted.
- Paging: accessed, dirty and reserved bits, physical addresses of tables, the page-fault
  handler, `_clone_table` (its call is commented out), `vmm_destroy_dir`, and the second
  loop of `vmm_init`, which maps the heap by the same `vmm_map_page`.
- Scheduler, devices, console, shell, system calls, and the general-purpose libraries.
