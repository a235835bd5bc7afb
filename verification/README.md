# apheleiaOS: a verified model of its kernel cores and image builder

This project models, in Dafny 4.11, the parts of apheleiaOS where state is hard to keep right, and proves
what they promise for every input, every run or every reachable state:

- **ext2.** A file's blocks hang off twelve direct pointers and three trees of tables stored as little-endian words
  on disk. Any run of calls on any number of files and directories is proved to do to tapes of bytes and maps of names
  what the calls say, and to be answered exactly as free blocks and names dictate, while no block has two owners among
  files and directories, every owned block is marked in its group's bitmap and both levels of free counters are exact.
  Files are plain byte sequences throughout such a run if and only if no write runs out of room after storing bytes
  behind the end. The image built in Python is proved to be a volume the kernel reads back as exactly the given files,
  and it is built exactly when it fits. Names form a tree below the root, which a rename keeps exactly by not moving a
  directory below itself. Link counts, kept in 16 bits, equal the number of entries, dots included, throughout a run if
  and only if no `mkdir` or move gives one more subdirectory to a directory whose count is 65535; only the count of such
  a directory is ever wrong, and only such a directory can be given back while something names it.
- **The block cache** is write-through and least recently used: a block is held exactly when fewer different blocks
  than the cache has slots were used since.
- **User memory.** Copy-on-write fork, faults, `mmap`, `munmap`, `mprotect` and exit are proved to show every process
  the memory it would see if fork copied every page. `mprotect` breaks this in two families of cases: after it every
  store that could come next is answered and seen as if nothing were shared if and only if a condition on marks and
  reference counts held before it. Runs of the kernel's own calls show both failures.
- **The scheduler.** Run-queue heaps with back indices and a floor on virtual runtime; picking, stealing and
  balancing double no thread and lose exactly those that may run nowhere or meet a full queue; timers wake exactly the
  sleepers that are due.
- **The sleeping mutex** over sequence-numbered wait queues, as atomic steps of any number of threads that may be
  stopped and continued: mutual exclusion, no wakeup lost other than to a stopped thread, progress exactly when somebody
  awake is on the way to look or to wake, and first-in first-out waking.
- **The bitmap allocator**, word masks against single bits, whose bitmap stays out of reach exactly as long as nobody
  frees it; **path resolution** in a fixed buffer; **driver loading**
  over any dependency graph, as a least fixed point.

Objects that the source changes in place are classes; their invariants are predicates over plain values, so that the
work is done by small lemmas. Each file holds one module; `dafny verify dfyconfig.toml` covers all of them.

| area | files |
|---|---|
| block trees and files | Bytes, Sets, BlockTree, TreeSteps, ItemAllocator, BlockStore, FileTree, FileSteps, FileOps |
| mounted volumes | Folders, VolumeMeaning, Volume |
| built images | ImageBuilder, SpaceNeed, BuilderOps, BuiltVolume, DirBuilder |
| directories and links | DirRecords, Directory, LinkCounts, Namespace, Ancestry, NameRuns |
| block cache | LruOrder, BlockCache |
| user memory | Regions, PageTables, CopyOnWrite, ForkSteps, UnmapSteps, CopiedMemory, AddressSpaces |
| scheduler | HeapOrder, ThreadHeap, RunQueues, Balance, SleepHeap |
| mutex | SleepMutex |
| bitmaps | BitWords, BitmapAllocator |
| paths and drivers | PathNames, PathResolve, DriverGraph, Drivers, DriverOps |

## Model

| member | source | states |
|---|---|---|
| `Bytes.TableOfPack` | kernel/fs/ext2fs.c:721-745 | a table of 32-bit block numbers survives being stored as little-endian bytes and read back |
| `BlockTree.LoadFrame` | kernel/fs/ext2fs.c:711-746 | a pointer tree depends on its table blocks only: writes elsewhere cannot change a file's map |
| `BlockTree.LookupInjective` | kernel/fs/ext2fs.c:711-746 | in a tree that shares no block, two file blocks never have the same disk block |
| `BlockTree.PruneLookup` | kernel/fs/ext2fs.c:995-1094 | for trees of any height, cutting at `keep` leaves every index below it mapped as before and unmaps every later one |
| `ItemAllocator.Items.constructor` | kernel/fs/ext2fs.c:459-477 | a volume whose group and superblock free counts equal the clear in-range bits starts valid |
| `ItemAllocator.Items.FindFree` | kernel/fs/ext2fs.c:525-602 | the group walk finds the first clear in-range bit of the first group that has one, and fails only when there is none |
| `ItemAllocator.Items.Alloc` | kernel/fs/ext2fs.c:497-602 | takes the least free number, marks it, lowers both counters by one; succeeds exactly when the superblock's counter is not zero, and otherwise everything is taken and nothing changes |
| `ItemAllocator.Items.Free` | kernel/fs/ext2fs.c:514-666 | frees exactly the named item; a number out of range is refused and a second free of it changes no counter |
| `ItemAllocator.TakenIs` | kernel/fs/ext2fs.c:540-640 | which bit of which group stands for an item, which numbers are known, and how many items a short last group has |
| `BlockStore.Store.BlockFromIndirect` | kernel/fs/ext2fs.c:711-746 | the recursive lookup through tables on disk equals the lookup in the pointer tree |
| `BlockStore.Store.ReleaseTree` | kernel/fs/ext2fs.c:931-983 | frees every data and table block of the tree once, and counts them |
| `BlockStore.Store.DropTail` | kernel/fs/ext2fs.c:995-1094 | the disk afterwards holds the cut tree, exactly the blocks that dropped out of it are freed, and their number is returned |
| `FileTree.MapInjective` | kernel/fs/ext2fs.c:748-771 | over direct pointers and all three levels, no two blocks of a file share a disk block |
| `FileTree.CutMap` | kernel/fs/ext2fs.c:1130-1189 | a cut file maps every block below `keep` as before and no later one |
| `FileTree.PlaceOfByte` | kernel/fs/ext2fs.c:1842-1846 | bytes fill blocks one after the other |
| `FileTree.MapsDirect` | kernel/fs/ext2fs.c:748-771 | twelve pointers name the first blocks and one table the next; nothing is named behind the third level |
| `FileTree.MapsTwice` | kernel/fs/ext2fs.c:711-771 | a table of tables names the blocks behind those in order |
| `FileTree.MapsThrice` | kernel/fs/ext2fs.c:711-771 | a table of such tables names the blocks behind these in order |
| `FileOps.Files.BlockForIndex` | kernel/fs/ext2fs.c:748-771 | finds the disk block of any file block; zero for holes and past the last level |
| `FileOps.Files.BlockFromNode` | kernel/fs/ext2fs.c:773-813 | the lookup through the cached first table gives the same answer and keeps the cached copy equal to disk |
| `FileOps.Files.EnsureBlock` | kernel/fs/ext2fs.c:815-929 | maps a block zero-filled without changing a byte of the file or moving any other block; succeeds exactly when the block is within the first table's reach and as many blocks are free as it takes: none, one, or two with the table |
| `FileOps.Files.DropFileTail` | kernel/fs/ext2fs.c:1130-1189 | cuts the whole pointer set and keeps the sector count equal to the blocks owned |
| `FileOps.Files.ZeroFileTail` | kernel/fs/ext2fs.c:1191-1223 | clears the rest of the last kept block and no other byte |
| `FileOps.Files.ReleaseBlocks` | kernel/fs/ext2fs.c:1096-1128 | gives up every block of a file, once each |
| `FileOps.Files.WriteData` | kernel/fs/ext2fs.c:1876-1956 | succeeds exactly when every block of the write is within reach and the blocks it takes are free; the bytes written so far are exactly patched in, and it stops at the start of the first block it cannot get; the size grows only on success, and no bytes at all set it |
| `FileOps.Files.Truncate` | kernel/fs/ext2fs.c:2132-2193 | shrinking keeps the bytes below the size, zeroes the rest and unmaps every later block; growing leaves blocks alone |
| `VolumeMeaning.WriteShows` | kernel/fs/ext2fs.c:1876-1956 | a complete write to a file with only zeros behind its end is a patch of its bytes: gaps read as zero |
| `VolumeMeaning.FailedWriteShows` | kernel/fs/ext2fs.c:1908-1914 | a write that runs out of room keeps the size and patches what it stored of the bytes that show |
| `VolumeMeaning.FailedWriteTidy` | kernel/fs/ext2fs.c:1908-1914 | it leaves only zeros behind the end exactly when what it stored there is zeros |
| `VolumeMeaning.ShrinkShows` | kernel/fs/ext2fs.c:2152-2173 | a shrink keeps a prefix and leaves only zeros behind the new end, whatever was there before |
| `VolumeMeaning.GrowShows` | kernel/fs/ext2fs.c:2132-2193 | a growing truncate appends zeros to every length if and only if only zeros are stored behind the end |
| `VolumeMeaning.PerformShows` | kernel/fs/ext2fs.c:1876-2193 | on volumes with nothing behind any end each call does to the files what it does to byte sequences, and keeps them so exactly unless it is a failed write that stored something there |
| `Volume.OneChanged` | kernel/fs/ext2fs.c:815-929 | when one file or directory changes within its own and free blocks, or a new one comes, every other keeps its blocks, stays consistent and stands for the same bytes or names |
| `Volume.Mount.ReadFile` | kernel/fs/ext2fs.c:1812-1874 | returns the bytes from the offset on, as many as asked for or as there are before the end, and changes nothing anyone reads |
| `Volume.Mount.WriteThenRead` | kernel/fs/ext2fs.c:1812-1956 | what a complete write stored is what any later read returns at its place, and every other byte reads as before |
| `Volume.CreateMeans` | kernel/fs/ext2fs.c:2846-2857 | a file is made exactly where no inode is; it is empty and stores nothing |
| `Volume.MakeFolderMeans` | kernel/fs/ext2fs.c:2859-2910 | a directory is made exactly where no inode is and a block is free; its names are the two dots, for itself and its parent |
| `Volume.WriteMeans` | kernel/fs/ext2fs.c:1876-1956 | after a write every byte of the tape is the written one at its place or the old one, and the size grows to the end of a complete write |
| `Volume.RoomEnough` | kernel/fs/ext2fs.c:815-929 | a write whose blocks are within reach has room when so many are free, and one for a table |
| `Volume.SetSizeMeans` | kernel/fs/ext2fs.c:2132-2193 | setting the size keeps every byte below it and forgets those cut off; it is refused exactly for what is no plain file |
| `Volume.ReclaimMeans` | kernel/fs/ext2fs.c:3528-3562 | giving an inode up succeeds exactly when it is there, and it is gone |
| `Volume.EnterMeans` | kernel/fs/ext2fs.c:1407-1522 | a new name is refused exactly when it is there, empty, too long or for inode zero; entered, it stands for the given inode and type |
| `Volume.ReplaceMeans` | kernel/fs/ext2fs.c:1610-1632 | a name is changed exactly when it is there and the inode is not zero, and then stands for the given inode and type |
| `Volume.RemoveMeans` | kernel/fs/ext2fs.c:1577-1608 | a name is removed exactly when it is there, and no other name changes |
| `Volume.OtherInodes` | kernel/fs/ext2fs.c:1407-2193 | no call changes an inode it does not name |
| `Volume.Mount.WriteFile` | kernel/fs/ext2fs.c:1876-2130 | answers done exactly when there is room and otherwise says how many bytes it stored, up to the first block it cannot get; those bytes are on the file's tape, the size moves only on success, and nothing else changes |
| `Volume.Mount.TruncateFile` | kernel/fs/ext2fs.c:2132-2193 | sets the size; what is cut off becomes zeros and what is added shows what was stored there; everything else is untouched |
| `Volume.Mount.AddFolder` | kernel/fs/ext2fs.c:2859-2884 | a new directory takes one block that maps the two dots, exactly when one is free |
| `Volume.Mount.EnterName` | kernel/fs/ext2fs.c:1407-1522 | enters a new name; answers no room exactly when no record has space and one more block cannot be mapped; no other directory or file changes |
| `Volume.Mount.ReplaceName` | kernel/fs/ext2fs.c:1610-1632 | updates one name exactly when it is there and the inode is not zero; nothing else on the volume changes |
| `Volume.Mount.RemoveName` | kernel/fs/ext2fs.c:1577-1608 | deletes one name exactly when it is there; nothing else on the volume changes |
| `Volume.Mount.Discard` | kernel/fs/ext2fs.c:3528-3562 | exactly the blocks of the file or directory become free, and everything else is untouched |
| `Volume.Mount.Run` | kernel/fs/ext2fs.c:773-2193 | over any run of calls on files and directories, out of room or not, each call does what it says to tapes and names and gets exactly the answer that room and names dictate, no block ever has two owners, and the files are plain byte sequences at every point if and only if no write leaves bytes behind an end |
| `Volume.Mount.GrowAfterFailure` | kernel/fs/ext2fs.c:1876-2193 | for every volume and every write behind an end that has no room for all of it: growing the file afterwards shows the bytes that were stored, up to the first block without room |
| `ImageBuilder.Assembled` | kernel/build_image_common.py:469-493 | a table above built subtrees is a built tree one level higher: index `i` finds pointer `i` |
| `BuilderOps.MapIs` | kernel/build_image_common.py:495-506 | the kernel's lookup on the built pointers returns the i-th data block and zero past the end, up to 12+E+E^2+E^3 blocks |
| `BuilderOps.Builder.AllocIndirect` | kernel/build_image_common.py:469-493 | the recursive builder lays a correct tree in consecutive blocks; it succeeds exactly when its tables fit, and uses exactly that many |
| `BuilderOps.Builder.AllocChildren` | kernel/build_image_common.py:481-487 | the children of a table are built over consecutive parts of the list, none skipped |
| `BuilderOps.Builder.LayData` | kernel/build_image_common.py:463-465 | file bytes go into as many consecutive blocks as they need, the last padded with zeros; fails exactly when they do not fit |
| `BuilderOps.Builder.LayPointers` | kernel/build_image_common.py:495-506 | twelve direct pointers and up to three trees cover the data in order; fails exactly when the tables do not fit |
| `BuilderOps.Builder.LayFile` | kernel/build_image_common.py:459-534 | a laid file owns exactly the blocks handed out for it and shows its bytes; out of space exactly when data and tables do not fit, too large exactly past the pointer limit |
| `SpaceNeed.NeedIs` | kernel/build_image_common.py:459-534 | a file takes its data blocks and, past twelve, one table, and past one table a table of tables with one for every table of blocks |
| `BuiltVolume.LayAll` | kernel/build_image_common.py:459-534 | all files are laid exactly when together they fit and none is too large |
| `BuiltVolume.BuildBitmap` | kernel/build_image_common.py:545-555 | marks exactly the blocks handed out and the bits behind the last block |
| `BuiltVolume.BitmapAgrees` | kernel/build_image_common.py:545-583 | the free counts of the group and the superblock equal the clear bits |
| `BuiltVolume.BuildAndMount` | kernel/build_image_common.py:428-583 | an image is built exactly when everything fits, and mounted by the kernel's own structures it is a consistent volume holding exactly the given files, with only zeros behind each end |
| `DirBuilder.PackBlock` | kernel/build_image_common.py:260-306 | the records of a block tile it exactly and read back as the given items |
| `DirBuilder.MakeDirectory` | kernel/build_image_common.py:260-306 | a built directory, read as the driver reads it, is exactly the given items in order, and each of different names stands for its own inode and type |
| `DirBuilder.BuiltNames` | kernel/build_image_common.py:260-306 | records that match the items give the map of the items, without a second entry for a name |
| `DirRecords.Edit` | kernel/fs/ext2fs.c:1407-1522 | rewriting some records of a block leaves those before and after as they were and the block still tiled |
| `DirRecords.Insert` | kernel/fs/ext2fs.c:1407-1522 | one record coming to life adds one name to the map |
| `DirRecords.Alter` | kernel/fs/ext2fs.c:1534-1575 | one record dying or changing its inode deletes or updates one name |
| `DirRecords.RecordLayout` | libs/fs/ext2.h:220-226 | inode, record size, name length, type and name lie at their bytes, little-endian |
| `Directory.DotsBlock` | kernel/fs/ext2fs.c:1291-1321 | a block with the two dots is tiled and maps exactly them |
| `Directory.OnlyDotsIs` | kernel/fs/ext2fs.c:1634-1698 | the names that do not count are one and two dots |
| `Directory.FindIn` | kernel/fs/ext2fs.c:1339-1405 | the chain walk finds a name in a block exactly when a live record has it |
| `Folders.Catalog.Find` | kernel/fs/ext2fs.c:1339-1405 | the walk over the mapped blocks of a directory finds a name exactly when its map has it, holes included |
| `Directory.FindRoom` | kernel/fs/ext2fs.c:1407-1522 | finds a record with room exactly when the block has one |
| `Folders.Catalog.Add` | kernel/fs/ext2fs.c:1407-1522 | an insert into the map; succeeds exactly for a proper name and inode with space in some record or one more block to map; every block outside the directory is untouched |
| `Folders.PlaceIs` | kernel/fs/ext2fs.c:1440-1521 | there is no place for a name only when every record is too full by its own name and the new one, each rounded up to fours, and no block can be added |
| `Folders.Catalog.Grow` | kernel/fs/ext2fs.c:1487-1521 | growing by a block through the file code, first table included: succeeds exactly when the block is within reach and free blocks suffice |
| `Folders.Catalog.Change` | kernel/fs/ext2fs.c:1534-1575 | deletes or updates one name and returns what it stood for; fails exactly when the name is absent; the directory keeps its blocks |
| `Folders.Catalog.Make` | kernel/fs/ext2fs.c:2859-2884 | a directory made on a volume is consistent and maps the two dots; fails exactly when no block is free |
| `Folders.Catalog.IsEmpty` | kernel/fs/ext2fs.c:1634-1698 | true exactly when no name but the two dots is left |
| `LinkCounts.OwedIsEntries` | kernel/fs/ext2fs.c:2195-2337 | names, children's `..` and a directory's own `.` together are exactly the entries that stand for an inode |
| `NameRuns.Fs.Create` | kernel/fs/ext2fs.c:2846-3043 | adds one name for a fresh inode, with one alias and one or two links, exactly when the directory is linked, the name is new and there is room, and says why not; every right count stays right but that of a parent with 65535 links that gets a directory, which becomes zero; no other alias changes |
| `NameRuns.Fs.Link` | kernel/fs/ext2fs.c:2399-2499 | gives a linked file below 65535 links one more name and one more alias, and refuses directories; no other alias changes |
| `NameRuns.Fs.Remove` | kernel/fs/ext2fs.c:2195-2337 | drops exactly that name, of a file or an empty directory; a directory also stops being linked; no alias goes |
| `NameRuns.Fs.Rename` | kernel/fs/ext2fs.c:2526-2834 | succeeds exactly when the move or replacement is allowed and no directory goes below itself, and then the new name stands for the moved inode, the old one is gone, the parent is right and nothing else changed, no alias included; every right count stays right but that of a new parent with 65535 links of a directory, which becomes zero |
| `NameRuns.CanMoveIs` | kernel/sys/vfs.c:830-882 | when a rename is allowed: directories not removed, no directory below itself, room for a new name, and like replacing like on purpose |
| `NameRuns.GoesBelow` | kernel/sys/vfs.c:482-492 | the climb to the root says exactly whether one directory is above another |
| `Ancestry.MoveRooted` | kernel/sys/vfs.c:871-878 | every directory is within reach of the root after a directory moved if and only if it did not move below itself |
| `NameRuns.Fs.ReplaceName` | kernel/fs/ext2fs.c:2656-2785 | only a file replaces a file and a directory an empty directory; the same inode is left alone |
| `Namespace.ReplacesDir` | kernel/fs/ext2fs.c:2685-2766 | a directory that takes the place of an empty one keeps every right count right, but for that of another parent with 65535 links: the count is raised before the replaced one is taken off |
| `NameRuns.Fs.Close` | kernel/fs/ext2fs.c:3504-3603 | an inode leaves the table exactly when its last alias goes and its count is zero; the tree of names survives that if and only if nothing names the inode, and something can only when it is a directory whose count overflowed |
| `Namespace.Reclaims` | kernel/fs/ext2fs.c:3528-3562 | reclaiming an inode without links that nothing names keeps every right count right; one with a right count is not named by anything |
| `Namespace.GoneTree` | kernel/fs/ext2fs.c:3528-3562 | giving an inode back keeps the tree of names if and only if nothing names it and it is no linked directory |
| `NameRuns.LinksAreEntries` | kernel/fs/ext2fs.c:2195-2337 | in a tree of names, a count is what is owed if and only if it is the number of entries, dots included, that stand for the inode |
| `NameRuns.Run` | kernel/fs/ext2fs.c:2195-3043 | each operation of any run does what it says to the names; every count is right at every point but those of directories that got one more subdirectory with 65535 links, and all are right throughout if and only if no `mkdir` or directory move succeeds into such a parent; every directory is within reach of the root; the references of every inode are the aliases handed out less those closed, and one that is gone has none left; every inode ever created is still there or was given back exactly once; only an overflown directory is ever given back while something names it, and there the run ends |
| `NameRuns.RefsAreAliases` | kernel/fs/ext2fs.c:1749-1795 | over any run the references of an inode are the aliases that creating, linking and opening handed out less those closed |
| `NameRuns.FullOverflows` | kernel/fs/ext2fs.c:2912-2915 | on every volume, one more subdirectory of a directory whose count is right and 65535 makes its count zero while 65536 entries stand for it, and giving it up then breaks the tree |
| `NameRuns.ShelfRun` | kernel/fs/ext2fs.c:3585-3603 | a run from the empty volume: a directory gets 65534 subdirectories, its count is zero, and with its last alias it is reclaimed although the root names it and all of them hang below it |
| `LruOrder.Hit` | kernel/fs/ext2fs.c:201-226 | using a held block keeps the cache exactly the most recently used blocks |
| `LruOrder.Fill` | kernel/fs/ext2fs.c:181-199 | a new block in a free slot keeps every block ever used |
| `LruOrder.VictimCount` | kernel/fs/ext2fs.c:154-179 | the slot with the least stamp holds the block with the most different blocks used since, one fewer than there are slots |
| `LruOrder.Evict` | kernel/fs/ext2fs.c:154-199 | replacing that slot keeps the cache exactly the most recently used blocks |
| `BlockCache.Cache.constructor` | kernel/fs/ext2fs.c:3286-3297 | a mounted cache is empty; without memory it has no slots and is still right |
| `BlockCache.Cache.Find` | kernel/fs/ext2fs.c:138-152 | finds a slot exactly when the block is held |
| `BlockCache.Cache.PickSlot` | kernel/fs/ext2fs.c:154-179 | the first free slot, or the least recently used one when all are taken |
| `BlockCache.Cache.Store` | kernel/fs/ext2fs.c:181-199 | after a use the held blocks are again the most recently used ones, each once, equal to disk |
| `BlockCache.Cache.ReadBlock` | kernel/fs/ext2fs.c:201-226 | answers as the bare disk does; succeeds without the disk exactly when fewer different blocks than slots were used since the block's last use |
| `BlockCache.Cache.WriteBlock` | kernel/fs/ext2fs.c:228-240 | writes through to disk and the held copy; a failed write changes neither |
| `BlockCache.Cache.Run` | kernel/fs/ext2fs.c:138-240 | over any run of reads and writes the cached partition answers as the bare one |
| `BlockCache.DirectInTurn` | kernel/fs/ext2fs.c:201-240 | the bare partition that the cache is compared with answers one access after the other |
| `BlockCache.Displaced` | kernel/fs/ext2fs.c:154-199 | a block is no longer held once as many different blocks as there are slots were used after it |
| `BlockCache.StillHeld` | kernel/fs/ext2fs.c:154-199 | a block is held as long as fewer different blocks than there are slots were used after it |
| `Regions.FreeMeans` | kernel/sys/syscall.c:877-889 | no region overlaps a range exactly when no page of it is mapped |
| `Regions.Rewrite` | kernel/sched/mem.c:197-281 | splitting a region to change part of it changes those pages and no other, and regions stay disjoint |
| `Regions.StartIs` | kernel/sys/syscall.c:896-923 | the search starts at page 0x400 or at the end of the last region that does not lie within the stack, whichever is higher |
| `Regions.PickBase` | kernel/sys/syscall.c:891-964 | the search ends for every list and returns the lowest free run from its start on, or none exactly when none ends below the stack and the top |
| `Regions.RoomBehind` | kernel/sys/syscall.c:891-964 | a request without a hint is not refused while there is room behind all regions outside the stack and below it |
| `Regions.Place` | kernel/sys/syscall.c:1488-1542 | which address a mapping gets, hint and fixed flag included, and when it is refused |
| `PageTables.ExclusiveCount` | kernel/sched/mem.c:283-369 | a page has its frame to itself exactly when the frame's reference count is one |
| `PageTables.MapOne` | kernel/sched/mem.c:96-115 | counts stay the number of page-table users when a page is mapped |
| `PageTables.UnmapOne` | kernel/sched/mem.c:117-136 | counts stay the number of page-table users when a page is unmapped |
| `CopyOnWrite.FaultStep` | kernel/sched/mem.c:283-369 | in every consistent state a fault gives the page a frame nobody else uses and changes nothing anybody sees but its owner's right; the rules of copy-on-write survive |
| `CopyOnWrite.StoreSeen` | kernel/sched/mem.c:283-369 | a store through a page mapped writable is seen in exactly the pages, of whatever process, that map its frame |
| `CopiedMemory.FaithfulStates` | kernel/sched/mem.c:283-369 | in every consistent state: every store that could come next is answered and seen as if nothing were shared if and only if writable pages own their frames and marks lie on writable regions |
| `CopiedMemory.StoreMeans` | kernel/sched/mem.c:283-369 | a store changes one byte of one page of one process |
| `CopiedMemory.ForkMeans` | kernel/sched/create.c:535-584 | a fork gives the child the memory of the parent and changes nobody else |
| `CopiedMemory.MmapMeans` | kernel/sys/syscall.c:2676-2739 | a mapping adds pages of 4096 zeros with the given rights and changes no other page |
| `CopiedMemory.MunmapMeans` | kernel/sys/syscall.c:2777-2934 | unmapping takes exactly the pages of the range from one process |
| `CopiedMemory.ProtectMeans` | kernel/sys/syscall.c:1201-1330 | a change of rights changes the rights of exactly the range and no contents |
| `CopiedMemory.ExitMeans` | kernel/sched/mem.c:117-136 | a process that exits is gone, and a call that is not done changes nothing |
| `ForkSteps.ShareStep` | kernel/sched/create.c:535-565 | sharing one region keeps regions, counts and isolation, and both processes see the same |
| `ForkSteps.FreshStep` | kernel/sched/create.c:506-533 | mapping fresh frames into one process changes nothing for anybody else |
| `UnmapSteps.CutStep` | kernel/sys/syscall.c:2810-2934 | cutting pages out of one region unmaps exactly those and lowers exactly their counts |
| `UnmapSteps.ProtectIsolated` | kernel/sys/syscall.c:1201-1330 | after `mprotect` a writable page owns its frame if and only if no shared frame got the write right |
| `UnmapSteps.ProtectHonest` | kernel/sys/syscall.c:1201-1330 | after `mprotect` copy-on-write marks lie only on writable regions if and only if none is marked when write is withdrawn |
| `AddressSpaces.Kernel.CowFault` | kernel/sched/mem.c:283-369 | in every consistent state: handled exactly on a marked page, out of memory exactly when a copy is needed and no frame is free; then the page is writable, alone on its frame, and nobody else sees a change |
| `AddressSpaces.Kernel.Store` | kernel/sched/mem.c:283-369 | in every consistent state, shared writable frames included: the exact answer, and the byte shows in exactly the pages that map the frame written to |
| `AddressSpaces.Kernel.Fork` | kernel/sched/create.c:535-584 | fork by sharing gives the child exactly the parent's memory, unseen by everybody else; it marks exactly the writable regions, in both processes |
| `AddressSpaces.Kernel.ForkCopy` | kernel/sched/create.c:506-533 | fork by copying has the same outcome as fork by sharing; it cannot fail when a run of frames for the whole parent is free at or after the place where the search for frames goes on, and leaves no trace when it fails |
| `AddressSpaces.Kernel.FindRun` | kernel/arch/x86/mm/physical.c:170-176 | the lowest free run at or after the given place, else the lowest below it, and none exactly when there is none |
| `AddressSpaces.Kernel.Mmap` | kernel/sys/syscall.c:2676-2739 | adds zero pages at exactly the chosen place, the hint whenever it is free; with frames for it, a free hint and a request without one that has room behind the regions are always met; refused only for no pages, no place or no run of frames |
| `AddressSpaces.Kernel.Munmap` | kernel/sys/syscall.c:2777-2934 | removes exactly the pages of the range; succeeds exactly when the range is proper and some page of it is mapped |
| `AddressSpaces.Kernel.CountSplits` | kernel/sys/syscall.c:1073-1110 | the loop over the regions adds up the nodes each split in the range needs |
| `AddressSpaces.Kernel.ProtectRange` | kernel/sys/syscall.c:1201-1330 | the walk gives exactly the pages of the range their new rights, keeps regions disjoint, and the list grows by exactly the nodes counted beforehand |
| `AddressSpaces.Kernel.Mprotect` | kernel/sys/syscall.c:1073-1330 | changes rights on exactly the range; succeeds exactly when all of it is mapped; afterwards every next store is answered and seen as if nothing were shared if and only if the change was tame |
| `AddressSpaces.Kernel.IsTame` | kernel/sys/syscall.c:1201-1330 | marks and reference counts decide beforehand whether a change of rights is tame |
| `AddressSpaces.Kernel.Exit` | kernel/sched/mem.c:117-136 | teardown gives up one use of each frame and nobody else sees a change |
| `AddressSpaces.Kernel.Step` | kernel/sched/create.c:506-584 | from every consistent state: what one call answers and what everybody sees then, the reason whenever memory runs out, and that exactly the changes of rights that are not tame break the rules of copy-on-write |
| `AddressSpaces.Kernel.Run` | kernel/sched/create.c:506-584 | over any run of stores, forks, maps, unmaps, protection changes and exits: up to the first change that is not tame all processes see, and every call answers, what they would if fork copied; sharing goes unnoticed at every point if and only if no such change succeeds; whenever memory runs out the reason is there |
| `AddressSpaces.Kernel.GrantAfterFork` | kernel/sched/create.c:535-565 | from every state that keeps the rules, with any page not writable: fork, the write right for the parent and a store end with the stored byte in the child, which a copying fork would not show |
| `AddressSpaces.LeakingRun` | kernel/sched/create.c:535-565 | a run from an empty kernel: spawn, map a read-only page, fork, grant, store; the child reads a byte it never wrote |
| `AddressSpaces.Kernel.RevokeAfterFork` | kernel/sys/syscall.c:1201-1330 | from every state that keeps the rules, with any writable page: fork, taking the right from the parent and a store end with the store not refused, and if it succeeds with the right given back |
| `SleepMutex.MutualExclusion` | kernel/sys/lock.c:137-244 | in every interleaving at most one thread holds the mutex, and it is marked held exactly when one does |
| `SleepMutex.NoWakeupIsLost` | kernel/sched/waitq.c:309-517 | whenever the mutex is free and a thread sleeps on it, a wake is pending or a contender has yet to retry, by a thread that is not stopped if no thread is at that point, and so throughout every run without stops |
| `SleepMutex.Progress` | kernel/sys/lock.c:157-244 | from every state that meets the invariant, with a free mutex and a sleeper, and whichever threads may not sleep: at most two steps of the threads themselves let one have it if and only if one that is not stopped is on the way to look or to wake, or is about to sleep where it may not; otherwise every run of their steps leaves the mutex free and only puts threads to sleep |
| `SleepMutex.AwakeProgress` | kernel/sys/lock.c:185-206 | when all threads may sleep, that is if and only if somebody awake is on the way |
| `SleepMutex.StopStalls` | kernel/sched/wait.c:328-397 | a run in which a thread is woken and stopped before it retries: the mutex is free, another thread sleeps, no wake is pending, and no steps of the threads themselves ever take the mutex |
| `SleepMutex.DozingStalls` | kernel/sched/waitq.c:309-381 | a run in which the unlocking thread is stopped before it wakes anybody: one thread sleeps, another is not stopped and about to sleep, and the mutex stays free if and only if that one may sleep |
| `SleepMutex.AwakeStays` | kernel/sched/wait.c:328-423 | as long as the mutex stays free with a sleeper, only a stop can take away the last contender that is not stopped |
| `SleepMutex.StopParks` | kernel/sched/wait.c:328-423 | a stop takes a sleeper off the queue and parks the thread; a continue lets it go on where it was |
| `SleepMutex.StoppedStays` | kernel/sched/wait.c:328-423 | a stopped thread makes no move until it is continued, whatever the others do |
| `SleepMutex.FirstInFirstOut` | kernel/sched/waitq.c:58-116 | in runs in which only wakes take threads off the queue, threads are woken in the order in which they fell asleep |
| `SleepMutex.RemoveOrder` | kernel/sched/waitq.c:165-212 | a thread that leaves a wait queue leaves the others in order |
| `SleepMutex.Always` | kernel/sys/lock.c:55-244 | every step of every run, stops and continues included, keeps the invariant of mutex, queue and sequence number |
| `SleepMutex.LateSleeper` | kernel/sys/lock.c:157-206 | a thread that first has no queue and then gets one goes to sleep like any other |
| `SleepMutex.Uncontended` | kernel/sys/lock.c:137-183 | a free mutex is taken at once, with or without memory for a queue, and trying does not take one that is held |
| `HeapOrder.TopIsLeast` | kernel/sched/runqueue.c:5-23 | nothing in a heap is less than its first slot |
| `HeapOrder.UpStep` | kernel/sched/runqueue.c:59-70 | one step up repairs the heap around the slot and breaks it nowhere else |
| `HeapOrder.DownStep` | kernel/sched/runqueue.c:72-93 | one step down repairs the heap around the slot and breaks it nowhere else |
| `ThreadHeap.IndexedHeap.Insert` | kernel/sched/runqueue.c:95-109 | adds one thread to the array heap with order and back indices kept; fails exactly when it is full |
| `ThreadHeap.IndexedHeap.RemoveAt` | kernel/sched/runqueue.c:125-175 | removes exactly the thread in any slot, order and back indices kept |
| `ThreadHeap.IndexedHeap.Extract` | kernel/sched/state.c:248-274 | the variant that sinks first and then rises does the same |
| `ThreadHeap.IndexedHeap.Least` | kernel/sched/state.c:298-304 | the first slot holds a least key |
| `RunQueues.Cpus.PickCpu` | kernel/sched/select.c:51-114 | a least loaded online processor the thread may run on, the given one on a tie; the fallback exactly when there is none |
| `RunQueues.Cpus.RightsAre` | kernel/sched/internal.h:285-300 | a thread may use the processors of its mask, or all that are online, and none past the 64th |
| `RunQueues.Cpus.InsertAt` | kernel/sched/runqueue.c:237-262 | raises the thread to the queue's floor, exactly when it is below, and queues it once unless the queue is full; the floor is then the least queued runtime and never fell |
| `RunQueues.Cpus.Enqueue` | kernel/sched/runqueue.c:177-262 | queued on the asked processor or one that may run it, exactly when ready, not running, runnable somewhere and the queue has room |
| `RunQueues.Cpus.Requeue` | kernel/sched/runqueue.c:177-262 | a thread already queued stays, or moves to where it may run, or is off the queues exactly when there is no room |
| `RunQueues.Cpus.Dequeue` | kernel/sched/runqueue.c:264-309 | takes exactly that thread out of the one queue that has it |
| `RunQueues.Cpus.PeekBest` | kernel/sched/runqueue.c:357-390 | the thread that the processor may run with the least virtual runtime, then total runtime, then number |
| `RunQueues.Cpus.PopBest` | kernel/sched/runqueue.c:311-355 | takes the thread that the processor may run with the least virtual runtime, then total runtime, then number, found exactly when there is one |
| `RunQueues.Cpus.TakeWorst` | kernel/sched/runqueue.c:392-463 | takes the wanted thread with the greatest virtual runtime, and among equals the greatest number, found exactly when there is one |
| `Balance.MoveWorst` | kernel/sched/balance.c:53-67 | takes exactly one thread, the one that has run most of those the target may run, whenever there is one; it is queued there, or off every queue exactly when that queue is full |
| `Balance.Push` | kernel/sched/balance.c:39-70 | takes up to the given number, stopping early only when nothing is left to give; those that fit are queued, exactly the others are lost, and none is doubled |
| `Balance.MoveStranded` | kernel/sched/balance.c:91-117 | a stranded thread goes to the least loaded processor that may run it, and is lost exactly when there is none or that one is full |
| `Balance.LosingRun` | kernel/sched/balance.c:91-104 | a run that loses a ready thread: its only allowed processor goes offline while it waits on another |
| `Balance.RescueSome` | kernel/sched/balance.c:91-117 | after it no thread is stranded, or the batch is used up, or one may run nowhere; only stranded threads are lost, each because it may run nowhere or a processor that may run it is full, and none when each may run somewhere and the queues have room |
| `Balance.PushToIdlest` | kernel/sched/balance.c:119-153 | pushes to the least loaded processor until the loads are level, the batch is used up or nothing is left, never past level, and loses no thread however full the queues are |
| `Balance.LevelledIs` | kernel/sched/balance.c:119-153 | pushing ends after two threads, at loads that differ by one at most, or when the target may run none of the rest |
| `Balance.Rebalance` | kernel/sched/balance.c:72-153 | no thread is doubled; only stranded ones are lost, each because it may run nowhere or a processor that may run it is full, and none when each queued thread may run somewhere and the queues have room for the batch; stranded ones leave, and the source never ends below the target |
| `Balance.BusiestPeer` | kernel/sched/pick.c:97-115 | the most loaded other online processor, none exactly when all are idle |
| `Balance.StealingIs` | kernel/sched/pick.c:97-122 | a peer is left alone when its queue and what it runs are fewer than two, and the busiest has the most of both |
| `Balance.Steal` | kernel/sched/pick.c:117-149 | takes the thread it returns, the one that has run most on the busiest peer, found exactly when that peer has two or more and one may run here; one more is lost at most, and only when the own queue is full |
| `Balance.StealFrom` | kernel/sched/pick.c:125-146 | a second thread is queued behind the first whenever the peer has another that may run here, unless the own queue is full |
| `SleepHeap.Timer.Arm` | kernel/sched/state.c:209-246 | a thread has one deadline, the newest; fails exactly when the heap is full |
| `SleepHeap.Timer.Disarm` | kernel/sched/state.c:276-296 | the deadline is gone and no other changes |
| `SleepHeap.Timer.Expire` | kernel/sched/wait.c:145-164 | a due sleeper leaves its wait queue and wakes with a timeout; the others wait in the same order |
| `SleepHeap.Timer.WakeSleepers` | kernel/sched/wait.c:3-58 | leaves exactly the deadlines after now, wakes exactly the due sleepers with a timeout, touches nobody else and keeps the order of every wait queue |
| `BitWords.WriteMask` | libs/data/bitmap.c:19-25 | a word mask writes exactly the bits it covers |
| `BitWords.WriteRegion` | libs/data/bitmap.c:27-66 | head, body and tail masks together write exactly the bits of the run, one by one |
| `BitWords.Set` | libs/data/bitmap.c:5-10 | sets one bit and no other |
| `BitWords.Clear` | libs/data/bitmap.c:12-17 | clears one bit and no other |
| `BitWords.FindFirstClear` | libs/data/bitmap.c:83-118 | the least clear bit, skipping full words; none exactly when all are set |
| `BitmapAllocator.FreeCountFill` | libs/alloc/bitmap.c:157-177 | marking a free run takes exactly its length off the clear-bit count |
| `BitmapAllocator.RunsAre` | libs/alloc/bitmap.c:52-89 | a run is free when each of its bits is clear, and used when each is set |
| `BitmapAllocator.FirstFitInRange` | libs/alloc/bitmap.c:52-89 | the lowest free run of the length in the range, none exactly when there is none |
| `BitmapAllocator.LastFit` | libs/alloc/bitmap.c:112-155 | the highest free run of the length, none exactly when there is none |
| `BitmapAllocator.Allocator.FirstFit` | libs/alloc/bitmap.c:91-110 | the roving search finds a run exactly when the chunk has one, and finds the lowest at or after the rover, or else the lowest below it |
| `BitmapAllocator.Allocator.FitsIs` | libs/alloc/bitmap.c:91-110 | a request can be met exactly when there is a free run; the search starts at the rover, unless that is past the end |
| `BitmapAllocator.Allocator.Reserve` | libs/alloc/bitmap.c:157-177 | fails exactly when no run is long enough; takes the run the roving search names; live runs stay disjoint, and off the bitmap's own blocks as long as these are marked; the free count is the clear-bit count |
| `BitmapAllocator.Allocator.High` | libs/alloc/bitmap.c:179-194 | the same, at the greatest start |
| `BitmapAllocator.Allocator.Free` | libs/alloc/bitmap.c:196-244 | succeeds exactly for an aligned, in-range, fully used run; the count never needs its clamp; live runs stay off the bitmap's blocks, which stay marked exactly when the run lies behind them |
| `BitmapAllocator.Run` | libs/alloc/bitmap.c:157-244 | over any run of the three calls the bitmap's blocks stay marked and every live run stays off them, at every point, if and only if no successful free reaches into them |
| `BitmapAllocator.FreesItsBitmap` | libs/alloc/bitmap.c:196-244 | on every allocator that keeps this, freeing the chunk's first block succeeds and the bitmap's blocks are no longer all marked |
| `BitmapAllocator.HandsOutItsBitmap` | libs/alloc/bitmap.c:157-244 | reserving one block then hands out the bitmap's own first block |
| `BitmapAllocator.Create` | libs/alloc/bitmap.c:10-50 | refused exactly when the chunk is missing or leaves no block beside its bitmap; a new allocator has its bitmap's blocks marked and nothing live |
| `PathNames.TargetClean` | kernel/sys/path.c:64-103 | a resolved path has no empty, `.` or `..` segment |
| `PathNames.TargetShape` | kernel/sys/path.c:105-152 | the resolved text is absolute, has no doubled slash, and ends in a slash only when it is the root |
| `PathNames.RelativeMeans` | kernel/sys/path.c:124-133 | a relative path means the working directory, a slash and the path |
| `PathNames.RootTarget` | kernel/sys/path.c:15-36 | the root, its `.` and its `..` mean the root |
| `PathNames.StepTarget` | kernel/sys/path.c:64-103 | a name goes one level down, `.` stays and `..` goes one level up or stays at the root, whatever path stands before |
| `PathNames.UpUndoes` | kernel/sys/path.c:64-103 | a name followed by `..` can be left out wherever it stands, and so can `.` |
| `PathNames.SegmentsOfJoin` | kernel/sys/path.c:38-62 | splitting undoes joining |
| `PathNames.ResolvedAgain` | kernel/sys/path.c:105-152 | resolving a resolved path succeeds in the same buffer size from any working directory and gives it back |
| `PathNames.PlainFits` | kernel/sys/path.c:38-62 | a path with nothing to leave out fits exactly when its names and its text do |
| `PathNames.DetourRefused` | kernel/sys/path.c:38-62 | a family of paths whose result fits but which are refused, because a longer path is passed on the way |
| `PathResolve.PathBuild.Pop` | kernel/sys/path.c:15-36 | drops exactly the last name; at the root it stays at the root |
| `PathResolve.PathBuild.Push` | kernel/sys/path.c:38-62 | appends a name; refused exactly when text and terminator, or one more start, have no room |
| `PathResolve.PathBuild.Apply` | kernel/sys/path.c:64-103 | the buffer holds the walked stack; refused exactly when some stack on the way has no room |
| `PathResolve.Resolve` | kernel/sys/path.c:105-152 | succeeds exactly when there is a buffer and a path and every stack on the way fits; the buffer then holds the normalised path and its terminator |
| `PathResolve.ResolveDetour` | kernel/sys/path.c:105-152 | a path with a name followed by `..` leaves in the buffer what the path without them does; only room on the way can tell them apart |
| `DriverGraph.LoadableIff` | kernel/drivers/manager.c:59-108 | membership in the least fixed point is what depth-first loading with a `loading` flag decides |
| `DriverGraph.LoadableRule` | kernel/drivers/manager.c:59-108 | a driver loads exactly when it is loaded, or has a load callback that works and all its dependencies load |
| `DriverGraph.LoadableLeast` | kernel/drivers/manager.c:59-108 | nothing else loads: every set closed under that rule holds all that do |
| `DriverGraph.Absorb` | kernel/drivers/manager.c:59-108 | loading loadable drivers first never changes what is loadable: the order does not matter |
| `DriverGraph.AddLoaded` | kernel/drivers/manager.c:79-103 | a driver loaded after its dependencies keeps the loaded ones closed and free of cycles |
| `DriverGraph.CycleStuck` | kernel/drivers/manager.c:75-77 | a driver on a cycle with nothing loaded is never loadable |
| `Drivers.HalfwayStep` | kernel/drivers/manager.c:81-90 | each dependency served succeeds exactly when it is loadable from where the load began |
| `Drivers.Finish` | kernel/drivers/manager.c:92-108 | when all dependencies are in and the driver's load works, it is loaded and the flag is cleared |
| `Drivers.GiveUp` | kernel/drivers/manager.c:81-108 | otherwise the flag is cleared, and it was not loadable |
| `DriverOps.Registry.Find` | kernel/drivers/manager.c:25-43 | finds a driver exactly when its name is registered |
| `DriverOps.Registry.Load` | kernel/drivers/manager.c:167-180 | ends on every graph, cycles included; succeeds exactly when the driver is loadable without those being loaded; loads only what is needed |
| `DriverOps.Registry.LoadEntry` | kernel/drivers/manager.c:59-108 | leaves every `loading` flag as it was |
| `DriverOps.Registry.LoadOne` | kernel/drivers/manager.c:167-180 | a top-level load leaves no flag set |
| `DriverOps.Registry.LoadStage` | kernel/drivers/manager.c:237-258 | whatever the order of registration, exactly the loadable drivers of the stage are loaded |
| `DriverOps.Registry.Add` | kernel/drivers/manager.c:125-145 | registers a new name while there is an entry; a known name is accepted and changes nothing |
| `DriverOps.Registry.Remove` | kernel/drivers/manager.c:147-165 | drops exactly a registered driver that is not loaded; no loaded driver loses a dependency |
| `DriverOps.Registry.Unload` | kernel/drivers/manager.c:182-222 | unloads exactly when loaded, not needed by another loaded driver, idle and able to unload |
| `DriverOps.Registry.Run` | kernel/drivers/manager.c:125-258 | over any run each operation does what it says, every dependency of a loaded driver is loaded, no loaded drivers form a cycle and no flag is left set |

## Left out

- Disk errors, and allocation failure in the middle of an ext2 operation other than running out of blocks.
- Volume.Mount.AddFolder: refuses blocks of less than 264 or more than 65535 bytes, which the driver does not check: a record with the longest name must fit, and its length be held in 16 bits.
- Volume.Mount.EnterName: refuses a name that is there already, which the callers of the driver's insert check before it.
- Volume.Mount.Run: names and link counts of one volume are two theorems, this one and NameRuns.Run; in the second one room for a name is an input.
- Volume.Mount.GrowAfterFailure: like Volume.Mount.Run it is about the inode in memory; the write that runs out of room returns without writing it, so that once the last alias is gone the volume has the old size and pointers, and blocks that nothing owns stay marked.
- NameRuns.Run: it ends where an inode is given back that something names, because the blocks of that directory can then hold anything; a directory that has been removed is told by a flag, which the virtual file system keeps in its nodes.
- Inline symbolic links, whose target bytes occupy the pointer fields.
- Raw writes of inodes, group descriptors and the superblock, which bypass the block cache: cached blocks are taken not to overlap those areas.
- BitmapAllocator.HandsOutItsBitmap: the bitmap is an array beside the chunk, so that what a user of its blocks writes does not change it; in the kernel it would.
- BlockCache.Cache.Run: the cache is proved equal to the bare disk on its own and is not joined with the volume, whose disk is the bare one.
- BlockCache.Cache.WriteBlock: a failed disk write is taken to leave the old block.
- BuiltVolume.BuildAndMount: superblock, inodes and bitmap reach the mount as values and not as bytes of the image.
- The bytes of superblock and inodes, the inode bitmap of a built image, its retries with a larger size, and owners and times.
- NameRuns.Fs.Rename: the climb follows the parent inodes of the directories, where the virtual file system follows its own tree of nodes; mount points on the way are not modelled.
- DirBuilder.MakeDirectory: names of at most 255 bytes and blocks below 65536 bytes, so that a record length fits its 16 bits.
- File block indices of 2^32 and more, and wrap-around of the wake sequence, the cache clock, frame reference counts and virtual runtimes, all modelled as unbounded numbers.
- Address spaces are counted in pages; shared file mappings and the page-fault trap itself are not modelled.
- AddressSpaces.Kernel.ForkCopy: for a parent without copy-on-write marks, which is when the kernel copies; the place where the search for frames goes on is an input, and the 32-bit kernel, which takes the highest free run, is not modelled.
- AddressSpaces.Kernel.Mmap: private anonymous memory only.
- SleepMutex.FirstInFirstOut: for runs in which no stop and no masked signal takes a thread off the queue, because such a thread queues again at the end.
- SleepMutex.Progress: threads take their steps when they are not stopped; that the scheduler lets them is not modelled. A thread that may sleep is taken to get onto the queue: a failing attach, after which it tries again, is a step of the safety results only.
- Waking all sleepers of a queue, which tests for waiters before it takes the scheduler lock and which the mutex never uses.
- Weak memory order, interrupt state and everything behind the architecture layer: each critical section is one step.
- RunQueues.Cpus.Dequeue: the repair of a stale back index is not modelled, because the invariant proves that no index is stale.
- Balance.MoveStranded: the processors of a thread without a home are not widened again, and a lost thread is queued again only by a later call from elsewhere; neither is modelled.
- SleepHeap.Timer.Arm: a deadline of zero, which stands for none, is not armed.
- DriverOps.Registry.Load: a failing load callback is taken not to report that it is already loaded, and callbacks not to call back into the registry.
- Consoles, devices, pipes, terminals and the rest of the virtual file system.
