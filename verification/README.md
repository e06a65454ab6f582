# PureUNIX core, in Dafny

A model of the parts of the PureUNIX kernel that keep other people's data: the EXT2 and FAT16 drivers, the block
cache, the virtual filesystem's path resolver and mount table, the kernel heap, the descriptor table, the scheduler,
the calendar arithmetic and the modal editor. Code that updates state in place is modelled by classes and methods with
the loops of the original; every such method is proved against a specification on values, and the promises of the
system are proved about those specifications, for all inputs, all reachable states or all runs.

The main results:

- **EXT2 ownership and link counts over every run.** `Intact` says that no block is referenced twice, every referenced
  block is marked and is not metadata, directories spell maps without duplicate names, every link count equals the
  number of names (plus child directories), and every ".." leads back. A formatted volume is intact
  (`Ext2Run.FormattedIntact`) and any run of creates, writes, links, removals, renames and symlinks keeps it so,
  including all out-of-space outcomes (`Ext2Run.Replay`; short links whose text spells a block number of the volume
  aside). Every operation also keeps the difference between each free
  counter and its bitmap constant, and runs out of space exactly if the inodes or blocks left do not suffice. The
  directory code is proved down to the record bytes in the blocks.
- **Three exact limits of EXT2,** each with an input. Freeing a fast symlink treats its text as block numbers. That is
  harmless exactly under `Ext2Unlink.Harmless`, for a removal and for a rename over the link alike, and
  `Ext2FastLink.FastLinkTakesBlock` gives an intact volume where it is not. A link count wraps exactly at 65535 links
  (`Ext2Rename.Link`, `Ext2Limits.LinkCountWraps`). A rename cuts directories off the root exactly if it moves one
  below itself (`Ext2Roots.RenameRoots`, `Ext2Limits.RenameCutsOff`); without such a rename every run keeps every
  directory reachable (`Ext2Run.ReplayRooted`).
- **FAT16 over every run.** From a formatted volume on, any run of creates, writes, unlinks and renames by path keeps
  the copies of the table equal, the chains disjoint and end-marked, and names unique (`Fat16Run.Replay`). Each
  operation says exactly when it succeeds, counting free clusters, and where its path leads afterwards. The driver
  does not check the parent of a new name in rename: behind a file the entry is lost (`Fat16Move.Move`, and on a
  concrete volume `Fat16Lost.RenameLosesFile`), and the new path leads to the entry exactly if its parent is a
  directory outside the moved one (`Fat16Paths.Rename`).
- **Round trips.** What is written to an EXT2 or FAT16 path reads back; a rename over an existing EXT2 name never runs
  out of space; a FAT16 write is all or nothing.
- **Path resolution** terminates on every symlink structure and returns canonical, searchable, link-free paths that
  resolve to themselves.
- **The heap in its bytes.** Headers stored in the 8 MiB region always spell a tiling block list; live payloads never
  overlap and never change under other calls; freeing undoes allocating; freeing everything restores one block.
- **The editor on flat text.** Every key is proved to change the saved file text as its meaning says; undo restores
  text and cursor for every insert session; the editor is never left with unsaved text unless the last key was Enter
  on q!; load and save are inverse exactly on the files described by `EditorText.Faithful`.
- **Descriptors.** Closing commits exactly the edits made since the file was opened, in every interleaving with other
  descriptors, on the same path too, where the last close decides (`FdTable.LastCloseDecides`).

Where code and comments of the source disagree, the code is followed: after a failed EXT2 write one block can stay
allocated although the comment at fs/ext2/write.c:468-478 says nothing leaks, and the editor's `d0` clears the whole
line.

Layout: `Arith`, `Bytes`, `Wrappers` (shared arithmetic, byte sequences, options); `Ext2*` (from bitmaps and
references up to the operations, whole runs, reachability and the limits); `Paths`, `Vfs`, `VfsMount`; `HeapLayout` (block lists),
`KernelHeap` (bytes); `Fat16*` (table, slots and the volume invariant up to the operations by path and whole runs);
`Calendar`, `FdTable`, `Scheduler`; `EditorText`, `EditorFlat`, `EditorKeys`, `Editor`.
`dafny verify dfyconfig.toml` checks the whole project.

## Model

| member | source | states |
|---|---|---|
| `Ext2Bitmap.ClearCountUpdate` | fs/ext2/alloc.c:11-134 | setting or clearing one bit moves the number of clear bits of a bitmap by exactly one, or not at all if the bit already was so |
| `Ext2Volume.ScanBitmaps` | fs/ext2/alloc.c:15-28 | the double loop finds the lowest clear bit of the lowest group whose counter is not zero and whose item exists; it finds none only if there is none |
| `Ext2Volume.DriftKept` | fs/ext2/alloc.c:30-37 | moving a group counter together with its bitmap keeps the difference between the two, group by group, modulo the counter width |
| `Ext2Volume.TakeBit` | fs/ext2/alloc.c:11-103 | taking one bit adds exactly one item to the used set and keeps the drift of every group counter and of the superblock total |
| `Ext2Volume.GiveBit` | fs/ext2/alloc.c:48-134 | giving one bit back removes exactly one item from the used set and keeps every drift |
| `Ext2Volume.NoneLeft` | fs/ext2/alloc.c:15-28 | nothing is left to hand out exactly if every group is used up below its limit or its counter reads 0 |
| `Ext2Volume.OneLess` | fs/ext2/alloc.c:30-37 | each item handed out leaves exactly one less to hand out, counters and bitmaps drifting apart or not |
| `Ext2Volume.Volume.WriteDescs` | fs/ext2/super.c:169-177 | the loop over the descriptor blocks, 32 descriptors each, brings every descriptor of every group to disk, the last block being partly filled |
| `Ext2Volume.Volume.AllocBlock` | fs/ext2/alloc.c:11-46 | it succeeds exactly if some group offers a block (BlocksLeft is not 0); the block was not in use, is the lowest one a non-empty group offers, and is zero-filled; nothing else changes; the drift of all counters is constant |
| `Ext2Volume.Volume.FreeBlock` | fs/ext2/alloc.c:48-70 | exactly that block leaves the used set; a number outside the groups or already free changes nothing; the drift of all counters is constant |
| `Ext2Volume.Volume.AllocInode` | fs/ext2/alloc.c:72-103 | it succeeds exactly if some group offers an inode; the number was not in use, is the lowest offered, and is never 0; the drift of all counters is constant |
| `Ext2Volume.Volume.FreeInode` | fs/ext2/alloc.c:105-134 | exactly that number leaves the used set and its table entry is zeroed; the drift of all counters is constant |
| `Ext2Volume.Volume.ReadInode` | fs/ext2/inode.c:11-41 | an inode can be read exactly if its number is in range, and what is read is the table entry |
| `Ext2Volume.Volume.WriteInode` | fs/ext2/inode.c:95-120 | only that table entry changes; a number out of range changes nothing |
| `Ext2Volume.Volume.ReadBlock` | fs/ext2/block.c:41-80 | a block can be read exactly if it is not block 0 and lies on the volume, metadata included |
| `Ext2Volume.Volume.WriteBlock` | fs/ext2/block.c:82-112 | only that block changes |
| `Ext2Refs.NoBlockReferencedTwice` | fs/ext2/inode.c:47-93 | under an owner map no block is reached through two pointers, of one inode or of two |
| `Ext2Refs.OwnerExists` | fs/ext2/inode.c:47-93 | conversely, pointers that never meet have an owner map, so the ownership invariant says no more than that |
| `Ext2Refs.WriteData` | fs/ext2/write.c:62-85 | overwriting a data block changes no reference anywhere and no other inode contents |
| `Ext2Refs.GainIndirect` | fs/ext2/inode.c:136-146 | a freshly allocated indirect block brings no reference but itself, because allocation zero-fills it |
| `Ext2Sound.SoundMeans` | fs/ext2/inode.c:47-93 | on a sound volume every referenced block is in use, is not metadata, lies in range, and has one referrer |
| `Ext2Sound.AllocStep` | fs/ext2/alloc.c:11-46 | allocation keeps the volume sound and the new block is referenced by nobody |
| `Ext2Sound.GainStep` | fs/ext2/inode.c:122-156 | wiring an unreferenced block into one slot keeps the volume sound and every other inode, its references and its contents |
| `Ext2Sound.DropStep` | fs/ext2/inode.c:158-184 | an inode that drops all references while their blocks become free keeps the volume sound and every other inode |
| `Ext2Blocks.AddBlock` | fs/ext2/inode.c:122-156 | it succeeds exactly if the block number is in reach and an indirect block, if one is needed, can be allocated; then logical block k of the inode becomes that block, all its other data blocks stay, blocks taken on the way belong to it, no other inode notices; failure changes nothing |
| `Ext2Blocks.RawIsReferences` | fs/ext2/inode.c:158-184 | for every inode but a fast symlink, the numbers handed to the block allocator are exactly the blocks the inode refers to |
| `Ext2Blocks.FreeAllBlocks` | fs/ext2/inode.c:158-184 | exactly the numbers held in the pointers and in the indirect block leave the used set |
| `Ext2Blocks.FreeAllIsDrop` | fs/ext2/inode.c:158-184 | freeing an inode clears exactly the bits of the blocks it owned; the volume stays sound and every other file keeps its contents |
| `Ext2Data.PrefixReads` | fs/ext2/write.c:62-85 | a file whose logical blocks hold the chunks of the data reads back as the data |
| `Ext2Data.WriteRound` | fs/ext2/write.c:70-82 | one round of the write loop stores one more chunk and takes only blocks the inode then refers to |
| `Ext2Data.WriteDataBlocks` | fs/ext2/write.c:62-85 | success exactly if the data needs at most 268 blocks and so many, with the indirect one, are left: the inode reads back as the data and the used set grew by exactly its references; failure: it grew by what was wired in, plus exactly one block exactly if wiring failed |
| `Ext2Data.IterBlocks` | fs/ext2/inode.c:47-93 | the callback sees the block numbers of logical blocks 0 to the last one the size covers, in order |
| `Ext2Data.ReadData` | fs/ext2/file.c:15-75 | the copied bytes are the file contents, holes reading as zeros |
| `Ext2Data.KeptReads` | fs/ext2/file.c:39-75 | an inode whose references and blocks were kept reads as before |
| `Ext2DirBlock.Splice` | fs/ext2/dir.c:232-266 | replacing a stretch of a directory block by records of the same total length leaves all other records readable as they were |
| `Ext2DirBlock.RecordReads` | fs/ext2/dir.c:238-263 | a record written into a block reads back with its number, length, type and name |
| `Ext2DirBlock.PlaceAtLive` | fs/ext2/dir.c:232-266 | placing a name in free space inserts one entry and keeps every other, in order |
| `Ext2DirBlock.RemoveAtLive` | fs/ext2/dir.c:313-333 | removing a record deletes one entry and keeps every other, in order, whether the predecessor absorbs it or it is first |
| `Ext2DirBlock.RemoveAtLeavesRoom` | fs/ext2/dir.c:313-333 | after a removal there is room for a name of the same length, wherever the record stood |
| `Ext2DirScan.LookupInBlock` | fs/ext2/dir.c:47-73 | the scan answers with the first live record of that name, and with nothing exactly if there is none |
| `Ext2DirScan.PlaceInBlock` | fs/ext2/dir.c:232-266 | the records still tile the block and hold one more entry in the first place that fits; refused exactly if none fits |
| `Ext2DirScan.RemoveFromBlock` | fs/ext2/dir.c:313-333 | the records still tile the block and the named one is gone; refused exactly if it was not there |
| `Ext2DirScan.OnlyDotsInBlock` | fs/ext2/dir.c:351-362 | true exactly if no live record is named other than "." and ".." |
| `Ext2DirScan.SetParentInBlock` | fs/ext2/dir.c:382-394 | only the inode number of the ".." record changes |
| `Ext2DirScan.DotsReads` | fs/ext2/write.c:119-135 | the block written for a new directory reads as "." and ".." and nothing else, tiling the block |
| `Ext2DirMap.PlaceEffect` | fs/ext2/dir.c:210-293 | insertion into an existing block adds one binding to the directory map |
| `Ext2DirMap.GrowEffect` | fs/ext2/dir.c:275-292 | insertion by growing adds the same one binding |
| `Ext2DirMap.RemoveEffect` | fs/ext2/dir.c:295-336 | removal deletes one binding from the directory map |
| `Ext2DirMap.RoomAfterRemove` | fs/ext2/dir.c:295-336 | a removal leaves room in some block for a name as long |
| `Ext2DirMap.NamesFit` | fs/ext2/dir.c:210-293 | a directory of at most 268 blocks holds at most 22780 names |
| `Ext2Dir.InodeBlockAt` | fs/ext2/dir.c:22-36 | lookup of a block by index gives the same block number as iterating over the blocks |
| `Ext2Dir.DirLookup` | fs/ext2/dir.c:75-94 | the answer is the directory map at that name, absent exactly if the map has none |
| `Ext2Dir.DirRemove` | fs/ext2/dir.c:295-336 | succeeds exactly if the name is bound; then the directory map loses it, the blocks in use and every inode stay, and one block was edited; block ownership is kept |
| `Ext2Dir.DirInsert` | fs/ext2/dir.c:210-293 | success exactly if a block of the directory has room or one more can be allocated and wired in: the directory map gains the binding and no other inode notices; failure: nothing changed but at most one leaked block; with room in the directory it succeeds without taking a block |
| `Ext2Dir.InsertEntry` | fs/ext2/dir.c:210-293 | the same for a volume whose bitmap has lost bits of blocks in use, as long as the directory has room: it is described as on the volume with those bits restored |
| `Ext2Dir.RemoveEntry` | fs/ext2/dir.c:295-336 | removing a name on a volume whose bitmap has lost bits of blocks in use, described as on the volume with those bits restored |
| `Ext2Dir.DirIsEmpty` | fs/ext2/dir.c:338-365 | true exactly if the map binds nothing but "." and ".." |
| `Ext2Dir.DirSetParent` | fs/ext2/dir.c:367-397 | the map changes only at "..", which now names the new parent |
| `Ext2Tree.CreatedLinked` | fs/ext2/write.c:87-169 | naming a fresh inode once, with count 1, keeps every link count equal to the number of names |
| `Ext2Tree.LinkAddedLinked` | fs/ext2/write.c:294-320 | a second name with the count raised keeps every link count right |
| `Ext2Tree.MadeDirLinked` | fs/ext2/write.c:87-169 | a new directory with count 2 and its parent counted up keeps every link count, every "." and every ".." right |
| `Ext2Tree.UnlinkedLinked` | fs/ext2/write.c:204-213 | dropping one name keeps every link count right; the last name frees the inode |
| `Ext2Tree.RemovedDirLinked` | fs/ext2/write.c:192-203 | removing an empty directory and counting its parent down keeps every link count right |
| `Ext2Tree.MovedLinked` | fs/ext2/write.c:272-291 | moving a name, with ".." and the two parent counts following a directory, keeps every link count and every ".." right |
| `Ext2Names.DirCountBound` | fs/ext2/write.c:159-168 | a directory link count lies between 2 and 22782, so its 16-bit field never wraps |
| `Ext2Names.LeakedIntact` | fs/ext2/write.c:153-158 | a failed operation that at most leaked a block leaves the volume intact and its namespace the same |
| `Ext2Write.PathToInode` | fs/ext2/dir.c:96-121 | the result is the walk along the path through the namespace, and nowhere exactly if the walk fails |
| `Ext2Write.MakeFile` | fs/ext2/write.c:100-158 | success exactly if an inode is left and the name fits its directory: the namespace gains one file under that name and all inodes but the file and its directory are kept; out of space: nothing but at most one leaked block |
| `Ext2Write.MakeDirectory` | fs/ext2/write.c:100-168 | success exactly if an inode, a block and room for the name are left: the namespace gains one empty directory, counted in its parent; out of space: nothing but at most one leaked block |
| `Ext2Write.Create` | fs/ext2/write.c:87-169 | each error code exactly when its cause holds, ENOSPC exactly if inodes or blocks run out, other errors changing nothing; otherwise the outcome of making the file or directory; the volume stays intact and all counters keep their drift |
| `Ext2Unlink.PlainHarmless` | fs/ext2/inode.c:158-184 | freeing any inode that is not a fast symlink frees only blocks nobody else refers to |
| `Ext2Unlink.FastRetireSound` | fs/ext2/inode.c:158-184 | freeing a fast symlink keeps the volume sound if and only if the words of its text name no metadata block and no block another inode refers to |
| `Ext2Unlink.FastRetireRestored` | fs/ext2/inode.c:158-184 | after freeing any fast symlink the bitmap bits are all that can be wrong: with them restored the volume is sound |
| `Ext2Unlink.DropFile` | fs/ext2/write.c:204-213 | the name is gone; with names left the blocks stay; with the last name the volume stays intact if and only if freeing the inode is harmless, exactly its blocks being free then; otherwise restoring the cleared bits would make it intact |
| `Ext2Unlink.DropDirectory` | fs/ext2/write.c:192-203 | the empty directory is gone with its blocks, its parent counted down, the volume intact |
| `Ext2Unlink.Unlink` | fs/ext2/write.c:171-215 | each error code exactly when its cause holds, errors changing nothing; success is the directory or the one name gone, with the exact condition for the volume to stay intact |
| `Ext2Rename.CountedTree` | fs/ext2/write.c:314-319 | at 65535 links the raised count is 0 although the file has names: the count law fails exactly there |
| `Ext2Rename.Link` | fs/ext2/write.c:294-320 | each error code exactly when its cause holds, ENOSPC exactly if the name does not fit the directory; success adds one binding and one link, and the volume is intact after it if and only if the file had fewer than 65535 links; out of space leaks at most one block |
| `Ext2Rename.Shift` | fs/ext2/write.c:272-275 | the new entry goes in before the old one comes out, also on a volume whose bitmap has lost bits; out of space leaves both as they were; with room in the directory no reference and no bit changes |
| `Ext2Rename.Reparent` | fs/ext2/write.c:277-290 | the ".." entry and the link counts of both parents follow a directory that moved |
| `Ext2Rename.ClearDestination` | fs/ext2/write.c:251-270 | what stood at the destination is gone, the entry to move is still there, and the destination directory has room for the name; the volume is intact then if and only if what was freed is harmless |
| `Ext2Rename.CheckKinds` | fs/ext2/write.c:244-249 | EISDIR, ENOTDIR and ENOTEMPTY exactly when the namespace says so |
| `Ext2Rename.LossStays` | fs/ext2/write.c:272-275 | moving a name repairs nothing: if the volume is intact after it, it was intact before |
| `Ext2Rename.Replace` | fs/ext2/write.c:244-291 | a rename over an existing name never fails and takes no block; the volume is intact after it if and only if what it replaced is harmless to free, and otherwise only bitmap bits are wrong |
| `Ext2Rename.Rename` | fs/ext2/write.c:217-292 | each error code exactly when its cause holds; success moves the name (after removing the destination) and takes no block then; ENOSPC exactly if the destination name did not exist and does not fit its directory; the volume stays intact if and only if the replaced inode is harmless to free |
| `Ext2File.KeptContents` | fs/ext2/file.c:39-75 | every file outside the inodes an operation names reads as before |
| `Ext2File.DoneStep` | fs/ext2/write.c:484-486 | storing the inode with its new size and pointers keeps the volume intact, and the file reads back as the data |
| `Ext2File.FailStep` | fs/ext2/write.c:467-482 | giving back what was wired in leaves the file empty, its old blocks free, no dangling pointer, and at most one block lost |
| `Ext2File.Rewrite` | fs/ext2/write.c:464-486 | success exactly if the blocks freed and left suffice: the file reads back as the data and holds only blocks free before or its own; out of space: the file is empty, used blocks are the old ones minus its former ones, plus one exactly when wiring failed; nobody else notices |
| `Ext2File.WriteIno` | fs/ext2/write.c:439-486 | refused exactly for anything but a regular file; otherwise the outcome of rewriting with the data, or with the old contents followed by it |
| `Ext2File.ReadFile` | fs/ext2/mount.c:82-103 | succeeds exactly on a path that names a regular file, and returns its contents |
| `Ext2File.WriteFile` | fs/ext2/write.c:428-487 | success exactly if the file is there or can be created and the blocks suffice; then reading the same path returns exactly the data, or the old contents followed by it; the volume stays intact in every outcome |
| `Ext2File.CreatedFound` | fs/ext2/write.c:87-169 | the path of a created file leads to it |
| `Ext2Symlink.PackRoundTrip` | fs/ext2/write.c:352-355 | a target of at most 60 bytes packed into the pointer words reads back |
| `Ext2Symlink.ReadLink` | fs/ext2/write.c:403-426 | each error code exactly when its cause holds; otherwise the first bufsize bytes of the target, for fast and long links |
| `Ext2Symlink.MakeFast` | fs/ext2/write.c:352-376 | the new link reads back as its target and takes no block for it; if it cannot be named it is taken back, leaving the volume intact exactly if freeing its text is harmless |
| `Ext2Symlink.MakeLong` | fs/ext2/write.c:356-376 | the new link reads back as its target from data blocks; if it fails at most one block is lost |
| `Ext2Symlink.Symlink` | fs/ext2/write.c:322-377 | each error code exactly when its cause holds, ENOSPC exactly if no inode is left or name or text do not fit; success adds one named inode whose target reads back; a link that cannot be named is taken back, and the volume is intact then exactly if freeing its text is harmless |
| `Ext2FastLink.FastLinkTakesBlock` | fs/ext2/inode.c:158-184 | a concrete intact volume: the root directory in block 97 and in it a link "l" to "a", whose text spells 97; unlinking "/l" succeeds and frees the block of the root directory, so the volume is not intact after it |
| `Ext2Run.FormattedIntact` | tools/mkext2.py:73-101 | a volume holding nothing but a root directory satisfies the whole invariant: ownership, directories, link counts |
| `Ext2Run.FormattedRooted` | tools/mkext2.py:73-101 | on a freshly formatted volume every directory is reachable from the root |
| `Ext2Run.DoCreate` | fs/ext2/write.c:87-169 | creating keeps a volume whose short links spell no block intact, and every directory reachable if all were, whatever the outcome |
| `Ext2Run.DoWrite` | fs/ext2/write.c:428-487 | writing keeps such a volume intact, and every directory reachable if all were, whatever the outcome |
| `Ext2Run.DoLink` | fs/ext2/write.c:294-320 | linking a file with fewer than 65535 links keeps such a volume intact, and every directory reachable if all were, whatever the outcome |
| `Ext2Run.DoUnlink` | fs/ext2/write.c:171-215 | removing keeps such a volume intact, and every directory reachable if all were, whatever the outcome |
| `Ext2Run.DoRename` | fs/ext2/write.c:217-292 | renaming keeps such a volume intact, whatever the outcome, and every directory reachable if all were and none is moved below itself |
| `Ext2Run.DoSymlink` | fs/ext2/write.c:322-377 | making a long link, or a short one whose packed words are no block numbers of the volume, keeps such a volume intact, and every directory reachable if all were, whatever the outcome |
| `Ext2Run.SafeHarmless` | fs/ext2/inode.c:158-184 | files, directories, long links, and short links whose words name no block of the volume are harmless to free |
| `Ext2Run.Replay` | fs/ext2/write.c:87-487 | every run of creates, writes, links, removals, renames and symlinks, of any length and with any outcomes, keeps the volume intact and every counter drift constant, up to a link() at 65535 links |
| `Ext2Run.GoesBelow` | fs/ext2/write.c:217-292 | climbing from the new parent by ".." decides whether a rename would move a directory below itself |
| `Ext2Run.ReplayRooted` | fs/ext2/write.c:87-487 | every run from a volume with all directories reachable keeps them reachable and the volume intact, up to a link() at 65535 links or a rename of a directory below itself |
| `Ext2Roots.RenameRoots` | fs/ext2/write.c:217-292 | after a completed rename, destination replaced or not, every directory is reachable if and only if the rename did not move one below itself |
| `Ext2Limits.RenameCutsOff` | fs/ext2/write.c:217-292 | a concrete tree, consistent and with all directories reachable: moving a directory into its own child leaves it consistent and cuts both off the root |
| `Ext2Limits.LinkCountWraps` | fs/ext2/write.c:294-320 | a concrete consistent tree: a file with 65535 names in three directories, each within what a directory holds; one more link makes its count 0 and the tree inconsistent |
| `Ext2Reach.ReachableIff` | fs/ext2/dir.c:96-121 | a directory can be reached from the root by names exactly if following ".." from it ends at the root |
| `Ext2Reach.FilesRooted` | fs/ext2/write.c:87-213 | creating, linking and unlinking files keeps every directory reachable from the root |
| `Ext2Reach.MadeDirRooted` | fs/ext2/write.c:87-169 | a new directory is reachable, and so is every other |
| `Ext2Reach.RemovedDirRooted` | fs/ext2/write.c:192-203 | removing an empty directory keeps every other one reachable |
| `Ext2Reach.MovedRooted` | fs/ext2/write.c:272-291 | a rename keeps every directory reachable if and only if it does not move a directory to a place below itself, which the driver does not check |
| `Ext2Cache.OldestHasThreeLater` | fs/ext2/block.c:60-64 | the slot about to be evicted was read before three other blocks |
| `Ext2Cache.BlockCache.Find` | fs/ext2/block.c:52-57 | the slot that holds the block, if any does |
| `Ext2Cache.BlockCache.Oldest` | fs/ext2/block.c:60-64 | a slot whose age no other slot undercuts |
| `Ext2Cache.BlockCache.ReadBlock` | fs/ext2/block.c:41-80 | a successful read returns what the disk holds; coherence is kept even if the disk delivers only part; the evicted block is the least recently read |
| `Ext2Cache.BlockCache.WriteBlock` | fs/ext2/block.c:82-112 | the disk takes the block and cache and disk still agree |
| `Ext2Cache.BlockCache.Flush` | fs/ext2/block.c:34-39 | nothing stays cached |
| `Ext2Cache.BlockCache.WriteBehind` | fs/ext2/super.c:146-167 | a disk write that bypasses the cache leaves it coherent if and only if the block is not cached or did not change |
| `Paths.CompsConcat` | fs/vfs.c:690-715 | splitting text joined at a slash gives the components of both parts in order |
| `Paths.CompsJoin` | fs/vfs.c:690-715 | a rendered path splits back into its components |
| `Paths.RenderInjective` | fs/vfs.c:690-715 | two component lists with the same text are the same |
| `Paths.AppendComponent` | fs/vfs.c:174-185 | appending to a canonical path gives the path of the component list with "." ignored and ".." taking one off, the root having no parent |
| `Paths.Normalize` | fs/vfs.c:690-715 | the result is the canonical path of the components applied in order to the root or the current directory |
| `Paths.NormalizeTwice` | fs/vfs.c:690-715 | normalizing a normalized path changes nothing |
| `Vfs.AccessBoth` | fs/vfs.c:609-643 | permission for a union of modes is permission for each of them |
| `Vfs.ResolveGood` | fs/vfs.c:203-299 | every success is a path whose proper prefixes are searchable non-links, and at most 40 links were followed; the recursion ends on every link structure |
| `Vfs.Replay` | fs/vfs.c:203-299 | walking such a path component by component arrives at the same path, following nothing |
| `Vfs.ResolveMeans` | fs/vfs.c:203-299 | success means a canonical path of at most 255 bytes with existing, searchable, non-link proper prefixes, not itself a link when the final one is to be followed; resolving it again gives the same path |
| `Vfs.ResolveIsNormalize` | fs/vfs.c:203-299 | if no link was met, the result is what vfs_normalize computes |
| `Vfs.ResolvePath` | fs/vfs.c:203-299 | the loop over the work buffer computes the resolution of the path, with the same error in every failing case |
| `Vfs.SpliceLink` | fs/vfs.c:273-289 | rewriting the work buffer is the splice of the specification: the target before the rest, below the root exactly if it is absolute |
| `VfsMount.UnderIsPrefix` | fs/vfs.c:89-95 | a path is under a mount point exactly if the components of the mount point come first |
| `VfsMount.SubPath` | fs/vfs.c:130-142 | the rest handed to the driver is canonical and, put behind the mount point, gives the path back |
| `VfsMount.MountTable.Add` | fs/vfs.c:62-84 | mounting again at a point replaces its driver, mounting elsewhere adds one entry, a full table refuses and changes nothing; points stay distinct |
| `VfsMount.MountTable.FindMount` | fs/vfs.c:97-112 | the mount found covers the path and has the longest point of all that do; none found means none covers it |
| `VfsMount.MountTable.Dispatch` | fs/vfs.c:130-142 | the driver of the longest covering mount is handed the rest of the path |
| `HeapLayout.AlignCovers` | kernel/heap.c:20-23 | rounding up to 8 in 32 bits covers the request exactly for sizes up to 0xFFFFFFF8 |
| `HeapLayout.TakenSane` | kernel/heap.c:55-69 | allocating keeps the blocks tiling the region with no two free neighbours |
| `HeapLayout.CoalesceSane` | kernel/heap.c:81-93 | merging around a freed block leaves no two free neighbours |
| `HeapLayout.ReleasedSane` | kernel/heap.c:95-106 | freeing a live block keeps the blocks tiling the region with no two free neighbours |
| `HeapLayout.TakeRelease` | kernel/heap.c:55-106 | freeing what was just allocated restores the block list exactly |
| `HeapLayout.AllFree` | kernel/heap.c:95-106 | once everything is freed the heap is again the single block it started as |
| `HeapLayout.BlocksApart` | kernel/heap.c:55-69 | no block, header included, shares a byte with another, so live payloads never overlap |
| `HeapLayout.BytesConserved` | kernel/heap.c:130-139 | free payload, live payload and headers always add up to 8 MiB |
| `KernelHeap.EncodeDecode` | kernel/heap.c:8-14 | a header stored in memory reads back |
| `KernelHeap.Heap.constructor` | kernel/heap.c:25-35 | one free block spans the region, whatever memory held |
| `KernelHeap.Heap.SplitBlock` | kernel/heap.c:37-53 | the bytes spell the list with that block split in two, exactly if the rest can hold a header and 16 bytes; live payloads are untouched |
| `KernelHeap.Heap.Kmalloc` | kernel/heap.c:55-69 | NULL exactly if no free block is large enough (or nothing was asked for); otherwise the first that fits, its block disjoint from every other, and no live byte changes |
| `KernelHeap.Heap.CoalesceAt` | kernel/heap.c:81-93 | the bytes spell the merged list; live payloads are untouched |
| `KernelHeap.Heap.Kfree` | kernel/heap.c:95-106 | NULL changes nothing; a live block is released and merged, every other live payload stays where it is with its contents |
| `KernelHeap.Heap.Poke` | kernel/heap.c:55-69 | writing inside a live payload disturbs no header and no other payload |
| `KernelHeap.Heap.FreeTotal` | kernel/heap.c:130-139 | the sum of the free block sizes |
| `KernelHeap.Heap.Krealloc` | kernel/heap.c:108-128 | for every 32-bit size: of NULL it allocates (NULL back exactly if nothing fits, else the first block that fits); a block keeps its place if it is large enough; otherwise the new block starts with the old contents, the old one is freed, everybody else is untouched; failure leaves the old block as it was; the copy leaves the new block exactly if that is smaller than the old one, only for sizes above 0xFFFFFFF8 |
| `KernelHeap.CopyInside` | kernel/heap.c:108-128 | copying n bytes into the block taken stays inside it if and only if the block, split or not, has at least n bytes |
| `KernelHeap.ReallocOverruns` | kernel/heap.c:108-128 | a concrete heap and size where rounding up wraps to 0 and the block taken is smaller than the bytes copied into it |
| `Fat16Table.LinkThenFree` | fs/fat16.c:478-497 | linking free clusters and freeing them again restores the table |
| `Fat16Table.FreeFromOnlyFrees` | fs/fat16.c:179-192 | on any table at all, cyclic chains included, freeing a chain only turns entries free |
| `Fat16Table.FreeFromChain` | fs/fat16.c:179-192 | on a proper chain exactly its clusters become free |
| `Fat16Table.FreeCountUpdate` | fs/fat16.c:158-192 | changing one table entry moves the number of free clusters by the difference at that entry |
| `Fat16Volume.FatVolume.FatWrite` | fs/fat16.c:126-144 | every copy of the table gets the entry and all copies stay equal |
| `Fat16Volume.FatVolume.AllocCluster` | fs/fat16.c:158-177 | the lowest free cluster, marked last and zeroed; 0 exactly if none is free |
| `Fat16Volume.FatVolume.FreeChain` | fs/fat16.c:179-192 | ends on every table and frees what following the links from the first cluster reaches |
| `Fat16Volume.FatVolume.TakeChain` | fs/fat16.c:478-497 | succeeds exactly if so many clusters are free: a chain of formerly free clusters of the needed length; otherwise the table exactly as before |
| `Fat16Volume.FatVolume.FillChain` | fs/fat16.c:498-522 | the clusters of the chain spell the data, zero-padded; no other cluster changes |
| `Fat16Volume.FatVolume.WriteNewChain` | fs/fat16.c:468-525 | the data in a fresh chain with everything in use untouched, or nothing taken at all; it fails exactly if too few clusters are free |
| `Fat16Volume.FatVolume.ReadChain` | fs/fat16.c:652-672 | the first size bytes along the chain |
| `Fat16Names.RoundTrip` | fs/fat16.c:280-329 | an accepted name comes back in lower case, without a trailing dot |
| `Fat16Names.UsableNames` | fs/fat16.c:280-329 | an accepted name makes a slot that is neither free, deleted nor a dot entry, except "..." and names starting with byte 0xE5 or 0 |
| `Fat16Names.NameTo83` | fs/fat16.c:280-307 | accepts exactly the names of 1 to 8 clean bytes with at most 3 clean bytes of extension, and gives their 11-byte form |
| `Fat16Names.NameFrom83` | fs/fat16.c:309-329 | the shown form of a stored name |
| `Fat16Dir.SeekCluster` | fs/fat16.c:212-222 | the cluster holding a slot, refused exactly past the end of the chain |
| `Fat16Dir.ReadSlot` | fs/fat16.c:194-230 | the slot of that number, in the root area or along the chain; refused exactly past the end |
| `Fat16Dir.WriteSlot` | fs/fat16.c:232-268 | that slot holds the entry; refused exactly past the end |
| `Fat16Dir.SlotWrittenMeans` | fs/fat16.c:232-268 | after a slot write the directory lists the same entries but that one, and no storage outside the directory changed |
| `Fat16Dir.FindInDir` | fs/fat16.c:331-353 | finds the first visible slot showing the name among those before the first unused one; on an end-marked directory finds none exactly if none shows it |
| `Fat16Dir.FindFreeSlot` | fs/fat16.c:416-447 | a free slot of the unchanged directory, or the first slot of a zeroed cluster appended to it; refused exactly if no slot is free and it is the root, has 65536 slots, or no cluster is free |
| `Fat16Tree.SlotStep` | fs/fat16.c:232-268 | changing one slot consistently with the chains keeps chains of distinct entries disjoint, end-marked and owned once |
| `Fat16Tree.AddChain` | fs/fat16.c:468-525 | free clusters becoming a chain keeps the volume invariant |
| `Fat16Tree.DropChain` | fs/fat16.c:179-192 | freeing a chain nobody owns keeps the volume invariant |
| `Fat16Tree.ExtendDir` | fs/fat16.c:427-439 | a zeroed cluster appended to a directory keeps the volume invariant |
| `Fat16Tree.FormattedGood` | fs/fat16.c:527-561 | a formatted volume with an unused root satisfies the volume invariant |
| `Fat16.PathLookup` | fs/fat16.c:355-393 | the entry and slot the path leads to, component by component; absent exactly if some component is missing or not a directory |
| `Fat16.ReadFile` | fs/fat16.c:641-677 | succeeds exactly on a path to a file and returns its contents |
| `Fat16Write.UntakenGood` | fs/fat16.c:717-722 | a write that found no room leaves the table, every directory and every file as they were |
| `Fat16Write.SwapGood` | fs/fat16.c:723-802 | giving a slot another entry, or marking it deleted, and freeing the old chain keeps the volume invariant |
| `Fat16Write.WriteAt` | fs/fat16.c:717-735 | all or nothing, succeeding exactly if enough clusters are free: the file holds exactly the new bytes with every other entry and file kept and none added, or nothing changed |
| `Fat16Change.DirIsEmpty` | fs/fat16.c:449-466 | true exactly if the directory owns nothing: no visible slot but the dot entries |
| `Fat16Change.RemoveAt` | fs/fat16.c:798-802 | the slot is deleted and its chain free; every other entry and file is kept and none is added; the invariant holds |
| `Fat16Change.Unlink` | fs/fat16.c:784-803 | each error exactly when its cause holds, errors changing nothing; success removes the entry and frees its clusters |
| `Fat16Change.MakeRoom` | fs/fat16.c:416-447 | a free slot with every entry and file kept, or nothing changed; refused exactly if none is free and the directory cannot grow; it takes a cluster exactly if it grows |
| `Fat16Change.Furnish` | fs/fat16.c:762-780 | fails exactly if no cluster is free; else the new directory holds "." leading to itself, ".." leading to its parent, blank slots behind them, and nothing else |
| `Fat16Change.CreateIn` | fs/fat16.c:738-782 | succeeds exactly if the name is new, a slot can be found, and a directory still gets a cluster: the new empty file, or directory of "." and "..", is in its slot, everything else is kept and nothing else is new; failure: nothing visible changed |
| `Fat16Rename.WritesCommute` | fs/fat16.c:824-830 | writes to two different slots can be swapped |
| `Fat16Rename.ShiftDone` | fs/fat16.c:824-830 | copying an entry to its new slot and deleting the old one moves the file: same contents, everything else kept, invariant kept |
| `Fat16Stray.TouchedGood` | fs/fat16.c:817-830 | writing into a file's clusters, or lengthening its chain, keeps the volume invariant and every listing |
| `Fat16Stray.LostDone` | fs/fat16.c:817-830 | an entry copied among a file's bytes and deleted from its slot is owned by no slot any more; every other entry stays, and every file but the one written into |
| `Fat16Move.Move` | fs/fat16.c:817-830 | refused exactly if the scan meets the name or finds no slot; behind a directory the entry stands under its new name with the same file; behind a file, which the driver does not check, the entry is lost and the file's bytes are overwritten; the volume stays good |
| `Fat16Move.RenameRoot` | fs/fat16.c:805-831 | renaming the root to any new parent, which the driver does not refuse: accepted exactly if the parent takes the name; then the first root slot is overwritten by a deleted entry, and the catalog still fits if and only if the new parent is no directory, or is the root and its first slot was free; for the root no catalog fits otherwise |
| `Fat16Seek.WalkKept` | fs/fat16.c:355-393 | a walk that does not go through a changed slot leads to the directory it led to |
| `Fat16Seek.SeekWalk` | fs/fat16.c:355-393 | a path leads to the slot of its last name in the directory the rest of it leads to |
| `Fat16Seek.SeekSame` | fs/fat16.c:355-393 | if the owning slots, their names and the directories are the same, every path leads to the slot it led to |
| `Fat16Trace.ReplacedPaths` | fs/fat16.c:717-735 | after a file was rewritten every path leads where it led, and names are still unique |
| `Fat16Trace.FilledPath` | fs/fat16.c:738-782 | the path of a new entry leads to its slot |
| `Fat16Trace.FilledOthers` | fs/fat16.c:738-782 | a new entry changes where no found path leads |
| `Fat16Trace.RemovedPath` | fs/fat16.c:784-803 | the path of a removed entry leads nowhere |
| `Fat16Trace.MovedPath` | fs/fat16.c:805-831 | after a move into a directory the new path leads to the entry if and only if it does not go through the entry itself |
| `Fat16Trace.MovedAway` | fs/fat16.c:805-831 | after a move the old path leads nowhere |
| `Fat16Paths.Convert` | fs/fat16.c:374-378 | a path can be looked up exactly if each of its components is an 8.3 name |
| `Fat16Paths.ParentHead` | fs/fat16.c:395-414 | the directory the path without its last component leads to; none exactly if it leads nowhere or to a file |
| `Fat16Paths.Create` | fs/fat16.c:738-782 | succeeds exactly if the parent is a directory, the name is an 8.3 name new to it, and slot and clusters are left: the path leads to the new entry; otherwise nothing visible changed; names stay unique |
| `Fat16Paths.Reach` | fs/fat16.c:681-696 | the file is found, or created and then always found; failure leaves every entry and file |
| `Fat16Paths.WriteFile` | fs/fat16.c:679-736 | succeeds exactly if the file is there or can be created, enough clusters are left, and it is not an append that leaves it empty; then the path leads to a file holding the data, or the old contents followed by it, all else kept; on failure nothing visible changed, except that a file that could be created is there, empty |
| `Fat16Paths.Read` | fs/fat16.c:641-677 | succeeds exactly on a path to a file and returns its contents |
| `Fat16Paths.Remove` | fs/fat16.c:784-803 | succeeds exactly on a path to a file, or to a directory that owns nothing, as asked; then the path leads nowhere, and all else is kept |
| `Fat16Paths.Rename` | fs/fat16.c:805-831 | succeeds exactly if the old path is found and the new parent's clusters take the name; then the old path leads nowhere and the new one leads to the entry if and only if its parent is a directory outside the moved one; failure changes nothing |
| `Fat16Paths.RenameTop` | fs/fat16.c:805-831 | the same call with "/" as the old path: succeeds exactly if the new name is acceptable and the clusters of the new parent take it; then the first root slot is deleted, with the exact condition for the volume to stay consistent |
| `Fat16Lost.RenameLosesFile` | fs/fat16.c:805-831 | a concrete volume with files "a" and "b": renaming "/b" to "/a/c" succeeds, and then both paths lead nowhere and no entry owns the contents of "b" |
| `Fat16Run.FormattedTidy` | fs/fat16.c:527-561 | a formatted volume is good and has unique names |
| `Fat16Run.Replay` | fs/fat16.c:679-831 | every run of creates, writes, unlinks and renames by path, of any length and with any outcomes, keeps all copies of the table equal, the volume good and the names unique |
| `Fat16Paths.SizeBound` | fs/fat16.c:698-715 | with clusters of at most 32 KiB no file reaches 2 GiB |
| `Calendar.DateRoundTrip` | kernel/time.c:21-29 | every valid date comes back from its day number |
| `Calendar.DayRoundTrip` | shell/builtins.c:317-336 | every day number from 1 March of year 0 on is the day number of the valid date computed from it |
| `Calendar.YearOfDay` | shell/builtins.c:328-332 | a day of the 400-year era falls in exactly the year the nested divisions compute |
| `Calendar.CountDays` | fs/fat16.c:599-605 | the year and month loops count the days of all earlier years and months |
| `Calendar.CountIsCivil` | fs/fat16.c:568-609 | for every date from 1970 on the loops and days_from_civil give the same day number |
| `FdTable.OverlayBytes` | arch/i386/syscall.c:58-96 | after a write each byte is the new one, else the old one, else zero in a gap |
| `FdTable.WritesConcatenate` | arch/i386/syscall.c:58-96 | two writes in a row are one write of both |
| `FdTable.ReadsConcatenate` | arch/i386/syscall.c:121-157 | two reads in a row are one read of both lengths |
| `FdTable.WriteThenRead` | arch/i386/syscall.c:58-157 | reading at the offset of a write returns what was written |
| `FdTable.DescriptorsIndependent` | arch/i386/syscall.c:46-157 | in every interleaving, opens and closes of other descriptors included, an open descriptor behaves as if it were alone |
| `FdTable.SessionCommits` | arch/i386/syscall.c:163-281 | open, any run that leaves the descriptor open, close: the file then holds exactly the edits made through it since it was opened, whatever others opened, wrote and closed meanwhile on the same path |
| `FdTable.FileStays` | arch/i386/syscall.c:266-281 | a file changes only when a writer of its path is closed |
| `FdTable.LastCloseDecides` | arch/i386/syscall.c:163-281 | of all descriptors on one path the one closed last decides: after any further run without such a close the file holds the edits made through it |
| `FdTable.Table.WriteFd` | arch/i386/syscall.c:58-96 | the bytes are overlaid at the offset, which moves behind them; errors change nothing |
| `FdTable.Table.ReadFd` | arch/i386/syscall.c:121-157 | the bytes from the offset, at most as many as asked for, and the offset moves behind them |
| `FdTable.Table.SeekFd` | arch/i386/syscall.c:282-309 | the offset moves to the sum if it is not negative, otherwise nothing changes |
| `FdTable.Table.LowestFree` | arch/i386/syscall.c:178-188 | the lowest free descriptor, never 0 to 2 |
| `FdTable.Table.OpenFd` | arch/i386/syscall.c:163-265 | EMFILE exactly if all descriptors are in use, ENOENT exactly if the path is missing and is not to be created, EISDIR exactly for a directory, EACCES exactly if access is refused, the error of creation exactly if that failed; success fills the lowest free slot with the file contents (or none, when truncating), offset at the end when appending |
| `FdTable.Table.CloseFd` | arch/i386/syscall.c:266-281 | EBADF exactly for a descriptor not in use; otherwise the slot is free again and a writable file holds exactly the bytes of the descriptor unless the write failed, whose error is returned |
| `Scheduler.StepKeeps` | kernel/task.c:44-156 | every create, yield, exit and kill keeps at most the current task running and never shortens the list |
| `Scheduler.ZombieNeverRuns` | kernel/task.c:82-156 | over every run in which the main task does not exit: it stays able to run, a zombie stays a zombie, and a zombie is current afterwards exactly if it was before and nobody yielded |
| `Scheduler.ZombieStays` | kernel/task.c:82-156 | over every run, the main task exiting or not, a zombie that is not current stays a zombie and never becomes current |
| `Scheduler.ZombieLeaves` | kernel/task.c:109-116 | a task that has just exited gives the processor up at its first yield |
| `Scheduler.YieldCloser` | kernel/task.c:94-107 | a yield brings the current task closer to every ready task without passing it |
| `Scheduler.BoundedWait` | kernel/task.c:44-116 | a ready task nobody kills runs once there were as many yields as its hop distance, plus one for each task created meanwhile |
| `Scheduler.Scheduler.Create` | kernel/task.c:44-80 | the new task joins the cycle behind the last one; the list stays one cycle |
| `Scheduler.Scheduler.NextReady` | kernel/task.c:82-92 | the first runnable task after the current one around the cycle, or the current one if there is no other |
| `Scheduler.Scheduler.YieldNow` | kernel/task.c:94-107 | the heap of linked tasks takes exactly the abstract yield step; the list stays one cycle |
| `Scheduler.Scheduler.Exit` | kernel/task.c:109-116 | the current task becomes a zombie and, if it is not the main one, another task is current; the list stays one cycle |
| `Scheduler.Scheduler.Kill` | kernel/task.c:145-156 | succeeds exactly on an existing task other than the main one, which becomes a zombie; otherwise nothing changes |
| `EditorText.FlatInjective` | editor/editor.c:142-155 | the saved bytes determine the lines |
| `EditorText.LoadedOk` | editor/editor.c:104-140 | whatever a file holds, the loaded text has 1 to 512 lines of at most 255 bytes |
| `EditorText.SaveThenLoad` | editor/editor.c:104-169 | saving and loading a text gives it back if and only if it is not 512 lines long with an empty last line |
| `EditorText.LoadThenSave` | editor/editor.c:104-169 | loading and saving a file leaves it unchanged if and only if it ends with a newline, has at most 512 lines of at most 255 bytes, no NUL byte, and not 512 lines with the last one empty |
| `EditorText.LoadFile` | editor/editor.c:121-138 | the loop cuts the file at its newlines, at most 512 lines, each cut to 255 bytes and at its first NUL |
| `EditorText.JoinLines` | editor/editor.c:142-155 | the bytes written are the lines in order, each followed by a newline |
| `EditorFlat.CutInLine` | editor/editor.c:260-281 | closing a gap inside a line takes exactly those bytes out of the file text |
| `EditorFlat.LineAdded` | editor/editor.c:331-356 | a line pushed into the array is its bytes and a newline put into the file text |
| `EditorFlat.LineBroken` | editor/editor.c:243-258 | splitting a line puts one newline into the file text at the cursor |
| `EditorFlat.LinesJoined` | editor/editor.c:260-301 | joining two lines takes exactly the newline between them out of the file text |
| `EditorFlat.LinesSpaced` | editor/editor.c:621-634 | the J command turns exactly one newline of the file text into a blank |
| `EditorFlat.SpotIsFlat` | editor/editor.c:15-36 | file text and cursor offset determine the lines and the cursor |
| `EditorKeys.SessionRecorded` | editor/editor.c:77-100 | throughout an insert session the undo buffer holds text and cursor from before the command that opened it |
| `EditorKeys.UndoRestores` | editor/editor.c:77-100 | for every key sequence: if a command and the insert session it opened changed the text, u right after restores text and cursor exactly |
| `EditorKeys.QuitSaved` | editor/editor.c:428-452 | for every key sequence: the editor is left only with a text that was loaded from, or written to, the file, unless the last key was Enter on q! |
| `Editor.Strstr` | editor/editor.c:396-424 | the first match at or after the position, none exactly if there is none |
| `Editor.ParseNumber` | editor/editor.c:443-449 | the decimal value of a string of digits modulo 2^32, refused exactly if it is empty or holds anything else |
| `Editor.Editor.InsertNewline` | editor/editor.c:243-258 | one newline enters the file text at the cursor; a text of 512 lines stays as it is |
| `Editor.Editor.BackspaceChar` | editor/editor.c:260-281 | the byte before the cursor leaves the file text, be it a newline, unless the joined line would not fit |
| `Editor.Editor.DeleteFwd` | editor/editor.c:283-301 | the byte at the cursor leaves the file text, be it a newline, unless the joined line would not fit |
| `Editor.Editor.DeleteLine` | editor/editor.c:303-312 | the line and its newline leave the file text; an only line is emptied instead |
| `Editor.Editor.DoUndo` | editor/editor.c:89-100 | text and cursor are those recorded, and the record is used up; without a record nothing changes |
| `Editor.Editor.SaveFile` | editor/editor.c:142-169 | the file holds the text and the dirty mark is cleared, or neither changes |
| `Editor.Editor.SearchFirst` | editor/editor.c:415-424 | the cursor lands on the first match from the start of the current line on, downwards and around; not moved exactly if no line matches |
| `Editor.Editor.SearchNext` | editor/editor.c:396-413 | the cursor lands on the first match behind it, downwards and around; not moved exactly if no line matches |
| `Editor.Editor.SearchBack` | editor/editor.c:642-658 | the cursor lands on the last match before it, upwards and around; not moved exactly if no other line matches and nothing before it in its own |
| `Editor.Editor.HandleInsert` | editor/editor.c:674-710 | each key changes the file text as an insertion or deletion at the cursor offset; bounds, undo record and dirty mark are kept |
| `Editor.Editor.HandleNormal` | editor/editor.c:456-672 | each command changes the file text as its meaning on flat text says, records the state before it whenever it changes text or opens insert mode, and keeps all bounds |
| `Editor.Editor.ExecCmd` | editor/editor.c:428-452 | w, wq, x and wq! write the text exactly if the write succeeds; q quits exactly if the text is unchanged, wq, x and wq! exactly if the write succeeds, q! always; a number moves to that line exactly if it exists |
| `Editor.Editor.HandleCommand` | editor/editor.c:712-728 | the command line is edited or executed; the text never changes |
| `Editor.Editor.HandleSearch` | editor/editor.c:730-751 | the search line is edited or executed; the text never changes |
| `Editor.Editor.Loop` | editor/editor.c:763-772 | for every sequence of keys and write outcomes every state keeps 1 to 512 lines of at most 255 bytes and a cursor inside the text; the editor is left only with the text in the file, unless the last key was Enter on q! |

## Left out

- Disk errors: EXT2 and FAT16 transfers succeed, so the -EIO paths are not modelled; only `Ext2Cache` models failing reads.
- Crash ordering and partial block writes: there is no journal to reason about.
- EXT2 block sizes other than 1024, doubly-indirect blocks (the driver refuses them), timestamps, owners and the mounted flag.
- EXT2 on-disk encoding of inodes, bitmaps and group descriptors: the inode table and descriptors are typed records; directory and data blocks are bytes.
- EXT2 image builder: it numbers block bits from block 0 where the driver numbers them from the first data block, so counters are stated as a constant difference and not as equal to the number of clear bits.
- kmalloc failure inside EXT2, FAT16 and the editor: it succeeds, except kmalloc(0), which makes appending nothing to an empty file fail.
- Ext2Volume.Volume.ReadBlock: EXT2 operations read blocks directly; that the cache between them and the disk is transparent is proved separately in `Ext2Cache`. What a metadata block holds is not modelled, so a read of one, as through a fast symlink taken for pointers, may give any bytes.
- Ext2Volume.Volume.WriteBlock: called for blocks that are not metadata, as the operations do; superblock, descriptors, bitmaps and inode table are written by their own code.
- Ext2Cache.BlockCache.Flush: the order of eviction after a flush is not claimed, because the slots keep their ages while the global counter restarts; ages are unbounded here.
- Ext2Symlink.Symlink: when naming a fast link fails, the final volume is described relative to the one just before the text words are freed, with the exact condition for it to be intact.
- Ext2Symlink.ReadLink: fast links are taken to be at most 60 bytes long, as ext2_symlink makes them.
- Ext2Run.Replay: short symlinks whose packed text is the number of a block of the volume are excluded; removing such a link is the counterexample `Ext2FastLink.FastLinkTakesBlock`.
- VfsMount.MountTable.Add: mount points are not truncated to their buffer; the operation table is a number.
- Vfs.ResolvePath: a candidate path of 256 bytes or more ends the model with `Overrun`, where the original copies into 256-byte buffers.
- The other vfs_* entry points (stat, chmod, chown and the permission checks around each call) and ext2_readdir: thin wrappers around what is modelled.
- FAT16 transfers whole clusters instead of sectors, the table has 65536 entries, and the cluster count is at most 0xFFF8 as the mount code assumes without checking.
- FAT16 names that make unusable slots ("..." and names starting with byte 0xE5 or 0) are excluded from every operation; `Fat16Names.UsableNames` says these are the only ones. Long-name and volume-label entries are not interpreted.
- Fat16Paths.Rename: the old path is not the root; `Fat16Paths.RenameTop` is that call. Paths are lists of components, so their cutting at 255 bytes is not modelled.
- Fat16Paths.WriteFile: clusters of at most 32 KiB and data below 2 GiB.
- Fat16Run.Replay: that every cluster in use belongs to an entry is not claimed; a rename behind a file leaves a chain nobody owns.
- FAT16 timestamps, free-space totals and fat16_stat.
- KernelHeap.Heap.Kfree: called with NULL or a live pointer, as its callers do; padding bytes of a header are written as zero.
- KernelHeap.Heap.Krealloc: where the copy would leave the new block the model stops before it and says so; what the copy overwrites is not described.
- FdTable.Table.OpenFd: the filesystem is a map from paths to contents; permissions, creation and write results are parameters, and errors of path resolution other than a missing file are left out; offsets are unbounded; paths are not cut at 255 bytes; terminal input and output on descriptors 0 to 2 are left out.
- Scheduler.Scheduler.Create: stacks, context switches and memory for new tasks are left out; task numbers do not wrap; the main task never exits.
- Calendar.DateRoundTrip: day numbers and years are unbounded integers, so 32-bit overflow in the far future is not modelled.
- Editor.Editor.MoveCursor: for cursor keys only that the cursor stays inside the text is stated, not where it goes.
- Editor.Editor.HandleNormal: for commands that change text the new text is exact and the cursor is stated to be inside it, not where.
- Editor.Editor.SaveFile: a failed write is taken to leave the file as it was; the filesystem's own behaviour on failure is the subject of the EXT2 and FAT16 parts.
- Editor.Editor.Loop: the editor keeps its path in 127 bytes (editor/editor.c:113) while it loads by the whole path, so for longer paths the file written is another one than the file loaded; the model has one file.
- Editor screen drawing and messages.
- Hardware drivers, interrupts, paging, ELF loading, Multiboot, the shell and the user programs: hardware access or little logic of their own.
