# A verified model of a userspace ext4 writer

The repository writes an ext2/3/4 filesystem in userspace and promises that
every write leaves the structures a filesystem checker looks at in step. This
project models the five layers that carry the promise and proves what they rest
on, each layer's loops against a simpler specification and the specification's
own properties as lemmas:

* **Directories.** A block's chain of records is edited in place as bytes
  (`DirBlock`, `DirEntries`); a directory is a list of such blocks or a tree over
  leaves sorted by hash (`HashIndex`, `IndexSearch`, `Directories`,
  `DirectoryIndex`, `FreshDirectory`, `DotDot`). Over every run of additions,
  removals and rebuilds it is what a plain map from names to inodes would be,
  and so are the blocks its inode owns on the device (`DirectoryDisk`).
* **Block maps.** A list of blocks becomes pointers or extents and comes back
  (`BlockWalk`, `IndirectMap`, `PointerMap`, `Extents`, `ExtentTree`, `BlockMap`,
  `MapWriter`, `Resolve`), and how many free blocks are enough for it to be
  written (`MapCost`).
* **Allocation.** Bitmaps behind a cache, group and superblock counters, and a
  search that wraps around (`Bitmaps`, `Allocation`, `Allocators`,
  `AllocatorRuns`, `MapSpace`). Over every run of requests it answers as a plain
  set of blocks and one of inodes would.
* **Files and names.** Who owns each block while files are written, streamed,
  truncated, made and removed (`Ownership`, `FileContents`, `FileData`,
  `FileStream`, `Lifecycle`, `VolumeRuns`); and the tree of names with its link
  counts (`Namespace`, `NameOps`, `VolumeNames`, `NameVolume`, `Removal`,
  `NameRuns`). What a run of operations on names asks of each directory brings
  its blocks to the names the tree has there (`DirectoryTrace`).
* **Archives.** Tar headers, PAX records, the stream writer and reader
  (`TarText`, `TarPath`, `TarPax`, `TarHeader`, `TarDecode`, `TarStream`,
  `TarReader`, `TarRoundTrip`, `TarConsumer`), the explicit-stack walk that packs
  a tree and the loop that unpacks one (`ArchiveWalk`, `ArchivePack`,
  `ArchiveUnpack`, `ArchiveWhiteouts`, `ArchiveCopy`, `ArchiveMirror`,
  `ArchiveStream`, `ArchiveTar`), with what any archive, as a layer or not, leaves
  to be seen over whatever was there (`ArchiveLayers`) and what one needs of the
  disk to be unpacked whole (`ArchiveNeeds`, `ArchiveSupply`).

The tree of names asks the disk for what it cannot know: an inode, blocks for
contents, a place for one more name in a directory, and which names that
directory's index then hides (`DiskAnswers`). Any of them may be refused, but
only where the free inodes, the free blocks, the sizes of the maps or the number
of names do not suffice. `NamedDisk` puts the two together: every directory of the
tree is what the blocks of its inode hold, and while names are added, taken out and
moved, directories made and files written on the disk, they stay so and the disk's
answers are the tree's. An inode by itself is `Lifecycle.CreateInode`'s, a long
link's block `Lifecycle.MakeSymlink`'s.

Objects whose methods change their fields are classes (`Allocators.Allocator`,
`FileData.Volume`, `DirectoryIndex.Directory`, `NameVolume.Volume`,
`TarStream.Writer`, `TarReader.Reader`); byte buffers are arrays; everything else
is values. `dafny verify dfyconfig.toml` checks the whole project.

The dependency that decodes the on-disk structures is not part of this model;
small definitions of what the code uses of it stand in for it: record lengths,
the search of an index block, the shape of extent nodes, the walk of a block map
(`DirBlock.RecLen`, `DirBlock.Decode`, `HashIndex.FindLast`,
`HashIndex.IndexLimit`, `ExtentTree.MaxEntries`, `BlockMap.WalkMap`). The
directory hash is any function whose low bit is clear.

Some things one might expect turn out not to hold of the code. For each the
condition under which they do hold is proved exactly, with a case that fails:

* A two-level index can hide names: a search stops at the end of one interior
  node, so a run of equal hashes that crosses into the next node is cut short.
  Every name is found if and only if no interior node but the first begins with
  a leaf that carries a run on (`IndexSearch.CompleteExactly`, and of a directory
  just rebuilt `FreshDirectory.FreshSeesExactly`); 384 long names on one hash
  are not all found again after any rebuild (`FreshDirectory.RebuildHides`), and
  a run of additions builds such a directory (`FreshDirectory.LongDirectory`).
* A name an index hides cannot be taken out: removing it, or anything it is
  under, answers that it is not there. Removal, of one name or of everything
  under a path, succeeds if and only if nothing it meets is hidden
  (`NameVolume.Volume.Remove`, `NameVolume.Volume.RmDir`, `Removal.RemoveAll`,
  `ArchiveWhiteouts.EmptyOut`).
* A directory under an index cannot be given another parent where blocks end in a
  checksum: the walk to its ".." stops short of a record as long as the whole
  block. That is the one case in which the walk fails (`DotDot.RootWalk`,
  `DotDot.Repoint`, `DotDot.StuckExample`). A rename of such a directory to
  another parent fails with both names moved and its ".." and both parents' links
  as they were, which is no tree; a rename succeeds if and only if, besides, it is
  not of that kind (`NameVolume.Volume.Mv`, `NameVolume.HalfwayIs`,
  `NameRuns.StuckRename`).
* An operation that fails may leave no tree. A creation leaves an inode without a
  name if and only if an inode was handed out before it failed, and a rename
  leaves two names if and only if the old one is hidden when its turn comes
  (`NameVolume.Volume.CreateNode`, `NameVolume.Volume.MkDir`,
  `NameVolume.Volume.Mv`, `NameVolume.Nameless`, `NameVolume.SecondName`).
  Removals leave a tree, wherever they stop.
* The search for an ancestor gives up after 4096 levels, so a directory can be
  moved that far down inside itself. A rename that succeeds leaves a tree if and
  only if its two paths are not of that kind (`NameRuns.RenameExactly`,
  `NameRuns.Run`, `NameRuns.DeepRename`).
* Rewriting a file counts its sectors without its attribute block. Which inodes
  record too few after any run of operations is worked out from the operations
  alone, both ways (`VolumeRuns.Run`, `VolumeRuns.TalliedExactly`); a volume of
  four blocks shows it (`VolumeRuns.CountGoesWrong`).
* Rewriting a file with holes writes over block 0 if and only if one of the
  blocks it keeps is a hole (`FileData.PutContents`, `Lifecycle.HoleFirst`).
* Writing to a path leaves a regular file with the data if and only if there was
  nothing or a regular file there; a link, a device or a FIFO stays one
  (`NameVolume.WriteEffect`, `NameRuns.FifoStays`).
* A link longer than 188 bytes under a path of at most 100 spills into the
  header's prefix field. The path comes back changed unless what spills is any
  number of "./" followed by one dot or by nothing but slashes
  (`TarDecode.PathSurvives`, `TarDecode.LongLinkSpoilsPath`).

## Model

| member | source | states |
|---|---|---|
| DirBlock.InsertIntoBlock | src/dir.rs:44-94 | edits the block's bytes so that its records, still tiling it exactly, are those before with the entry placed in the first with room; false, and nothing changed, when none has room; bytes behind the limit stay |
| DirBlock.WriteEntry | src/dir.rs:97-106 | the bytes of the whole record and no other byte |
| DirBlock.RemoveFromBlock | src/dir.rs:113-146 | gives the inode of the first record with the name and leaves the records with that one folded into the one before; nothing changes when no record has it |
| DirEntries.InsertAddsOne | src/dir.rs:44-94 | exactly one live entry more, every other where it was in order, the same span tiled |
| DirEntries.InsertRefused | src/dir.rs:44-94 | refused if and only if every record's slack is less than the name needs |
| DirEntries.RemoveDropsOne | src/dir.rs:113-146 | exactly the one live entry fewer, the same span tiled |
| DirEntries.ReinsertFits | src/dir.rs:113-146 | a name no longer than one just removed always fits again |
| DirEntries.BuildLists | src/dir.rs:162-175 | a block built of entries lists exactly those, in order, and its records tile it |
| DirEntries.EmptyBlock | src/dir.rs:149-159 | a fresh block's records tile it and list nothing |
| DirEntries.EmptyUntilNamed | src/dir.rs:178-182 | a new directory is empty, and is so after an insertion if and only if the name put in is one of the two dots |
| HashIndex.SortSorts | src/index.rs:240-245 | the same names, ordered by hash, minor hash and name |
| HashIndex.OneOrder | src/index.rs:240-245 | there is one such order, so a rebuild has one result |
| HashIndex.PackLeaves | src/index.rs:401-458 | cuts the sorted names, in order, into leaves that each fit, are left off only where the slack or the next name demands it, and are stored under their first hash with the low bit set exactly where a run carries on; an error if and only if a name is too long for a block |
| HashIndex.OnePacking | src/index.rs:401-458 | that is the only such way to cut them, so a rebuild has one size |
| HashIndex.FlatComplete | src/index.rs:401-458 | every name with hash h lies in the run from the last stored hash at most h through the following odd ones |
| HashIndex.StoredRise | src/index.rs:401-458 | the stored hashes never fall |
| HashIndex.PlanHolds | src/index.rs:472-501 | refused if and only if one level of nodes cannot hold the leaves; else no node is empty, none passes its block's limit, and together they cover every leaf |
| HashIndex.FillNode | src/index.rs:283-302 | the block's entries are the leaves' hashes and places, the first entry's hash 0, within the block's limit |
| HashIndex.BuildIndex | src/index.rs:273-314 | root and nodes partition the leaves between them as planned |
| IndexSearch.TwoLevelIsFlat | src/index.rs:156-176 | descending through the root and one node finds the leaf one search over all leaf hashes finds |
| IndexSearch.ReadRun | src/index.rs:175-191 | the leaf found and all that carry its run on, up to the first that does not or the end of the entries |
| IndexSearch.LeafRun | src/index.rs:137-191 | exactly the leaves in the run of the hash and in the node descended into, in order |
| IndexSearch.WholeRun | src/index.rs:137-191 | the whole run is reached when interior nodes begin runs of their own |
| IndexSearch.HiddenNames | src/index.rs:178-189 | a node that begins inside a run hides that leaf's names |
| IndexSearch.CompleteExactly | src/index.rs:137-191 | every stored name is reached by its own hash if and only if no node but the first begins inside a run; a flat index always reaches all |
| IndexSearch.OneHashHides | src/index.rs:178-189 | names all of one hash over more than one node are never all found |
| IndexSearch.LongPacked | src/index.rs:401-501 | 384 names of 255 bytes on one hash in 1024-byte blocks fill 128 leaves in whatever order, over two nodes |
| IndexSearch.HiddenExample | src/index.rs:178-189 | a concrete list of such names, those in the last leaf unreachable |
| IndexSearch.LongNamesDiffer | src/index.rs:178-189 | the names of that case are all different |
| Directories.PutInto | src/dir.rs:44-94 | a block gains exactly the entry; refused exactly when no record has room |
| Directories.TakeFrom | src/dir.rs:113-146 | a block loses exactly one entry of the name; nothing exactly when none has it |
| Directories.BlockAddsOne | src/index.rs:65-126 | one entry more or fewer in one block is one more or fewer in the directory |
| Directories.GainsOne | src/index.rs:65-101 | the directory's contents gain the name, its parent stays, names stay distinct |
| Directories.LosesOne | src/index.rs:103-126 | the directory's contents lose the name and have no other of it |
| DirectoryIndex.BuildLeaves | src/index.rs:266-268 | each leaf's block lists its names |
| DirectoryIndex.AssembledTreed | src/index.rs:250-317 | root, leaves and nodes in place form a tree in which every name is in a leaf of its own hash's run |
| DirectoryIndex.Gather | src/index.rs:213-238 | the names there but for the dots, each with the hash of its own name |
| DirectoryIndex.BuildDirectory | src/index.rs:204-317 | the blocks built hold the same entries, distinct, the same parent, every name home, each leaf's names in its block; refused if and only if the sorted names pack into more leaves than a root and one level of nodes hold |
| DirectoryIndex.SortedOneWay | src/index.rs:240-245 | however a directory's entries are listed, they sort one way |
| DirectoryIndex.TooLargeIs | src/index.rs:472-501 | so whether an index is too large is a property of the set of entries, told by any listing of them |
| FreshDirectory.FewFit | src/index.rs:472-501 | as many entries as a root and its nodes have places for leaves are never too many, whatever their names |
| FreshDirectory.FreshBlocks | src/index.rs:472-501 | a directory just rebuilt has at most one block more than twice its entries, or two where it has none |
| FreshDirectory.FreshSeesExactly | src/index.rs:127-317 | a directory just rebuilt finds every entry it has if and only if no interior node but the first begins inside a run |
| FreshDirectory.RebuildHides | src/index.rs:127-317 | rebuilding any directory of 384 entries with 255-byte names on one hash, in 1024-byte blocks, succeeds, loses none and leaves one no search finds |
| FreshDirectory.LongDirectory | src/index.rs:65-317 | a run of 384 additions to a new directory builds such a directory, so the case comes up |
| DirectoryIndex.LeafHomes | src/index.rs:137-191 | under an index every stored name lies in a leaf of its own hash's run |
| DirectoryIndex.NotThere | src/index.rs:137-191 | a name in none of its run's blocks is nowhere in the directory |
| DirectoryIndex.Directory.constructor | src/dir.rs:162-175 | a new directory, of the one block of its two dots, is sound, empty and has the parent given |
| DirectoryIndex.NewSound | src/dir.rs:162-175 | one block built of the two dots is a sound list of no entries under that parent |
| DirectoryIndex.SeenKept | src/index.rs:65-126 | an edit of one block that keeps its entries of a name leaves that name found or not as it was |
| DirectoryIndex.Directory.FindRun | src/index.rs:128-191 | exactly the blocks of the leaves reached, and the whole run of the hash where every name can be found |
| DirectoryIndex.Directory.Rebuild | src/index.rs:204-317 | given the blocks to write it to: the same entries, one more if asked for, newly indexed; an error leaves everything, and says the name is there exactly when it is, or that the index is too large exactly when the entries need more leaves than fit |
| DirectoryIndex.Directory.Link | src/index.rs:65-101 | given the blocks it needs: the directory gains exactly the name, whichever way it is kept, by one block edited, one added or all laid out anew; refused if and only if it is not a name, or no record has room where it would go and the index it needs is too large; an error changes nothing; an edited index finds what it found, and the name |
| DirectoryIndex.Directory.Grow | src/volume.rs:1686-1714 | given one more block: a list with no room anywhere gains a block with the name |
| DirectoryIndex.Directory.Unlink | src/index.rs:103-126 | succeeds if and only if a block searched has the name, and loses exactly the entry whose inode is returned, in one block; every other name is found if and only if it was; not found changes nothing, and means the name is not there wherever every name can be found |
| DirectoryIndex.Directory.Lookup | src/index.rs:128-191 | finds an entry of the name if and only if a block searched has one; wherever every name can be found, a miss means there is none |
| DirectoryIndex.Do | src/index.rs:65-126 | one operation keeps the directory in agreement with a plain map, and when it succeeds, given the blocks it needs, is said exactly |
| DirectoryIndex.RunOps | src/index.rs:65-317 | after any run of additions, removals and rebuilds the directory is what the map would be; a run of additions of proper names and rebuilds none of which is too large succeeds, given the blocks it needs |
| DirectoryIndex.RunThenLookup | src/index.rs:65-317 | looking any name up after such a run finds what the map has exactly when a block searched has it, and so gives what the map gives where every name can be found |
| DotDot.RepointInBlock | src/volume.rs:731-757 | of any bytes, what a walk from record to record comes to: the first named ".." points at the new parent by four bytes, the rest as they were; an error or none found changes nothing; a block of records always has its answer and keeps its other records |
| DotDot.RootWalk | src/volume.rs:738-755 | over the root of an index the walk fails where blocks end in a checksum, since its ".." is as long as the block, and otherwise comes to the ".." |
| DotDot.RepointMeans | src/volume.rs:731-757 | a block so changed names the new parent and lists the same entries |
| DotDot.Repoint | src/volume.rs:731-757 | fails, and changes nothing, if and only if the directory is under an index and blocks end in a checksum; otherwise it has the new parent by four bytes of one block, the same entries, and every name is found if and only if it was; nothing changes where no block has a ".." |
| DotDot.StuckExample | src/volume.rs:731-757 | with checksums, a new directory whose first name goes into an index cannot be given any other parent |
| Bitmaps.SetBitMarks | src/alloc.rs:87-177 | a bit set or cleared marks or unmarks exactly one unit |
| Bitmaps.FreeUpToGroup | src/alloc.rs:18-71 | clear bits, summed over groups, are the units not marked |
| Allocation.WrapReaches | src/alloc.rs:87-133 | wrapping reaches every group from any start |
| Allocation.BlockOrderComplete | src/alloc.rs:87-133 | a search from any goal visits every block |
| Allocators.LoadCurrent | src/alloc.rs:50-71 | reading a bitmap into the cache changes no bitmap |
| Allocators.MarkCurrent | src/alloc.rs:87-177 | a bit set in the cache is set in the bitmaps as they stand |
| Allocators.MarkBlockKeeps | src/alloc.rs:87-177 | marking a block keeps group counts equal to clear bits and totals to their sums, and no subtraction saturates |
| Allocators.MarkInodeKeeps | src/alloc.rs:180-269 | so does marking an inode; directory tallies and the unused tail of each table stay true |
| Allocators.GroupHit | src/alloc.rs:87-133 | the first clear bit of a group is the first free unit of the search |
| Allocators.Allocator.LoadBlockBitmap | src/alloc.rs:50-61 | the cached bitmap is the group's as it stands |
| Allocators.Allocator.MarkBlock | src/alloc.rs:87-177 | the block taken or given back and nothing else but the counts |
| Allocators.Allocator.TryGroup | src/alloc.rs:87-133 | takes the group's first free block in order, or leaves the search to go on |
| Allocators.Allocator.AllocBlock | src/alloc.rs:74-133 | the first free block in wrap order from the goal, taken; no space exactly when that order has none |
| Allocators.Allocator.AllocBlocks | src/alloc.rs:135-149 | as many distinct, previously free blocks as asked for; failing only with every block in use |
| Allocators.Allocator.FreeBlock | src/alloc.rs:152-177 | gives the block back if it was in use and otherwise changes nothing |
| Allocators.Allocator.FindInode | src/alloc.rs:180-237 | the first clear bit of a group past the reserved inodes |
| Allocators.Allocator.AllocInode | src/alloc.rs:180-237 | the first inode in order neither reserved nor in use |
| Allocators.Allocator.FreeInode | src/alloc.rs:240-269 | gives the inode back if it was in use, with its directory tally |
| Allocators.Allocator.Flush | src/alloc.rs:271-304 | the device's bitmaps become those that stand, nothing is dirty, and no bitmap or counter changes |
| Allocators.NoSpaceExactly | src/alloc.rs:74-133 | no space if and only if every block is in use |
| Allocators.NoInodesExactly | src/alloc.rs:180-237 | no inodes if and only if every inode that is not reserved is in use |
| Allocators.WrittenBackCurrent | src/alloc.rs:271-304 | after writing back, each bitmap on the device is the one that stood |
| Allocators.TotalsCountFree | src/alloc.rs:18-71 | the superblock's totals are the numbers of free blocks and inodes |
| AllocatorRuns.Do | src/alloc.rs:74-304 | one request is answered, and leaves in use, what plain sets of blocks, inodes and directories would |
| AllocatorRuns.Run | src/alloc.rs:18-304 | over every run of allocating, freeing and flushing each answer is the sets' answer, and at the end bitmaps, counters and device hold those sets and count what is not in them |
| MapSpace.TakeBlock | src/alloc.rs:74-133 | one free block, or none is free at all |
| MapSpace.FullMeansZero | src/alloc.rs:74-133 | a failed search means a free count of zero |
| MapSpace.OnceEach | src/volume.rs:1172-1210 | distinct blocks written one after another and spared from then on were written once each |
| MapCost.MapSizeRises | src/map.rs:237-355 | the map of a longer list never has fewer blocks |
| IndirectMap.WriteSingle | src/map.rs:237-355 | a fresh block of pointers under which the walk lists exactly the chunk |
| IndirectMap.WriteDouble | src/map.rs:237-355 | a tree that lists as much of the list as a double level reaches, in exactly the counted blocks |
| IndirectMap.WriteTriple | src/map.rs:237-355 | the same of a triple level |
| PointerMap.Levels | src/map.rs:237-355 | where each level of indirection starts and stops |
| PointerMap.WriteIndirectMap | src/map.rs:237-355 | on success a map listing exactly the list, its own blocks fresh, distinct and counted; otherwise the reason |
| PointerMap.WriteDeep | src/map.rs:237-355 | the same from the double level on, over the single level already built |
| PointerMap.OutcomeExactly | src/map.rs:237-355 | success, too large (beyond 12 + p + p² + p³ blocks) and no space are each settled by the list's length and the free blocks alone |
| BlockMap.MapFrame | src/map.rs:28-61 | a map reads only its own blocks |
| BlockMap.ReadBlockList | src/map.rs:28-46 | the blocks walked, each at its logical place, holes between |
| BlockMap.MapMetadataBlocks | src/map.rs:49-61 | the map's own blocks in walking order |
| BlockMap.PlaceListed | src/map.rs:28-46 | reading back what a list was mapped as gives the list without trailing holes |
| Resolve.ResolveIsListed | src/map.rs:237-355 | following pointers to a logical block finds exactly what the walk lists there |
| Resolve.PointersResolve | src/map.rs:237-355 | a pointer map that lists a list resolves every logical block to the list's, and a hole past its end |
| Resolve.OutcomeResolves | src/map.rs:237-355 | the map of pointers the writer leaves does |
| Resolve.ExtentsResolve | src/map.rs:64-89 | so do the extents of a list |
| Resolve.TreeResolves | src/map.rs:117-199 | so does the tree of extents, searched root then leaf |
| Resolve.ExtentsForResolves | src/map.rs:117-199 | the map of extents the writer leaves does |
| Extents.ToExtents | src/map.rs:64-89 | extents that place exactly the list's blocks, ordered, disjoint, within the cap, each stopping only where its run or the cap does |
| Extents.PlacedByExtents | src/map.rs:64-89 | the walk places a block exactly when an extent covers it |
| Extents.FewestExtents | src/map.rs:64-89 | no list of capped extents for the same blocks is shorter |
| Extents.Owners | src/map.rs:64-89 | each greedy extent's first block needs a different extent of any other list |
| ExtentTree.TailFits | src/map.rs:201-233 | for every power-of-two block size the checksum tail fits behind the last entry, with less than an entry to spare |
| ExtentTree.ResolveInMeans | src/map.rs:117-199 | a search of ordered extents finds each placed block and a hole elsewhere |
| ExtentTree.TwoStepSearch | src/map.rs:117-199 | searching the root and one leaf is searching all extents |
| MapWriter.FillLeaves | src/map.rs:117-199 | every leaf holds the next extents, as many as fit, under the index that starts where they do |
| MapWriter.WriteExtentMap | src/map.rs:117-199 | the fewest extents in the inode or in exactly as many leaves as they need; unsupported exactly when one level of leaves cannot hold them |
| MapWriter.ShortListInline | src/map.rs:117-199 | a list of at most four blocks needs no map blocks |
| Ownership.BlocksFrame | src/map.rs:28-61 | what an inode owns is read through its own blocks only |
| Ownership.FreeAfter | src/alloc.rs:135-177 | blocks freed and taken change the number free by as many |
| Ownership.Exchange | src/volume.rs:1549-1597 | one inode's blocks exchanged for free ones leave every used block with exactly one owner and other inodes' blocks unwritten |
| FileContents.HoldsDataReads | src/volume.rs:1572-1580 | blocks holding some bytes read back as those bytes and are as few as they need |
| FileData.FreeAll | src/map.rs:104-108 | the blocks of a list go back and nothing else |
| FileData.WriteBlockList | src/map.rs:96-114 | the old map's blocks go back; a map in fresh blocks, each written in that time, lists exactly the list, and following it to any logical block gives the list's block or a hole past its end; fails only for want of blocks or as a list too fragmented or too long for any map, and not where free blocks and the list's length are ample |
| FileData.GrowList | src/volume.rs:1564-1569 | blocks added are fresh and distinct, up to the number needed |
| FileData.ShrinkList | src/volume.rs:1556-1563 | exactly the blocks past the new end go back, holes being none |
| FileData.WriteContents | src/volume.rs:1572-1580 | writes each block of the list once, in order, and nothing else; distinct blocks of its own then hold the bytes, the last padded with zeroes |
| FileData.PutContents | src/volume.rs:1549-1580 | blocks kept stay in place; block 0 is written if and only if one of those kept is a hole, and otherwise the blocks hold the contents; fails only where fewer blocks are free than it adds |
| FileData.StoreData | src/volume.rs:1549-1590 | contents in their blocks, each written once, and blocks in their map, what was not kept given back |
| FileData.Volume.WriteData | src/volume.rs:1549-1597 | the file's blocks hold exactly the data, its size and count recorded; every block keeps its one owner, other files their contents; it succeeds, taking no more than its new blocks and its map's, wherever so many are free and a map is sure to hold them |
| FileStream.Gather | src/volume.rs:1160-1170 | reads to the end of the contents or past the limit, losing nothing |
| FileStream.PutFull | src/volume.rs:1180-1195 | every full block's worth of bytes written to fresh blocks, the device written exactly once at each, in order |
| FileStream.PutTail | src/volume.rs:1202-1210 | the last part written padded to one block more, by one write |
| FileStream.StreamDown | src/volume.rs:1172-1210 | however the stream is cut up, distinct fresh blocks hold exactly its bytes, and the device was written exactly once at each, in order, and nowhere else; fails only where fewer blocks are free than the bytes fill |
| FileStream.Adopt | src/volume.rs:1212-1220 | streamed blocks under a map leave the file as rewriting it would |
| FileStream.UnpackFile | src/volume.rs:1151-1221 | both ways of laying a file down leave the same: its blocks hold the archive's bytes, as few as needed, and each was written once in the whole call; both succeed wherever its blocks and its map's are free and a map is sure to hold them |
| FileStream.RewroteTwice | src/volume.rs:1172-1220 | emptying and then writing a file is writing it |
| Lifecycle.TruncateInode | src/volume.rs:1620-1642 | a file's data and map blocks go back, all of them and no others |
| Lifecycle.FreeXattrBlock | src/volume.rs:1606-1618 | its attribute block goes back, if it has one |
| Lifecycle.RemoveInode | src/volume.rs:506-533 | everything the inode owns goes back, and the inode |
| Lifecycle.CreateInode | src/volume.rs:400-414 | a free inode that owns nothing; succeeds if and only if one that is not reserved is free |
| Lifecycle.MakeDirectory | src/volume.rs:448-503 | a directory's inode with one fresh block that holds its entries; succeeds if and only if an inode and a block are free, with which error otherwise |
| Lifecycle.MakeSymlink | src/volume.rs:1430-1467 | a link whose target is too long for its inode has it in one fresh block, and it reads back; succeeds if and only if an inode and a block are free |
| Lifecycle.WriteXattrs | src/volume.rs:822-875 | attributes change blocks by exactly the one block they have or need; fails if and only if one is needed, none is there and none is free |
| Lifecycle.AppendBlock | src/volume.rs:1686-1714 | a directory's blocks as they were and one fresh one more; succeeds, with bounded spending, wherever the block and its map's are free and a map is sure to hold them |
| Lifecycle.EditBlock | src/volume.rs:1665-1677 | one of a directory's blocks rewritten and nothing else |
| Lifecycle.WriteDirectory | src/index.rs:320-372 | a directory's blocks become exactly those given, one each, those it has keeping their place, the rest taken fresh or given back, each written once; succeeds, with bounded spending, wherever the new blocks and the map's are free and a map is sure to hold them |
| Lifecycle.HoleFirst | src/map.rs:28-46 | the smallest file with a hole |
| VolumeRuns.TalliedExactly | src/volume.rs:1592 | an inode records the right number of sectors if and only if the books do not have it as short |
| VolumeRuns.Do | src/volume.rs:1549-1642 | one step of any kind keeps the volume sound and the books right; it succeeds wherever what it names is there and inodes and blocks enough are free, and, where it writes no map anew, only there |
| VolumeRuns.Run | src/volume.rs:369-570 | over every run of steps each set bit of the block bitmap has exactly one owner, counters and bitmaps agree, and the books worked out from the steps alone say exactly which inodes record the wrong number of sectors; a run that stops does so at a step for which the volume it then has is not enough |
| VolumeRuns.RewroteBooks | src/volume.rs:1549-1597 | a rewritten file records its sectors one block short if and only if it has an attribute block |
| VolumeRuns.XattrBooks | src/volume.rs:822-875 | attributes are counted as they come and go; a count one short stays so, except where the last block goes |
| VolumeRuns.BooksRight | src/volume.rs:1592 | a volume on which every inode records the right number has books |
| VolumeRuns.StaysTallied | src/volume.rs:1592 | where every inode records the right number, none has an attribute block and no step gives one such, every inode still does after any run |
| VolumeRuns.AnyFileSpoils | src/volume.rs:822-875 | a file given an attribute block and then emptied, on any volume, ends up recording too few |
| VolumeRuns.CountGoesWrong | src/volume.rs:1620-1642 | a sound volume of four blocks whose one file records the right number and, emptied, the wrong one |
| Namespace.AddLeafKeeps | src/volume.rs:378-414 | a new file keeps a rooted acyclic tree with right link counts |
| Namespace.AddNameKeeps | src/volume.rs:593-618 | so does another name for a file |
| Namespace.AddDirKeeps | src/volume.rs:448-503 | so does a new directory, its ".." a link to its parent |
| Namespace.DropNameKeeps | src/volume.rs:506-533 | so does taking a file's name, the file going with its last |
| Namespace.DropDirKeeps | src/volume.rs:536-570 | so does removing an empty directory |
| Namespace.MoveKeeps | src/volume.rs:624-683 | a move keeps a tree if and only if it does not put a directory inside itself |
| NameOps.OnePath | src/volume.rs:301-307 | one path alone leads to a directory |
| NameOps.GainResolves | src/volume.rs:1645-1714 | a name gained leads one more path somewhere and every other where it led |
| NameOps.LossResolves | src/volume.rs:1717-1748 | a name lost leads its path nowhere and every other where it led |
| NameOps.MoveTo | src/volume.rs:624-683 | everything under the old name is under the new |
| NameOps.MoveElsewhere | src/volume.rs:624-683 | paths through neither name lead where they led |
| NameOps.AncestorExactly | src/volume.rs:712-728 | the search finds an ancestor if and only if it is nearer than 4096 levels |
| VolumeNames.CreateEffect | src/volume.rs:1392-1467 | one new path to a new inode, every other as before |
| VolumeNames.MakeDirEffect | src/volume.rs:448-503 | one new path to a new empty directory |
| VolumeNames.LinkEffect | src/volume.rs:593-618 | one new path to an inode already there |
| VolumeNames.UnlinkEffect | src/volume.rs:506-533 | one path gone, every other as before |
| VolumeNames.RemoveDirEffect | src/volume.rs:536-570 | one path gone, every other as before, and no directory besides |
| VolumeNames.RenameKeeps | src/volume.rs:624-728 | a rename moves everything at and under one path to the other and changes no other path; it leaves a tree if and only if it is not into itself, which only happens 4096 levels down |
| NameVolume.SplitIsLast | src/volume.rs:1764-1775 | splitting takes off the last name a walk would take, and is refused exactly when there is none |
| NameVolume.WriteEffect | src/volume.rs:378-414 | the path leads to an inode, the one it led to or a new one, and no other path changes; it is a regular file with the data if and only if it was one or was not there, and otherwise keeps its type |
| NameVolume.Volume.LinkInto | src/volume.rs:1645-1714 | the name in the directory; refused exactly when it is not one or the directory has no place for it |
| NameVolume.Volume.CreateNode | src/volume.rs:1392-1467 | inode by inode what `Create` says, with its errors and those of a directory with no place left; a failure leaves no tree exactly when an inode had been handed out |
| NameVolume.Volume.WriteFile | src/volume.rs:378-414 | what `Write` says, with its errors and those of a directory or a disk that is full; when a failure leaves a tree is said exactly |
| NameVolume.Volume.MkDir | src/volume.rs:448-503 | what `MakeDir` says, with its errors, those of a disk out of blocks and those of a parent with no place left; a failure leaves no tree exactly when an inode had been handed out |
| NameVolume.Volume.Remove | src/volume.rs:506-533 | what `Unlink` says, with its errors, and not found exactly where the index hides the name; an error changes nothing |
| NameVolume.Volume.RmDir | src/volume.rs:536-570 | what `RemoveDir` says, with its errors, and not found exactly where the index hides the name; an error changes nothing |
| NameVolume.Volume.HardLink | src/volume.rs:593-618 | what `Link` says, with its errors and those of a directory with no place left; an error changes nothing |
| NameVolume.Volume.AtOrAbove | src/volume.rs:712-728 | whether one inode is above another, looked for no further than 4096 levels |
| NameVolume.Volume.Clear | src/volume.rs:642-658 | the destination cleared of a file or an empty directory, or left as the very inode moved; not found exactly where it had to go and is hidden; an error changes nothing |
| NameVolume.Volume.Mv | src/volume.rs:624-683 | succeeds, and does what `Rename` says, if and only if `Rename` does, a place is given, no name concerned is hidden and no ".." to be rewritten is stuck; where only the last stands in the way, both names have moved and nothing besides; a failure leaves a tree if and only if it did not stop between the new name and the old or at the ".." |
| NameVolume.Nameless | src/volume.rs:459-493 | an inode handed out and left without a name makes no tree |
| NameVolume.SecondName | src/volume.rs:660-661 | a name put in with the old one still there makes no tree |
| NameVolume.StaleParent | src/volume.rs:660-666 | a directory moved whose ".." still says where it was makes no tree |
| NameVolume.HalfwayIs | src/volume.rs:660-666 | a rename that stops at a ".." is no tree, though every path leads where the rename would have it lead: what is wrong is one ".." and the link counts of two directories |
| Removal.RemoveAll | src/volume.rs:1114-1140 | succeeds if and only if the path leads somewhere, is not the root and nothing at or under it is hidden; then nothing at or under it is left; whether or not, it is still a tree and nothing outside has changed |
| Removal.GatherDirs | src/volume.rs:1119-1134 | every directory under a path, each holding only ones gathered after it; stops only at a hidden name |
| Removal.RemovingStep | src/volume.rs:1135-1138 | taken in reverse, each directory is found empty |
| Removal.GatheredBounded | src/volume.rs:1119-1134 | the gathering ends |
| Removal.Sweep | src/volume.rs:1122-1132 | one directory's files removed and its directories gathered; stops only at a hidden name, and wherever it stops what is left is a tree |
| NameRuns.Run | src/volume.rs:369-728 | over every run of successful operations the names are a rooted acyclic tree with right link counts, up to the first rename to a path 4096 or more levels inside what it moves, and none after it |
| NameRuns.RenameExactly | src/volume.rs:624-728 | a rename that succeeds leaves a tree if and only if its destination is not 4096 or more levels inside its source, as the two paths alone tell |
| NameRuns.DeepRename | src/volume.rs:712-728 | a chain deeper than 4096 can be renamed into itself, and is then no tree |
| NameRuns.StuckRename | src/volume.rs:660-666 | a tree of three directories and a rename that stops so |
| NameRuns.FifoStays | src/volume.rs:378-414 | a FIFO written over as a file would be is a FIFO still |
| DirectoryTrace.StepFollows | src/volume.rs:369-683 | what any operation on names asks of any directory, adding a name only where there is none, brings its entries to what the tree then has there |
| DirectoryTrace.StepKeeps | src/volume.rs:369-728 | every operation but a runaway rename keeps a tree, and inodes numbered as the disk numbers them |
| DirectoryTrace.RunFollows | src/volume.rs:369-728 | so does any run of them, directories made, moved and removed on the way |
| DirectoryTrace.FollowThenLookup | src/index.rs:65-191 | a directory in blocks, as a list or under an index, asked what such a run asks of it, has the names the tree has; a name found in it leads where the tree says, and every name the tree has there is found wherever all can be |
| DirectoryDisk.TakesAmple | src/map.rs:96-199 | as many free blocks as a volume counts on are enough for so many blocks and their map, wherever they lie and whatever was there |
| DirectoryDisk.LayoutValid | src/map.rs:96-199 | more blocks never need fewer, and none need none |
| DirectoryDisk.LinkOnDisk | src/volume.rs:1645-1714 | a name added on the device: the blocks the directory's inode owns hold the directory with the name, and nothing else changes; fails only for a name that is not one or want of blocks or of room in the index; with enough of both for one more it succeeds and takes no more than that |
| DirectoryDisk.UnlinkOnDisk | src/volume.rs:1717-1748 | a name taken out on the device if and only if a block searched has it, with no block taken; otherwise nothing is written |
| DirectoryDisk.RebuildOnDisk | src/index.rs:204-372 | an index laid out anew on the device with the same entries; fails where it is too large, and otherwise only where free blocks are not ample for the new blocks; not where there is a place for one name more |
| DirectoryDisk.RepointOnDisk | src/volume.rs:731-757 | fails, and writes nothing, if and only if the directory is under an index and blocks end in a checksum; otherwise it has the new parent and the same entries on the device, by four bytes of one block |
| DirectoryDisk.NewOnDisk | src/volume.rs:448-493 | a new inode whose one block holds an empty directory of that inode under its parent, no other inode changed; succeeds if and only if an inode and a block are free |
| DirectoryDisk.OtherOnDisk | src/volume.rs:1645-1748 | what is done to one directory leaves the inode, the blocks and the contents of every other |
| DirectoryDisk.RunOnDisk | src/index.rs:65-372 | after any run of additions, removals and rebuilds the blocks the inode owns hold what a plain map would be, and no other inode has changed; a run goes through whole where each addition and rebuild has a place by what is counted on, and what is removed is in a list |
| NamedDisk.LinkBoth | src/volume.rs:1645-1714 | a name added on the disk is added as the tree adds it: a place is refused only where what is counted on does not suffice, the names then hidden are those a search does not find, and the directory of the tree is still what its inode's blocks hold |
| NamedDisk.UnlinkBoth | src/volume.rs:1717-1748 | a name taken out on the disk is not found exactly where the tree has it as hidden, and the two stay tied either way |
| NamedDisk.RepointBoth | src/volume.rs:731-757 | another parent is refused on the disk exactly where the tree has the directory as stuck, and the two stay tied either way |
| NamedDisk.LinkAll | src/volume.rs:1645-1714 | with a name added to one of them, every directory of the tree is still what its inode's blocks hold |
| NamedDisk.UnlinkAll | src/volume.rs:1717-1748 | with a name taken out of one of them, too |
| NamedDisk.RepointAll | src/volume.rs:731-757 | with another parent given to one of them, too |
| NamedDisk.CarryAll | src/volume.rs:660-683 | a rename on the disk answers as the tree's own does, and whether it succeeds, finds the old name hidden or stops at a "..", every directory on the disk is then what the tree has |
| NamedDisk.FillAll | src/volume.rs:1549-1597 | a file's blocks are refused only where what is counted on does not suffice; it then holds the data, and every directory is as it was |
| NamedDisk.NewAll | src/volume.rs:448-493 | a directory is refused only where no inode is left or what is counted on does not suffice for a block; then it is empty, on the disk as in the tree, and every other is as it was |
| TarText.DigitsSpell | src/tar.rs:720-738 | a number's decimal digits spell it |
| TarText.OctalSpells | src/tar.rs:662-666 | w octal digits spell the number modulo 8^w |
| TarText.FormattedIsOctal | src/tar.rs:662-666 | formatting to a width and cutting to the last digits gives exactly w octal digits |
| TarText.ReadsOctal | src/tar.rs:776-795 | an octal field reads back as the number modulo 8^w |
| TarText.PadFor | src/tar.rs:741-748 | less than a block, up to the next multiple of one |
| TarText.SplitJoins | src/tar.rs:701-713 | name and prefix join up to the path whenever any place to split it will do |
| TarPax.LeastLength | src/tar.rs:720-738 | the length of a record is the least that counts its own digits |
| TarPax.SolveLength | src/tar.rs:720-738 | trying one length after another ends, at that length |
| TarPax.BuildPax | src/tar.rs:720-738 | the records' texts one after another |
| TarPax.ParsePax | src/tar.rs:798-830 | the loop over the bytes is the record-by-record reading |
| TarPax.PaxRoundTrip | src/tar.rs:720-830 | what is built parses to its records, whatever bytes the values hold |
| TarPax.InsertAllGets | src/tar.rs:798-830 | parsed records are ordered by key, the last of each key standing |
| TarHeader.Encode | src/tar.rs:652-698 | filling the zeroed block in place gives the laid-out block, a long link running on under the fields behind it and the checksum over the rest |
| TarDecode.BlockSlices | src/tar.rs:652-698 | every field is where its reader looks |
| TarDecode.RecordsSay | src/tar.rs:547-569 | each field that does not fit is found under its own key and no other key is |
| TarDecode.XattrsBack | src/tar.rs:391-398 | attributes come back in the order of their names, the last of a name standing |
| TarDecode.DecodeWritten | src/tar.rs:343-419 | what is read of any written header, field by field |
| TarDecode.SizeSurvives | src/tar.rs:672-681 | a size survives if and only if it is under 8^11 |
| TarDecode.NumberSurvives | src/tar.rs:687-688 | a device number survives, under a short link, if and only if it is under 8^7 |
| TarDecode.PathSurvives | src/tar.rs:652-689 | a path survives if and only if nothing spills before it and it is normal, or what spills is any number of "./" and a dot before a normal path, or any number of "./" and slashes before one without slashes at its ends |
| TarPath.NormalExactly | src/tar.rs:751-760 | a path is its own normal form if and only if it begins with neither "./" nor a slash and ends with none |
| TarPath.VanishesExactly | src/tar.rs:751-760 | exactly which texts before a path normalise away |
| TarDecode.LongLinkSpoilsPath | src/tar.rs:684-689 | a symbolic link to 192 bytes at path "a" comes back as "bbbb/a" |
| TarDecode.FitsSurvives | src/tar.rs:291-419 | within the field limits a header comes back whole |
| TarStream.Collect | src/tar.rs:550-569 | the records an entry needs, in order |
| TarStream.Writer.EndEntry | src/tar.rs:636-649 | refused exactly while contents are owed; else the padding |
| TarStream.Writer.Start | src/tar.rs:547-593 | padding, extension and header, and what is owed now |
| TarStream.Writer.Write | src/tar.rs:596-607 | refused, and nothing written, exactly when it is more than is owed |
| TarStream.Writer.Append | src/tar.rs:610-620 | a whole entry with nothing owed but padding |
| TarStream.Writer.Finish | src/tar.rs:623-628 | padding and two zero blocks |
| TarStream.WriteArchive | src/tar.rs:547-649 | the texts of all entries, then the end marker |
| TarReader.Source.Read | src/tar.rs:52-59 | any part of what is left, but something while something is |
| TarReader.Reader.Fill | src/tar.rs:509-518 | as much as is wanted or as there is, over any number of short reads |
| TarReader.Reader.SkipRest | src/tar.rs:452-467 | past contents and padding, or a truncated stream; headers still at multiples of a block |
| TarReader.Reader.ReadBlock | src/tar.rs:470-481 | one block, none at a clean end, an error mid-block; every header begins at a multiple of 512 |
| TarReader.Reader.ReadBody | src/tar.rs:484-493 | an extension's body with its padding behind it |
| TarReader.Reader.Extend | src/tar.rs:320-341 | what each kind of extension adds for the next entry or for all |
| TarReader.Reader.Seek | src/tar.rs:291-421 | over any splitting of the stream, the entry a reading of its whole text finds |
| TarReader.Reader.Next | src/tar.rs:285-421 | the same with what is unread skipped first; alignment kept for any stream whatever |
| TarReader.Reader.Read | src/tar.rs:424-435 | the next part of the contents, nothing exactly at their end |
| TarReader.Reader.ReadToEnd | src/tar.rs:438-449 | all contents left, or a truncated stream |
| TarReader.ScanShrinks | src/tar.rs:285-421 | each entry found uses up some of the stream |
| TarReader.ReadArchive | src/tar.rs:239-247 | every entry the whole text holds |
| TarRoundTrip.ScanExtended | src/tar.rs:331-335 | an extension written ahead of an entry is read as its records |
| TarRoundTrip.NextOfStream | src/tar.rs:285-467 | wherever the last entry was left, the next entry written is the next read, its contents behind it |
| TarRoundTrip.PartlyRead | src/tar.rs:424-449 | reading part of an entry's contents leaves the rest in front of the entries after it |
| TarConsumer.Consume | src/tar.rs:285-467 | a consumer taking as much as it likes of each entry, over any splitting of the stream, meets every entry in turn, its header restored and the start of its contents as written, and then the end |
| TarRoundTrip.ReadsBack | src/tar.rs:226-649 | what is read of a written stream is exactly what was written, each header as it survives |
| TarRoundTrip.WholeBack | src/tar.rs:226-649 | headers within the limits come back whole |
| ArchiveWalk.SortedChildren | src/volume.rs:1374-1378 | a directory's names, each once, the last first |
| ArchiveWalk.OneFall | src/volume.rs:1374-1378 | there is one such listing, so two packings agree |
| ArchiveWalk.DepthBounded | src/volume.rs:1270-1283 | a path to a directory has fewer names than there are directories |
| ArchiveWalk.WalkExact | src/volume.rs:1270-1370 | the recursive walk comes to every path under its names and no other |
| ArchiveWalk.WalkRises | src/volume.rs:1270-1370 | in strictly rising order, so to each once, a directory before what is in it |
| ArchiveWalk.PopDir | src/volume.rs:1277-1339 | popping a directory's name and pushing its children leaves the recursive walk still to come |
| ArchivePack.PathsExact | src/volume.rs:1258-1371 | a path is packed if and only if it is under the root and leads somewhere |
| ArchivePack.TwoNames | src/volume.rs:1292-1313 | a file with two paths has more links than one |
| ArchivePack.MakeItem | src/volume.rs:1285-1363 | the entry for a path, given the inodes seen |
| ArchivePack.PackInto | src/volume.rs:1258-1371 | the explicit stack ends and emits exactly the recursive preorder's entries; an error exactly when the root is no directory |
| ArchiveMirror.LinksNameContents | src/volume.rs:1292-1313 | every hard link names an earlier entry that carries the same inode's contents |
| ArchiveMirror.ContentsOnce | src/volume.rs:1292-1313 | an inode's contents are emitted once |
| ArchiveUnpack.MkdirAll | src/volume.rs:577-588 | the path leads somewhere, to an empty directory if nowhere before; every other path leads where it did but for new directories on the way, and nothing looks different; nothing changes if it led somewhere; where nothing is in the way it fails only as the disk runs short, and not where every directory on the way has inodes, blocks and a place |
| ArchiveUnpack.Replace | src/volume.rs:1224-1229 | the path is free and nothing outside it has changed; where something was there, succeeds if and only if nothing at or under it is hidden |
| ArchiveUnpack.PutFolder | src/volume.rs:991-1002 | over a directory nothing changes; over anything else that goes and there is exactly one new directory; over a free name failing only as the disk runs short and not where an inode, a block and a place are there, whose spending is bounded |
| ArchiveUnpack.PutContent | src/volume.rs:1003-1043 | over anything that goes and there is exactly one new inode with the contents; over a free name failing only as the disk runs short and not where an inode, blocks for them and a place are there |
| ArchiveUnpack.PutAgain | src/volume.rs:1018-1025 | over anything that goes and there is exactly one more path to the target's inode; over a free name failing only as the directory has no place and not where it does |
| ArchiveUnpack.UnpackOne | src/volume.rs:967-1044 | one entry of any kind over whatever is there: the way to it laid, what was at its path gone, that entry and no other change; where its place is ready failing only as the disk runs short and not where it affords the entry |
| ArchiveUnpack.ApplyAttrs | src/volume.rs:1064-1077 | keeps a tree, changes nothing but attributes, and nothing at all where they are set already |
| ArchiveWhiteouts.EmptyOut | src/volume.rs:1089-1100 | succeeds if and only if nothing inside the directory is hidden; then nothing is left inside it, whoever put it there, and the names it had are counted; whether or not, it is still a tree and nothing else has changed |
| ArchiveWhiteouts.ApplyWhiteout | src/volume.rs:1088-1111 | an opaque marker empties its directory, one with a name removes that name and all under it, one with none its own directory, any other does nothing, and each succeeds if and only if nothing to go is hidden or the root; whether or not, nothing outside changes, and it is still a tree |
| ArchiveCopy.ParentBefore | src/volume.rs:1270-1339 | a path's directory is packed before it |
| ArchiveCopy.CopyReady | src/volume.rs:967-1044 | when its turn comes each packed entry finds its directory and link target there and its name free |
| ArchiveCopy.CopyMore | src/volume.rs:967-1044 | each entry unpacked extends the copy: names, looks, shared inodes, and nothing outside |
| ArchiveLayers.EntryShows | src/volume.rs:967-1044 | what is seen at every path once an entry is unpacked over anything is what the entry makes of what was seen |
| ArchiveLayers.MarkShows | src/volume.rs:1088-1111 | and once a marker is obeyed, what the marker leaves |
| ArchiveLayers.Untouched | src/volume.rs:900-1080 | a path that no entry reaches shows what it did |
| ArchiveLayers.NothingMade | src/volume.rs:900-1080 | and one that led nowhere and no entry makes still does |
| ArchiveLayers.LastWins | src/volume.rs:896-922 | the last entry to reach a path decides what is there: the contents it brings, or nothing where it is a marker and none after makes anything |
| ArchiveSupply.FewerNames | src/volume.rs:967-1044 | no directory of a copy under way has more names than the one it copies |
| ArchiveSupply.NextAffords | src/volume.rs:967-1044 | where the rest of an archive is provided for, its next entry is afforded |
| ArchiveSupply.ProvidedNext | src/volume.rs:967-1044 | and once that is unpacked the rest still is |
| ArchiveSupply.ProvidedStart | src/volume.rs:934-966 | where there is enough for an archive and the way to it, there is enough for the archive once the way is laid |
| ArchiveStream.UnpackNext | src/volume.rs:967-1062 | one entry unpacked, or obeyed as a layer's, over whatever is there: a tree stays one, and what is seen at every path changes as the entry says; the next entry of a packed tree extends the copy, failing only as the disk runs short; where the rest of the archive is provided for, it succeeds and what is left still is |
| ArchiveStream.UnpackInto | src/volume.rs:934-1080 | any archive, as a layer or not and over whatever is there, leaves a tree, and at every path what its entries, one after another, make of what was there; a packed tree unpacked somewhere empty, or not there yet with nothing in the way, is copied whole, failing only as the disk runs short of inodes, blocks or places, and succeeding wherever there is enough for the archive |
| ArchiveMirror.CopyMirrors | src/volume.rs:934-1371 | the copy has the same paths, kinds, contents, link targets, device numbers and attributes (but symbolic links'), and two paths share an inode in it exactly when they did |
| ArchiveMirror.PackedAgain | src/volume.rs:1258-1371 | packing the copy gives the same entries again |
| ArchiveTar.JoinedComponents | src/volume.rs:148-154 | a joined path comes apart into its names |
| ArchiveTar.JoinedNormal | src/tar.rs:751-760 | a joined path is normal already |
| ArchiveTar.EntryBack | src/volume.rs:1315-1363 | each storable entry is unpacked from its header and contents as what was packed |
| ArchiveTar.ArchiveBack | src/volume.rs:1234-1255 | the bytes of a packed archive read back as its entries |
| ArchiveTar.PackTar | src/volume.rs:1234-1371 | the archive of exactly the tree's entries; an error exactly when the root is no directory |
| ArchiveTar.UnpackTar | src/volume.rs:900-1080 | from bytes, entry by entry and however they arrive, as a layer or not: a tree, and at every path what the entries a reading of the whole text finds make of what was there; a packed tree unpacked somewhere empty or not there yet is mirrored there, and but for the directories laid on the way nothing else in the volume changes; this fails only as the disk runs short of inodes, blocks or places, and succeeds wherever there is enough for the archive |

## Left out

- Checksums, hash seeds, UUIDs and timestamps: dropped, but for the room a checksum tail takes; the directory hash is any function with its low bit clear.
- Device I/O, the block cache, async scheduling and the tokio adapters: a device is a map from block numbers to blocks, and calls are sequential.
- What a write that fails leaves on the device: the code frees an old map before the new one can fail (src/map.rs:104-113) and keeps blocks, and an inode number, it took before it ran short (src/volume.rs:459-461). What such a call answers, and when it does not fail, is stated; the tree of names a failed operation leaves is stated too.
- Raw encodings of bitmaps, pointer blocks, extent blocks and index blocks: a block on the device is tagged with what it holds; only directory records, tar headers and PAX records are bytes. `DirectoryDisk` stores the blocks of an index by any code one block long whose roots begin with their two dots.
- 64 KiB blocks, whose record lengths need a special encoding.
- Holes: `VolumeRuns.Run` does not ask for a step that writes to every block a file lists (src/volume.rs:1572-1580, src/index.rs:344-359) where the file has some; what such a step does is `FileData.PutContents`.
- Contents of files and counts of links in `NamedDisk`, which ties directories: a file written there holds its data (`NamedDisk.FillAll`), and link counts are the tree's own. Removing an inode is `Lifecycle.RemoveInode`, and removing everything under a path a run of other operations to `DirectoryTrace`. What the disk holds after it has run short is not stated.
- Looking a name up in the tree finds what is there: the lookup is the other library's (src/volume.rs:301-307); what this code's own index search finds is `DirectoryIndex.Directory.Lookup`.
- The target of a link longer than a block: the code's copy into the block fails outright (src/volume.rs:1456-1457), so it is not asked for.
- What a short symbolic link or a device reads as once written over: any value of its type, since it depends on the bytes of its new map.
- Names "." and "..": not rejected when a path is split (src/volume.rs:1764-1775), so not given; bytes stand for text, and lossy decoding is dropped.
- Lifecycle.WriteXattrs: whether attributes fit in the inode is given, not worked out from their encoding; access control lists are not modelled, and tar carries attributes as names and values, `ArchiveTar` without them.
- Reports, times and extended attributes in the unpack loop.
- Attributes in what `ArchiveLayers` shows: they are set on a directory's path last, whatever is then there. Markers are obeyed as they arrive, so that an opaque one also takes entries its own layer put there before it.
- ArchiveTar.PackTar: the bytes are stated where every entry can be stored, its fields within their limits; what becomes of fields past them is `TarDecode.DecodeWritten`.
- Sockets, which archives hold as FIFOs (src/volume.rs:1347-1353).
- Numbers in PAX records written other than as plain decimal digits (the code parses floating point, src/tar.rs:384-389).
- TarPax.ParsePax: a record whose stated length ends before its own space makes the code's slice fail; it is an error here.
- TarReader.Reader.Next: on an error only the answer, and that headers stay at multiples of a block, is stated.
- MapWriter.WriteExtentMap: the code's single level of leaves, beyond which it refuses the list.
- Pointer maps: block numbers are taken to fit in 32 bits, as the code's pointers do.
- `chmod`, `chown`, `append`, `write_at` and attribute getters: field setters and combinations of what is here.
