/**
 Inodes made, emptied and given back (src/volume.rs:448-570, 816-875, 1599-1642),
 with the blocks each of them owns going back exactly when it lets them go.
 */
module Lifecycle {
  import opened Base
  import opened Disk
  import opened BlockWalk
  import opened Extents
  import opened ExtentTree
  import opened Bitmaps
  import opened Allocation
  import opened Allocators
  import opened MapSpace
  import opened IndirectMap
  import opened PointerMap
  import opened BlockMap
  import opened MapCost
  import opened Ownership
  import opened FileContents
  import opened FileData

  /** A map with nothing in it yet. An empty extent tree is still a tree. */
  function EmptyMap(usesExtents: bool): InodeMap {
    if usesExtents then ExtentRoot([]) else PointerRoot(Holes(N_BLOCKS))
  }

  lemma {:induction false} EmptyMapIs(dev: Device, usesExtents: bool, p: nat)
    ensures MapIs(dev, EmptyMap(usesExtents), p, [], []) && DataIs(dev, EmptyMap(usesExtents), p, [])
  {
    if !usesExtents {
      var ptrs := Holes(N_BLOCKS);
      assert ptrs[..NDIR_BLOCKS] == [] + Holes(NDIR_BLOCKS);
      WalkAllPadded(dev, [], NDIR_BLOCKS, 0, 0, p);
      hide Pow;
      assert WalkPointers(dev, ptrs, p) == [];
    }
  }

  /** A file's data as a list of blocks, holes and all. */
  ghost predicate Lists(dev: Device, m: InodeMap, p: nat, list: seq<nat>) {
    DataOf(WalkMap(dev, m, p)) == Listed(list, 0)
  }

  /** The smallest file with a hole: its one block is its second. */
  lemma {:induction false} HoleFirst(dev: Device, p: nat, b: nat)
    requires b != HOLE
    ensures Lists(dev, ExtentRoot([Extent(1, 1, b)]), p, [HOLE, b]) && HOLE in [HOLE, b][..1]
  {
    var list := [HOLE, b];
    assert list[..1] == [HOLE] && [HOLE][..0] == [];
    assert Listed(list[..1], 0) == [];
    assert Listed(list, 0) == [Placed(1, b)];
    var e := Extent(1, 1, b);
    assert [e][..0] == [] && Run(e, 1) == Run(e, 0) + [Data(1, b)];
    assert WalkExtents([e]) == [Data(1, b)];
    assert DataOf([Data(1, b)]) == [Placed(1, b)];
  }

  lemma {:induction false} ListedElems(list: seq<nat>, base: nat)
    ensures Elems(Physicals(Listed(list, base))) == Elems(list) - {HOLE}
  {
    if list == [] {
    } else {
      var n := |list| - 1;
      ListedElems(list[..n], base);
      assert list == list[..n] + [list[n]];
      assert Elems(list) == Elems(list[..n]) + {list[n]};
      var front := Listed(list[..n], base);
      if list[n] != HOLE {
        assert Physicals(Listed(list, base)) == Physicals(front) + [list[n]];
        assert Elems(Physicals(front) + [list[n]]) == Elems(Physicals(front)) + {list[n]};
      } else {
        assert Listed(list, base) == front;
      }
    }
  }

  lemma {:induction false} StrippedElems(list: seq<nat>)
    ensures Elems(Stripped(list)) - {HOLE} == Elems(list) - {HOLE}
  {
    if list == [] || list[|list| - 1] != HOLE {
    } else {
      var n := |list| - 1;
      StrippedElems(list[..n]);
      assert list == list[..n] + [HOLE];
      assert Elems(list) == Elems(list[..n]) + {HOLE};
    }
  }

  lemma {:induction false} ElemsConcat(a: seq<nat>, b: seq<nat>)
    ensures Elems(a + b) == Elems(a) + Elems(b)
  {
    NoDupSplit(a, b);
  }

  lemma {:induction false} ZeroUnowned(s: State)
    requires s.Valid() && ZeroTaken(s)
    ensures HOLE !in s.UsedBlocks() - s.fixed
  {
    hide State.Layout, State.BlocksOk, State.InodesOk, State.BlockMaps;
    if HOLE in s.UsedBlocks() {
      UsedInRange(s, HOLE);
    }
  }

  lemma {:induction false} UsedInRange(s: State, b: nat)
    requires s.Valid() && b in s.UsedBlocks()
    ensures s.geo.firstDataBlock <= b < s.geo.blocksCount
  {
    hide State.Layout, State.BlocksOk, State.InodesOk, State.BlockMaps;
  }

  /** The blocks read out of a map, and the map's own: together what the inode owns but for its attributes. */
  lemma {:induction false} ReadIsOwned(s: State, table: Table, inum: nat, p: nat, list: seq<nat>)
    requires s.Valid() && ZeroTaken(s) && Owns(s, table, p) && inum in table && Lists(s.device, table[inum].map_, p, list)
    ensures var w := WalkMap(s.device, table[inum].map_, p);
            var read, acl := PlaceAll(DataOf(w)) + MetaOf(w), Elems(AclBlock(table[inum]));
            && Elems(read) - {HOLE} == Owned(s.device, table[inum], p) - acl
            && acl <= Owned(s.device, table[inum], p) <= s.UsedBlocks() - s.fixed
            && Elems(read) - {HOLE} !! acl
  {
    hide State.Valid, State.UsedBlocks, WalkMap, NoDup, AclBlock, DataOf, MetaOf, Listed, PlaceAll, ZeroTaken, Elems, Stripped;
    var w := WalkMap(s.device, table[inum].map_, p);
    ZeroUnowned(s);
    PlaceListed(list);
    StrippedElems(list);
    ListedElems(list, 0);
    NoDupThree(Physicals(DataOf(w)), MetaOf(w), AclBlock(table[inum]));
    ElemsConcat(PlaceAll(DataOf(w)), MetaOf(w));
    assert HOLE !in Owned(s.device, table[inum], p);
    OwnedIs(s.device, table[inum], p, Physicals(DataOf(w)) + MetaOf(w) + AclBlock(table[inum]));
    hide Owned;
    LessAttributes(Elems(PlaceAll(DataOf(w))), Elems(Physicals(DataOf(w))), Elems(MetaOf(w)), Elems(AclBlock(table[inum])));
  }

  lemma {:induction false} LessAttributes(P: set<nat>, D: set<nat>, M: set<nat>, A: set<nat>)
    requires P - {HOLE} == D && HOLE !in D + M + A && D !! A && M !! A
    ensures P + M - {HOLE} == D + M + A - A
  {
  }

  /** Give back every block of a list that is not a hole. */
  method FreeBlocksOf(fs: Filesystem, alloc: Allocator, blocks: seq<nat>)
    requires alloc.Now(fs).Valid() && Elems(blocks) - {HOLE} !! fs.fixed
    modifies alloc`blockCache, alloc`dirtyBlock, fs`descs, fs`freeBlocks
    ensures Changed(old(alloc.Now(fs)), alloc.Now(fs), Elems(blocks) - {HOLE}, {}, {}) && fs.device == old(fs.device)
  {
    hide Changed, State.Valid, State.UsedBlocks;
    ghost var s := alloc.Now(fs);
    ChangedNone(s);
    assert Elems(blocks[..0]) - {HOLE} == {};
    for i := 0 to |blocks|
      invariant Changed(s, alloc.Now(fs), Elems(blocks[..i]) - {HOLE}, {}, {}) && fs.device == old(fs.device)
    {
      ghost var t := alloc.Now(fs);
      ghost var gone := Elems(blocks[..i]) - {HOLE};
      assert Elems(blocks[..i + 1]) == Elems(blocks[..i]) + {blocks[i]};
      if blocks[i] != HOLE {
        ChangedValid(s, t, gone, {}, {});
        assert blocks[i] in Elems(blocks);
        alloc.FreeBlock(fs, blocks[i]);
        SameDevice(t, alloc.Now(fs), blocks[i]);
        ChangedGave(t, alloc.Now(fs), blocks[i]);
        ChangedTrans(s, t, alloc.Now(fs), gone, {}, {}, {blocks[i]}, {}, {});
        assert Elems<nat>([]) == {} && Elems<nat>([]) + Elems<nat>([]) == {};
        assert Elems(blocks[..i + 1]) - {HOLE} == gone + {blocks[i]};
      } else {
        assert Elems(blocks[..i + 1]) - {HOLE} == gone;
      }
    }
    assert blocks[..|blocks|] == blocks;
  }

  lemma {:induction false} StillOk(s: State, t: State, table: Table, inum: nat, now: Inode, bs: nat, gone: set<nat>, came: set<nat>, touched: set<nat>)
    requires VolumeOk(s, table, bs) && inum in table && Changed(s, t, gone, came, touched) && t.Valid()
    requires Owns(t, table[inum := now], bs / 4)
    requires now.isDir == table[inum].isDir && now.usesExtents == table[inum].usesExtents
    ensures VolumeOk(t, table[inum := now], bs)
  {
    hide State.Valid, State.UsedBlocks, State.UsedInodes, Owns;
  }

  function Emptied(i: Inode): Inode {
    i.(map_ := EmptyMap(i.usesExtents), size := 0, blocks := 0)
  }

  lemma {:induction false} EmptiedOwns(dev: Device, i: Inode, p: nat)
    requires i.map_ == EmptyMap(i.usesExtents)
    ensures BlocksOf(dev, i, p) == AclBlock(i) && NoDup(AclBlock(i)) && Owned(dev, i, p) == Elems(AclBlock(i))
  {
    EmptyMapIs(dev, i.usesExtents, p);
    hide WalkMap, DataOf, MetaOf;
    assert Physicals([]) == [];
    assert [] + [] + AclBlock(i) == AclBlock(i);
  }

  /** Free every block of an inode's contents and map, and leave it empty. */
  method TruncateInode(v: Volume, inum: nat, ghost was: seq<nat>)
    requires v.Valid() && inum in v.inodes && Lists(v.fs.device, v.inodes[inum].map_, v.blockSize / 4, was)
    modifies v`inodes, v.alloc`blockCache, v.alloc`dirtyBlock, v.fs`descs, v.fs`freeBlocks
    ensures v.Valid() && v.inodes == old(v.inodes)[inum := Emptied(old(v.inodes)[inum])] && v.fs.device == old(v.fs.device)
    ensures v.Now().UsedInodes() == old(v.Now().UsedInodes()) && v.Now().dirs == old(v.Now().dirs)
    ensures v.Now().UsedBlocks() == old(v.Now().UsedBlocks() - (Owned(v.fs.device, v.inodes[inum], v.blockSize / 4) - Elems(AclBlock(v.inodes[inum]))))
    ensures old(v.Now()).freeBlocks <= v.Now().freeBlocks
  {
    hide Changed, State.Valid, State.UsedBlocks, WalkMap, DataOf, MetaOf, NoDup, Owns, Elems, ZeroTaken, BlocksOf, Kept, PlaceAll, AclBlock, Owned, State.UsedInodes, EmptyMap;
    ghost var s, table := v.Now(), v.inodes;
    var inode := v.inodes[inum];
    var p := v.blockSize / 4;
    ReadIsOwned(s, table, inum, p, was);
    var data := ReadBlockList(v.fs.device, inode.map_, p);
    var meta := MapMetadataBlocks(v.fs.device, inode.map_, p);
    FreeBlocksOf(v.fs, v.alloc, data + meta);
    ghost var gone := Elems(data + meta) - {HOLE};
    var now := Emptied(inode);
    SameAcl(inode, now);
    EmptiedOwns(v.fs.device, now, p);
    ChangedParts(s, v.Now(), gone, {}, {});
    FreeAfter(s, v.Now(), gone, {}, {});
    Exchange(s, v.Now(), table, inum, now, p, gone, {}, {});
    StillOk(s, v.Now(), table, inum, now, v.blockSize, gone, {}, {});
    v.inodes := v.inodes[inum := now];
  }

  /** An inode without its attribute block. */
  function Bared(i: Inode, bs: nat): Inode {
    if i.fileAcl == 0 then i else i.(fileAcl := 0, blocks := SatSub(i.blocks, bs / 512))
  }

  /** The same map with other attributes: only the attribute block is owned differently. */
  lemma {:induction false} Reattributed(s: State, t: State, table: Table, inum: nat, now: Inode, p: nat, gone: set<nat>, came: set<nat>, touched: set<nat>)
    requires s.Valid() && Owns(s, table, p) && inum in table && now.map_ == table[inum].map_
    requires gone <= Elems(AclBlock(table[inum])) && came == Elems(AclBlock(now)) - Elems(AclBlock(table[inum]))
    requires Elems(AclBlock(now)) == Elems(AclBlock(table[inum])) - gone + came && touched <= Elems(AclBlock(now))
    requires Changed(s, t, gone, came, touched)
    ensures Owns(t, table[inum := now], p) && Kept(s, t, table, inum, p)
    ensures WalkMap(t.device, now.map_, p) == WalkMap(s.device, table[inum].map_, p)
  {
    hide State.Valid, State.UsedBlocks, WalkMap, NoDup, AclBlock, DataOf, MetaOf, Elems, Kept;
    var w := WalkMap(s.device, table[inum].map_, p);
    var acl, acl' := AclBlock(table[inum]), AclBlock(now);
    NoDupThree(Physicals(DataOf(w)), MetaOf(w), acl);
    ChangedParts(s, t, gone, came, touched);
    OwnedIs(s.device, table[inum], p, Physicals(DataOf(w)) + MetaOf(w) + acl);
    ApartFromUsed(Owned(s.device, table[inum], p), s.UsedBlocks(), gone, came);
    assert Elems(MetaOf(w)) !! touched && Elems(Physicals(DataOf(w))) !! Elems(acl');
    MetasStay(s, t, now.map_, p, gone, came, touched);
    AclAlone(now);
    NoDupThree(Physicals(DataOf(w)), MetaOf(w), acl');
    OwnedIs(t.device, now, p, Physicals(DataOf(w)) + MetaOf(w) + acl');
    hide Owned, Changed;
    Exchange(s, t, table, inum, now, p, gone, came, touched);
  }

  lemma {:induction false} ApartFromUsed(owned: set<nat>, used: set<nat>, gone: set<nat>, came: set<nat>)
    requires owned <= used && gone <= owned && came !! used - gone
    ensures came !! owned - gone
  {
  }

  /** Give back the block holding an inode's attributes, if it has one. */
  method FreeXattrBlock(v: Volume, inum: nat)
    requires v.Valid() && inum in v.inodes
    modifies v`inodes, v.alloc`blockCache, v.alloc`dirtyBlock, v.fs`descs, v.fs`freeBlocks
    ensures v.Valid() && v.inodes == old(v.inodes)[inum := Bared(old(v.inodes)[inum], v.blockSize)] && v.fs.device == old(v.fs.device)
    ensures v.Now().UsedInodes() == old(v.Now().UsedInodes()) && v.Now().dirs == old(v.Now().dirs)
    ensures v.Now().UsedBlocks() == old(v.Now().UsedBlocks() - Elems(AclBlock(v.inodes[inum])))
  {
    hide Changed, State.Valid, State.UsedBlocks, NoDup, Owns, Elems, ZeroTaken, BlocksOf, Kept, State.UsedInodes;
    ghost var s, table := v.Now(), v.inodes;
    var inode := v.inodes[inum];
    if inode.fileAcl == 0 {
      NoElems();
      assert v.inodes == v.inodes[inum := inode];
      return;
    }
    var acl := inode.fileAcl;
    AclUsed(s, table, inum, v.blockSize / 4);
    v.alloc.FreeBlock(v.fs, acl);
    SameDevice(s, v.Now(), acl);
    ChangedGave(s, v.Now(), acl);
    ChangedParts(s, v.Now(), {acl}, {}, {});
    var now := Bared(inode, v.blockSize);
    OneElem(acl);
    NoElems();
    Reattributed(s, v.Now(), table, inum, now, v.blockSize / 4, {acl}, {}, {});
    StillOk(s, v.Now(), table, inum, now, v.blockSize, {acl}, {}, {});
    v.inodes := v.inodes[inum := now];
  }

  lemma {:induction false} NoElems()
    ensures Elems<nat>([]) == {}
  {
  }

  lemma {:induction false} OneElem(b: nat)
    ensures Elems([b]) == {b}
  {
  }

  lemma {:induction false} AclUsed(s: State, table: Table, inum: nat, p: nat)
    requires s.Valid() && Owns(s, table, p) && inum in table
    ensures Elems(AclBlock(table[inum])) <= Owned(s.device, table[inum], p) <= s.UsedBlocks() - s.fixed
    ensures table[inum].fileAcl != 0 ==> table[inum].fileAcl !in s.fixed && table[inum].fileAcl in s.UsedBlocks()
  {
    hide State.Valid, State.UsedBlocks, WalkMap, NoDup, DataOf, MetaOf;
    var w, acl := WalkMap(s.device, table[inum].map_, p), table[inum].fileAcl;
    ElemsConcat(Physicals(DataOf(w)) + MetaOf(w), AclBlock(table[inum]));
    assert acl != 0 ==> acl in Elems([acl]);
  }

  /** Give back everything an inode owns. */
  method EmptyInode(v: Volume, inum: nat, ghost was: seq<nat>)
    requires v.Valid() && inum in v.inodes && Lists(v.fs.device, v.inodes[inum].map_, v.blockSize / 4, was)
    modifies v`inodes, v.alloc`blockCache, v.alloc`dirtyBlock, v.fs`descs, v.fs`freeBlocks
    ensures v.Valid() && v.inodes == old(v.inodes)[inum := Bared(Emptied(old(v.inodes)[inum]), v.blockSize)]
    ensures v.fs.device == old(v.fs.device) && Owned(v.fs.device, v.inodes[inum], v.blockSize / 4) == {}
    ensures v.Now().UsedBlocks() == old(v.Now().UsedBlocks() - Owned(v.fs.device, v.inodes[inum], v.blockSize / 4))
    ensures v.Now().UsedInodes() == old(v.Now().UsedInodes()) && v.Now().dirs == old(v.Now().dirs)
  {
    hide State.Valid, State.UsedBlocks, Owns, Elems, BlocksOf, AclBlock, Owned, State.UsedInodes, EmptyMap, WalkMap, VolumeOk, Lists, SatSub;
    ghost var table, p := v.inodes, v.blockSize / 4;
    VolumeParts(v.Now(), table, v.blockSize);
    AclUsed(v.Now(), table, inum, p);
    TruncateInode(v, inum, was);
    FreeXattrBlock(v, inum);
    SameAcl(table[inum], Emptied(table[inum]));
    EmptiedOwns(v.fs.device, v.inodes[inum], p);
    BaredOwns(v.inodes[inum]);
  }

  /** The last name is gone: everything the inode owns goes back, and the inode after it. */
  method RemoveInode(v: Volume, inum: nat, ghost was: seq<nat>)
    requires v.Valid() && inum in v.inodes && Lists(v.fs.device, v.inodes[inum].map_, v.blockSize / 4, was)
    modifies v`inodes, v.alloc`blockCache, v.alloc`dirtyBlock, v.alloc`inodeCache, v.alloc`dirtyInode, v.alloc`dirs
    modifies v.fs`descs, v.fs`freeBlocks, v.fs`freeInodes
    ensures v.Valid() && v.inodes == old(v.inodes) - {inum} && v.fs.device == old(v.fs.device)
    ensures v.Now().UsedBlocks() == old(v.Now().UsedBlocks() - Owned(v.fs.device, v.inodes[inum], v.blockSize / 4))
    ensures v.Now().UsedInodes() == old(v.Now().UsedInodes()) - {inum}
  {
    hide State.Valid, State.UsedBlocks, Owned, State.UsedInodes, VolumeOk, Lists, Bared, Emptied, Alike, GaveInode;
    ghost var table := v.inodes;
    VolumeParts(v.Now(), table, v.blockSize);
    EmptyInode(v, inum, was);
    ghost var s := v.Now();
    VolumeParts(s, v.inodes, v.blockSize);
    v.alloc.FreeInode(v.fs, inum, v.inodes[inum].isDir);
    Removed(s, v.Now(), v.inodes, inum, v.blockSize);
    DropKey(table, v.inodes, inum);
    v.inodes := v.inodes - {inum};
  }

  lemma {:induction false} DropKey(a: Table, b: Table, inum: nat)
    requires inum in b && b == a[inum := b[inum]]
    ensures b - {inum} == a - {inum}
  {
  }

  lemma {:induction false} Removed(s: State, t: State, table: Table, inum: nat, bs: nat)
    requires VolumeOk(s, table, bs) && inum in table && Owned(s.device, table[inum], bs / 4) == {}
    requires if inum in s.UsedInodes() then GaveInode(s, t, inum) else Alike(s, t)
    ensures VolumeOk(t, table - {inum}, bs)
    ensures t.device == s.device && t.UsedBlocks() == s.UsedBlocks() && t.UsedInodes() == s.UsedInodes() - {inum}
  {
    hide State.Valid, State.UsedBlocks, State.UsedInodes, Owns, Owned, ZeroTaken;
    InodeGone(s, t, inum);
    Forget(s, table, inum, bs / 4);
    OwnsByBlocks(s, t, table - {inum}, bs / 4);
  }

  lemma {:induction false} BaredOwns(i: Inode)
    requires i.fileAcl == 0
    ensures Elems(AclBlock(i)) == {}
  {
  }

  lemma {:induction false} InodeGone(s: State, t: State, inum: nat)
    requires s.Valid() && inum in s.UsedInodes()
    requires if inum in s.UsedInodes() then GaveInode(s, t, inum) else Alike(s, t)
    ensures t.Valid() && t.device == s.device && t.fixed == s.fixed && t.geo == s.geo && t.UsedBlocks() == s.UsedBlocks()
    ensures t.UsedInodes() == s.UsedInodes() - {inum} && t.dirs == s.dirs - {inum} && (ZeroTaken(s) ==> ZeroTaken(t))
  {
    hide State.Valid, State.UsedBlocks, State.UsedInodes, Alike;
  }

  // ---- making inodes ----

  /** An inode just handed out is nobody's yet, and who owns which block is as it was. */
  lemma {:induction false} HandedOut(s: State, t: State, table: Table, inum: nat, isDir: bool, bs: nat)
    requires VolumeOk(s, table, bs) && TookInode(s, t, inum, isDir)
    ensures t.Valid() && ZeroTaken(t) && t.geo == s.geo && t.fixed == s.fixed && t.device == s.device && t.UsedBlocks() == s.UsedBlocks()
    ensures inum !in table && Owns(t, table, bs / 4)
    ensures t.UsedInodes() == s.UsedInodes() + {inum} && t.dirs == (if isDir then s.dirs + {inum} else s.dirs)
  {
    hide State.Valid, State.UsedBlocks, State.UsedInodes, Owns;
    assert ZeroTaken(t);
    hide ZeroTaken;
    OwnsByBlocks(s, t, table, bs / 4);
  }

  lemma {:induction false} AddedOk(s: State, t: State, u: State, table: Table, inum: nat, now: Inode, bs: nat, came: set<nat>, touched: set<nat>)
    requires VolumeOk(s, table, bs) && TookInode(s, t, inum, now.isDir) && Changed(t, u, {}, came, touched) && u.Valid()
    requires Owns(u, table[inum := now], bs / 4) && (now.usesExtents || s.geo.blocksCount <= U32_LIMIT)
    ensures VolumeOk(u, table[inum := now], bs)
  {
    hide State.Valid, State.UsedBlocks, State.UsedInodes, Owns;
    ChangedParts(t, u, {}, came, touched);
    DirsUsed(s);
    assert inum !in table;
  }

  lemma {:induction false} DirsUsed(s: State)
    requires s.Valid()
    ensures s.dirs <= s.UsedInodes()
  {
    hide Counted, TailUnused, DirsCounted, CacheOk, Current, NoDup;
  }

  /** Some inode is neither reserved nor in use. */
  ghost predicate InodeLeft(s: State)
    requires s.Valid()
  {
    exists u :: s.geo.firstIno <= u <= s.geo.inodesCount && 1 <= u && u !in s.UsedInodes()
  }

  /** An inode is handed out exactly when one is left. */
  lemma {:induction false} LeftExactly(s: State, near: nat)
    requires s.Valid()
    ensures 0 < s.geo.inodesPerGroup && 0 < s.geo.Groups()
    ensures FirstFree(InodeOrder(s.geo.Inodes(), s.geo.Groups(), near, 0), s.Withheld()).Some? <==> InodeLeft(s)
  {
    hide State.Valid, State.UsedInodes, FirstFree, InodeOrder, State.Withheld;
    NoInodesExactly(s, near);
  }

  /** A file begins with no blocks at all. */
  method CreateInode(v: Volume, near: nat, usesExtents: bool) returns (r: Result<nat>)
    requires v.Valid() && (usesExtents || v.fs.geo.blocksCount <= U32_LIMIT)
    modifies v`inodes, v.alloc`inodeCache, v.alloc`dirtyInode, v.alloc`dirs, v.fs`descs, v.fs`freeInodes
    ensures v.Valid() && v.fs.device == old(v.fs.device) && v.Now().UsedBlocks() == old(v.Now().UsedBlocks())
    ensures r.Ok? ==> r.value !in old(v.inodes) && r.value !in old(v.Now().UsedInodes())
                      && v.inodes == old(v.inodes)[r.value := Inode(EmptyMap(usesExtents), usesExtents, false, 0, 0, 0)]
    ensures r.Err? ==> v.inodes == old(v.inodes) && r == Err(NoInodes)
    ensures r.Ok? <==> InodeLeft(old(v.Now()))
    ensures v.Now().freeBlocks == old(v.Now()).freeBlocks
  {
    hide InodeLeft, State.Withheld, State.Valid, State.UsedBlocks, State.UsedInodes, Owns, Owned, BlocksOf, EmptyMap, AclBlock, FirstFree, InodeOrder, Kept, ZeroTaken;
    ghost var s, table, p := v.Now(), v.inodes, v.blockSize / 4;
    LeftExactly(s, near);
    r := v.alloc.AllocInode(v.fs, near, false);
    if r.Err? {
      AlikeOk(s, v.Now(), table, v.blockSize);
      return;
    }
    ghost var t := v.Now();
    var now := Inode(EmptyMap(usesExtents), usesExtents, false, 0, 0, 0);
    HandedOut(s, t, table, r.value, false, v.blockSize);
    ChangedNone(t);
    EmptiedOwns(t.device, now, p);
    BaredOwns(now);
    assert {} - {} + {} == Owned(t.device, now, p);
    Exchange(t, t, table, r.value, now, p, {}, {}, {});
    AddedOk(s, t, t, table, r.value, now, v.blockSize, {}, {});
    v.inodes := v.inodes[r.value := now];
  }

  lemma {:induction false} AlikeOk(s: State, t: State, table: Table, bs: nat)
    requires VolumeOk(s, table, bs) && Alike(s, t)
    ensures VolumeOk(t, table, bs) && t.UsedBlocks() == s.UsedBlocks() && t.UsedInodes() == s.UsedInodes() && t.device == s.device
  {
    hide State.Valid, State.UsedBlocks, State.UsedInodes, Owns, State.BlockMaps, State.InodeMaps;
    OwnsByBlocks(s, t, table, bs / 4);
  }

  /** An inode with one block. */
  function OneBlockInode(m: InodeMap, usesExtents: bool, isDir: bool, size: nat, bs: nat): Inode {
    Inode(m, usesExtents, isDir, size, bs / 512, 0)
  }

  /** A new inode: its one block holds the content given, and its count of sectors is that block's. */
  ghost predicate MadeOne(dev: Device, i: Inode, bs: nat, isDir: bool, size: nat, block: nat, content: Bytes) {
    && i.isDir == isDir && i.fileAcl == 0 && i.size == size && DataIs(dev, i.map_, bs / 4, [block])
    && HoldsFull(dev, [block], content, bs) && i.blocks == Sectors(|BlocksOf(dev, i, bs / 4)|, bs)
  }

  ghost predicate AddedOne(s: State, t: State, table: Table, table': Table, inum: nat, bs: nat, isDir: bool, size: nat, block: nat, content: Bytes) {
    && s.Valid() && t.Valid() && t.UsedBlocks() == s.UsedBlocks() + {block} && block !in s.UsedBlocks()
    && inum !in table && inum in table' && table' == table[inum := table'[inum]]
    && Kept(s, t, table, inum, bs / 4) && MadeOne(t.device, table'[inum], bs, isDir, size, block, content)
  }

  /** Make a directory's inode and its first block, which tells of the inode. */
  method MakeDirectory(v: Volume, near: nat, usesExtents: bool, content: nat -> Bytes) returns (r: Result<nat>, ghost block: nat)
    requires v.Valid() && (forall i :: |content(i)| == v.blockSize) && (usesExtents || v.fs.geo.blocksCount <= U32_LIMIT)
    modifies v`inodes, v.alloc`inodeCache, v.alloc`dirtyInode, v.alloc`dirs, v.alloc`blockCache, v.alloc`dirtyBlock
    modifies v.fs`descs, v.fs`freeInodes, v.fs`freeBlocks, v.fs`device, v.fs`log
    ensures r.Ok? ==> v.Valid() && AddedOne(old(v.Now()), v.Now(), old(v.inodes), v.inodes, r.value, v.blockSize, true, v.blockSize, block, content(r.value))
    ensures r.Ok? ==> 0 < r.value <= v.fs.geo.inodesCount && r.value in v.inodes && v.inodes[r.value].usesExtents == usesExtents
    ensures r.Ok? ==> old(v.Now()).freeBlocks <= v.Now().freeBlocks + 1
    ensures r.Ok? <==> InodeLeft(old(v.Now())) && 0 < old(v.Now()).freeBlocks
    ensures r.Err? ==> r.error == if InodeLeft(old(v.Now())) then NoSpace else NoInodes
  {
    r, block := MakeWithBlock(v, near, usesExtents, true, v.blockSize, content);
  }

  /** A target of this many bytes or more does not fit in the inode. */
  const I_BLOCK_LEN := 60

  /** Make a symbolic link too long for its inode: its target goes in a block, which reads back as it. */
  method MakeSymlink(v: Volume, near: nat, usesExtents: bool, target: Bytes) returns (r: Result<nat>, ghost block: nat)
    requires v.Valid() && I_BLOCK_LEN <= |target| <= v.blockSize && (usesExtents || v.fs.geo.blocksCount <= U32_LIMIT)
    modifies v`inodes, v.alloc`inodeCache, v.alloc`dirtyInode, v.alloc`dirs, v.alloc`blockCache, v.alloc`dirtyBlock
    modifies v.fs`descs, v.fs`freeInodes, v.fs`freeBlocks, v.fs`device, v.fs`log
    ensures r.Ok? ==> v.Valid() && AddedOne(old(v.Now()), v.Now(), old(v.inodes), v.inodes, r.value, v.blockSize, false, |target|, block, Pad(target, v.blockSize))
    ensures r.Ok? ==> FileBytes(v.fs.device, [block], |target|, v.blockSize) == target
    ensures r.Ok? <==> InodeLeft(old(v.Now())) && 0 < old(v.Now()).freeBlocks
    ensures r.Err? ==> r.error == if InodeLeft(old(v.Now())) then NoSpace else NoInodes
  {
    hide AddedOne, VolumeOk, InodeLeft, State.Valid;
    ghost var s, table := v.Now(), v.inodes;
    r, block := MakeWithBlock(v, near, usesExtents, false, |target|, i => Pad(target, v.blockSize));
    if r.Ok? {
      TargetReads(s, v.Now(), table, v.inodes, r.value, v.blockSize, block, target);
    }
  }

  lemma {:induction false} TargetReads(s: State, t: State, table: Table, table': Table, inum: nat, bs: nat, block: nat, target: Bytes)
    requires |target| <= bs && AddedOne(s, t, table, table', inum, bs, false, |target|, block, Pad(target, bs))
    ensures FileBytes(t.device, [block], |target|, bs) == target
  {
    hide HoldsFull, State.Valid, State.UsedBlocks, BlocksOf, DataIs, Kept;
    HoldsFullReads(t.device, [block], Pad(target, bs), bs);
  }

  /** Make an inode and its one block. A link's block is written before it is mapped, to the same end. */
  method MakeWithBlock(v: Volume, near: nat, usesExtents: bool, isDir: bool, size: nat, content: nat -> Bytes) returns (r: Result<nat>, ghost block: nat)
    requires v.Valid() && (forall i :: |content(i)| == v.blockSize) && (usesExtents || v.fs.geo.blocksCount <= U32_LIMIT)
    modifies v`inodes, v.alloc`inodeCache, v.alloc`dirtyInode, v.alloc`dirs, v.alloc`blockCache, v.alloc`dirtyBlock
    modifies v.fs`descs, v.fs`freeInodes, v.fs`freeBlocks, v.fs`device, v.fs`log
    ensures r.Ok? ==> v.Valid() && AddedOne(old(v.Now()), v.Now(), old(v.inodes), v.inodes, r.value, v.blockSize, isDir, size, block, content(r.value))
    ensures r.Ok? ==> 0 < r.value <= v.fs.geo.inodesCount && r.value in v.inodes && v.inodes[r.value].usesExtents == usesExtents
    ensures r.Ok? ==> old(v.Now()).freeBlocks <= v.Now().freeBlocks + 1
    ensures r.Ok? <==> InodeLeft(old(v.Now())) && 0 < old(v.Now()).freeBlocks
    ensures r.Err? ==> r.error == if InodeLeft(old(v.Now())) then NoSpace else NoInodes
  {
    hide InodeLeft, State.Withheld, State.Valid, State.UsedBlocks, State.UsedInodes, Owns, Owned, BlocksOf, EmptyMap, FirstFree, InodeOrder, Kept, ZeroTaken, WalkMap, MetaOf, DataOf, Changed, VolumeOk, MapIs, DataIs;
    ghost var s, table := v.Now(), v.inodes;
    var bs := v.blockSize;
    block := 0;
    VolumeParts(s, table, bs);
    LeftExactly(s, near);
    var inum := v.alloc.AllocInode(v.fs, near, isDir);
    if inum.Err? {
      return Err(inum.error), block;
    }
    ghost var t := v.Now();
    HandedOut(s, t, table, inum.value, isDir, bs);
    var first, written := FirstBlock(v.fs, v.alloc, bs, usesExtents, content(inum.value));
    if first.Err? {
      return Err(first.error), block;
    }
    block := first.value;
    var now := OneBlockInode(written, usesExtents, isDir, size, bs);
    NewWithBlock(s, t, v.Now(), table, inum.value, now, bs, first.value, content(inum.value));
    InodeWithin(t, inum.value);
    OneFewer(s, v.Now(), block);
    v.inodes := v.inodes[inum.value := now];
    r := Ok(inum.value);
  }

  lemma {:induction false} InodeWithin(t: State, inum: nat)
    requires t.Valid() && inum in t.UsedInodes()
    ensures 0 < inum <= t.geo.inodesCount
  {
    hide State.Valid;
  }

  /** One block more in use is at most one fewer free. */
  lemma {:induction false} OneFewer(s: State, t: State, block: nat)
    requires s.Valid() && t.Valid() && t.geo == s.geo && t.UsedBlocks() == s.UsedBlocks() + {block}
    ensures s.freeBlocks <= t.freeBlocks + 1
  {
    hide State.Valid, State.UsedBlocks, State.UsedInodes;
    TotalsCountFree(s);
    TotalsCountFree(t);
    var before, now := FreeUnits(s.geo.Blocks(), s.UsedBlocks()), FreeUnits(s.geo.Blocks(), t.UsedBlocks());
    assert before <= now + {block};
    SubsetFewer(before, now + {block});
    assert |now + {block}| <= |now| + 1;
  }

  /** A block taken, mapped and written. */
  method FirstBlock(fs: Filesystem, alloc: Allocator, bs: nat, usesExtents: bool, content: Bytes) returns (r: Result<nat>, m: InodeMap)
    requires alloc.Now(fs).Valid() && ZeroTaken(alloc.Now(fs)) && 24 <= bs && |content| == bs
    requires usesExtents || fs.geo.blocksCount <= U32_LIMIT
    modifies alloc`blockCache, alloc`dirtyBlock, fs`descs, fs`freeBlocks, fs`device, fs`log
    ensures r.Ok? ==> Changed(old(alloc.Now(fs)), alloc.Now(fs), {}, {r.value}, {r.value}) && r.value != HOLE
                      && MapIs(fs.device, m, bs / 4, [r.value], []) && HoldsFull(fs.device, [r.value], content, bs)
    ensures r.Ok? <==> 0 < old(alloc.Now(fs)).freeBlocks
    ensures r.Err? ==> r == Err(NoSpace)
  {
    hide Changed, State.Valid, State.UsedBlocks, WalkMap, DataOf, MetaOf, NoDup, Grown, ZeroTaken, EmptyMap, FirstFree, BlockOrder, HoldsFull, Elems;
    ghost var s, p := alloc.Now(fs), bs / 4;
    m := EmptyMap(usesExtents);
    r := TakeBlock(fs, alloc, 0);
    if r.Err? {
      GrownParts(s, alloc.Now(fs), []);
      return;
    }
    var b := r.value;
    ghost var t := alloc.Now(fs);
    GrownParts(s, t, [b]);
    OneNeedsNone(t.freeBlocks, usesExtents, bs);
    GrownAddressable(s, t, [b]);
    EmptyMapIs(fs.device, usesExtents, p);
    NoElems();
    OneElem(b);
    var written, own := WriteBlockList(fs, alloc, bs, m, usesExtents, [b]);
    // One block always fits in the inode.
    m := written.value.inodeMap;
    ChangedGrown(s, t, [b]);
    ghost var u := alloc.Now(fs);
    assert own == [];
    ChangedTrans(s, t, u, {}, {b}, {b}, {}, {}, {});
    assert {} + {} == Elems<nat>([]) && {b} + {} == {b};
    ChangedParts(s, u, {}, {b}, {b});
    ChangedWrite(u, b, Contents(content));
    fs.WriteBlock(b, Contents(content));
    ChangedTrans(s, u, alloc.Now(fs), {}, {b}, {b}, {}, {}, {b});
    assert {b} + {b} == {b};
    MetasStay(u, alloc.Now(fs), m, p, {}, {}, {b});
    EmptyHolds(fs.device, bs);
    HoldsFullMore(u.device, [], [], b, content, bs);
    assert [] + [b] == [b] && [] + content == content;
  }

  /** One block needs no map blocks. */
  lemma {:induction false} OneNeedsNone(free: nat, usesExtents: bool, bs: nat)
    requires 24 <= bs
    ensures Ample(free, usesExtents, bs, 1, 1)
  {
    hide Pow;
    assert 1 <= MaxEntries(bs);
  }

  lemma {:induction false} EmptyHolds(dev: Device, bs: nat)
    ensures forall d: Device :: HoldsFull(d, [], [], bs)
  {
  }

  lemma {:induction false} NewWithBlock(s: State, t: State, u: State, table: Table, inum: nat, now: Inode, bs: nat, block: nat, content: Bytes)
    requires VolumeOk(s, table, bs) && TookInode(s, t, inum, now.isDir) && Changed(t, u, {}, {block}, {block})
    requires now == OneBlockInode(now.map_, now.usesExtents, now.isDir, now.size, bs) && (now.usesExtents || s.geo.blocksCount <= U32_LIMIT)
    requires MapIs(u.device, now.map_, bs / 4, [block], []) && HoldsFull(u.device, [block], content, bs) && block != HOLE
    ensures VolumeOk(u, table[inum := now], bs) && AddedOne(s, u, table, table[inum := now], inum, bs, now.isDir, now.size, block, content)
  {
    hide State.Valid, State.UsedBlocks, State.UsedInodes, Owns, Owned, WalkMap, MetaOf, DataOf, Changed, HoldsFull, NoDup, Listed, VolumeOk, Elems, Kept, BlocksOf;
    var p := bs / 4;
    HandedOut(s, t, table, inum, now.isDir, bs);
    ChangedParts(t, u, {}, {block}, {block});
    assert DataIs(u.device, now.map_, p, [block]);
    BlocksAre(u.device, now, p, [block]);
    assert [block] + [] + [] == [block];
    OneElem(block);
    OneAlone(block);
    OwnedIs(u.device, now, p, [block]);
    Exchange(t, u, table, inum, now, p, {}, {block}, {block});
    AddedOk(s, t, u, table, inum, now, bs, {block}, {block});
    SameKept(s, t, u, table, inum, p);
  }

  lemma {:induction false} OneAlone(b: nat)
    ensures NoDup([b])
  {
  }

  lemma {:induction false} SameKept(s: State, t: State, u: State, table: Table, inum: nat, p: nat)
    requires t.device == s.device && Kept(t, u, table, inum, p)
    ensures Kept(s, u, table, inum, p)
  {
    hide SameAt, Owned;
  }

  // ---- attributes and growing directories ----

  /** An inode with an attribute block, its own or a new one. */
  function Attributed(i: Inode, block: nat, bs: nat): Inode {
    if i.fileAcl != 0 then i else i.(fileAcl := block, blocks := i.blocks + bs / 512)
  }

  /** Its attributes fit in the inode, and any block they had is given back; or they go in a block of its own. */
  method WriteXattrs(v: Volume, inum: nat, fits: bool, content: Block) returns (r: Result<()>)
    requires v.Valid() && inum in v.inodes
    modifies v`inodes, v.alloc`blockCache, v.alloc`dirtyBlock, v.fs`descs, v.fs`freeBlocks, v.fs`device, v.fs`log
    ensures r.Ok? ==> v.Valid() && Attributes(old(v.Now()), v.Now(), old(v.inodes), v.inodes, inum, v.blockSize, fits, content)
    ensures r.Ok? <==> fits || old(v.inodes)[inum].fileAcl != 0 || 0 < old(v.Now()).freeBlocks
    ensures r.Err? ==> r == Err(NoSpace)
  {
    hide Changed, State.Valid, State.UsedBlocks, NoDup, Owns, Elems, ZeroTaken, BlocksOf, Kept, State.UsedInodes, Owned, VolumeOk, WalkMap, SameAt;
    ghost var s, table, p := v.Now(), v.inodes, v.blockSize / 4;
    VolumeParts(s, table, v.blockSize);
    AclUsed(s, table, inum, p);
    var inode := v.inodes[inum];
    if fits {
      FreeXattrBlock(v, inum);
      KeptSame(s, v.Now(), table, inum, p);
      return Ok(());
    }
    var block := PutXattrs(v.fs, v.alloc, inode.fileAcl, content);
    if block.Err? {
      return Err(block.error);
    }
    ghost var u, b := v.Now(), block.value;
    ghost var came := if inode.fileAcl == 0 then {b} else {};
    ChangedParts(s, u, {}, came, {b});
    var now := Attributed(inode, block.value, v.blockSize);
    OneElem(b);
    NoElems();
    Reattributed(s, u, table, inum, now, p, {}, came, {b});
    StillOk(s, u, table, inum, now, v.blockSize, {}, came, {b});
    v.inodes := v.inodes[inum := now];
    r := Ok(());
  }

  /** Write the attributes to the block they have, or to one taken for them. */
  method PutXattrs(fs: Filesystem, alloc: Allocator, had: nat, content: Block) returns (r: Result<nat>)
    requires alloc.Now(fs).Valid() && ZeroTaken(alloc.Now(fs)) && (had == 0 || had !in fs.fixed)
    modifies alloc`blockCache, alloc`dirtyBlock, fs`descs, fs`freeBlocks, fs`device, fs`log
    ensures r.Ok? ==> r.value != 0 && (had != 0 ==> r.value == had) && r.value in fs.device && fs.device[r.value] == content
                      && Changed(old(alloc.Now(fs)), alloc.Now(fs), {}, if had == 0 then {r.value} else {}, {r.value})
    ensures r.Ok? <==> had != 0 || 0 < old(alloc.Now(fs)).freeBlocks
    ensures r.Err? ==> r == Err(NoSpace)
  {
    hide Changed, State.Valid, State.UsedBlocks, NoDup, ZeroTaken, State.UsedInodes, Grown, FirstFree, BlockOrder, SameAt;
    ghost var s := alloc.Now(fs);
    var block := had;
    if block == 0 {
      r := TakeBlock(fs, alloc, 0);
      if r.Err? {
        GrownParts(s, alloc.Now(fs), []);
        return;
      }
      block := r.value;
      GrownParts(s, alloc.Now(fs), [block]);
      ChangedGrown(s, alloc.Now(fs), [block]);
      OneElem(block);
    } else {
      ChangedNone(s);
    }
    ghost var t, came := alloc.Now(fs), if had == 0 then {block} else {};
    ChangedParts(s, t, {}, came, came);
    ChangedWrite(t, block, content);
    fs.WriteBlock(block, content);
    ghost var none: set<nat> := {};
    ChangedTrans(s, t, alloc.Now(fs), none, came, came, none, none, {block});
    assert none + none == none && came + none == came && came + {block} == {block};
    r := Ok(block);
  }

  lemma {:induction false} KeptSame(s: State, t: State, table: Table, inum: nat, p: nat)
    requires s.device == t.device
    ensures Kept(s, t, table, inum, p)
  {
    hide Owned;
  }

  /** Only the attributes are other than they were. */
  ghost predicate Attributes(s: State, t: State, table: Table, table': Table, inum: nat, bs: nat, fits: bool, content: Block) {
    && inum in table && inum in table' && table' == table[inum := table'[inum]] && Kept(s, t, table, inum, bs / 4)
    && WalkMap(t.device, table'[inum].map_, bs / 4) == WalkMap(s.device, table[inum].map_, bs / 4)
    && if fits then table'[inum] == Bared(table[inum], bs)
       else
         var b := table'[inum].fileAcl;
         table'[inum] == Attributed(table[inum], b, bs) && b != 0 && b in t.device && t.device[b] == content
  }

  function ListSize(n: nat, bs: nat): nat {
    n * bs
  }

  /** A directory's blocks as they were, with one more holding the content given. */
  ghost predicate Appended(s: State, t: State, table: Table, table': Table, inum: nat, bs: nat, was: seq<nat>, b: nat, content: Bytes)
    requires 0 < bs
  {
    var p := bs / 4;
    && inum in table && inum in table' && table' == table[inum := table'[inum]] && Kept(s, t, table, inum, p)
    && DataIs(t.device, table'[inum].map_, p, was + [b]) && b !in was
    && (forall x :: x in was ==> SameAt(s.device, t.device, x)) && HoldsFull(t.device, [b], content, bs)
    && table'[inum] == table[inum].(map_ := table'[inum].map_, size := ListSize(|was| + 1, bs), blocks := table'[inum].blocks)
    && |AclBlock(table'[inum])| <= |BlocksOf(t.device, table'[inum], p)|
    && table'[inum].blocks == Sectors(|BlocksOf(t.device, table'[inum], p)| - |AclBlock(table'[inum])|, bs)
  }

  /** Add a block to a directory that has no room anywhere. */
  method AppendBlock(v: Volume, inum: nat, content: Bytes, ghost was: seq<nat>) returns (r: Result<()>, ghost b: nat)
    requires v.Valid() && v.HasBlocks(inum, was) && |content| == v.blockSize
    modifies v`inodes, v.alloc`blockCache, v.alloc`dirtyBlock, v.fs`descs, v.fs`freeBlocks, v.fs`device, v.fs`log
    ensures r.Ok? ==> v.Valid() && Appended(old(v.Now()), v.Now(), old(v.inodes), v.inodes, inum, v.blockSize, was, b, content)
    ensures r.Err? ==> r.error == NoSpace || r.error == Unsupported
    ensures old(v.AmpleFor(inum, |was|, |was| + 1)) ==>
              r.Ok? && Spent(old(v.Now()), v.Now(), old(v.inodes)[inum].usesExtents, v.blockSize, |was|, |was| + 1)
  {
    hide Ample, Spent, MapBlocks, Changed, State.Valid, State.UsedBlocks, State.UsedInodes, WalkMap, DataOf, MetaOf, NoDup, Owns, MapIs, Elems, ZeroTaken, BlocksOf, Kept, Sectors, Grown, Owned, PlaceAll, Appended, FirstFree, BlockOrder, HoldsFull, Listed, DataIs, VolumeOk;
    ghost var s, table := v.Now(), v.inodes;
    var bs, inode := v.blockSize, v.inodes[inum];
    var p := bs / 4;
    b := 0;
    VolumeParts(s, table, bs);
    ReadsBack(v.fs.device, inode.map_, p, was);
    var list := ReadBlockList(v.fs.device, inode.map_, p);
    var goal := if list == [] then 0 else list[|list| - 1];
    var taken := TakeBlock(v.fs, v.alloc, goal);
    if taken.Err? {
      GrownParts(s, v.Now(), []);
      NoneToAppend(s.freeBlocks, inode.usesExtents, bs, |was|);
      return Err(taken.error), b;
    }
    b := taken.value;
    GrownParts(s, v.Now(), [b]);
    AmpleAfter(s.freeBlocks, v.Now().freeBlocks, inode.usesExtents, bs, |was|, |was| + 1);
    AppendReady(s, v.Now(), table, inum, bs, was, b, content);
    v.fs.WriteBlock(taken.value, Contents(content));
    ghost var u := v.Now();
    var written, own := WriteBlockList(v.fs, v.alloc, bs, inode.map_, inode.usesExtents, list + [taken.value]);
    if written.Err? {
      return Err(written.error), b;
    }
    var now := inode.(map_ := written.value.inodeMap, size := ListSize(|list| + 1, bs),
                      blocks := Sectors(|list| + 1 + written.value.metaUsed, bs));
    AppendDone(s, u, v.Now(), table, inum, now, bs, was, b, own, content);
    AppendSpent(s, u, v.Now(), table[inum], bs, was, own);
    v.inodes := v.inodes[inum := now];
    r := Ok(());
  }

  lemma {:induction false} AppendSpent(s: State, u: State, w: State, i: Inode, bs: nat, was: seq<nat>, own: seq<nat>)
    requires 24 <= bs && Changed(u, w, Elems(MetaOf(WalkMap(s.device, i.map_, bs / 4))), Elems(own), Elems(own))
    requires s.freeBlocks <= u.freeBlocks + 1 && |own| <= MapBlocks(i.usesExtents, bs, |was| + 1)
    ensures Spent(s, w, i.usesExtents, bs, |was|, |was| + 1)
  {
    hide Changed, Elems, WalkMap, MetaOf, MapBlocks;
    FreeAfter(u, w, Elems(MetaOf(WalkMap(s.device, i.map_, bs / 4))), Elems(own), Elems(own));
    FewElems(own);
    hide Spent;
    SpentAll(s, u, w, i.usesExtents, bs, |was|, |was| + 1, |own|);
  }

  lemma {:induction false} NoneToAppend(free: nat, usesExtents: bool, bs: nat, had: nat)
    requires 24 <= bs && free == 0
    ensures !Ample(free, usesExtents, bs, had, had + 1)
  {
    hide MapBlocks, Mappable;
  }

  lemma {:induction false} AppendReady(s: State, t: State, table: Table, inum: nat, bs: nat, was: seq<nat>, b: nat, content: Bytes)
    requires VolumeOk(s, table, bs) && inum in table && DataIs(s.device, table[inum].map_, bs / 4, was)
    requires Grown(s, t, [b]) && b != 0 && |content| == bs
    ensures var u, m, p := t.(device := t.device[b := Contents(content)]), table[inum].map_, bs / 4;
            && u.Valid() && ZeroTaken(u) && Changed(s, u, {}, {b}, {b}) && WalkMap(u.device, m, p) == WalkMap(s.device, m, p)
            && Elems(MetaOf(WalkMap(s.device, m, p))) !! s.fixed && HoldsFull(u.device, [b], content, bs)
            && (s.geo.blocksCount <= U32_LIMIT ==> Addressable(was + [b]))
  {
    hide State.Valid, State.UsedBlocks, State.UsedInodes, WalkMap, DataOf, MetaOf, NoDup, Owns, Elems, HoldsFull, BlocksOf, Listed, DataIs, VolumeOk, Changed, Grown, Addressable;
    var p, u := bs / 4, t.(device := t.device[b := Contents(content)]);
    VolumeParts(s, table, bs);
    OwnBlocks(s, table, inum, p, was);
    hide AclBlock;
    GrownWrite(s, t, [b], b, Contents(content));
    ChangedGrown(s, u, [b]);
    OneElem(b);
    ChangedParts(s, u, {}, {b}, {b});
    StillTaken(s, u);
    GrownAddressable(s, u, [b]);
    ListAddressable(s, was);
    AddressableMore(was, b);
    MetasStay(s, u, table[inum].map_, p, {}, {b}, {b});
    EmptyHolds(t.device, bs);
    HoldsFullMore(t.device, [], [], b, content, bs);
    assert [] + [b] == [b] && [] + content == content;
  }

  lemma {:induction false} AddressableMore(list: seq<nat>, b: nat)
    ensures Addressable(list) && Addressable([b]) ==> Addressable(list + [b])
  {
    if Addressable([b]) {
      assert [b][0] == b;
    }
  }

  lemma {:induction false} AppendDone(s: State, u: State, w: State, table: Table, inum: nat, now: Inode, bs: nat, was: seq<nat>, b: nat, own: seq<nat>, content: Bytes)
    requires VolumeOk(s, table, bs) && inum in table && DataIs(s.device, table[inum].map_, bs / 4, was)
    requires Changed(s, u, {}, {b}, {b}) && HoldsFull(u.device, [b], content, bs) && b != 0
    requires Changed(u, w, Elems(MetaOf(WalkMap(s.device, table[inum].map_, bs / 4))), Elems(own), Elems(own)) && NoDup(own)
    requires MapIs(w.device, now.map_, bs / 4, was + [b], own)
    requires now == table[inum].(map_ := now.map_, size := ListSize(|was| + 1, bs), blocks := Sectors(|was| + 1 + |own|, bs))
    ensures VolumeOk(w, table[inum := now], bs) && Appended(s, w, table, table[inum := now], inum, bs, was, b, content)
  {
    hide State.Valid, State.UsedBlocks, State.UsedInodes, WalkMap, DataOf, MetaOf, NoDup, Owns, Elems, HoldsFull, BlocksOf, Listed, VolumeOk, Changed, MapIs, Sectors, Kept, SameAt, ListSize;
    var p, list := bs / 4, was + [b];
    var metas := MetaOf(WalkMap(s.device, table[inum].map_, p));
    VolumeParts(s, table, bs);
    hide DataIs;
    OwnBlocks(s, table, inum, p, was);
    ChangedParts(s, u, {}, {b}, {b});
    ChangedParts(u, w, Elems(metas), Elems(own), Elems(own));
    ChangedTrans(s, u, w, {}, {b}, {b}, Elems(metas), Elems(own), Elems(own));
    OneElem(b);
    OneAlone(b);
    ElemsConcat(was, [b]);
    AppendSets(Elems(was), b, Elems(metas), Elems(own), s.UsedBlocks());
    NoDupSplit(was, [b]);
    assert b !in was by {
      assert b in was ==> b in Elems(was) by { ElemsHas(was, b); }
    }
    NoHoleIn(s.device, table[inum].map_, p, was, b);
    Replaced(s, w, table, inum, now, p, was, list, own, {b} + Elems(own));
    StillOk(s, w, table, inum, now, bs, {} + Elems(metas), {b} + Elems(own), {b} + Elems(own));
    ChangedParts(s, w, {} + Elems(metas), {b} + Elems(own), {b} + Elems(own));
    ContentStays(u, w, b, content, bs, Elems(own));
    forall x | x in was ensures SameAt(s.device, w.device, x) {
      ElemsHas(was, x);
    }
  }

  lemma {:induction false} ElemsHas(list: seq<nat>, x: nat)
    ensures x in list <==> x in Elems(list)
  {
  }

  lemma {:induction false} NoHoleIn(dev: Device, m: InodeMap, p: nat, was: seq<nat>, b: nat)
    requires DataIs(dev, m, p, was) && b != HOLE
    ensures HOLE !in was + [b]
  {
  }

  lemma {:induction false} AppendSets(W: set<nat>, b: nat, M: set<nat>, O: set<nat>, used: set<nat>)
    requires W !! M && W + M <= used && b !in used && O !! used + {b} - M
    ensures b !in W && b !in M && b !in O && W !! O
    ensures W - (W + {b}) + M == {} + M && W + {b} - W + O == {b} + O
    ensures {b} + O <= W + {b} + O && O !! W + {b} - W && {b} !! W
  {
  }

  lemma {:induction false} ContentStays(u: State, w: State, b: nat, content: Bytes, bs: nat, touched: set<nat>)
    requires HoldsFull(u.device, [b], content, bs) && b !in touched
    requires forall x :: x !in touched ==> SameAt(u.device, w.device, x)
    ensures HoldsFull(w.device, [b], content, bs)
  {
    assert SameAt(u.device, w.device, b);
    hide HoldsFull;
    HoldsFullFrame(u.device, w.device, [b], content, bs);
  }

  /** One block of a directory holds the content given, and nothing else is other than it was. */
  ghost predicate Edited(s: State, t: State, table: Table, inum: nat, bs: nat, list: seq<nat>, k: nat, content: Bytes) {
    && s.Valid() && t.Valid() && inum in table && k < |list| && DataIs(t.device, table[inum].map_, bs / 4, list)
    && BlocksOf(t.device, table[inum], bs / 4) == BlocksOf(s.device, table[inum], bs / 4)
    && t.device == s.device[list[k] := Contents(content)] && Kept(s, t, table, inum, bs / 4)
    && t.UsedBlocks() == s.UsedBlocks()
  }

  /** Write one of a directory's blocks back, with a name put in, taken out or repointed. */
  method EditBlock(v: Volume, inum: nat, k: nat, content: Bytes, ghost was: seq<nat>)
    requires v.Valid() && v.HasBlocks(inum, was) && k < |was|
    modifies v.fs`device, v.fs`log
    ensures v.Valid() && Edited(old(v.Now()), v.Now(), v.inodes, inum, v.blockSize, was, k, content)
  {
    hide State.Valid, State.UsedBlocks, State.UsedInodes, WalkMap, DataOf, MetaOf, NoDup, Owns, Elems, ZeroTaken, BlocksOf, Kept, PlaceAll, HoldsFull, DataIs, VolumeOk;
    var list := ReadBlockList(v.fs.device, v.inodes[inum].map_, v.blockSize / 4);
    ReadsBack(v.fs.device, v.inodes[inum].map_, v.blockSize / 4, was);
    EditKeeps(v.Now(), v.inodes, inum, v.blockSize, was, k, content);
    v.fs.WriteBlock(list[k], Contents(content));
  }

  lemma {:induction false} EditKeeps(s: State, table: Table, inum: nat, bs: nat, list: seq<nat>, k: nat, content: Bytes)
    requires VolumeOk(s, table, bs) && inum in table && DataIs(s.device, table[inum].map_, bs / 4, list) && k < |list|
    ensures var t := s.(device := s.device[list[k] := Contents(content)]);
            VolumeOk(t, table, bs) && Edited(s, t, table, inum, bs, list, k, content)
  {
    hide State.Valid, State.UsedBlocks, State.UsedInodes, WalkMap, DataOf, MetaOf, NoDup, Owns, Elems, ZeroTaken, Kept, VolumeOk, Changed, AclBlock, Listed;
    var p, b := bs / 4, list[k];
    var t := s.(device := s.device[b := Contents(content)]);
    VolumeParts(s, table, bs);
    OwnBlocks(s, table, inum, p, list);
    ElemsHas(list, b);
    ChangedWrite(s, b, Contents(content));
    ChangedParts(s, t, {}, {}, {b});
    MetasStay(s, t, table[inum].map_, p, {}, {}, {b});
    OwnedIs(t.device, table[inum], p, BlocksOf(s.device, table[inum], p));
    OwnedIs(s.device, table[inum], p, BlocksOf(s.device, table[inum], p));
    OwnersDistinct(s, table, inum, p);
    hide Owned, BlocksOf;
    Exchange(s, t, table, inum, table[inum], p, {}, {}, {b});
    StillOk(s, t, table, inum, table[inum], bs, {}, {}, {b});
    assert table[inum := table[inum]] == table;
  }

  lemma {:induction false} OwnersDistinct(s: State, table: Table, inum: nat, p: nat)
    requires s.Valid() && Owns(s, table, p) && inum in table
    ensures NoDup(BlocksOf(s.device, table[inum], p))
  {
    hide State.Valid, State.UsedBlocks, NoDup, BlocksOf;
  }

  // ---- a directory laid out anew ----

  /** The blocks one after another. */
  function AllOf(blocks: seq<Bytes>): Bytes {
    if blocks == [] then [] else AllOf(blocks[..|blocks| - 1]) + blocks[|blocks| - 1]
  }

  lemma {:induction false} AllOfLong(blocks: seq<Bytes>, bs: nat)
    requires forall k :: 0 <= k < |blocks| ==> |blocks[k]| == bs
    ensures |AllOf(blocks)| == |blocks| * bs
  {
    if blocks != [] {
      AllOfLong(blocks[..|blocks| - 1], bs);
      assert |blocks| * bs == (|blocks| - 1) * bs + bs;
    }
  }

  lemma {:induction false} LastOf(blocks: seq<Bytes>, bs: nat)
    requires blocks != [] && |blocks[|blocks| - 1]| == bs
    ensures var all, n := AllOf(blocks), |blocks| - 1;
            bs <= |all| && all[|all| - bs..] == blocks[n] && all[..|all| - bs] == AllOf(blocks[..n])
  {
  }

  lemma {:induction false} FullParts(dev: Device, list: seq<nat>, data: Bytes, bs: nat)
    requires HoldsFull(dev, list, data, bs) && list != []
    ensures bs <= |data| && BlockBytes(dev, list[|list| - 1], bs) == data[|data| - bs..]
    ensures HoldsFull(dev, list[..|list| - 1], data[..|data| - bs], bs)
  {
  }

  /** Blocks that hold a whole number of them hold one each. */
  lemma {:induction false} HoldEach(dev: Device, list: seq<nat>, blocks: seq<Bytes>, bs: nat)
    requires HoldsFull(dev, list, AllOf(blocks), bs) && |list| == |blocks| && forall k :: 0 <= k < |blocks| ==> |blocks[k]| == bs
    ensures forall k :: 0 <= k < |blocks| ==> BlockBytes(dev, list[k], bs) == blocks[k]
  {
    hide BlockBytes, HoldsFull, AllOf;
    if blocks != [] {
      var n := |blocks| - 1;
      LastOf(blocks, bs);
      FullParts(dev, list, AllOf(blocks), bs);
      HoldEach(dev, list[..n], blocks[..n], bs);
      forall k | 0 <= k < n ensures BlockBytes(dev, list[k], bs) == blocks[k] {
        assert list[..n][k] == list[k] && blocks[..n][k] == blocks[k];
      }
    }
  }

  lemma {:induction false} NoTail(dev: Device, list: seq<nat>, data: Bytes, n: nat, bs: nat)
    requires HoldsData(dev, list, data, bs) && |data| == n * bs && 0 < bs
    ensures HoldsFull(dev, list, data, bs)
  {
    hide HoldsFull, BlockBytes;
    if !HoldsFull(dev, list, data, bs) {
      var t :| HoldsTail(dev, list, data, t, bs);
      HoldsFullReads(dev, list[..|list| - 1], data[..|data| - t], bs);
      TailOdd(n, |list| - 1, t, bs);
    }
  }

  lemma {:induction false} AsMany(dev: Device, list: seq<nat>, data: Bytes, n: nat, bs: nat)
    requires HoldsFull(dev, list, data, bs) && |data| == n * bs && 0 < bs
    ensures |list| == n
  {
    hide HoldsFull;
    HoldsFullReads(dev, list, data, bs);
    MulMono(n + 1, |list|, bs);
    MulMono(|list| + 1, n, bs);
  }

  lemma {:induction false} TailOdd(n: nat, k: nat, t: nat, bs: nat)
    requires 0 < t < bs
    ensures n * bs != k * bs + t
  {
    DivModUnique(k * bs + t, k, t, bs);
    DivModUnique(n * bs, n, 0, bs);
  }

  /**
   Replace a directory's blocks with those given: those it has keep their place,
   what it has too few is taken, what it has too many goes back.
   */
  method WriteDirectory(v: Volume, inum: nat, blocks: seq<Bytes>, ghost was: seq<nat>) returns (r: Result<()>, ghost list: seq<nat>)
    requires v.Valid() && v.HasBlocks(inum, was) && forall k :: 0 <= k < |blocks| ==> |blocks[k]| == v.blockSize
    modifies v`inodes, v.alloc`blockCache, v.alloc`dirtyBlock, v.fs`descs, v.fs`freeBlocks, v.fs`device, v.fs`log
    ensures r.Ok? ==> v.Valid() && Rewrote(old(v.Now()), v.Now(), old(v.inodes), v.inodes, inum, v.blockSize, list, AllOf(blocks))
    ensures r.Ok? ==> |list| == |blocks| && KeptPart(was, list) && WroteOnce(old(v.fs.log), v.fs.log, list)
    ensures r.Ok? ==> forall k :: 0 <= k < |blocks| ==> BlockBytes(v.fs.device, list[k], v.blockSize) == blocks[k]
    ensures r.Err? ==> r.error == NoSpace || r.error == Unsupported
    ensures old(v.AmpleFor(inum, |was|, |blocks|)) ==>
              r.Ok? && Spent(old(v.Now()), v.Now(), old(v.inodes)[inum].usesExtents, v.blockSize, |was|, |blocks|)
  {
    hide Ample, Spent, CeilDiv, VolumeOk, DataIs, Rewrote, KeptPart, WroteOnce, State.Valid, BlockBytes;
    VolumeParts(v.Now(), v.inodes, v.blockSize);
    ghost var s, table := v.Now(), v.inodes;
    AllOfLong(blocks, v.blockSize);
    WholeBlocks(|blocks|, v.blockSize);
    r, list := v.Rewrite(inum, AllOf(blocks), true, was);
    if r.Ok? {
      RewroteHolds(s, v.Now(), table, v.inodes, inum, v.blockSize, list, AllOf(blocks));
      NoTail(v.fs.device, list, AllOf(blocks), |blocks|, v.blockSize);
      AsMany(v.fs.device, list, AllOf(blocks), |blocks|, v.blockSize);
      HoldEach(v.fs.device, list, blocks, v.blockSize);
    }
  }

  lemma {:induction false} WholeBlocks(n: nat, bs: nat)
    requires 0 < bs
    ensures CeilDiv(n * bs, bs) == n
  {
    DivModUnique(n * bs + bs - 1, n, bs - 1, bs);
  }

  lemma {:induction false} RewroteHolds(s: State, t: State, table: Table, table': Table, inum: nat, bs: nat, list: seq<nat>, data: Bytes)
    requires inum in table && 0 < bs && Rewrote(s, t, table, table', inum, bs, list, data)
    ensures HoldsData(t.device, list, data, bs)
  {
    hide WalkMap, DataOf, MetaOf, BlocksOf, HoldsData, NoDup, Kept, DataIs;
  }
}
