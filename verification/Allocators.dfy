/**
 The allocator (src/alloc.rs), one object over the filesystem it serves. What
 its methods keep is said of State, the values its fields hold together.
 */
module Allocators {
  import opened Base
  import opened Disk
  import opened Bitmaps
  import opened Allocation

  /** The inode numbers below the first a caller may be given. */
  function Reserved(firstIno: nat): (r: set<nat>)
    ensures forall u :: u in r <==> 1 <= u < firstIno
  {
    if firstIno <= 1 then {} else Reserved(firstIno - 1) + {firstIno - 1}
  }

  /** A group's descriptor after an inode with `unused` inodes behind it is handed out or given back. */
  function InodeDesc(d: Desc, unused: nat, v: bool, dir: bool): Desc {
    if v then
      d.(freeInodes := SatSub(d.freeInodes, 1), usedDirs := if dir then d.usedDirs + 1 else d.usedDirs,
         inodeUninit := false, itableUnused := if d.itableUnused > unused then unused else d.itableUnused)
    else
      d.(freeInodes := d.freeInodes + 1, usedDirs := if dir then SatSub(d.usedDirs, 1) else d.usedDirs)
  }

  datatype State = State(
    geo: Geometry,
    fixed: set<nat>,  // superblocks, descriptors, bitmaps, inode tables
    descs: seq<Desc>, freeBlocks: nat, freeInodes: nat, device: Device,
    blockCache: map<nat, Bits>, dirtyBlock: map<nat, bool>,
    inodeCache: map<nat, Bits>, dirtyInode: map<nat, bool>,
    dirs: set<nat>  // the inodes handed out as directories
  ) {
    ghost predicate Layout() {
      && geo.Valid() && |descs| == geo.Groups()
      && CacheOk(blockCache, dirtyBlock, device, BlockLocs(descs))
      && CacheOk(inodeCache, dirtyInode, device, InodeLocs(descs))
      && NoDup(BlockLocs(descs) + InodeLocs(descs))
    }

    ghost function BlockMaps(): (r: seq<Bits>)
      requires Layout()
      ensures |r| == |descs|
    {
      Current(blockCache, device, BlockLocs(descs))
    }

    ghost function InodeMaps(): (r: seq<Bits>)
      requires Layout()
      ensures |r| == |descs|
    {
      Current(inodeCache, device, InodeLocs(descs))
    }

    ghost predicate BlocksOk()
      requires Layout()
    {
      && Counted(geo.Blocks(), BlockMaps(), FreeBlocks(descs), freeBlocks)
      && fixed <= UsedUnits(geo.Blocks(), BlockMaps())
      && (forall g :: 0 <= g < |descs| ==> descs[g].blockBitmap in fixed && descs[g].inodeBitmap in fixed)
    }

    ghost predicate InodesOk()
      requires Layout()
    {
      && Counted(geo.Inodes(), InodeMaps(), FreeInodes(descs), freeInodes)
      && TailUnused(geo.Inodes(), InodeMaps(), descs)
      && (forall d :: d in dirs ==> 1 <= d) && dirs <= UsedUnits(geo.Inodes(), InodeMaps())
      && DirsCounted(geo.Inodes(), dirs, descs)
    }

    /** Bitmaps, counters and device agree. */
    ghost predicate Valid() {
      Layout() && BlocksOk() && InodesOk()
    }

    ghost function UsedBlocks(): set<nat>
      requires Valid()
    {
      UsedUnits(geo.Blocks(), BlockMaps())
    }

    ghost function UsedInodes(): set<nat>
      requires Valid()
    {
      UsedUnits(geo.Inodes(), InodeMaps())
    }

    /** The inodes a search may not hand out: those in use and those reserved. */
    ghost function Withheld(): set<nat>
      requires Valid()
    {
      UsedInodes() + Reserved(geo.firstIno)
    }

    // ---- the steps the methods are made of ----

    function LoadBlock(g: nat): State
      requires g < |descs| && descs[g].blockBitmap in device && device[descs[g].blockBitmap].Bitmap?
    {
      if g in blockCache then this
      else this.(blockCache := blockCache[g := device[descs[g].blockBitmap].bits])
    }

    function LoadInode(g: nat): State
      requires g < |descs| && descs[g].inodeBitmap in device && device[descs[g].inodeBitmap].Bitmap?
    {
      if g in inodeCache then this
      else this.(inodeCache := inodeCache[g := device[descs[g].inodeBitmap].bits])
    }

    function MarkBlock(g: nat, i: nat, v: bool): State
      requires g < |descs| && g in blockCache && i < |blockCache[g]|
    {
      var d := descs[g];
      this.(blockCache := blockCache[g := blockCache[g][i := v]],
            dirtyBlock := dirtyBlock[g := true],
            descs := descs[g := d.(freeBlocks := if v then SatSub(d.freeBlocks, 1) else d.freeBlocks + 1,
                                   blockUninit := d.blockUninit && !v)],
            freeBlocks := if v then SatSub(freeBlocks, 1) else freeBlocks + 1)
    }

    /** `dir` says whether the inode being handed out or given back is a directory's. */
    function MarkInode(g: nat, i: nat, v: bool, dir: bool): State
      requires g < |descs| && g in inodeCache && i < |inodeCache[g]| && i < geo.inodesPerGroup
    {
      var u := geo.Inodes().First(g) + i;
      var now := InodeDesc(descs[g], geo.inodesPerGroup - (i + 1), v, dir);
      this.(inodeCache := inodeCache[g := inodeCache[g][i := v]],
            dirtyInode := dirtyInode[g := true],
            descs := descs[g := now],
            freeInodes := if v then SatSub(freeInodes, 1) else freeInodes + 1,
            dirs := if !dir then dirs else if v then dirs + {u} else dirs - {u})
    }
  }

  /** The parts of a mounted filesystem that allocation reads and writes. */
  class Filesystem {
    const geo: Geometry
    ghost const fixed: set<nat>
    var descs: seq<Desc>
    var freeBlocks: nat
    var freeInodes: nat
    var device: Device
    /** Every block written so far, one after another. */
    ghost var log: seq<nat>

    constructor (geo: Geometry, ghost fixed: set<nat>, descs: seq<Desc>, freeBlocks: nat, freeInodes: nat, device: Device)
      ensures this.geo == geo && this.fixed == fixed && this.descs == descs
      ensures this.freeBlocks == freeBlocks && this.freeInodes == freeInodes && this.device == device
      ensures log == []
    {
      this.geo, this.fixed, this.descs := geo, fixed, descs;
      this.freeBlocks, this.freeInodes, this.device, log := freeBlocks, freeInodes, device, [];
    }

    method WriteBlock(block: nat, content: Block)
      modifies this`device, this`log
      ensures device == old(device)[block := content] && log == old(log) + [block]
    {
      device := device[block := content];
      log := log + [block];
    }
  }

  /** Two states that differ at most in which bitmaps have been read in. */
  ghost predicate Alike(s: State, t: State) {
    && s.Valid() && t.Valid()
    && t == s.(blockCache := t.blockCache, inodeCache := t.inodeCache)
    && t.BlockMaps() == s.BlockMaps() && t.InodeMaps() == s.InodeMaps()
    && t.UsedBlocks() == s.UsedBlocks() && t.UsedInodes() == s.UsedInodes()
  }

  lemma {:induction false} LoadBlockAlike(s: State, g: nat)
    requires s.Valid() && g < |s.descs|
    ensures s.descs[g].blockBitmap in s.device && s.device[s.descs[g].blockBitmap].Bitmap?
    ensures Alike(s, s.LoadBlock(g)) && g in s.LoadBlock(g).blockCache
    ensures s.LoadBlock(g).blockCache[g] == s.BlockMaps()[g]
  {
    hide State.BlocksOk, State.InodesOk, NoDup;
    var locs := BlockLocs(s.descs);
    assert locs[g] == s.descs[g].blockBitmap;
    LoadCurrent(s.blockCache, s.dirtyBlock, s.device, locs, g);
    OkByMaps(s, s.LoadBlock(g));
  }

  lemma {:induction false} LoadInodeAlike(s: State, g: nat)
    requires s.Valid() && g < |s.descs|
    ensures s.descs[g].inodeBitmap in s.device && s.device[s.descs[g].inodeBitmap].Bitmap?
    ensures Alike(s, s.LoadInode(g)) && g in s.LoadInode(g).inodeCache
    ensures s.LoadInode(g).inodeCache[g] == s.InodeMaps()[g]
  {
    hide State.BlocksOk, State.InodesOk, NoDup;
    var locs := InodeLocs(s.descs);
    assert locs[g] == s.descs[g].inodeBitmap;
    LoadCurrent(s.inodeCache, s.dirtyInode, s.device, locs, g);
    OkByMaps(s, s.LoadInode(g));
  }

  /** Reading a bitmap in changes no bitmap. */
  lemma {:induction false} LoadCurrent(cache: map<nat, Bits>, dirty: map<nat, bool>, device: Device, locs: seq<nat>, g: nat)
    requires CacheOk(cache, dirty, device, locs) && g < |locs|
    ensures var c := if g in cache then cache else cache[g := device[locs[g]].bits];
            && CacheOk(c, dirty, device, locs) && c[g] == Current(cache, device, locs)[g]
            && Current(c, device, locs) == Current(cache, device, locs)
  {
  }

  lemma {:induction false} OkByMaps(s: State, t: State)
    requires s.Valid() && t.Layout() && t == s.(blockCache := t.blockCache, inodeCache := t.inodeCache)
    requires t.BlockMaps() == s.BlockMaps() && t.InodeMaps() == s.InodeMaps()
    ensures t.Valid() && Alike(s, t)
  {
    hide Counted, TailUnused, DirsCounted, CacheOk, Current;
  }

  /** Setting a bit in a cached bitmap sets it in the bitmaps as they stand. */
  lemma {:induction false} MarkCurrent(cache: map<nat, Bits>, dirty: map<nat, bool>, device: Device, locs: seq<nat>, g: nat, i: nat, v: bool)
    requires CacheOk(cache, dirty, device, locs) && g < |locs| && g in cache && i < |cache[g]|
    ensures Current(cache, device, locs)[g] == cache[g]
    ensures CacheOk(cache[g := cache[g][i := v]], dirty[g := true], device, locs)
    ensures Current(cache[g := cache[g][i := v]], device, locs) == SetBit(Current(cache, device, locs), g, i, v)
  {
  }

  lemma {:induction false} SpacesValid(s: State)
    requires s.Layout()
    ensures s.geo.Blocks().Valid(|s.BlockMaps()|) && s.geo.Inodes().Valid(|s.InodeMaps()|)
    ensures 0 < s.geo.Blocks().per && 0 < s.geo.Inodes().per
    ensures s.geo.Valid() && |s.descs| == s.geo.Groups()
  {
  }

  lemma {:induction false} MarkBlockLayout(s: State, g: nat, i: nat, v: bool)
    requires s.Layout() && g < |s.descs| && g in s.blockCache && i < |s.blockCache[g]|
    ensures s.blockCache[g] == s.BlockMaps()[g]
    ensures var t := s.MarkBlock(g, i, v);
            && t.Layout() && t.BlockMaps() == SetBit(s.BlockMaps(), g, i, v) && t.InodeMaps() == s.InodeMaps()
  {
    hide CacheOk, Current, SetBit;
    DescsFields(s.descs, s.MarkBlock(g, i, v).descs, g);
    MarkCurrent(s.blockCache, s.dirtyBlock, s.device, BlockLocs(s.descs), g, i, v);
  }

  /** Marking one free block used, or one used block free, keeps everything in step. */
  lemma {:induction false} MarkBlockKeeps(s: State, g: nat, i: nat, v: bool)
    requires s.Valid() && g < |s.descs| && i < s.geo.Blocks().InGroup(g)
    requires g in s.blockCache && i < |s.blockCache[g]| && s.blockCache[g][i] != v
    requires v || s.geo.Blocks().First(g) + i !in s.fixed
    ensures v ==> 0 < s.descs[g].freeBlocks && 0 < s.freeBlocks
    ensures var t, u := s.MarkBlock(g, i, v), s.geo.Blocks().First(g) + i;
            && t.Valid()
            && t.UsedBlocks() == (if v then s.UsedBlocks() + {u} else s.UsedBlocks() - {u})
            && t.UsedInodes() == s.UsedInodes()
  {
    hide Counted, UsedUnits, Sized, State.Layout, State.BlocksOk, CacheOk, Current, Space.First, Space.InGroup, Space.Valid;
    hide Geometry.Valid, Geometry.Groups, BlockLocs, InodeLocs, FreeBlocks, FreeInodes, NoDup, SetBit, State.BlockMaps;
    MarkBlockLayout(s, g, i, v);
    MarkBlockBlocks(s, g, i, v);
    SpacesValid(s);
    var t := s.MarkBlock(g, i, v);
    assert t.InodesOk() by {
      DescsFields(s.descs, t.descs, g);
      CountedSized(s.geo.Inodes(), s.InodeMaps(), FreeInodes(s.descs), s.freeInodes);
      TailCarries(s.geo.Inodes(), s.InodeMaps(), s.descs, t.descs);
      DirsCarry(s.geo.Inodes(), s.dirs, s.descs, t.descs);
    }
  }

  lemma {:induction false} MarkBlockBlocks(s: State, g: nat, i: nat, v: bool)
    requires s.Layout() && s.BlocksOk() && g < |s.descs| && i < s.geo.Blocks().InGroup(g)
    requires g in s.blockCache && i < |s.blockCache[g]| && s.blockCache[g][i] != v
    requires v || s.geo.Blocks().First(g) + i !in s.fixed
    ensures v ==> 0 < s.descs[g].freeBlocks && 0 < s.freeBlocks
    ensures var t, u := s.MarkBlock(g, i, v), s.geo.Blocks().First(g) + i;
            && t.Layout() && t.BlocksOk()
            && UsedUnits(t.geo.Blocks(), t.BlockMaps())
            == (if v then UsedUnits(s.geo.Blocks(), s.BlockMaps()) + {u} else UsedUnits(s.geo.Blocks(), s.BlockMaps()) - {u})
  {
    hide Counted, UsedUnits, Sized, Clear, Sum, State.Layout, CacheOk, Current, Space.First, Space.InGroup, Space.Valid;
    hide Geometry.Valid, Geometry.Groups, BlockLocs, InodeLocs, FreeBlocks, FreeInodes, NoDup, SetBit, State.BlockMaps;
    MarkBlockLayout(s, g, i, v);
    SpacesValid(s);
    var sp, maps, free := s.geo.Blocks(), s.BlockMaps(), FreeBlocks(s.descs);
    CountedSized(sp, maps, free, s.freeBlocks);
    CountedSet(sp, maps, free, s.freeBlocks, g, i, v);
    SetBitMarks(sp, maps, g, i, v);
    DescsFields(s.descs, s.MarkBlock(g, i, v).descs, g);
  }

  lemma {:induction false} CountedSized(sp: Space, maps: seq<Bits>, free: seq<nat>, total: nat)
    requires Counted(sp, maps, free, total)
    ensures Sized(sp, maps) && |free| == |maps|
  {
  }

  lemma {:induction false} DescsFields(a: seq<Desc>, b: seq<Desc>, g: nat)
    requires g < |a| == |b| && b == a[g := b[g]]
    requires b[g].blockBitmap == a[g].blockBitmap && b[g].inodeBitmap == a[g].inodeBitmap
    ensures BlockLocs(b) == BlockLocs(a) && InodeLocs(b) == InodeLocs(a)
    ensures b[g].freeInodes == a[g].freeInodes ==> FreeInodes(b) == FreeInodes(a)
    ensures b[g].freeBlocks == a[g].freeBlocks ==> FreeBlocks(b) == FreeBlocks(a)
    ensures FreeBlocks(b) == FreeBlocks(a)[g := b[g].freeBlocks]
    ensures FreeInodes(b) == FreeInodes(a)[g := b[g].freeInodes]
    ensures FreeBlocks(a)[g] == a[g].freeBlocks && FreeInodes(a)[g] == a[g].freeInodes
  {
  }

  lemma {:induction false} TailCarries(sp: Space, maps: seq<Bits>, a: seq<Desc>, b: seq<Desc>)
    requires |a| == |b| == |maps| && Sized(sp, maps) && TailUnused(sp, maps, a)
    requires forall g :: 0 <= g < |a| ==> b[g].itableUnused <= a[g].itableUnused
    ensures TailUnused(sp, maps, b)
  {
  }

  lemma {:induction false} DirsCarry(sp: Space, dirs: set<nat>, a: seq<Desc>, b: seq<Desc>)
    requires 0 < sp.per && (forall d :: d in dirs ==> sp.base <= d) && DirsCounted(sp, dirs, a)
    requires |a| == |b| && forall g :: 0 <= g < |a| ==> b[g].usedDirs == a[g].usedDirs
    ensures DirsCounted(sp, dirs, b)
  {
  }

  lemma {:induction false} MarkInodeLayout(s: State, g: nat, i: nat, v: bool, dir: bool)
    requires s.Layout() && g < |s.descs| && g in s.inodeCache && i < |s.inodeCache[g]| && i < s.geo.inodesPerGroup
    ensures s.inodeCache[g] == s.InodeMaps()[g]
    ensures var t := s.MarkInode(g, i, v, dir);
            && t.Layout() && t.InodeMaps() == SetBit(s.InodeMaps(), g, i, v) && t.BlockMaps() == s.BlockMaps()
  {
    hide CacheOk, Current, SetBit;
    DescsFields(s.descs, s.MarkInode(g, i, v, dir).descs, g);
    MarkCurrent(s.inodeCache, s.dirtyInode, s.device, InodeLocs(s.descs), g, i, v);
  }

  lemma {:induction false} TailMarked(sp: Space, maps: seq<Bits>, a: seq<Desc>, b: seq<Desc>, g: nat, i: nat, v: bool)
    requires |a| == |b| == |maps| && Sized(sp, maps) && TailUnused(sp, maps, a) && g < |a| && i < sp.InGroup(g)
    requires b == a[g := b[g]] && b[g].itableUnused <= a[g].itableUnused
    requires v ==> i < sp.per && b[g].itableUnused <= sp.per - (i + 1)
    ensures Sized(sp, SetBit(maps, g, i, v)) && TailUnused(sp, SetBit(maps, g, i, v), b)
  {
  }

  lemma {:induction false} DirsMarked(sp: Space, dirs: set<nat>, a: seq<Desc>, b: seq<Desc>, g: nat, u: nat, v: bool)
    requires 0 < sp.per && (forall d :: d in dirs ==> sp.base <= d) && DirsCounted(sp, dirs, a)
    requires g < |a| == |b| && b == a[g := b[g]] && sp.base <= u && sp.GroupOf(u) == g
    requires (u in dirs) != v
    requires b[g].usedDirs == if v then a[g].usedDirs + 1 else SatSub(a[g].usedDirs, 1)
    ensures DirsCounted(sp, if v then dirs + {u} else dirs - {u}, b)
    ensures !v ==> 0 < a[g].usedDirs
  {
    var now := if v then dirs + {u} else dirs - {u};
    assert DirsIn(sp, now, g) == if v then DirsIn(sp, dirs, g) + {u} else DirsIn(sp, dirs, g) - {u};
    assert u in DirsIn(sp, dirs + {u}, g);
    forall h | 0 <= h < |a| && h != g ensures DirsIn(sp, now, h) == DirsIn(sp, dirs, h) {
    }
  }

  /** Handing an inode out, or taking one back, keeps everything in step. */
  lemma {:induction false} MarkInodeKeeps(s: State, g: nat, i: nat, v: bool, dir: bool)
    requires s.Valid() && g < |s.descs| && i < s.geo.Inodes().InGroup(g)
    requires g in s.inodeCache && i < |s.inodeCache[g]| && s.inodeCache[g][i] != v
    requires v || (dir <==> s.geo.Inodes().First(g) + i in s.dirs)
    ensures i < s.geo.inodesPerGroup
    ensures v ==> 0 < s.descs[g].freeInodes && 0 < s.freeInodes
    ensures !v && dir ==> 0 < s.descs[g].usedDirs
    ensures var t, u := s.MarkInode(g, i, v, dir), s.geo.Inodes().First(g) + i;
            && t.Valid()
            && t.UsedInodes() == (if v then s.UsedInodes() + {u} else s.UsedInodes() - {u})
            && t.UsedBlocks() == s.UsedBlocks()
  {
    hide Counted, UsedUnits, Sized, State.Layout, State.InodesOk, CacheOk, Current, Space.First, Space.InGroup, Space.Valid;
    hide Geometry.Valid, Geometry.Groups, BlockLocs, InodeLocs, FreeBlocks, FreeInodes, NoDup, SetBit, State.InodeMaps;
    InPer(s.geo.Inodes(), g, i);
    MarkInodeLayout(s, g, i, v, dir);
    MarkInodeInodes(s, g, i, v, dir);
    SpacesValid(s);
    var t := s.MarkInode(g, i, v, dir);
    assert t.BlocksOk() by {
      DescsFields(s.descs, t.descs, g);
    }
  }

  lemma {:induction false} InPer(sp: Space, g: nat, i: nat)
    requires i < sp.InGroup(g)
    ensures i < sp.per
  {
  }

  lemma {:induction false} MarkInodeInodes(s: State, g: nat, i: nat, v: bool, dir: bool)
    requires s.Layout() && s.InodesOk() && g < |s.descs| && i < s.geo.Inodes().InGroup(g) && i < s.geo.inodesPerGroup
    requires g in s.inodeCache && i < |s.inodeCache[g]| && s.inodeCache[g][i] != v
    requires v || (dir <==> s.geo.Inodes().First(g) + i in s.dirs)
    ensures v ==> 0 < s.descs[g].freeInodes && 0 < s.freeInodes
    ensures !v && dir ==> 0 < s.descs[g].usedDirs
    ensures var t, u := s.MarkInode(g, i, v, dir), s.geo.Inodes().First(g) + i;
            && t.Layout() && t.InodesOk()
            && UsedUnits(t.geo.Inodes(), t.InodeMaps())
            == (if v then UsedUnits(s.geo.Inodes(), s.InodeMaps()) + {u} else UsedUnits(s.geo.Inodes(), s.InodeMaps()) - {u})
  {
    hide Counted, UsedUnits, Sized, Clear, Sum, State.Layout, CacheOk, Current, Space.First, Space.InGroup, Space.Valid;
    hide Geometry.Valid, Geometry.Groups, BlockLocs, InodeLocs, FreeBlocks, FreeInodes, NoDup, SetBit, State.InodeMaps;
    hide TailUnused, DirsCounted;
    MarkInodeLayout(s, g, i, v, dir);
    SpacesValid(s);
    var sp, maps, free, t := s.geo.Inodes(), s.InodeMaps(), FreeInodes(s.descs), s.MarkInode(g, i, v, dir);
    var u := sp.First(g) + i;
    CountedSized(sp, maps, free, s.freeInodes);
    CountedSet(sp, maps, free, s.freeInodes, g, i, v);
    SetBitMarks(sp, maps, g, i, v);
    DescsFields(s.descs, t.descs, g);
    Placed(sp, g, i);
    UnmarkedUnused(sp, maps, g, i);
    TailMarked(sp, maps, s.descs, t.descs, g, i, v);
    if dir {
      DirsMarked(sp, s.dirs, s.descs, t.descs, g, u, v);
    } else {
      DirsCarry(sp, s.dirs, s.descs, t.descs);
    }
  }

  lemma {:induction false} UnmarkedUnused(sp: Space, maps: seq<Bits>, g: nat, i: nat)
    requires sp.Valid(|maps|) && Sized(sp, maps) && g < |maps| && i < sp.InGroup(g)
    ensures sp.First(g) + i in UsedUnits(sp, maps) <==> maps[g][i]
  {
    Placed(sp, g, i);
  }

  // ---- what a search finds ----

  function Wrapped(from: nat, j: nat, n: nat): (i: nat)
    requires from <= n && j < n
    ensures i < n
  {
    if from + j < n then from + j else from + j - n
  }

  lemma {:induction false} OrderUsed(sp: Space, maps: seq<Bits>, g: nat, from: nat, j: nat)
    requires sp.Valid(|maps|) && Sized(sp, maps) && g < |maps| && from <= sp.InGroup(g) && j < sp.InGroup(g)
    ensures GroupOrder(sp, g, from)[j] == sp.First(g) + Wrapped(from, j, sp.InGroup(g))
    ensures GroupOrder(sp, g, from)[j] in UsedUnits(sp, maps) <==> maps[g][Wrapped(from, j, sp.InGroup(g))]
  {
    UnmarkedUnused(sp, maps, g, Wrapped(from, j, sp.InGroup(g)));
  }

  /** A group whose search finds nothing is passed over. */
  lemma {:induction false} GroupFull(sp: Space, maps: seq<Bits>, g: nat, from: nat, rest: seq<nat>)
    requires sp.Valid(|maps|) && Sized(sp, maps) && g < |maps| && from <= sp.InGroup(g)
    requires forall j :: 0 <= j < sp.InGroup(g) ==> maps[g][Wrapped(from, j, sp.InGroup(g))]
    ensures FirstFree(GroupOrder(sp, g, from) + rest, UsedUnits(sp, maps)) == FirstFree(rest, UsedUnits(sp, maps))
  {
    forall j | 0 <= j < sp.InGroup(g) ensures GroupOrder(sp, g, from)[j] in UsedUnits(sp, maps) {
      OrderUsed(sp, maps, g, from, j);
    }
    FirstFreeSkip(GroupOrder(sp, g, from), rest, UsedUnits(sp, maps));
  }

  /** The first clear bit of a group's search is the first free unit. */
  lemma {:induction false} GroupHit(sp: Space, maps: seq<Bits>, g: nat, from: nat, j: nat, rest: seq<nat>)
    requires sp.Valid(|maps|) && Sized(sp, maps) && g < |maps| && from <= sp.InGroup(g) && j < sp.InGroup(g)
    requires !maps[g][Wrapped(from, j, sp.InGroup(g))]
    requires forall k :: 0 <= k < j ==> maps[g][Wrapped(from, k, sp.InGroup(g))]
    ensures FirstFree(GroupOrder(sp, g, from) + rest, UsedUnits(sp, maps))
         == Some(sp.First(g) + Wrapped(from, j, sp.InGroup(g)))
  {
    var order := GroupOrder(sp, g, from) + rest;
    forall k | 0 <= k < j ensures order[k] in UsedUnits(sp, maps) {
      OrderUsed(sp, maps, g, from, k);
    }
    OrderUsed(sp, maps, g, from, j);
    FirstFreeAt(order, j, UsedUnits(sp, maps));
  }

  // ---- what one call does ----

  /** t is s after block b was taken: b was free, and nothing else moved but the counts. */
  ghost predicate TookBlock(s: State, t: State, b: nat) {
    && s.Valid() && t.Valid()
    && s.geo.firstDataBlock <= b < s.geo.blocksCount && b !in s.UsedBlocks()
    && t.UsedBlocks() == s.UsedBlocks() + {b} && t.UsedInodes() == s.UsedInodes()
    && t.geo == s.geo && t.fixed == s.fixed && t.device == s.device && t.dirs == s.dirs
    && t.freeBlocks == s.freeBlocks - 1 && t.freeInodes == s.freeInodes
  }

  ghost predicate GaveBlock(s: State, t: State, b: nat) {
    && s.Valid() && t.Valid()
    && b in s.UsedBlocks()
    && t.UsedBlocks() == s.UsedBlocks() - {b} && t.UsedInodes() == s.UsedInodes()
    && t.geo == s.geo && t.fixed == s.fixed && t.device == s.device && t.dirs == s.dirs
    && t.freeBlocks == s.freeBlocks + 1 && t.freeInodes == s.freeInodes
  }

  class Allocator {
    var blockCache: map<nat, Bits>
    var inodeCache: map<nat, Bits>
    var dirtyBlock: map<nat, bool>
    var dirtyInode: map<nat, bool>
    ghost var dirs: set<nat>

    ghost function Now(fs: Filesystem): State
      reads this, fs
    {
      State(fs.geo, fs.fixed, fs.descs, fs.freeBlocks, fs.freeInodes, fs.device,
            blockCache, dirtyBlock, inodeCache, dirtyInode, dirs)
    }

    method LoadBlockBitmap(fs: Filesystem, g: nat)
      requires Now(fs).Valid() && g < |fs.descs|
      modifies this`blockCache
      ensures Alike(old(Now(fs)), Now(fs)) && g in blockCache && blockCache[g] == Now(fs).BlockMaps()[g]
    {
      hide State.Valid, Alike;
      LoadBlockAlike(Now(fs), g);
      if g !in blockCache {
        blockCache := blockCache[g := fs.device[fs.descs[g].blockBitmap].bits];
      }
      assert Now(fs) == old(Now(fs)).LoadBlock(g);
    }

    method LoadInodeBitmap(fs: Filesystem, g: nat)
      requires Now(fs).Valid() && g < |fs.descs|
      modifies this`inodeCache
      ensures Alike(old(Now(fs)), Now(fs)) && g in inodeCache && inodeCache[g] == Now(fs).InodeMaps()[g]
    {
      hide State.Valid, Alike;
      LoadInodeAlike(Now(fs), g);
      if g !in inodeCache {
        inodeCache := inodeCache[g := fs.device[fs.descs[g].inodeBitmap].bits];
      }
      assert Now(fs) == old(Now(fs)).LoadInode(g);
    }

    /** Set or clear one block's bit, moving the group's and the superblock's counts with it. */
    method MarkBlock(fs: Filesystem, g: nat, i: nat, v: bool)
      requires Now(fs).Valid() && g < |fs.descs| && i < fs.geo.Blocks().InGroup(g)
      requires g in blockCache && i < |blockCache[g]| && blockCache[g][i] != v
      requires v || fs.geo.Blocks().First(g) + i !in fs.fixed
      modifies this`blockCache, this`dirtyBlock, fs`descs, fs`freeBlocks
      ensures Now(fs) == old(Now(fs)).MarkBlock(g, i, v)
      ensures var u := fs.geo.Blocks().First(g) + i;
              if v then TookBlock(old(Now(fs)), Now(fs), u) else GaveBlock(old(Now(fs)), Now(fs), u)
    {
      hide State.Layout, State.BlocksOk, State.InodesOk, Space.First, Space.InGroup, State.UsedBlocks, State.UsedInodes;
      MarkBlockKeeps(Now(fs), g, i, v);
      MarkedUnit(Now(fs), g, i);
      var d := fs.descs[g];
      blockCache := blockCache[g := blockCache[g][i := v]];
      dirtyBlock := dirtyBlock[g := true];
      if v {
        fs.descs := fs.descs[g := d.(freeBlocks := SatSub(d.freeBlocks, 1), blockUninit := false)];
        fs.freeBlocks := SatSub(fs.freeBlocks, 1);
      } else {
        fs.descs := fs.descs[g := d.(freeBlocks := d.freeBlocks + 1)];
        fs.freeBlocks := fs.freeBlocks + 1;
      }
    }

    /** Take the first free block of one group, in the order searched, if it has any. */
    method TryGroup(fs: Filesystem, g: nat, from: nat, ghost rest: seq<nat>) returns (r: Option<nat>)
      requires Now(fs).Valid() && g < |fs.descs| && from <= fs.geo.Blocks().InGroup(g)
      modifies this`blockCache, this`dirtyBlock, fs`descs, fs`freeBlocks
      ensures FirstFree(GroupOrder(fs.geo.Blocks(), g, from) + rest, old(Now(fs)).UsedBlocks())
           == if r.Some? then r else FirstFree(rest, old(Now(fs)).UsedBlocks())
      ensures if r.Some? then TookBlock(old(Now(fs)), Now(fs), r.value) else Alike(old(Now(fs)), Now(fs))
    {
      hide State.Layout, State.BlocksOk, State.InodesOk, FirstFree, GroupOrder, State.UsedBlocks, Space.First, Space.InGroup;
      LoadBlockBitmap(fs, g);
      ghost var s := Now(fs);
      BitmapLongEnough(s, g);
      var n := fs.geo.Blocks().InGroup(g);
      var found := FindClear(blockCache[g], from, n);
      match found {
        case Some(j) =>
          BlockHit(s, g, from, j, rest);
          MarkBlock(fs, g, Wrapped(from, j, n), true);
          return Some(fs.geo.Blocks().First(g) + Wrapped(from, j, n));
        case None =>
          BlocksFull(s, g, from, rest);
          return None;
      }
    }

    /** Allocate one block, preferring the group `goal` is in, and in it the bit at `goal` or after. */
    method AllocBlock(fs: Filesystem, goal: nat) returns (r: Result<nat>)
      requires Now(fs).Valid()
      modifies this`blockCache, this`dirtyBlock, fs`descs, fs`freeBlocks
      ensures r == old(match FirstFree(BlockOrder(fs.geo.Blocks(), fs.geo.Groups(), goal, 0), Now(fs).UsedBlocks())
                       case None => Err(NoSpace)
                       case Some(b) => Ok(b))
      ensures if r.Ok? then TookBlock(old(Now(fs)), Now(fs), r.value) else Alike(old(Now(fs)), Now(fs))
    {
      hide State.Layout, State.BlocksOk, State.InodesOk, FirstFree, GroupOrder, State.UsedBlocks;
      hide Space.First, Space.InGroup, Space.Valid, Geometry.Valid, Geometry.Groups;
      SpacesValid(Now(fs));
      AlikeSelf(Now(fs));
      var sp, groups := fs.geo.Blocks(), fs.geo.Groups();
      var start := StartGroup(sp, goal);
      for step := 0 to groups
        invariant Alike(old(Now(fs)), Now(fs))
        invariant FirstFree(BlockOrder(sp, groups, goal, step), old(Now(fs)).UsedBlocks())
               == FirstFree(BlockOrder(sp, groups, goal, 0), old(Now(fs)).UsedBlocks())
      {
        var g := (start + step) % groups;
        var n, first := sp.InGroup(g), sp.First(g);
        var from := if step == 0 && first <= goal < first + n then goal - first else 0;
        var found := TryGroup(fs, g, from, BlockOrder(sp, groups, goal, step + 1));
        if found.Some? {
          return Ok(found.value);
        }
      }
      return Err(NoSpace);
    }

    /** The bits of one group, from `from` round to the one before it: the first that is clear. */
    method FindClear(bits: Bits, from: nat, n: nat) returns (r: Option<nat>)
      requires from <= n <= |bits|
      ensures r.Some? ==> r.value < n && !bits[Wrapped(from, r.value, n)]
      ensures forall k :: 0 <= k < (if r.Some? then r.value else n) ==> bits[Wrapped(from, k, n)]
    {
      for j := 0 to n
        invariant forall k :: 0 <= k < j ==> bits[Wrapped(from, k, n)]
      {
        if !bits[Wrapped(from, j, n)] {
          return Some(j);
        }
      }
      return None;
    }

    /** Allocate `count` blocks, each sought from where the one before it was found. */
    method AllocBlocks(fs: Filesystem, goal: nat, count: nat) returns (r: Result<seq<nat>>)
      requires Now(fs).Valid()
      modifies this`blockCache, this`dirtyBlock, fs`descs, fs`freeBlocks
      ensures Now(fs).Valid()
      ensures r.Ok? ==> |r.value| == count && TookBlocks(old(Now(fs)), Now(fs), r.value)
      ensures r.Err? ==> r.error == NoSpace
                         && (exists taken :: |taken| < count && TookBlocks(old(Now(fs)), Now(fs), taken))
                         && (forall b :: fs.geo.firstDataBlock <= b < fs.geo.blocksCount ==> b in Now(fs).UsedBlocks())
    {
      hide State.Layout, State.BlocksOk, State.InodesOk, FirstFree, BlockOrder;
      var out: seq<nat> := [];
      var nextGoal := goal;
      TookNone(Now(fs));
      for i := 0 to count
        invariant |out| == i && TookBlocks(old(Now(fs)), Now(fs), out)
      {
        ghost var s := Now(fs);
        var block := AllocBlock(fs, nextGoal);
        if block.Err? {
          NoSpaceMeansFull(s, nextGoal);
          TookAlike(old(Now(fs)), s, Now(fs), out);
          return Err(block.error);
        }
        TookMore(old(Now(fs)), s, Now(fs), out, block.value);
        nextGoal := block.value + 1;
        out := out + [block.value];
      }
      return Ok(out);
    }

    /** Give a block back; one that is out of range or already free is left alone. */
    method FreeBlock(fs: Filesystem, block: nat)
      requires Now(fs).Valid() && block !in fs.fixed
      modifies this`blockCache, this`dirtyBlock, fs`descs, fs`freeBlocks
      ensures if old(block in Now(fs).UsedBlocks()) then GaveBlock(old(Now(fs)), Now(fs), block)
              else Alike(old(Now(fs)), Now(fs))
    {
      hide State.Layout, State.BlocksOk, State.InodesOk, Space.First, Space.InGroup, State.UsedBlocks;
      SpacesValid(Now(fs));
      AlikeSelf(Now(fs));
      if block < fs.geo.firstDataBlock || block >= fs.geo.blocksCount {
        OutOfRange(Now(fs), block);
        return;
      }
      BlockPlace(Now(fs), block);
      var g := fs.geo.Blocks().GroupOf(block);
      var index := block - fs.geo.Blocks().First(g);
      LoadBlockBitmap(fs, g);
      BitmapLongEnough(Now(fs), g);
      BlockPlace(Now(fs), block);
      if !blockCache[g][index] {
        return;
      }
      MarkBlock(fs, g, index, false);
    }

    /** The first inode of one group that is neither reserved nor in use. */
    method FindInode(geo: Geometry, bits: Bits, g: nat) returns (r: Option<nat>)
      requires geo.Inodes().InGroup(g) <= |bits|
      ensures r.Some? ==> r.value < geo.Inodes().InGroup(g) && !bits[r.value] && geo.firstIno <= geo.Inodes().First(g) + r.value
      ensures forall k :: 0 <= k < (if r.Some? then r.value else geo.Inodes().InGroup(g)) ==>
                bits[k] || geo.Inodes().First(g) + k < geo.firstIno
    {
      for i := 0 to geo.inodesPerGroup
        invariant i <= geo.Inodes().InGroup(g)
        invariant forall k :: 0 <= k < i ==> bits[k] || geo.Inodes().First(g) + k < geo.firstIno
      {
        var inum := g * geo.inodesPerGroup + i + 1;
        if inum > geo.inodesCount {
          break;
        }
        // The reserved ones are not for files.
        if inum < geo.firstIno {
          continue;
        }
        if !bits[i] {
          return Some(i);
        }
      }
      return None;
    }

    method MarkInode(fs: Filesystem, g: nat, i: nat, v: bool, dir: bool)
      requires Now(fs).Valid() && g < |fs.descs| && i < fs.geo.Inodes().InGroup(g)
      requires g in inodeCache && i < |inodeCache[g]| && inodeCache[g][i] != v
      requires v || (dir <==> fs.geo.Inodes().First(g) + i in dirs)
      modifies this`inodeCache, this`dirtyInode, this`dirs, fs`descs, fs`freeInodes
      ensures i < fs.geo.inodesPerGroup && Now(fs) == old(Now(fs)).MarkInode(g, i, v, dir)
      ensures var u := fs.geo.Inodes().First(g) + i;
              if v then TookInode(old(Now(fs)), Now(fs), u, dir) else GaveInode(old(Now(fs)), Now(fs), u)
    {
      hide State.Layout, State.BlocksOk, State.InodesOk, Space.First, Space.InGroup, State.UsedBlocks, State.UsedInodes;
      MarkInodeKeeps(Now(fs), g, i, v, dir);
      MarkedInode(Now(fs), g, i);
      inodeCache := inodeCache[g := inodeCache[g][i := v]];
      dirtyInode := dirtyInode[g := true];
      fs.descs := fs.descs[g := InodeDesc(fs.descs[g], fs.geo.inodesPerGroup - (i + 1), v, dir)];
      fs.freeInodes := if v then SatSub(fs.freeInodes, 1) else fs.freeInodes + 1;
      dirs := if !dir then dirs else if v then dirs + {fs.geo.Inodes().First(g) + i} else dirs - {fs.geo.Inodes().First(g) + i};
      hide InodeDesc;
    }

    method TryInodeGroup(fs: Filesystem, g: nat, isDir: bool, ghost rest: seq<nat>) returns (r: Option<nat>)
      requires Now(fs).Valid() && g < |fs.descs|
      modifies this`inodeCache, this`dirtyInode, this`dirs, fs`descs, fs`freeInodes
      ensures FirstFree(GroupOrder(fs.geo.Inodes(), g, 0) + rest, old(Now(fs)).Withheld())
           == if r.Some? then r else FirstFree(rest, old(Now(fs)).Withheld())
      ensures if r.Some? then TookInode(old(Now(fs)), Now(fs), r.value, isDir) else Alike(old(Now(fs)), Now(fs))
    {
      hide State.Layout, State.BlocksOk, State.InodesOk, FirstFree, GroupOrder, State.UsedInodes, Space.First, Space.InGroup;
      LoadInodeBitmap(fs, g);
      ghost var s := Now(fs);
      BitmapLongEnough(s, g);
      var found := FindInode(fs.geo, inodeCache[g], g);
      match found {
        case Some(i) =>
          InodeHit(s, g, i, rest);
          MarkInode(fs, g, i, true, isDir);
          return Some(fs.geo.Inodes().First(g) + i);
        case None =>
          InodesFull(s, g, rest);
          return None;
      }
    }

    /** Allocate an inode, preferring the group `near` is in. `isDir` keeps the directory tally straight. */
    method AllocInode(fs: Filesystem, near: nat, isDir: bool) returns (r: Result<nat>)
      requires Now(fs).Valid()
      modifies this`inodeCache, this`dirtyInode, this`dirs, fs`descs, fs`freeInodes
      ensures r == old(match FirstFree(InodeOrder(fs.geo.Inodes(), fs.geo.Groups(), near, 0), Now(fs).Withheld())
                       case None => Err(NoInodes)
                       case Some(u) => Ok(u))
      ensures if r.Ok? then TookInode(old(Now(fs)), Now(fs), r.value, isDir) else Alike(old(Now(fs)), Now(fs))
    {
      hide State.Layout, State.BlocksOk, State.InodesOk, FirstFree, GroupOrder, State.UsedInodes;
      hide Space.First, Space.InGroup, Space.Valid, Geometry.Valid, Geometry.Groups;
      SpacesValid(Now(fs));
      AlikeSelf(Now(fs));
      var sp, groups := fs.geo.Inodes(), fs.geo.Groups();
      var start := if near > 0 && near <= fs.geo.inodesCount then (near - 1) / fs.geo.inodesPerGroup else 0;
      assert start == StartGroup(sp, near);
      for step := 0 to groups
        invariant Alike(old(Now(fs)), Now(fs))
        invariant FirstFree(InodeOrder(sp, groups, near, step), old(Now(fs)).Withheld())
               == FirstFree(InodeOrder(sp, groups, near, 0), old(Now(fs)).Withheld())
      {
        var g := (start + step) % groups;
        var found := TryInodeGroup(fs, g, isDir, InodeOrder(sp, groups, near, step + 1));
        if found.Some? {
          return Ok(found.value);
        }
      }
      return Err(NoInodes);
    }

    /** Give an inode back. `wasDir` must say truly whether it was a directory's. */
    method FreeInode(fs: Filesystem, inum: nat, wasDir: bool)
      requires Now(fs).Valid()
      requires inum in Now(fs).UsedInodes() ==> (wasDir <==> inum in dirs)
      modifies this`inodeCache, this`dirtyInode, this`dirs, fs`descs, fs`freeInodes
      ensures if old(inum in Now(fs).UsedInodes()) then GaveInode(old(Now(fs)), Now(fs), inum)
              else Alike(old(Now(fs)), Now(fs))
    {
      hide State.Layout, State.BlocksOk, State.InodesOk, Space.First, Space.InGroup, State.UsedInodes;
      SpacesValid(Now(fs));
      AlikeSelf(Now(fs));
      assert fs.geo.Inodes().base == 1 && fs.geo.Inodes().per == fs.geo.inodesPerGroup;
      if inum == 0 || inum > fs.geo.inodesCount {
        InodeOutOfRange(Now(fs), inum);
        return;
      }
      InodePlace(Now(fs), inum);
      var g := (inum - 1) / fs.geo.inodesPerGroup;
      var index := (inum - 1) % fs.geo.inodesPerGroup;
      LoadInodeBitmap(fs, g);
      InodePlace(Now(fs), inum);
      if !inodeCache[g][index] {
        return;
      }
      MarkInode(fs, g, index, false, wasDir);
    }

    predicate IsDirty()
      reads this
    {
      (exists g :: g in dirtyBlock && dirtyBlock[g]) || (exists g :: g in dirtyInode && dirtyInode[g])
    }

    /** Write back every bitmap that changed. */
    method Flush(fs: Filesystem)
      requires Now(fs).Valid()
      modifies this`dirtyBlock, this`dirtyInode, fs`device, fs`log
      ensures Now(fs) == old(Now(fs)).(device := fs.device, dirtyBlock := map[], dirtyInode := map[])
      ensures Flushed(old(Now(fs)), Now(fs)) && !IsDirty()
    {
      hide State.Valid, State.Layout, State.BlocksOk, State.InodesOk;
      ghost var s := Now(fs);
      for g := 0 to |fs.descs|
        modifies fs`device, fs`log
        invariant fs.device == WrittenBack(s.device, blockCache, dirtyBlock, BlockLocs(fs.descs), g)
      {
        if g in blockCache && g in dirtyBlock && dirtyBlock[g] {
          fs.WriteBlock(fs.descs[g].blockBitmap, Bitmap(blockCache[g]));
        }
      }
      ghost var mid := fs.device;
      for g := 0 to |fs.descs|
        modifies fs`device, fs`log
        invariant fs.device == WrittenBack(mid, inodeCache, dirtyInode, InodeLocs(fs.descs), g)
      {
        if g in inodeCache && g in dirtyInode && dirtyInode[g] {
          fs.WriteBlock(fs.descs[g].inodeBitmap, Bitmap(inodeCache[g]));
        }
      }
      dirtyBlock := map[];
      dirtyInode := map[];
      hide WrittenBack;
      FlushKeeps(s);
    }
  }

  lemma {:induction false} AlikeSelf(s: State)
    requires s.Valid()
    ensures Alike(s, s)
  {
  }

  lemma {:induction false} MarkedUnit(s: State, g: nat, i: nat)
    requires s.Valid() && g < |s.descs| && i < s.geo.Blocks().InGroup(g) && g in s.blockCache && i < |s.blockCache[g]|
    ensures var u := s.geo.Blocks().First(g) + i;
            && s.geo.firstDataBlock <= u < s.geo.blocksCount
            && (u in s.UsedBlocks() <==> s.blockCache[g][i])
  {
    hide State.Layout, State.BlocksOk, State.InodesOk, State.BlockMaps;
    CachedMap(s, g);
    BlocksSized(s);
    Placed(s.geo.Blocks(), g, i);
    UnmarkedUnused(s.geo.Blocks(), s.BlockMaps(), g, i);
  }

  lemma {:induction false} CachedMap(s: State, g: nat)
    requires s.Layout() && g < |s.descs|
    ensures g in s.blockCache ==> s.blockCache[g] == s.BlockMaps()[g]
    ensures g in s.inodeCache ==> s.inodeCache[g] == s.InodeMaps()[g]
  {
    hide NoDup, Geometry.Valid;
    if g in s.blockCache {
      CachedIsCurrent(s.blockCache, s.device, BlockLocs(s.descs), g);
    }
    if g in s.inodeCache {
      CachedIsCurrent(s.inodeCache, s.device, InodeLocs(s.descs), g);
    }
  }

  lemma {:induction false} BlocksSized(s: State)
    requires s.Valid()
    ensures s.geo.Blocks().Valid(|s.descs|) && Sized(s.geo.Blocks(), s.BlockMaps())
  {
  }

  lemma {:induction false} CachedIsCurrent(cache: map<nat, Bits>, device: Device, locs: seq<nat>, g: nat)
    requires g < |locs| && g in cache
    requires forall g :: 0 <= g < |locs| ==> locs[g] in device && device[locs[g]].Bitmap?
    ensures Current(cache, device, locs)[g] == cache[g]
  {
  }

  lemma {:induction false} BitmapLongEnough(s: State, g: nat)
    requires s.Valid() && g < |s.descs|
    ensures s.geo.Blocks().InGroup(g) <= |s.BlockMaps()[g]| && s.geo.Inodes().InGroup(g) <= |s.InodeMaps()[g]|
  {
  }

  lemma {:induction false} BlockHit(s: State, g: nat, from: nat, j: nat, rest: seq<nat>)
    requires s.Valid() && g < |s.descs| && from <= s.geo.Blocks().InGroup(g) <= |s.BlockMaps()[g]| && j < s.geo.Blocks().InGroup(g)
    requires !s.BlockMaps()[g][Wrapped(from, j, s.geo.Blocks().InGroup(g))]
    requires forall k :: 0 <= k < j ==> s.BlockMaps()[g][Wrapped(from, k, s.geo.Blocks().InGroup(g))]
    ensures FirstFree(GroupOrder(s.geo.Blocks(), g, from) + rest, s.UsedBlocks())
         == Some(s.geo.Blocks().First(g) + Wrapped(from, j, s.geo.Blocks().InGroup(g)))
  {
    hide State.Layout, State.BlocksOk, State.InodesOk, Space.First, Space.InGroup, GroupOrder, FirstFree;
    BlocksSized(s);
    GroupHit(s.geo.Blocks(), s.BlockMaps(), g, from, j, rest);
  }

  lemma {:induction false} BlocksFull(s: State, g: nat, from: nat, rest: seq<nat>)
    requires s.Valid() && g < |s.descs| && from <= s.geo.Blocks().InGroup(g) <= |s.BlockMaps()[g]|
    requires forall k :: 0 <= k < s.geo.Blocks().InGroup(g) ==> s.BlockMaps()[g][Wrapped(from, k, s.geo.Blocks().InGroup(g))]
    ensures FirstFree(GroupOrder(s.geo.Blocks(), g, from) + rest, s.UsedBlocks()) == FirstFree(rest, s.UsedBlocks())
  {
    hide State.Layout, State.BlocksOk, State.InodesOk;
    BlocksSized(s);
    GroupFull(s.geo.Blocks(), s.BlockMaps(), g, from, rest);
  }

  lemma {:induction false} OutOfRange(s: State, block: nat)
    requires s.Valid() && (block < s.geo.firstDataBlock || s.geo.blocksCount <= block)
    ensures block !in s.UsedBlocks()
  {
  }

  lemma {:induction false} BlockPlace(s: State, block: nat)
    requires s.Valid() && s.geo.firstDataBlock <= block < s.geo.blocksCount
    ensures var sp := s.geo.Blocks();
            var g := sp.GroupOf(block);
            && g < |s.descs| && sp.First(g) <= block < sp.First(g) + sp.InGroup(g)
            && block - sp.First(g) < |s.BlockMaps()[g]|
            && (block in s.UsedBlocks() <==> s.BlockMaps()[g][block - sp.First(g)])
  {
    hide State.Layout, State.BlocksOk, State.InodesOk;
    BlocksSized(s);
    var sp := s.geo.Blocks();
    Located(sp, |s.descs|, block);
    UnmarkedUnused(sp, s.BlockMaps(), sp.GroupOf(block), sp.IndexOf(block));
  }

  /** A search that finds no space has seen every block in use. */
  lemma {:induction false} NoSpaceMeansFull(s: State, goal: nat)
    requires s.Valid() && FirstFree(BlockOrder(s.geo.Blocks(), s.geo.Groups(), goal, 0), s.UsedBlocks()) == None
    ensures forall b :: s.geo.firstDataBlock <= b < s.geo.blocksCount ==> b in s.UsedBlocks()
  {
    forall b | s.geo.firstDataBlock <= b < s.geo.blocksCount ensures b in s.UsedBlocks() {
      BlockOrderComplete(s.geo.Blocks(), s.geo.Groups(), goal, b);
    }
  }

  /** t is s after the blocks of the list, distinct and all free before, were taken. */
  ghost predicate TookBlocks(s: State, t: State, taken: seq<nat>) {
    && s.Valid() && t.Valid() && NoDup(taken) && Elems(taken) !! s.UsedBlocks()
    && (forall b :: b in taken ==> s.geo.firstDataBlock <= b < s.geo.blocksCount)
    && t.UsedBlocks() == s.UsedBlocks() + Elems(taken) && t.UsedInodes() == s.UsedInodes()
    && t.geo == s.geo && t.fixed == s.fixed && t.device == s.device && t.dirs == s.dirs
    && t.freeBlocks == s.freeBlocks - |taken| && t.freeInodes == s.freeInodes
  }

  lemma {:induction false} TookNone(s: State)
    requires s.Valid()
    ensures TookBlocks(s, s, [])
  {
  }

  lemma {:induction false} TookMore(s: State, t: State, u: State, taken: seq<nat>, b: nat)
    requires TookBlocks(s, t, taken) && TookBlock(t, u, b)
    ensures TookBlocks(s, u, taken + [b])
  {
    hide State.Valid, State.UsedBlocks, State.UsedInodes;
    assert Elems(taken + [b]) == Elems(taken) + {b};
  }

  lemma {:induction false} TookAlike(s: State, t: State, u: State, taken: seq<nat>)
    requires TookBlocks(s, t, taken) && Alike(t, u)
    ensures TookBlocks(s, u, taken) && u.UsedBlocks() == t.UsedBlocks()
  {
    hide State.Layout, State.BlocksOk, State.InodesOk;
  }

  ghost predicate TookInode(s: State, t: State, u: nat, dir: bool) {
    && s.Valid() && t.Valid()
    && 1 <= u <= s.geo.inodesCount && u !in s.UsedInodes()
    && t.UsedInodes() == s.UsedInodes() + {u} && t.UsedBlocks() == s.UsedBlocks()
    && t.geo == s.geo && t.fixed == s.fixed && t.device == s.device
    && t.dirs == (if dir then s.dirs + {u} else s.dirs)
    && t.freeBlocks == s.freeBlocks && t.freeInodes == s.freeInodes - 1
  }

  ghost predicate GaveInode(s: State, t: State, u: nat) {
    && s.Valid() && t.Valid()
    && u in s.UsedInodes()
    && t.UsedInodes() == s.UsedInodes() - {u} && t.UsedBlocks() == s.UsedBlocks()
    && t.geo == s.geo && t.fixed == s.fixed && t.device == s.device
    && t.dirs == s.dirs - {u}
    && t.freeBlocks == s.freeBlocks && t.freeInodes == s.freeInodes + 1
  }

  lemma {:induction false} MarkedInode(s: State, g: nat, i: nat)
    requires s.Valid() && g < |s.descs| && i < s.geo.Inodes().InGroup(g) && g in s.inodeCache && i < |s.inodeCache[g]|
    ensures var u := s.geo.Inodes().First(g) + i;
            && 1 <= u <= s.geo.inodesCount
            && (u in s.UsedInodes() <==> s.inodeCache[g][i])
  {
    hide State.Layout, State.BlocksOk, State.InodesOk, State.InodeMaps;
    CachedMap(s, g);
    InodesSized(s);
    Placed(s.geo.Inodes(), g, i);
    UnmarkedUnused(s.geo.Inodes(), s.InodeMaps(), g, i);
  }

  lemma {:induction false} InodesSized(s: State)
    requires s.Valid()
    ensures s.geo.Inodes().Valid(|s.descs|) && Sized(s.geo.Inodes(), s.InodeMaps())
  {
  }

  lemma {:induction false} InodeOrderWithheld(s: State, g: nat, k: nat)
    requires s.Valid() && g < |s.descs| && k < s.geo.Inodes().InGroup(g) <= |s.InodeMaps()[g]|
    ensures GroupOrder(s.geo.Inodes(), g, 0)[k] == s.geo.Inodes().First(g) + k
    ensures GroupOrder(s.geo.Inodes(), g, 0)[k] in s.Withheld() <==> s.InodeMaps()[g][k] || s.geo.Inodes().First(g) + k < s.geo.firstIno
  {
    hide State.Layout, State.BlocksOk, State.InodesOk;
    InodesSized(s);
    OrderUsed(s.geo.Inodes(), s.InodeMaps(), g, 0, k);
    Placed(s.geo.Inodes(), g, k);
  }

  lemma {:induction false} InodeHit(s: State, g: nat, i: nat, rest: seq<nat>)
    requires s.Valid() && g < |s.descs| && i < s.geo.Inodes().InGroup(g) <= |s.InodeMaps()[g]|
    requires !s.InodeMaps()[g][i] && s.geo.firstIno <= s.geo.Inodes().First(g) + i
    requires forall k :: 0 <= k < i ==> s.InodeMaps()[g][k] || s.geo.Inodes().First(g) + k < s.geo.firstIno
    ensures FirstFree(GroupOrder(s.geo.Inodes(), g, 0) + rest, s.Withheld()) == Some(s.geo.Inodes().First(g) + i)
  {
    hide State.Valid, State.Withheld, Space.First, Space.InGroup, FirstFree;
    var order := GroupOrder(s.geo.Inodes(), g, 0) + rest;
    forall k | 0 <= k < i ensures order[k] in s.Withheld() {
      InodeOrderWithheld(s, g, k);
    }
    InodeOrderWithheld(s, g, i);
    FirstFreeAt(order, i, s.Withheld());
  }

  lemma {:induction false} InodesFull(s: State, g: nat, rest: seq<nat>)
    requires s.Valid() && g < |s.descs| && s.geo.Inodes().InGroup(g) <= |s.InodeMaps()[g]|
    requires forall k :: 0 <= k < s.geo.Inodes().InGroup(g) ==> s.InodeMaps()[g][k] || s.geo.Inodes().First(g) + k < s.geo.firstIno
    ensures FirstFree(GroupOrder(s.geo.Inodes(), g, 0) + rest, s.Withheld()) == FirstFree(rest, s.Withheld())
  {
    hide State.Valid, State.Withheld, Space.First, Space.InGroup, FirstFree;
    var order := GroupOrder(s.geo.Inodes(), g, 0);
    forall k | 0 <= k < |order| ensures order[k] in s.Withheld() {
      InodeOrderWithheld(s, g, k);
    }
    FirstFreeSkip(order, rest, s.Withheld());
  }

  lemma {:induction false} InodeOutOfRange(s: State, inum: nat)
    requires s.Valid() && (inum == 0 || s.geo.inodesCount < inum)
    ensures inum !in s.UsedInodes()
  {
  }

  lemma {:induction false} InodePlace(s: State, inum: nat)
    requires s.Valid() && 1 <= inum <= s.geo.inodesCount
    ensures 0 < s.geo.inodesPerGroup
    ensures var sp := s.geo.Inodes();
            var g, i := sp.GroupOf(inum), sp.IndexOf(inum);
            && g < |s.descs| && i < sp.InGroup(g) && sp.First(g) + i == inum
            && i < |s.InodeMaps()[g]|
            && (inum in s.UsedInodes() <==> s.InodeMaps()[g][i])
  {
    hide State.Layout, State.BlocksOk, State.InodesOk;
    InodesSized(s);
    var sp := s.geo.Inodes();
    Located(sp, |s.descs|, inum);
    UnmarkedUnused(sp, s.InodeMaps(), sp.GroupOf(inum), sp.IndexOf(inum));
  }

  /** A search fails exactly when every unit it could visit is withheld. */
  lemma {:induction false} FailsExactly(order: seq<nat>, used: set<nat>, base: nat, limit: nat)
    requires forall u :: base <= u < limit ==> u in order
    requires forall u :: u in order ==> base <= u < limit
    ensures FirstFree(order, used) == None <==> forall u :: base <= u < limit ==> u in used
  {
  }

  /** Inodes run out exactly when every one that is not reserved is in use. */
  lemma {:induction false} NoInodesExactly(s: State, near: nat)
    requires s.Valid()
    ensures 0 < s.geo.inodesPerGroup && 0 < s.geo.Groups()
    ensures FirstFree(InodeOrder(s.geo.Inodes(), s.geo.Groups(), near, 0), s.Withheld()) == None
       <==> forall u :: 1 <= u <= s.geo.inodesCount && s.geo.firstIno <= u ==> u in s.UsedInodes()
  {
    hide State.Layout, State.BlocksOk, State.InodesOk, State.UsedInodes, InodeOrder, FirstFree;
    SpacesValid(s);
    var order := InodeOrder(s.geo.Inodes(), s.geo.Groups(), near, 0);
    forall u | 1 <= u < s.geo.inodesCount + 1 ensures u in order {
      InodeOrderComplete(s.geo.Inodes(), s.geo.Groups(), near, u);
    }
    forall u | u in order ensures 1 <= u < s.geo.inodesCount + 1 {
      InodeOrderSound(s.geo.Inodes(), s.geo.Groups(), near, 0, u);
    }
    FailsExactly(order, s.Withheld(), 1, s.geo.inodesCount + 1);
    forall u | 1 <= u <= s.geo.inodesCount && s.geo.firstIno <= u ensures u in s.Withheld() <==> u in s.UsedInodes() {
    }
    forall u | 1 <= u < s.geo.firstIno ensures u in s.Withheld() {
    }
  }

  lemma {:induction false} InodeOrderSound(sp: Space, groups: nat, near: nat, step: nat, u: nat)
    requires 0 < sp.per && 0 < groups && step <= groups && u in InodeOrder(sp, groups, near, step)
    ensures sp.base <= u < sp.limit
    decreases groups - step
  {
    if step < groups {
      var g := (StartGroup(sp, near) + step) % groups;
      if u in GroupOrder(sp, g, 0) {
        var j :| 0 <= j < |GroupOrder(sp, g, 0)| && GroupOrder(sp, g, 0)[j] == u;
        Placed(sp, g, j);
      } else {
        InodeOrderSound(sp, groups, near, step + 1, u);
      }
    }
  }

  /** Blocks run out exactly when every one is in use. */
  lemma {:induction false} NoSpaceExactly(s: State, goal: nat)
    requires s.Valid()
    ensures 0 < s.geo.blocksPerGroup && 0 < s.geo.Groups()
    ensures FirstFree(BlockOrder(s.geo.Blocks(), s.geo.Groups(), goal, 0), s.UsedBlocks()) == None
       <==> forall b :: s.geo.firstDataBlock <= b < s.geo.blocksCount ==> b in s.UsedBlocks()
  {
    hide State.Layout, State.BlocksOk, State.InodesOk, State.UsedBlocks, BlockOrder, FirstFree;
    SpacesValid(s);
    var order := BlockOrder(s.geo.Blocks(), s.geo.Groups(), goal, 0);
    forall b | s.geo.firstDataBlock <= b < s.geo.blocksCount ensures b in order {
      BlockOrderComplete(s.geo.Blocks(), s.geo.Groups(), goal, b);
    }
    forall b | b in order ensures s.geo.firstDataBlock <= b < s.geo.blocksCount {
      BlockOrderSound(s.geo.Blocks(), s.geo.Groups(), goal, 0, b);
    }
    FailsExactly(order, s.UsedBlocks(), s.geo.firstDataBlock, s.geo.blocksCount);
  }

  lemma {:induction false} BlockOrderSound(sp: Space, groups: nat, goal: nat, step: nat, u: nat)
    requires 0 < sp.per && 0 < groups && step <= groups && u in BlockOrder(sp, groups, goal, step)
    ensures sp.base <= u < sp.limit
    decreases groups - step
  {
    if step < groups {
      var g := (StartGroup(sp, goal) + step) % groups;
      var from := StartBit(sp, goal, step, g);
      if u in GroupOrder(sp, g, from) {
        var j :| 0 <= j < |GroupOrder(sp, g, from)| && GroupOrder(sp, g, from)[j] == u;
        Placed(sp, g, Wrapped(from, j, sp.InGroup(g)));
      } else {
        BlockOrderSound(sp, groups, goal, step + 1, u);
      }
    }
  }

  // ---- writing bitmaps back ----

  function WrittenBack(device: Device, cache: map<nat, Bits>, dirty: map<nat, bool>, locs: seq<nat>, n: nat): Device
    requires n <= |locs|
  {
    if n == 0 then device
    else
      var d := WrittenBack(device, cache, dirty, locs, n - 1);
      if n - 1 in cache && n - 1 in dirty && dirty[n - 1] then d[locs[n - 1] := Bitmap(cache[n - 1])] else d
  }

  lemma {:induction false} WrittenBackElsewhere(device: Device, cache: map<nat, Bits>, dirty: map<nat, bool>, locs: seq<nat>, n: nat, b: nat)
    requires n <= |locs| && b in device && forall g :: 0 <= g < n ==> locs[g] != b
    ensures b in WrittenBack(device, cache, dirty, locs, n) && WrittenBack(device, cache, dirty, locs, n)[b] == device[b]
  {
    if n > 0 {
      WrittenBackElsewhere(device, cache, dirty, locs, n - 1, b);
    }
  }

  lemma {:induction false} WrittenBackKeys(device: Device, cache: map<nat, Bits>, dirty: map<nat, bool>, locs: seq<nat>, n: nat)
    requires n <= |locs| && forall g :: 0 <= g < |locs| ==> locs[g] in device
    ensures WrittenBack(device, cache, dirty, locs, n).Keys == device.Keys
  {
    if n > 0 {
      WrittenBackKeys(device, cache, dirty, locs, n - 1);
    }
  }

  /** After writing back, the device holds each bitmap as it stands. */
  lemma {:induction false} WrittenBackCurrent(device: Device, cache: map<nat, Bits>, dirty: map<nat, bool>, locs: seq<nat>, n: nat, g: nat)
    requires g < n <= |locs| && NoDup(locs) && CacheOk(cache, dirty, device, locs)
    ensures locs[g] in WrittenBack(device, cache, dirty, locs, n)
    ensures WrittenBack(device, cache, dirty, locs, n)[locs[g]] == Bitmap(Current(cache, device, locs)[g])
  {
    if g == n - 1 {
      WrittenBackElsewhere(device, cache, dirty, locs, n - 1, locs[g]);
    } else {
      WrittenBackCurrent(device, cache, dirty, locs, n - 1, g);
    }
  }

  ghost predicate Holds(device: Device, locs: seq<nat>, maps: seq<Bits>) {
    |maps| == |locs| && forall g :: 0 <= g < |locs| ==> locs[g] in device && device[locs[g]] == Bitmap(maps[g])
  }

  lemma {:induction false} WrittenBackHolds(device: Device, cache: map<nat, Bits>, dirty: map<nat, bool>, locs: seq<nat>)
    requires NoDup(locs) && CacheOk(cache, dirty, device, locs)
    ensures var d := WrittenBack(device, cache, dirty, locs, |locs|);
            && Holds(d, locs, Current(cache, device, locs)) && d.Keys == device.Keys
            && forall b :: b in device && b !in locs ==> b in d && d[b] == device[b]
  {
    forall g | 0 <= g < |locs|
      ensures locs[g] in WrittenBack(device, cache, dirty, locs, |locs|)
      ensures WrittenBack(device, cache, dirty, locs, |locs|)[locs[g]] == Bitmap(Current(cache, device, locs)[g])
    {
      WrittenBackCurrent(device, cache, dirty, locs, |locs|, g);
    }
    WrittenBackKeys(device, cache, dirty, locs, |locs|);
    forall b | b in device && b !in locs ensures var d := WrittenBack(device, cache, dirty, locs, |locs|); b in d && d[b] == device[b] {
      WrittenBackElsewhere(device, cache, dirty, locs, |locs|, b);
    }
  }

  /** A device that holds the bitmaps as they stand leaves nothing dirty. */
  lemma {:induction false} HeldIsClean(device: Device, cache: map<nat, Bits>, dirty: map<nat, bool>, locs: seq<nat>, d: Device)
    requires CacheOk(cache, dirty, device, locs) && Holds(d, locs, Current(cache, device, locs))
    ensures CacheOk(cache, map[], d, locs) && Current(cache, d, locs) == Current(cache, device, locs)
  {
  }

  lemma {:induction false} LocsApart(a: seq<nat>, b: seq<nat>)
    requires NoDup(a + b)
    ensures NoDup(a) && NoDup(b) && forall x :: x in a ==> x !in b
  {
    var c := a + b;
    assert forall i :: 0 <= i < |a| ==> a[i] == c[i];
    forall i, j | 0 <= i < j < |b| ensures b[i] != b[j] {
      assert b[i] == c[|a| + i] && b[j] == c[|a| + j];
    }
    forall x | x in a ensures x !in b {
      var i :| 0 <= i < |a| && a[i] == x;
      forall j | 0 <= j < |b| ensures b[j] != x {
        assert c[i] == x && c[|a| + j] == b[j];
      }
    }
  }

  lemma {:induction false} CurrentFrame(cache: map<nat, Bits>, dirty: map<nat, bool>, device: Device, d: Device, locs: seq<nat>)
    requires CacheOk(cache, dirty, device, locs)
    requires forall g :: 0 <= g < |locs| ==> locs[g] in d && d[locs[g]] == device[locs[g]]
    ensures CacheOk(cache, dirty, d, locs) && Current(cache, d, locs) == Current(cache, device, locs)
  {
  }

  /** t is s with the device agreeing with the bitmaps, and nothing else different. */
  ghost predicate Flushed(s: State, t: State) {
    && s.Valid() && t.Valid() && t.BlockMaps() == s.BlockMaps() && t.InodeMaps() == s.InodeMaps()
    && Holds(t.device, BlockLocs(s.descs), s.BlockMaps()) && Holds(t.device, InodeLocs(s.descs), s.InodeMaps())
    && t.device.Keys == s.device.Keys
    && forall b :: b in s.device && b !in BlockLocs(s.descs) && b !in InodeLocs(s.descs) ==> b in t.device && t.device[b] == s.device[b]
  }

  lemma {:induction false} FlushKeeps(s: State)
    requires s.Valid()
    ensures var n := |s.descs|;
            var mid := WrittenBack(s.device, s.blockCache, s.dirtyBlock, BlockLocs(s.descs), n);
            var d := WrittenBack(mid, s.inodeCache, s.dirtyInode, InodeLocs(s.descs), n);
            Flushed(s, s.(device := d, dirtyBlock := map[], dirtyInode := map[]))
  {
    hide State.BlocksOk, State.InodesOk, Current, CacheOk, NoDup, WrittenBack, BlockLocs, InodeLocs;
    var bl, il := BlockLocs(s.descs), InodeLocs(s.descs);
    LocsApart(bl, il);
    WrittenBackHolds(s.device, s.blockCache, s.dirtyBlock, bl);
    var mid := WrittenBack(s.device, s.blockCache, s.dirtyBlock, bl, |s.descs|);
    HeldIsClean(s.device, s.blockCache, s.dirtyBlock, bl, mid);
    LocsPresent(s.inodeCache, s.dirtyInode, s.device, il);
    CurrentFrame(s.inodeCache, s.dirtyInode, s.device, mid, il);
    WrittenBackHolds(mid, s.inodeCache, s.dirtyInode, il);
    var d := WrittenBack(mid, s.inodeCache, s.dirtyInode, il, |s.descs|);
    HeldIsClean(mid, s.inodeCache, s.dirtyInode, il, d);
    LocsPresent(s.blockCache, s.dirtyBlock, s.device, bl);
    CurrentFrame(s.blockCache, map[], mid, d, bl);
    var t := s.(device := d, dirtyBlock := map[], dirtyInode := map[]);
    assert t.Layout();
    SameMapsOk(s, t);
  }

  lemma {:induction false} LocsPresent(cache: map<nat, Bits>, dirty: map<nat, bool>, device: Device, locs: seq<nat>)
    requires CacheOk(cache, dirty, device, locs)
    ensures forall g :: 0 <= g < |locs| ==> locs[g] in device
  {
  }

  lemma {:induction false} SameMapsOk(s: State, t: State)
    requires s.Valid() && t.Layout()
    requires t == s.(device := t.device, dirtyBlock := t.dirtyBlock, dirtyInode := t.dirtyInode)
    requires t.BlockMaps() == s.BlockMaps() && t.InodeMaps() == s.InodeMaps()
    ensures t.Valid()
  {
    hide State.Layout, Counted, TailUnused, DirsCounted;
  }

  /** The superblock's totals are the numbers of blocks and inodes not in use. */
  lemma {:induction false} TotalsCountFree(s: State)
    requires s.Valid()
    ensures s.freeBlocks == |FreeUnits(s.geo.Blocks(), s.UsedBlocks())|
    ensures s.freeInodes == |FreeUnits(s.geo.Inodes(), s.UsedInodes())|
  {
    hide State.Layout, UsedUnits, FreeUnits, Sum, TailUnused, DirsCounted;
    SpacesValid(s);
    SumCountsFree(s.geo.Blocks(), s.BlockMaps(), FreeBlocks(s.descs));
    SumCountsFree(s.geo.Inodes(), s.InodeMaps(), FreeInodes(s.descs));
  }
}
