/**
 Allocating and freeing blocks and inodes (src/alloc.rs): bitmaps read once and
 kept behind a dirty cache, with the group descriptors' and the superblock's
 counts moved beside them.
 */
module Allocation {
  import opened Base
  import opened Disk
  import opened Bitmaps

  datatype Geometry = Geometry(
    blocksCount: nat, firstDataBlock: nat, blocksPerGroup: nat,
    inodesCount: nat, inodesPerGroup: nat, firstIno: nat)
  {
    function Groups(): nat
      requires 0 < blocksPerGroup && firstDataBlock <= blocksCount
    {
      (blocksCount - firstDataBlock + blocksPerGroup - 1) / blocksPerGroup
    }

    function Blocks(): Space {
      Space(firstDataBlock, blocksCount, blocksPerGroup)
    }

    function Inodes(): Space {
      Space(1, inodesCount + 1, inodesPerGroup)
    }

    ghost predicate Valid() {
      && 0 < blocksPerGroup && firstDataBlock < blocksCount
      && Blocks().Valid(Groups()) && Inodes().Valid(Groups())
      && 0 < Groups()
    }
  }

  datatype Desc = Desc(
    freeBlocks: nat, freeInodes: nat, usedDirs: nat, itableUnused: nat,
    blockUninit: bool, inodeUninit: bool, blockBitmap: nat, inodeBitmap: nat)

  function BlockLocs(descs: seq<Desc>): (r: seq<nat>)
    ensures |r| == |descs|
  {
    seq(|descs|, g requires 0 <= g < |descs| => descs[g].blockBitmap)
  }

  function InodeLocs(descs: seq<Desc>): (r: seq<nat>)
    ensures |r| == |descs|
  {
    seq(|descs|, g requires 0 <= g < |descs| => descs[g].inodeBitmap)
  }

  function FreeBlocks(descs: seq<Desc>): (r: seq<nat>)
    ensures |r| == |descs|
  {
    seq(|descs|, g requires 0 <= g < |descs| => descs[g].freeBlocks)
  }

  function FreeInodes(descs: seq<Desc>): (r: seq<nat>)
    ensures |r| == |descs|
  {
    seq(|descs|, g requires 0 <= g < |descs| => descs[g].freeInodes)
  }

  function SatSub(a: nat, b: nat): nat {
    if a < b then 0 else a - b
  }

  // ---- cached bitmaps ----

  /** A cached bitmap not marked dirty is the one on the device. */
  ghost predicate CacheOk(cache: map<nat, Bits>, dirty: map<nat, bool>, device: Device, locs: seq<nat>) {
    && (forall g :: 0 <= g < |locs| ==> locs[g] in device && device[locs[g]].Bitmap?)
    && (forall g :: g in cache ==> g < |locs|)
    && (forall g :: g in cache && !(g in dirty && dirty[g]) ==> device[locs[g]] == Bitmap(cache[g]))
    && dirty.Keys <= cache.Keys
  }

  /** The bitmaps as they stand: cached where read, on the device where not. */
  ghost function Current(cache: map<nat, Bits>, device: Device, locs: seq<nat>): (r: seq<Bits>)
    requires forall g :: 0 <= g < |locs| ==> locs[g] in device && device[locs[g]].Bitmap?
    ensures |r| == |locs|
  {
    seq(|locs|, g requires 0 <= g < |locs| => if g in cache then cache[g] else device[locs[g]].bits)
  }

  /** Each group's free count is its clear bits, and the total is their sum. */
  ghost predicate Counted(sp: Space, maps: seq<Bits>, free: seq<nat>, total: nat) {
    && Sized(sp, maps) && |free| == |maps|
    && (forall g :: 0 <= g < |maps| ==> free[g] == Clear(maps[g], sp.InGroup(g)))
    && total == Sum(free)
  }

  lemma {:induction false} CountedSet(sp: Space, maps: seq<Bits>, free: seq<nat>, total: nat, g: nat, i: nat, v: bool)
    requires Counted(sp, maps, free, total) && g < |maps| && i < sp.InGroup(g) && maps[g][i] != v
    ensures v ==> 0 < free[g] && 0 < total
    ensures Counted(sp, SetBit(maps, g, i, v), free[g := if v then SatSub(free[g], 1) else free[g] + 1],
                    if v then SatSub(total, 1) else total + 1)
  {
    ClearSet(maps[g], sp.InGroup(g), i, v);
    SumUpdate(free, g, if v then SatSub(free[g], 1) else free[g] + 1);
    assert v ==> 0 < free[g];
    SumUpdate(free, g, free[g]);
  }

  /** What itable_unused promises: no inode in that tail of the table is in use. */
  ghost predicate TailUnused(sp: Space, maps: seq<Bits>, descs: seq<Desc>)
    requires |maps| == |descs| && Sized(sp, maps)
  {
    forall g, i :: 0 <= g < |maps| && 0 <= i < sp.InGroup(g) && sp.per - descs[g].itableUnused <= i ==> !maps[g][i]
  }

  ghost function DirsIn(sp: Space, dirs: set<nat>, g: nat): set<nat>
    requires 0 < sp.per && forall d :: d in dirs ==> sp.base <= d
  {
    set d | d in dirs && sp.GroupOf(d) == g
  }

  ghost predicate DirsCounted(sp: Space, dirs: set<nat>, descs: seq<Desc>)
    requires 0 < sp.per && forall d :: d in dirs ==> sp.base <= d
  {
    forall g :: 0 <= g < |descs| ==> descs[g].usedDirs == |DirsIn(sp, dirs, g)|
  }

  // ---- search order ----

  function StartGroup(sp: Space, goal: nat): nat
    requires 0 < sp.per
  {
    if sp.base <= goal < sp.limit then sp.GroupOf(goal) else 0
  }

  function StartBit(sp: Space, goal: nat, step: nat, g: nat): (from: nat)
    ensures from <= sp.InGroup(g)
  {
    if step == 0 && sp.First(g) <= goal < sp.First(g) + sp.InGroup(g) then goal - sp.First(g) else 0
  }

  /** Every block in the order a search from `goal` visits it, from the given step on. */
  function BlockOrder(sp: Space, groups: nat, goal: nat, step: nat): seq<nat>
    requires 0 < sp.per && 0 < groups && step <= groups
    decreases groups - step
  {
    if step == groups then []
    else
      var g := (StartGroup(sp, goal) + step) % groups;
      GroupOrder(sp, g, StartBit(sp, goal, step, g)) + BlockOrder(sp, groups, goal, step + 1)
  }

  /** Every inode in the order a search near `near` visits it. */
  function InodeOrder(sp: Space, groups: nat, near: nat, step: nat): seq<nat>
    requires 0 < sp.per && 0 < groups && step <= groups
    decreases groups - step
  {
    if step == groups then []
    else GroupOrder(sp, (StartGroup(sp, near) + step) % groups, 0) + InodeOrder(sp, groups, near, step + 1)
  }

  lemma {:induction false} BlockOrderVisits(sp: Space, groups: nat, goal: nat, step: nat, at: nat, i: nat)
    requires 0 < sp.per && step <= at < groups
    requires i < sp.InGroup((StartGroup(sp, goal) + at) % groups)
    ensures sp.First((StartGroup(sp, goal) + at) % groups) + i in BlockOrder(sp, groups, goal, step)
    decreases at - step
  {
    var g := (StartGroup(sp, goal) + step) % groups;
    if step == at {
      GroupOrderElems(sp, g, StartBit(sp, goal, step, g), i);
    } else {
      BlockOrderVisits(sp, groups, goal, step + 1, at, i);
    }
  }

  lemma {:induction false} InodeOrderVisits(sp: Space, groups: nat, near: nat, step: nat, at: nat, i: nat)
    requires 0 < sp.per && step <= at < groups
    requires i < sp.InGroup((StartGroup(sp, near) + at) % groups)
    ensures sp.First((StartGroup(sp, near) + at) % groups) + i in InodeOrder(sp, groups, near, step)
    decreases at - step
  {
    if step == at {
      GroupOrderElems(sp, (StartGroup(sp, near) + step) % groups, 0, i);
    } else {
      InodeOrderVisits(sp, groups, near, step + 1, at, i);
    }
  }

  /** Whatever group a search starts in, wrapping brings it to every other. */
  lemma {:induction false} WrapReaches(start: nat, groups: nat, g: nat) returns (step: nat)
    requires g < groups
    ensures step < groups && (start + step) % groups == g
  {
    var s := start % groups;
    step := if s <= g then g - s else g + groups - s;
    var k := start / groups;
    assert start == k * groups + s;
    if s <= g {
      DivModUnique(start + step, k, g, groups);
    } else {
      assert (k + 1) * groups == k * groups + groups;
      DivModUnique(start + step, k + 1, g, groups);
    }
  }

  /** A search visits every block there is, so it fails only when all are used. */
  lemma {:induction false} BlockOrderComplete(sp: Space, groups: nat, goal: nat, u: nat)
    requires sp.Valid(groups) && sp.base <= u < sp.limit
    ensures 0 < groups && u in BlockOrder(sp, groups, goal, 0)
  {
    Located(sp, groups, u);
    var step := WrapReaches(StartGroup(sp, goal), groups, sp.GroupOf(u));
    BlockOrderVisits(sp, groups, goal, 0, step, sp.IndexOf(u));
  }

  lemma {:induction false} InodeOrderComplete(sp: Space, groups: nat, near: nat, u: nat)
    requires sp.Valid(groups) && sp.base <= u < sp.limit
    ensures 0 < groups && u in InodeOrder(sp, groups, near, 0)
  {
    Located(sp, groups, u);
    var step := WrapReaches(StartGroup(sp, near), groups, sp.GroupOf(u));
    InodeOrderVisits(sp, groups, near, 0, step, sp.IndexOf(u));
  }
}
