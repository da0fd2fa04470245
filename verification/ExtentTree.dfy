/**
 Extent trees (src/map.rs:117-234): extents kept in the inode when four will do,
 and otherwise in leaves of their own under one level of index entries.
 */
module ExtentTree {
  import opened Disk
  import opened BlockWalk
  import opened Extents
  import opened Bitmaps

  const HEADER_LEN := 12
  const ENTRY_LEN := 12
  const TAIL_LEN := 4
  const INLINE_LEN := 60

  /** The entries an extent node of the given length holds. */
  function MaxEntries(len: nat): nat {
    if len < HEADER_LEN then 0 else (len - HEADER_LEN) / ENTRY_LEN
  }

  const INLINE_MAX := MaxEntries(INLINE_LEN)

  /** Where a node's checksum tail sits: after the space its `max` entries would take. */
  function TailOffset(max: nat): nat {
    HEADER_LEN + max * ENTRY_LEN
  }

  function PowerOfTwo(k: nat): (r: nat)
    ensures 0 < r
  {
    if k == 0 then 1 else 2 * PowerOfTwo(k - 1)
  }

  /** In a block of any power-of-two size the tail fits behind the last entry, with less than one entry to spare. */
  lemma {:induction false} TailFits(k: nat)
    requires 10 <= k
    ensures var size := PowerOfTwo(k);
            TailOffset(MaxEntries(size)) + TAIL_LEN <= size < TailOffset(MaxEntries(size)) + ENTRY_LEN
  {
    LeftOver(k);
    var size := PowerOfTwo(k);
    assert (size - HEADER_LEN) % ENTRY_LEN == size % ENTRY_LEN;
  }

  lemma {:induction false} LeftOver(k: nat)
    requires 2 <= k
    ensures PowerOfTwo(k) % 12 == if k % 2 == 0 then 4 else 8
    ensures 4 <= PowerOfTwo(k)
    ensures 4 <= k ==> 16 <= PowerOfTwo(k)
  {
    if k == 2 {
      assert PowerOfTwo(1) == 2 && PowerOfTwo(0) == 1;
    } else {
      LeftOver(k - 1);
      Doubled(PowerOfTwo(k - 1));
    }
  }

  lemma {:induction false} Doubled(x: nat)
    ensures x % 12 == 4 ==> (2 * x) % 12 == 8
    ensures x % 12 == 8 ==> (2 * x) % 12 == 4
  {
    var q := x / 12;
    assert x == 12 * q + x % 12;
    if x % 12 == 4 {
      assert 2 * x == 12 * (2 * q) + 8;
    } else if x % 12 == 8 {
      assert 2 * x == 12 * (2 * q + 1) + 4;
    }
  }

  // ---- walking and searching a tree ----

  function LeafOf(dev: Device, b: nat): seq<Extent> {
    if b in dev && dev[b].ExtentLeaf? then dev[b].extents else []
  }

  function WalkIndices(dev: Device, indices: seq<ExtentIdx>): seq<Visit> {
    if indices == [] then []
    else
      var n := |indices| - 1;
      WalkIndices(dev, indices[..n]) + ([Meta(indices[n].leaf)] + WalkExtents(LeafOf(dev, indices[n].leaf)))
  }

  function Leaves(indices: seq<ExtentIdx>): (r: seq<nat>)
    ensures |r| == |indices|
  {
    seq(|indices|, i requires 0 <= i < |indices| => indices[i].leaf)
  }

  /** What a finished tree is for its extents: each leaf holds the next of them, and starts where its index says. */
  ghost predicate Holding(dev: Device, indices: seq<ExtentIdx>, extents: seq<Extent>) {
    if indices == [] then extents == []
    else
      var n := |indices| - 1;
      var own := LeafOf(dev, indices[n].leaf);
      && own != [] && |own| <= |extents| && extents[|extents| - |own|..] == own
      && indices[n].block == own[0].block
      && Holding(dev, indices[..n], extents[..|extents| - |own|])
  }

  lemma {:induction false} LeavesMore(indices: seq<ExtentIdx>)
    requires indices != []
    ensures Leaves(indices) == Leaves(indices[..|indices| - 1]) + [indices[|indices| - 1].leaf]
    ensures forall b :: b in Leaves(indices[..|indices| - 1]) ==> b in Leaves(indices)
    ensures indices[|indices| - 1].leaf in Leaves(indices)
  {
    var n := |indices| - 1;
    assert Leaves(indices) == Leaves(indices[..n]) + [indices[n].leaf];
    assert Leaves(indices)[n] == indices[n].leaf;
  }

  lemma {:induction false} WalkIndicesMore(dev: Device, indices: seq<ExtentIdx>)
    requires indices != []
    ensures var n := |indices| - 1;
            var own := LeafOf(dev, indices[n].leaf);
            && DataOf(WalkIndices(dev, indices)) == DataOf(WalkIndices(dev, indices[..n])) + DataOf(WalkExtents(own))
            && MetaOf(WalkIndices(dev, indices)) == MetaOf(WalkIndices(dev, indices[..n])) + [indices[n].leaf]
  {
    hide DataOf, MetaOf, WalkExtents, LeafOf;
    var n := |indices| - 1;
    var own := LeafOf(dev, indices[n].leaf);
    VisitsConcat([Meta(indices[n].leaf)], WalkExtents(own));
    VisitsConcat(WalkIndices(dev, indices[..n]), [Meta(indices[n].leaf)] + WalkExtents(own));
    OneVisit(0, indices[n].leaf);
    ExtentsAreData(own);
    assert [] + DataOf(WalkExtents(own)) == DataOf(WalkExtents(own));
  }

  lemma {:induction false} HoldingWalk(dev: Device, indices: seq<ExtentIdx>, extents: seq<Extent>)
    requires Holding(dev, indices, extents)
    ensures DataOf(WalkIndices(dev, indices)) == DataOf(WalkExtents(extents))
    ensures MetaOf(WalkIndices(dev, indices)) == Leaves(indices)
    decreases |indices|
  {
    if indices != [] {
      var n := |indices| - 1;
      var own := LeafOf(dev, indices[n].leaf);
      var rest := extents[..|extents| - |own|];
      HoldingWalk(dev, indices[..n], rest);
      assert extents == rest + own;
      hide DataOf, MetaOf, WalkExtents, WalkIndices, Leaves, Holding;
      WalkExtentsConcat(rest, own);
      VisitsConcat(WalkExtents(rest), WalkExtents(own));
      WalkIndicesMore(dev, indices);
      LeavesMore(indices);
    }
  }

  lemma {:induction false} HoldingFrame(dev: Device, now: Device, indices: seq<ExtentIdx>, extents: seq<Extent>)
    requires Holding(dev, indices, extents)
    requires forall b :: b in Leaves(indices) ==> LeafOf(now, b) == LeafOf(dev, b)
    ensures Holding(now, indices, extents)
    decreases |indices|
  {
    if indices != [] {
      hide LeafOf, Leaves;
      var n := |indices| - 1;
      LeavesMore(indices);
      HoldingFrame(dev, now, indices[..n], extents[..|extents| - |LeafOf(dev, indices[n].leaf)|]);
    }
  }

  /** The last extent that starts at or before logical block l, as a tree is searched. */
  function FindExtent(extents: seq<Extent>, l: nat): (i: nat)
    requires extents != []
    ensures i < |extents|
  {
    if |extents| == 1 || extents[|extents| - 1].block <= l then |extents| - 1 else FindExtent(extents[..|extents| - 1], l)
  }

  function FindIndex(indices: seq<ExtentIdx>, l: nat): (i: nat)
    requires indices != []
    ensures i < |indices|
  {
    if |indices| == 1 || indices[|indices| - 1].block <= l then |indices| - 1 else FindIndex(indices[..|indices| - 1], l)
  }

  /** Resolve a logical block among extents, by searching for the one it would be in. */
  function ResolveIn(extents: seq<Extent>, l: nat): nat {
    if extents == [] then HOLE
    else
      var e := extents[FindExtent(extents, l)];
      if e.block <= l < e.block + e.len then e.start + (l - e.block) else HOLE
  }

  /** Resolve a logical block by searching the root and then one leaf. */
  function ResolveTree(dev: Device, indices: seq<ExtentIdx>, l: nat): nat {
    if indices == [] then HOLE else ResolveIn(LeafOf(dev, indices[FindIndex(indices, l)].leaf), l)
  }

  lemma {:induction false} FindExtentLast(extents: seq<Extent>, l: nat)
    requires extents != [] && Ordered(extents) && Capped(extents)
    ensures var i := FindExtent(extents, l);
            && (forall j :: i < j < |extents| ==> l < extents[j].block)
            && (0 < i ==> extents[i].block <= l)
  {
    if !(|extents| == 1 || extents[|extents| - 1].block <= l) {
      FindExtentLast(extents[..|extents| - 1], l);
    }
  }

  /** Searching ordered extents finds each block where it is placed, and a hole everywhere else. */
  lemma {:induction false} ResolveInMeans(extents: seq<Extent>, l: nat)
    requires Ordered(extents) && Capped(extents) && forall i :: 0 <= i < |extents| ==> extents[i].start != 0
    ensures ResolveIn(extents, l) != HOLE ==> Placed(l, ResolveIn(extents, l)) in DataOf(WalkExtents(extents))
    ensures forall b :: Placed(l, b) in DataOf(WalkExtents(extents)) ==> ResolveIn(extents, l) == b
  {
    hide DataOf, WalkExtents;
    if extents != [] {
      FindExtentLast(extents, l);
      var i := FindExtent(extents, l);
      var x := Placed(l, ResolveIn(extents, l));
      PlacedByExtents(extents, x);
      assert ResolveIn(extents, l) != HOLE ==> Covers(extents[i], x);
    }
    forall b | Placed(l, b) in DataOf(WalkExtents(extents)) ensures ResolveIn(extents, l) == b {
      PlacedByExtents(extents, Placed(l, b));
      var j :| 0 <= j < |extents| && Covers(extents[j], Placed(l, b));
      OnlyCandidate(extents, l, j);
    }
  }

  lemma {:induction false} OnlyCandidate(extents: seq<Extent>, l: nat, j: nat)
    requires Ordered(extents) && Capped(extents) && j < |extents| && extents[j].block <= l < extents[j].block + extents[j].len
    ensures FindExtent(extents, l) == j
  {
    FindExtentLast(extents, l);
  }

  /** Searching the root and then a leaf is searching all the extents at once. */
  lemma {:induction false} TwoStepSearch(dev: Device, indices: seq<ExtentIdx>, extents: seq<Extent>, l: nat)
    requires Holding(dev, indices, extents) && Ordered(extents)
    ensures ResolveTree(dev, indices, l) == ResolveIn(extents, l)
    decreases |indices|
  {
    if indices != [] {
      var n := |indices| - 1;
      var own := LeafOf(dev, indices[n].leaf);
      var rest := extents[..|extents| - |own|];
      HoldingNonEmpty(dev, indices[..n], rest);
      hide ResolveIn, ResolveTree, LeafOf, FindIndex;
      assert extents == rest + own;
      OrderedFront(rest, own);
      SplitSearch(rest, own, l);
      TwoStepSearch(dev, indices[..n], rest, l);
      hide Ordered, Holding;
      ResolveTreeMore(dev, indices, l);
    }
  }

  lemma {:induction false} OrderedFront(a: seq<Extent>, b: seq<Extent>)
    requires Ordered(a + b)
    ensures Ordered(a)
  {
    assert forall i :: 0 <= i < |a| ==> a[i] == (a + b)[i];
  }

  lemma {:induction false} ResolveTreeMore(dev: Device, indices: seq<ExtentIdx>, l: nat)
    requires indices != []
    ensures var n := |indices| - 1;
            ResolveTree(dev, indices, l) ==
            if n == 0 || indices[n].block <= l then ResolveIn(LeafOf(dev, indices[n].leaf), l)
            else ResolveTree(dev, indices[..n], l)
  {
    hide ResolveIn, LeafOf;
  }

  lemma {:induction false} SplitSearch(a: seq<Extent>, b: seq<Extent>, l: nat)
    requires b != [] && Ordered(a + b)
    ensures ResolveIn(a + b, l) == if a == [] || b[0].block <= l then ResolveIn(b, l) else ResolveIn(a, l)
  {
    if a == [] {
      assert a + b == b;
    } else if b[0].block <= l {
      SearchBack(a, b, l);
    } else {
      assert forall i :: 0 <= i < |b| ==> b[i] == (a + b)[|a| + i];
      SearchFront(a, b, l);
    }
  }

  lemma {:induction false} HoldingNonEmpty(dev: Device, indices: seq<ExtentIdx>, extents: seq<Extent>)
    requires Holding(dev, indices, extents)
    ensures indices == [] <==> extents == []
  {
  }

  /** A block at or past the last leaf's start is sought in that leaf. */
  lemma {:induction false} SearchBack(a: seq<Extent>, b: seq<Extent>, l: nat)
    requires b != [] && b[0].block <= l
    ensures ResolveIn(a + b, l) == ResolveIn(b, l)
    decreases |b|
  {
    if |b| == 1 || b[|b| - 1].block <= l {
      assert (a + b)[|a + b| - 1] == b[|b| - 1];
      assert b[|b| - 1].block <= l;
    } else {
      assert (a + b)[..|a + b| - 1] == a + b[..|b| - 1];
      assert (a + b)[|a + b| - 1] == b[|b| - 1];
      FindDropsLast(a + b, l);
      FindDropsLast(b, l);
      SearchBack(a, b[..|b| - 1], l);
    }
  }

  /** A search that passes over the last extent is a search of the others. */
  lemma {:induction false} FindDropsLast(c: seq<Extent>, l: nat)
    requires |c| > 1 && l < c[|c| - 1].block
    ensures ResolveIn(c, l) == ResolveIn(c[..|c| - 1], l)
  {
  }

  /** A block before the last leaf's start is sought in the leaves before it. */
  lemma {:induction false} SearchFront(a: seq<Extent>, b: seq<Extent>, l: nat)
    requires b != [] && l < b[0].block && Ordered(b) && a != []
    ensures ResolveIn(a + b, l) == ResolveIn(a, l)
    decreases |b|
  {
    var c := a + b;
    assert c[|c| - 1] == b[|b| - 1];
    assert |b| > 1 ==> b[0].block <= b[|b| - 1].block;
    FindDropsLast(c, l);
    if |b| == 1 {
      assert c[..|c| - 1] == a;
    } else {
      assert c[..|c| - 1] == a + b[..|b| - 1];
      SearchFront(a, b[..|b| - 1], l);
    }
  }
}
