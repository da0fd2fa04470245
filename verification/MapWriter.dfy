/** Writing a block list back into an inode (src/map.rs:91-187). */
module MapWriter {
  import opened Base
  import opened Disk
  import opened BlockWalk
  import opened Extents
  import opened ExtentTree
  import opened Allocators
  import opened MapSpace
  import opened IndirectMap
  import opened BlockMap

  datatype Written = Written(inodeMap: InodeMap, metaUsed: nat)

  lemma {:induction false} GrownTookBlocks(s: State, t: State, taken: seq<nat>)
    requires TookBlocks(s, t, taken)
    ensures Grown(s, t, taken)
  {
    hide State.Valid, State.UsedBlocks, State.UsedInodes, NoDup;
  }

  /** How many chunks of at most `per` items n items make. */
  lemma {:induction false} ChunkCount(n: nat, per: nat, i: nat)
    requires 0 < per
    ensures i * per < n <==> i < CeilDiv(n, per)
    ensures i * per + per == (i + 1) * per
  {
    var c := CeilDiv(n, per);
    assert n + per - 1 == c * per + (n + per - 1) % per;
    MulMono(c, i, per);
    MulMono(i + 1, c, per);
  }

  lemma {:induction false} HoldingMore(dev: Device, indices: seq<ExtentIdx>, extents: seq<Extent>, at: nat, end: nat, leaf: nat)
    requires at < end <= |extents| && Holding(dev, indices, extents[..at]) && leaf !in Leaves(indices)
    ensures Holding(dev[leaf := ExtentLeaf(extents[at..end])], indices + [ExtentIdx(extents[at].block, leaf)], extents[..end])
    ensures Leaves(indices + [ExtentIdx(extents[at].block, leaf)]) == Leaves(indices) + [leaf]
  {
    var now, idx := dev[leaf := ExtentLeaf(extents[at..end])], ExtentIdx(extents[at].block, leaf);
    hide LeafOf, Leaves, Holding;
    LeafWritten(dev, leaf, extents[at..end]);
    HoldingFrame(dev, now, indices, extents[..at]);
    HoldingSnoc(now, indices, idx, extents[..at], extents[at..end]);
    assert extents[..at] + extents[at..end] == extents[..end];
    LeavesMore(indices + [idx]);
    assert (indices + [idx])[..|indices|] == indices;
  }

  lemma {:induction false} LeafWritten(dev: Device, leaf: nat, own: seq<Extent>)
    ensures var now := dev[leaf := ExtentLeaf(own)];
            LeafOf(now, leaf) == own && forall b :: b != leaf ==> LeafOf(now, b) == LeafOf(dev, b)
  {
  }

  lemma {:induction false} HoldingSnoc(dev: Device, indices: seq<ExtentIdx>, idx: ExtentIdx, front: seq<Extent>, own: seq<Extent>)
    requires Holding(dev, indices, front) && own != [] && LeafOf(dev, idx.leaf) == own && idx.block == own[0].block
    ensures Holding(dev, indices + [idx], front + own)
  {
    hide LeafOf;
    var all, n := indices + [idx], |front|;
    assert all[..|all| - 1] == indices && all[|all| - 1] == idx;
    assert (front + own)[n..] == own && (front + own)[..n] == front;
  }

  /** Every leaf holds at most `per` extents. */
  ghost predicate LeavesFit(dev: Device, leaves: seq<nat>, per: nat) {
    forall b :: b in leaves ==> |LeafOf(dev, b)| <= per
  }

  /** What a map of extents is for its list: the fewest extents, in the inode or held by its leaves. */
  ghost predicate ExtentsFor(dev: Device, m: InodeMap, extents: seq<Extent>, list: seq<nat>, per: nat, own: seq<nat>)
    requires 0 < per
  {
    && DataOf(WalkExtents(extents)) == Listed(list, 0) && Ordered(extents) && Capped(extents) && Maximal(extents)
    && match m
       case ExtentRoot(es) => es == extents && |es| <= INLINE_MAX && own == []
       case IndexRoot(indices) => && Holding(dev, indices, extents) && Leaves(indices) == own && |indices| <= INLINE_MAX
                                  && LeavesFit(dev, own, per) && INLINE_MAX < |extents| && |own| == CeilDiv(|extents|, per)
       case _ => false
  }

  lemma {:induction false} ExtentsForMapIs(dev: Device, m: InodeMap, extents: seq<Extent>, list: seq<nat>, per: nat, own: seq<nat>, p: nat)
    requires 0 < per && ExtentsFor(dev, m, extents, list, per, own)
    ensures MapIs(dev, m, p, list, own)
  {
    hide DataOf, MetaOf, WalkExtents, WalkIndices, Holding, Ordered, Capped, Maximal;
    ExtentsAreData(extents);
    if m.IndexRoot? {
      HoldingWalk(dev, m.indices, extents);
    }
  }

  /** There are no more extents than there are blocks. */
  lemma {:induction false} NoMoreExtents(extents: seq<Extent>)
    requires Capped(extents)
    ensures |extents| <= |DataOf(WalkExtents(extents))|
  {
    if extents != [] {
      var n := |extents| - 1;
      NoMoreExtents(extents[..n]);
      RunIsData(extents[n], extents[n].len);
      VisitsConcat(WalkExtents(extents[..n]), Run(extents[n], extents[n].len));
    }
  }

  lemma {:induction false} FewExtents(extents: seq<Extent>, list: seq<nat>)
    requires Capped(extents) && DataOf(WalkExtents(extents)) == Listed(list, 0)
    ensures |extents| <= |list|
  {
    hide DataOf, WalkExtents, Listed;
    NoMoreExtents(extents);
    NoMoreListed(list, 0);
  }

  lemma {:induction false} NoMoreListed(list: seq<nat>, base: nat)
    ensures |Listed(list, base)| <= |list|
  {
    if list != [] {
      NoMoreListed(list[..|list| - 1], base);
    }
  }

  /** A short list needs no map blocks. */
  lemma {:induction false} ShortListInline(dev: Device, m: InodeMap, extents: seq<Extent>, list: seq<nat>, per: nat, own: seq<nat>)
    requires 0 < per && ExtentsFor(dev, m, extents, list, per, own) && |list| <= INLINE_MAX
    ensures own == []
  {
    hide DataOf, WalkExtents, Listed, Holding, Ordered, Maximal, LeavesFit, Leaves;
    NoMoreExtents(extents);
    NoMoreListed(list, 0);
  }

  /** A tree of extents being written into the leaves set aside for it. */
  ghost predicate Filling(s: State, t: State, leaves: seq<nat>, indices: seq<ExtentIdx>, extents: seq<Extent>, at: nat, per: nat) {
    && Grown(s, t, leaves) && |indices| <= |leaves| && at <= |extents|
    && Holding(t.device, indices, extents[..at]) && Leaves(indices) == leaves[..|indices|]
    && LeavesFit(t.device, leaves[..|indices|], per)
  }

  lemma {:induction false} FillingMore(s: State, t: State, leaves: seq<nat>, indices: seq<ExtentIdx>, extents: seq<Extent>, at: nat, end: nat, per: nat)
    requires Filling(s, t, leaves, indices, extents, at, per) && |indices| < |leaves| && at < end <= |extents| && end - at <= per
    ensures var leaf := leaves[|indices|];
            Filling(s, t.(device := t.device[leaf := ExtentLeaf(extents[at..end])]), leaves,
                    indices + [ExtentIdx(extents[at].block, leaf)], extents, end, per)
  {
    var n := |indices|;
    var leaf := leaves[n];
    hide Grown, Holding, LeafOf, Leaves, LeavesFit, NoDup;
    GrownParts(s, t, leaves);
    FreshAt(leaves, n);
    GrownWrite(s, t, leaves, leaf, ExtentLeaf(extents[at..end]));
    HoldingMore(t.device, indices, extents, at, end, leaf);
    FitMore(t.device, leaves[..n], leaf, extents[at..end], per);
  }

  lemma {:induction false} FreshAt(leaves: seq<nat>, n: nat)
    requires NoDup(leaves) && n < |leaves|
    ensures leaves[n] !in leaves[..n] && leaves[..n + 1] == leaves[..n] + [leaves[n]]
  {
  }

  lemma {:induction false} FitMore(dev: Device, leaves: seq<nat>, leaf: nat, own: seq<Extent>, per: nat)
    requires LeavesFit(dev, leaves, per) && |own| <= per && leaf !in leaves
    ensures LeavesFit(dev[leaf := ExtentLeaf(own)], leaves + [leaf], per)
  {
    forall b | b in leaves + [leaf] ensures |LeafOf(dev[leaf := ExtentLeaf(own)], b)| <= per {
      assert b in leaves || b == leaf;
      assert b in leaves ==> LeafOf(dev[leaf := ExtentLeaf(own)], b) == LeafOf(dev, b);
    }
  }

  /** Build an extent tree for the list; `per` is how many extents a leaf holds. */
  method WriteExtentMap(fs: Filesystem, alloc: Allocator, per: nat, list: seq<nat>)
    returns (r: Result<Written>, ghost own: seq<nat>, ghost extents: seq<Extent>)
    requires alloc.Now(fs).Valid() && 0 < per
    modifies alloc`blockCache, alloc`dirtyBlock, fs`descs, fs`freeBlocks, fs`device, fs`log
    ensures Grown(old(alloc.Now(fs)), alloc.Now(fs), own) && Logs(old(fs.log), fs.log, own)
    ensures DataOf(WalkExtents(extents)) == Listed(list, 0) && Ordered(extents) && Capped(extents) && Maximal(extents)
    ensures r.Ok? ==> ExtentsFor(fs.device, r.value.inodeMap, extents, list, per, own) && r.value.metaUsed == |own|
    ensures r == Err(Unsupported) <==> INLINE_MAX * per < |extents|
    ensures |extents| <= INLINE_MAX ==> r.Ok?
    ensures r.Err? && r.error != Unsupported ==> r == Err(NoSpace) && alloc.Now(fs).freeBlocks == 0 && |own| < CeilDiv(|extents|, per)
  {
    hide Grown, DataOf, WalkExtents, Listed, Ordered, Capped, Maximal, State.Valid, Holding, Filling, Continues;
    ghost var s := alloc.Now(fs);
    GrownNone(s);
    own := [];
    var found := ToExtents(list);
    extents := found;
    ChunkCount(|found|, per, INLINE_MAX);
    if |found| <= INLINE_MAX {
      MulMono(1, per, INLINE_MAX);
      return Ok(Written(ExtentRoot(found), 0)), own, extents;
    }
    // Too many for the inode: put them in leaves and point at those.
    var leaves := CeilDiv(|found|, per);
    if leaves > INLINE_MAX {
      return Err(Unsupported), own, extents;
    }
    var blocks := alloc.AllocBlocks(fs, Goal(list), leaves);
    if blocks.Err? {
      own := NoLeaves(s, alloc.Now(fs), leaves);
      return Err(blocks.error), own, extents;
    }
    own := blocks.value;
    GrownTookBlocks(s, alloc.Now(fs), own);
    var indices := FillLeaves(fs, alloc, per, found, blocks.value, s);
    r := Ok(Written(IndexRoot(indices), leaves));
  }

  lemma {:induction false} NoLeaves(s: State, t: State, count: nat) returns (own: seq<nat>)
    requires s.Valid() && t.Valid() && exists taken :: |taken| < count && TookBlocks(s, t, taken)
    requires forall b :: t.geo.firstDataBlock <= b < t.geo.blocksCount ==> b in t.UsedBlocks()
    ensures Grown(s, t, own) && |own| < count && t.freeBlocks == 0
  {
    hide State.Valid, State.UsedBlocks, State.UsedInodes;
    own :| |own| < count && TookBlocks(s, t, own);
    GrownTookBlocks(s, t, own);
    FullMeansZero(t);
  }

  /** Write the extents into the leaves, a chunk each, and index them by their first block. */
  method FillLeaves(fs: Filesystem, alloc: Allocator, per: nat, extents: seq<Extent>, leaves: seq<nat>, ghost s: State)
    returns (indices: seq<ExtentIdx>)
    requires 0 < per && |leaves| == CeilDiv(|extents|, per) && Grown(s, alloc.Now(fs), leaves)
    modifies fs`device, fs`log
    ensures Grown(s, alloc.Now(fs), leaves)
    ensures Holding(fs.device, indices, extents) && Leaves(indices) == leaves && LeavesFit(fs.device, leaves, per)
    ensures fs.log == old(fs.log) + leaves
  {
    hide Grown, Holding, LeavesFit, CeilDiv, Leaves;
    indices := [];
    var at := 0;
    FillingStart(s, alloc.Now(fs), leaves, extents, per);
    while at < |extents|
      invariant at == Min(|indices| * per, |extents|) && |indices| <= |leaves|
      invariant Filling(s, alloc.Now(fs), leaves, indices, extents, at, per) && fs.log == old(fs.log) + leaves[..|indices|]
      decreases |extents| - at
    {
      var end := Min(at + per, |extents|);
      ChunkCount(|extents|, per, |indices|);
      var leaf := leaves[|indices|];
      FillingMore(s, alloc.Now(fs), leaves, indices, extents, at, end, per);
      fs.WriteBlock(leaf, ExtentLeaf(extents[at..end]));
      indices := indices + [ExtentIdx(extents[at].block, leaf)];
      at := end;
    }
    ChunkCount(|extents|, per, |indices|);
    assert extents[..|extents|] == extents && leaves[..|leaves|] == leaves;
  }

  lemma {:induction false} FillingStart(s: State, t: State, leaves: seq<nat>, extents: seq<Extent>, per: nat)
    requires Grown(s, t, leaves)
    ensures Filling(s, t, leaves, [], extents, 0, per)
  {
    hide Grown;
  }
}
