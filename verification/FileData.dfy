/** Writing files: contents into blocks, blocks into a map, and every block accounted for (src/volume.rs:1549-1642). */
module FileData {
  import opened Base
  import opened Disk
  import opened BlockWalk
  import opened Extents
  import opened ExtentTree
  import opened Bitmaps
  import opened Allocation
  import opened Allocators
  import opened MapSpace
  import opened IndirectMap
  import opened PointerMap
  import opened BlockMap
  import opened MapCost
  import opened MapWriter
  import opened Resolve
  import opened Ownership
  import opened FileContents

  /** Give back each block of a list. */
  method FreeAll(fs: Filesystem, alloc: Allocator, blocks: seq<nat>)
    requires alloc.Now(fs).Valid() && Elems(blocks) !! fs.fixed
    modifies alloc`blockCache, alloc`dirtyBlock, fs`descs, fs`freeBlocks
    ensures Changed(old(alloc.Now(fs)), alloc.Now(fs), Elems(blocks), {}, {})
  {
    hide Changed, State.Valid, State.UsedBlocks;
    ghost var s := alloc.Now(fs);
    ChangedNone(s);
    assert Elems(blocks[..0]) == {};
    for i := 0 to |blocks|
      invariant Changed(s, alloc.Now(fs), Elems(blocks[..i]), {}, {})
    {
      ghost var t := alloc.Now(fs);
      ChangedValid(s, t, Elems(blocks[..i]), {}, {});
      assert blocks[i] in Elems(blocks);
      alloc.FreeBlock(fs, blocks[i]);
      ChangedGave(t, alloc.Now(fs), blocks[i]);
      ChangedTrans(s, t, alloc.Now(fs), Elems(blocks[..i]), {}, {}, {blocks[i]}, {}, {});
      assert Elems<nat>([]) == {} && Elems<nat>([]) + Elems<nat>([]) == {};
      assert Elems(blocks[..i + 1]) == Elems(blocks[..i]) + {blocks[i]};
    }
    assert blocks[..|blocks|] == blocks;
  }

  lemma {:induction false} ChangedValid(s: State, t: State, gone: set<nat>, came: set<nat>, touched: set<nat>)
    requires Changed(s, t, gone, came, touched)
    ensures t.Valid() && t.geo == s.geo && t.fixed == s.fixed
  {
  }

  /**
   Write a block list back, in either shape, giving back the blocks of the old
   map first. On success the new map lists exactly the list.
   */
  method WriteBlockList(fs: Filesystem, alloc: Allocator, blockSize: nat, was: InodeMap, usesExtents: bool, list: seq<nat>)
    returns (r: Result<Written>, ghost own: seq<nat>)
    requires alloc.Now(fs).Valid() && ZeroTaken(alloc.Now(fs)) && 24 <= blockSize
    requires !usesExtents ==> fs.geo.blocksCount <= U32_LIMIT && Addressable(list)
    requires Elems(MetaOf(WalkMap(fs.device, was, blockSize / 4))) !! fs.fixed
    modifies alloc`blockCache, alloc`dirtyBlock, fs`descs, fs`freeBlocks, fs`device, fs`log
    ensures alloc.Now(fs).Valid()
    ensures r.Ok? ==> var p := blockSize / 4;
                      && Changed(old(alloc.Now(fs)), alloc.Now(fs), old(Elems(MetaOf(WalkMap(fs.device, was, p)))), Elems(own), Elems(own))
                      && NoDup(own) && MapIs(fs.device, r.value.inodeMap, p, list, own) && r.value.metaUsed == |own|
                      && Resolves(fs.device, r.value.inodeMap, p, list)
    ensures r.Ok? && |list| <= INLINE_MAX ==> own == []
    ensures r.Ok? ==> Logs(old(fs.log), fs.log, own)
    ensures r.Ok? ==> |own| <= MapBlocks(usesExtents, blockSize, |list|)
    ensures r.Err? ==> r.error == NoSpace || r.error == Unsupported
    ensures Ample(old(alloc.Now(fs)).freeBlocks, usesExtents, blockSize, |list|, |list|) ==> r.Ok?
  {
    hide Logs, Changed, State.Valid, State.UsedBlocks, WalkMap, DataOf, MetaOf, NoDup, Grown, ExtentsFor, Outcome, ZeroTaken, Addressable, Resolves, Ample, MapBlocks;
    ghost var s := alloc.Now(fs);
    var p := blockSize / 4;
    // The old map's own blocks go first.
    var oldMeta := MapMetadataBlocks(fs.device, was, p);
    FreeAll(fs, alloc, oldMeta);
    ghost var t := alloc.Now(fs);
    ChangedValid(s, t, Elems(oldMeta), {}, {});
    StillTaken(s, t);
    FreeAfter(s, t, Elems(oldMeta), {}, {});
    if usesExtents {
      var m, taken, extents := WriteExtentMap(fs, alloc, MaxEntries(blockSize), list);
      r, own := m, taken;
      GrownParts(t, alloc.Now(fs), own);
      ExtentsCost(t, alloc.Now(fs), s.freeBlocks, blockSize, list, r, extents, own);
      if r.Ok? {
        ExtentsForMapIs(fs.device, r.value.inodeMap, extents, list, MaxEntries(blockSize), own, p);
        ExtentsForResolves(fs.device, r.value.inodeMap, extents, list, MaxEntries(blockSize), own, p);
        if |list| <= INLINE_MAX {
          ShortListInline(fs.device, r.value.inodeMap, extents, list, MaxEntries(blockSize), own);
        }
      }
    } else {
      var m, taken := WriteIndirectMap(fs, alloc, p, list);
      own := taken;
      OutcomeParts(t, alloc.Now(fs), p, list, m, own);
      PointersCost(t, alloc.Now(fs), s.freeBlocks, blockSize, list, m, own);
      if m.Ok? {
        OutcomeResolves(t, alloc.Now(fs), p, list, m, own);
      }
      r := if m.Ok? then Ok(Written(PointerRoot(m.value.pointers), m.value.metaUsed)) else Err(m.error);
    }
    GrownParts(t, alloc.Now(fs), own);
    ChangedGrown(t, alloc.Now(fs), own);
    ChangedTrans(s, t, alloc.Now(fs), Elems(oldMeta), {}, {}, {}, Elems(own), Elems(own));
    assert Elems(oldMeta) + {} == Elems(oldMeta) && {} + Elems(own) == Elems(own);
  }

  /** A tree of extents takes no more blocks than its list may, and fails only where those are not there. */
  lemma {:induction false} ExtentsCost(t: State, u: State, free: nat, bs: nat, list: seq<nat>, r: Result<Written>, extents: seq<Extent>, own: seq<nat>)
    requires 24 <= bs && Grown(t, u, own) && free <= t.freeBlocks
    requires Capped(extents) && DataOf(WalkExtents(extents)) == Listed(list, 0)
    requires r.Ok? ==> ExtentsFor(u.device, r.value.inodeMap, extents, list, MaxEntries(bs), own)
    requires r == Err(Unsupported) <==> INLINE_MAX * MaxEntries(bs) < |extents|
    requires |extents| <= INLINE_MAX ==> r.Ok?
    requires r.Err? && r.error != Unsupported ==> u.freeBlocks == 0 && |own| < CeilDiv(|extents|, MaxEntries(bs))
    ensures r.Ok? ==> |own| <= MapBlocks(true, bs, |list|)
    ensures Ample(free, true, bs, |list|, |list|) ==> r.Ok?
  {
    hide Grown, Capped, DataOf, WalkExtents, Listed, CeilDiv, Holding, Ordered, Maximal, LeavesFit, Leaves;
    GrownParts(t, u, own);
    FewExtents(extents, list);
    CeilDivRises(|extents|, |list|, MaxEntries(bs));
  }

  lemma {:induction false} PointersCost(t: State, u: State, free: nat, bs: nat, list: seq<nat>, r: Result<NewMap>, own: seq<nat>)
    requires 24 <= bs && Outcome(t, u, bs / 4, list, r, own) && free <= t.freeBlocks
    ensures r.Ok? ==> |own| <= MapBlocks(false, bs, |list|)
    ensures r.Err? ==> r.error == NoSpace || r.error == Unsupported
    ensures Ample(free, false, bs, |list|, |list|) ==> r.Ok?
  {
    hide Grown, MapSize, MapsList, MapLimit, ZeroTaken;
    GrownParts(t, u, own);
  }

  lemma {:induction false} OutcomeParts(s: State, t: State, p: nat, list: seq<nat>, r: Result<NewMap>, own: seq<nat>)
    requires 0 < p && Outcome(s, t, p, list, r, own)
    ensures Grown(s, t, own)
    ensures r.Ok? ==> MapIs(t.device, PointerRoot(r.value.pointers), p, list, own) && r.value.metaUsed == |own|
    ensures r.Ok? && |list| <= INLINE_MAX ==> own == []
  {
    hide Grown, DataOf, MetaOf, WalkPointers, MapLimit, TreeSize, Reach;
  }

  // ---- fitting a list of blocks to a length ----

  /** A file's data as a list of blocks, none of them a hole. */
  ghost predicate DataIs(dev: Device, m: InodeMap, p: nat, list: seq<nat>) {
    DataOf(WalkMap(dev, m, p)) == Listed(list, 0) && HOLE !in list
  }

  /** Allocate blocks onto the end of a list until it is long enough, sought from the one place or each from the one before. */
  method GrowList(fs: Filesystem, alloc: Allocator, list: seq<nat>, needed: nat, follow: bool) returns (r: Result<seq<nat>>, ghost added: seq<nat>)
    requires alloc.Now(fs).Valid() && ZeroTaken(alloc.Now(fs)) && |list| <= needed
    modifies alloc`blockCache, alloc`dirtyBlock, fs`descs, fs`freeBlocks
    ensures Grown(old(alloc.Now(fs)), alloc.Now(fs), added) && ZeroTaken(alloc.Now(fs)) && fs.device == old(fs.device)
    ensures r.Ok? ==> r.value == list + added && |r.value| == needed && HOLE !in added
    ensures r.Err? ==> r == Err(NoSpace) && alloc.Now(fs).freeBlocks == 0 && |list| + |added| < needed
  {
    hide Grown, State.Valid, ZeroTaken, FirstFree, BlockOrder, State.UsedBlocks;
    ghost var s := alloc.Now(fs);
    GrownNone(s);
    added := [];
    var out := list;
    var goal := if list == [] then 0 else list[|list| - 1];
    while |out| < needed
      invariant out == list + added && |out| <= needed && HOLE !in added
      invariant Grown(s, alloc.Now(fs), added) && ZeroTaken(alloc.Now(fs)) && fs.device == old(fs.device)
      decreases needed - |out|
    {
      ghost var t := alloc.Now(fs);
      GrownParts(s, t, added);
      var block := TakeBlock(fs, alloc, goal);
      if block.Err? {
        GrownTrans(s, t, alloc.Now(fs), added, []);
        assert added + [] == added;
        return Err(block.error), added;
      }
      GrownTrans(s, t, alloc.Now(fs), added, [block.value]);
      added := added + [block.value];
      out := out + [block.value];
      if follow {
        goal := block.value;
      }
    }
    r := Ok(out);
  }

  /** Give back the blocks of a list past a length, from the end; holes are no blocks. */
  method ShrinkList(fs: Filesystem, alloc: Allocator, list: seq<nat>, needed: nat) returns (out: seq<nat>)
    requires alloc.Now(fs).Valid() && Elems(list) - {HOLE} !! fs.fixed && needed <= |list|
    modifies alloc`blockCache, alloc`dirtyBlock, fs`descs, fs`freeBlocks
    ensures out == list[..needed] && Changed(old(alloc.Now(fs)), alloc.Now(fs), Elems(list[needed..]) - {HOLE}, {}, {})
    ensures fs.device == old(fs.device)
  {
    hide Changed, State.Valid, State.UsedBlocks;
    ghost var s := alloc.Now(fs);
    ChangedNone(s);
    out := list;
    assert Elems(list[|list|..]) - {HOLE} == {};
    assert Elems<nat>([]) == {} && Elems<nat>([]) + Elems<nat>([]) == {};
    while |out| > needed
      invariant needed <= |out| <= |list| && out == list[..|out|]
      invariant Changed(s, alloc.Now(fs), Elems(list[|out|..]) - {HOLE}, {}, {}) && fs.device == old(fs.device)
      decreases |out|
    {
      ghost var t := alloc.Now(fs);
      ghost var gone := Elems(list[|out|..]) - {HOLE};
      ChangedValid(s, t, gone, {}, {});
      var n := |out| - 1;
      var block := out[n];
      assert list[n] == block && block in Elems(list);
      assert list[n..] == [block] + list[n + 1..];
      assert Elems(list[n..]) == Elems(list[n + 1..]) + {block};
      out := out[..n];
      if block != HOLE {
        alloc.FreeBlock(fs, block);
        SameDevice(t, alloc.Now(fs), block);
        ChangedGave(t, alloc.Now(fs), block);
        ChangedTrans(s, t, alloc.Now(fs), gone, {}, {}, {block}, {}, {});
        assert Elems(list[n..]) - {HOLE} == gone + {block};
      } else {
        assert Elems(list[n..]) - {HOLE} == gone;
      }
    }
  }

  lemma {:induction false} SameDevice(s: State, t: State, b: nat)
    requires s.Valid() && (if b in s.UsedBlocks() then GaveBlock(s, t, b) else Alike(s, t))
    ensures t.device == s.device
  {
    hide State.Layout, State.BlocksOk, State.InodesOk, State.UsedBlocks, State.UsedInodes;
  }

  /** Write the contents over a list of as many blocks as they need, padding the last with zeroes. */
  method WriteContents(fs: Filesystem, alloc: Allocator, bs: nat, list: seq<nat>, data: Bytes)
    requires alloc.Now(fs).Valid() && 0 < bs && |list| == CeilDiv(|data|, bs)
    modifies fs`device, fs`log
    ensures NoDup(list) && Elems(list) !! fs.fixed ==>
              Changed(old(alloc.Now(fs)), alloc.Now(fs), {}, {}, Elems(list)) && HoldsData(fs.device, list, data, bs)
    ensures fs.log == old(fs.log) + list
  {
    hide Changed, State.Valid, State.UsedBlocks, HoldsFull, HoldsData, CeilDiv, BlockBytes, NoDup;
    ghost var s := alloc.Now(fs);
    ghost var good := NoDup(list) && Elems(list) !! fs.fixed;
    ChangedNone(s);
    assert Elems(list[..0]) == {} && list[..0] == [] && data[..0] == [];
    HoldsNothing(fs.device, bs);
    ChunkCount(|data|, bs, 0);
    ChunkCount(|data|, bs, |list|);
    for i := 0 to |list|
      invariant i < |list| ==> i * bs < |data|
      invariant good ==> Changed(s, alloc.Now(fs), {}, {}, Elems(list[..i]))
      invariant good && i < |list| ==> HoldsFull(fs.device, list[..i], data[..i * bs], bs)
      invariant good && i == |list| ==> HoldsData(fs.device, list, data, bs)
      invariant fs.log == old(fs.log) + list[..i]
    {
      ChunkCount(|data|, bs, i);
      ChunkCount(|data|, bs, i + 1);
      var from := i * bs;
      var to := Min((i + 1) * bs, |data|);
      ghost var t := alloc.Now(fs);
      var buf := Pad(data[from..to], bs);
      fs.WriteBlock(list[i], Contents(buf));
      if good {
        WroteNext(s, t, alloc.Now(fs), list, i, data, from, to, bs);
      }
      assert list[..|list|] == list && data[..|data|] == data;
    }
    assert list[..|list|] == list;
  }

  lemma {:induction false} WroteNext(s: State, t: State, u: State, list: seq<nat>, i: nat, data: Bytes, from: nat, to: nat, bs: nat)
    requires i < |list| && NoDup(list) && Elems(list) !! s.fixed && Changed(s, t, {}, {}, Elems(list[..i]))
    requires from < to <= |data| && to - from <= bs && (to < |data| ==> to == from + bs)
    requires HoldsFull(t.device, list[..i], data[..from], bs)
    requires u == t.(device := t.device[list[i] := Contents(Pad(data[from..to], bs))])
    ensures Changed(s, u, {}, {}, Elems(list[..i + 1]))
    ensures to == from + bs ==> HoldsFull(u.device, list[..i + 1], data[..to], bs)
    ensures to == |data| ==> HoldsData(u.device, list[..i + 1], data, bs)
  {
    hide Changed, State.Valid, State.UsedBlocks, HoldsFull, HoldsData, BlockBytes, NoDup;
    ChangedParts(s, t, {}, {}, Elems(list[..i]));
    FreshAt(list, i);
    StepContents(t.device, list[..i], data, from, to, list[i], bs);
    assert list[i] in Elems(list);
    ChangedWrite(t, list[i], Contents(Pad(data[from..to], bs)));
    ChangedTrans(s, t, u, {}, {}, Elems(list[..i]), {}, {}, {list[i]});
    assert Elems<nat>([]) == {} && Elems<nat>([]) + Elems<nat>([]) == {};
    assert list[..i + 1] == list[..i] + [list[i]];
    assert Elems(list[..i + 1]) == Elems(list[..i]) + {list[i]};
  }

  lemma {:induction false} HoldsNothing(dev: Device, bs: nat)
    ensures HoldsFull(dev, [], [], bs) && HoldsData(dev, [], [], bs)
  {
  }

  /** Writing the next block's worth of the contents. */
  lemma {:induction false} StepContents(dev: Device, before: seq<nat>, data: Bytes, from: nat, to: nat, b: nat, bs: nat)
    requires from < to <= |data| && to - from <= bs && (to < |data| ==> to == from + bs)
    requires HoldsFull(dev, before, data[..from], bs) && b !in before
    ensures var now := dev[b := Contents(Pad(data[from..to], bs))];
            && (to == from + bs ==> HoldsFull(now, before + [b], data[..to], bs))
            && (to == |data| ==> HoldsData(now, before + [b], data, bs))
  {
    assert data[..from] + data[from..to] == data[..to];
    if to == from + bs {
      assert Pad(data[from..to], bs) == data[from..to];
      HoldsFullMore(dev, before, data[..from], b, data[from..to], bs);
    } else {
      HoldsDataLast(dev, before, data[..from], b, data[from..to], bs);
    }
    assert data[..|data|] == data;
  }

  // ---- an inode's blocks ----

  lemma {:induction false} PhysicalsListed(list: seq<nat>, base: nat)
    requires HOLE !in list
    ensures Physicals(Listed(list, base)) == list
  {
    if list != [] {
      var n := |list| - 1;
      assert list[n] in list;
      assert forall b :: b in list[..n] ==> b in list;
      PhysicalsListed(list[..n], base);
      assert Physicals(Listed(list, base)) == Physicals(Listed(list[..n], base)) + [list[n]];
      assert list == list[..n] + [list[n]];
    }
  }

  lemma {:induction false} BlocksAre(dev: Device, i: Inode, p: nat, list: seq<nat>)
    requires DataIs(dev, i.map_, p, list)
    ensures BlocksOf(dev, i, p) == list + MetaOf(WalkMap(dev, i.map_, p)) + AclBlock(i)
  {
    hide WalkMap, DataOf, MetaOf, Listed;
    PhysicalsListed(list, 0);
  }

  lemma {:induction false} NoDupSplit(a: seq<nat>, b: seq<nat>)
    ensures NoDup(a + b) <==> NoDup(a) && NoDup(b) && Elems(a) !! Elems(b)
    ensures Elems(a + b) == Elems(a) + Elems(b)
  {
    var c := a + b;
    if NoDup(c) {
      assert forall i :: 0 <= i < |a| ==> a[i] == c[i];
      forall i, j | 0 <= i < j < |b| ensures b[i] != b[j] {
        assert b[i] == c[|a| + i] && b[j] == c[|a| + j];
      }
      forall x | x in Elems(a) ensures x !in Elems(b) {
        var i :| 0 <= i < |a| && a[i] == x;
        forall j | 0 <= j < |b| ensures b[j] != x {
          assert c[i] == x && c[|a| + j] == b[j];
        }
      }
    }
    if NoDup(a) && NoDup(b) && Elems(a) !! Elems(b) {
      NoDupConcat(a, b);
    }
  }

  lemma {:induction false} NoDupThree(a: seq<nat>, b: seq<nat>, c: seq<nat>)
    ensures NoDup(a + b + c) <==> NoDup(a) && NoDup(b) && NoDup(c) && Elems(a) !! Elems(b) && Elems(a) !! Elems(c) && Elems(b) !! Elems(c)
    ensures Elems(a + b + c) == Elems(a) + Elems(b) + Elems(c)
  {
    hide NoDup, Elems;
    NoDupSplit(a + b, c);
    NoDupSplit(a, b);
  }

  /** What a caller of the allocator may rely on about an inode's own blocks. */
  lemma {:induction false} OwnBlocks(s: State, table: Table, inum: nat, p: nat, list: seq<nat>)
    requires s.Valid() && Owns(s, table, p) && inum in table && DataIs(s.device, table[inum].map_, p, list)
    ensures var metas, acl := MetaOf(WalkMap(s.device, table[inum].map_, p)), AclBlock(table[inum]);
            && BlocksOf(s.device, table[inum], p) == list + metas + acl
            && NoDup(list) && NoDup(metas)
            && Elems(list) !! Elems(metas) && Elems(list) !! Elems(acl) && Elems(metas) !! Elems(acl)
            && Owned(s.device, table[inum], p) == Elems(list) + Elems(metas) + Elems(acl)
            && Elems(list) + Elems(metas) + Elems(acl) <= s.UsedBlocks() - s.fixed
  {
    hide State.Valid, State.UsedBlocks, WalkMap, DataIs, NoDup, AclBlock;
    BlocksAre(s.device, table[inum], p, list);
    NoDupThree(list, MetaOf(WalkMap(s.device, table[inum].map_, p)), AclBlock(table[inum]));
    hide BlocksOf;
  }

  /** A new list and a new map in place of the old: the ownership stands. */
  lemma {:induction false} Replaced(s: State, t: State, table: Table, inum: nat, now: Inode, p: nat,
                                    list: seq<nat>, list': seq<nat>, own: seq<nat>, touched: set<nat>)
    requires s.Valid() && Owns(s, table, p) && inum in table && DataIs(s.device, table[inum].map_, p, list)
    requires Changed(s, t, Elems(list) - Elems(list') + Elems(MetaOf(WalkMap(s.device, table[inum].map_, p))),
                     Elems(list') - Elems(list) + Elems(own), touched)
    requires touched <= Elems(list') + Elems(own)
    requires MapIs(t.device, now.map_, p, list', own) && HOLE !in list' && NoDup(list') && NoDup(own)
    requires Elems(own) !! Elems(list') - Elems(list)
    requires now.fileAcl == table[inum].fileAcl
    ensures Owns(t, table[inum := now], p) && Kept(s, t, table, inum, p)
    ensures BlocksOf(t.device, now, p) == list' + own + AclBlock(now) && DataIs(t.device, now.map_, p, list')
  {
    hide State.Valid, State.UsedBlocks, WalkMap, DataOf, MetaOf, NoDup, BlocksOf, Owns, AclBlock, Elems, Listed, Owned;
    OwnBlocks(s, table, inum, p, list);
    BlocksAre(t.device, now, p, list');
    SameAcl(table[inum], now);
    var metas, acl := MetaOf(WalkMap(s.device, table[inum].map_, p)), AclBlock(now);
    var gone := Elems(list) - Elems(list') + Elems(metas);
    var came := Elems(list') - Elems(list) + Elems(own);
    ChangedParts(s, t, gone, came, touched);
    SwapSets(Elems(list), Elems(list'), Elems(metas), Elems(own), Elems(acl), s.UsedBlocks());
    NoDupThree(list', own, acl);
    AclAlone(now);
    OwnedIs(t.device, now, p, list' + own + acl);
    Exchange(s, t, table, inum, now, p, gone, came, touched);
  }

  lemma {:induction false} OwnedIs(dev: Device, i: Inode, p: nat, blocks: seq<nat>)
    requires BlocksOf(dev, i, p) == blocks
    ensures Owned(dev, i, p) == Elems(blocks)
  {
    hide BlocksOf;
  }

  lemma {:induction false} SameAcl(a: Inode, b: Inode)
    requires a.fileAcl == b.fileAcl
    ensures AclBlock(a) == AclBlock(b)
  {
  }

  lemma {:induction false} ChangedParts(s: State, t: State, gone: set<nat>, came: set<nat>, touched: set<nat>)
    requires Changed(s, t, gone, came, touched)
    ensures t.Valid() && s.Valid() && came !! s.UsedBlocks() - gone
    ensures came !! s.fixed && gone !! s.fixed && touched !! s.fixed
    ensures forall x :: x !in touched ==> SameAt(s.device, t.device, x)
    ensures t.UsedBlocks() == s.UsedBlocks() - gone + came && t.UsedInodes() == s.UsedInodes()
    ensures t.geo == s.geo && t.fixed == s.fixed && t.dirs == s.dirs
  {
    hide State.Valid, State.UsedBlocks, State.UsedInodes;
  }

  /** Old data L, map M and attributes A make way for new data N and map O. */
  lemma {:induction false} SwapSets(L: set<nat>, N: set<nat>, M: set<nat>, O: set<nat>, A: set<nat>, used: set<nat>)
    requires L !! M && L !! A && M !! A && L + M + A <= used
    requires (N - L + O) !! used - (L - N + M) && O !! N - L
    ensures O !! N && A !! O && A !! N
    ensures L - N + M <= L + M + A
    ensures N + O <= L + M + A + (N - L + O)
    ensures N + O + A == L + M + A - (L - N + M) + (N - L + O)
  {
    forall x | x in L && x in N ensures x !in O {
      assert x in used - (L - N + M);
    }
    forall x | x in A ensures x !in O && x !in N {
      assert x in used - (L - N + M);
    }
  }

  lemma {:induction false} AclAlone(i: Inode)
    ensures NoDup(AclBlock(i))
  {
  }

  // ---- replacing a file's contents ----

  /** A list refitted begins as it did, and any blocks behind that are new ones. */
  predicate KeptPart(list: seq<nat>, now: seq<nat>) {
    var n := Min(|list|, |now|);
    now[..n] == list[..n] && HOLE !in now[n..]
  }

  /** Give back what a list has too many, or take what it has too few. */
  method Refit(fs: Filesystem, alloc: Allocator, list: seq<nat>, needed: nat, follow: bool) returns (r: Result<seq<nat>>)
    requires alloc.Now(fs).Valid() && ZeroTaken(alloc.Now(fs))
    requires Elems(list) - {HOLE} <= alloc.Now(fs).UsedBlocks() - fs.fixed
    modifies alloc`blockCache, alloc`dirtyBlock, fs`descs, fs`freeBlocks
    ensures alloc.Now(fs).Valid() && ZeroTaken(alloc.Now(fs))
    ensures r.Ok? ==> |r.value| == needed && KeptPart(list, r.value) && fs.device == old(fs.device)
    ensures r.Err? ==> r == Err(NoSpace) && |list| + old(alloc.Now(fs)).freeBlocks < needed
    ensures r.Ok? && HOLE !in list && NoDup(list) ==>
              HOLE !in r.value && NoDup(r.value)
              && Changed(old(alloc.Now(fs)), alloc.Now(fs), Elems(list) - Elems(r.value), Elems(r.value) - Elems(list), Elems(r.value))
  {
    hide Changed, State.Valid, State.UsedBlocks, NoDup, Grown, ZeroTaken, Elems;
    ghost var s := alloc.Now(fs);
    if needed <= |list| {
      var out := ShrinkList(fs, alloc, list, needed);
      ChangedValid(s, alloc.Now(fs), Elems(list[needed..]) - {HOLE}, {}, {});
      StillTaken(s, alloc.Now(fs));
      if HOLE !in list && NoDup(list) {
        TakePart(list, needed);
        NoHoleElems(list, needed);
        ChangedMore(s, alloc.Now(fs), Elems(list[needed..]), {}, {}, Elems(out));
      }
      return Ok(out);
    }
    var out, added := GrowList(fs, alloc, list, needed, follow);
    GrownParts(s, alloc.Now(fs), added);
    if out.Ok? && HOLE !in list && NoDup(list) {
      NoHoleElems(list, |list|);
      GrownApart(s, alloc.Now(fs), added);
      ChangedGrown(s, alloc.Now(fs), added);
      ChangedParts(s, alloc.Now(fs), {}, Elems(added), Elems(added));
      NoDupSplit(list, added);
      NoHoles(list, added);
      ChangedMore(s, alloc.Now(fs), {}, Elems(added), Elems(added), Elems(out.value));
      assert {} == Elems(list) - Elems(out.value) && Elems(added) == Elems(out.value) - Elems(list);
    }
    r := out;
  }

  lemma {:induction false} NoHoleElems(list: seq<nat>, n: nat)
    requires HOLE !in list && n <= |list|
    ensures Elems(list[n..]) - {HOLE} == Elems(list[n..]) && Elems(list) - {HOLE} == Elems(list)
  {
  }

  lemma {:induction false} TakePart(list: seq<nat>, n: nat)
    requires NoDup(list) && n <= |list| && HOLE !in list
    ensures NoDup(list[..n]) && HOLE !in list[..n]
    ensures Elems(list) - Elems(list[..n]) == Elems(list[n..]) && Elems(list[..n]) - Elems(list) == {}
  {
    NoDupSplit(list[..n], list[n..]);
    assert list == list[..n] + list[n..];
    assert forall b :: b in list[..n] ==> b in list;
  }

  lemma {:induction false} NoHoles(a: seq<nat>, b: seq<nat>)
    requires HOLE !in a && HOLE !in b
    ensures HOLE !in a + b
  {
  }

  lemma {:induction false} GrownApart(s: State, t: State, own: seq<nat>)
    requires Grown(s, t, own)
    ensures Elems(own) !! s.UsedBlocks()
  {
    hide State.Valid, State.UsedBlocks, State.UsedInodes, NoDup;
  }

  /** More may be said to be written than was, as long as none of it is fixed. */
  lemma {:induction false} ChangedMore(s: State, t: State, gone: set<nat>, came: set<nat>, touched: set<nat>, more: set<nat>)
    requires Changed(s, t, gone, came, touched) && touched <= more && more <= s.UsedBlocks() + came - s.fixed
    ensures Changed(s, t, gone, came, more)
  {
    hide State.Valid, State.UsedBlocks, State.UsedInodes, SameAt;
  }

  /** The count of 512-byte sectors an inode records for its blocks. */
  function Sectors(blocks: nat, bs: nat): nat {
    blocks * (bs / 512)
  }

  /** Bitmaps, counts and inodes agree, and every block has its one owner. */
  ghost predicate VolumeOk(s: State, table: Table, bs: nat) {
    && s.Valid() && ZeroTaken(s) && 1024 <= bs && bs % 512 == 0
    && Owns(s, table, bs / 4)
    && table.Keys <= s.UsedInodes()
    && (forall i :: i in table ==> (table[i].isDir <==> i in s.dirs))
    && (forall i :: i in table && !table[i].usesExtents ==> s.geo.blocksCount <= U32_LIMIT)
  }

  lemma {:induction false} VolumeParts(s: State, table: Table, bs: nat)
    requires VolumeOk(s, table, bs)
    ensures s.Valid() && ZeroTaken(s) && 1024 <= bs && bs % 512 == 0 && Owns(s, table, bs / 4)
    ensures table.Keys <= s.UsedInodes() && forall i :: i in table ==> (table[i].isDir <==> i in s.dirs)
    ensures forall i :: i in table && !table[i].usesExtents ==> s.geo.blocksCount <= U32_LIMIT
  {
  }

  datatype Stored = Stored(list: seq<nat>, written: Written)

  /** A file's data and map before it is rewritten: distinct blocks in use, none of them fixed. */
  ghost predicate Ready(s: State, m: InodeMap, p: nat, list: seq<nat>, metas: seq<nat>)
    requires s.Valid()
  {
    && DataIs(s.device, m, p, list) && metas == MetaOf(WalkMap(s.device, m, p)) && NoDup(list)
    && Elems(list) !! Elems(metas) && Elems(list) + Elems(metas) <= s.UsedBlocks() - s.fixed
  }

  /** What storing contents amounts to on the device and in the bitmaps. */
  ghost predicate StoredAs(s: State, t: State, p: nat, bs: nat, was: seq<nat>, metas: seq<nat>, data: Bytes, r: Stored, own: seq<nat>) {
    && Changed(s, t, Elems(was) - Elems(r.list) + Elems(metas), Elems(r.list) - Elems(was) + Elems(own), Elems(r.list) + Elems(own))
    && NoDup(r.list) && HOLE !in r.list && NoDup(own) && Elems(own) !! Elems(r.list) - Elems(was)
    && MapIs(t.device, r.written.inodeMap, p, r.list, own) && r.written.metaUsed == |own| && (|r.list| <= INLINE_MAX ==> own == [])
    && HoldsData(t.device, r.list, data, bs) && 0 < p && Resolves(t.device, r.written.inodeMap, p, r.list)
  }

  /**
   Fit a file's blocks to its contents and write them. A hole among the blocks it
   keeps is written like any other, as block 0: that happens exactly when there is one.
   */
  method PutContents(fs: Filesystem, alloc: Allocator, bs: nat, blocks: seq<nat>, data: Bytes, follow: bool) returns (r: Result<seq<nat>>)
    requires alloc.Now(fs).Valid() && ZeroTaken(alloc.Now(fs)) && 0 < bs
    requires Elems(blocks) - {HOLE} <= alloc.Now(fs).UsedBlocks() - fs.fixed
    modifies alloc`blockCache, alloc`dirtyBlock, fs`descs, fs`freeBlocks, fs`device, fs`log
    ensures r.Err? ==> alloc.Now(fs).Valid() && r == Err(NoSpace) && |blocks| + old(alloc.Now(fs)).freeBlocks < CeilDiv(|data|, bs)
    ensures r.Ok? ==> |r.value| == CeilDiv(|data|, bs) && KeptPart(blocks, r.value) && fs.log == old(fs.log) + r.value
    ensures r.Ok? ==> (HOLE in fs.log[|old(fs.log)|..] <==> HOLE in blocks[..Min(|blocks|, CeilDiv(|data|, bs))])
    ensures r.Ok? && HOLE !in blocks && NoDup(blocks) ==>
              HOLE !in r.value && NoDup(r.value) && HoldsData(fs.device, r.value, data, bs)
              && Changed(old(alloc.Now(fs)), alloc.Now(fs), Elems(blocks) - Elems(r.value), Elems(r.value) - Elems(blocks), Elems(r.value))
  {
    hide Changed, State.Valid, State.UsedBlocks, NoDup, HoldsData, ZeroTaken, CeilDiv;
    ghost var s := alloc.Now(fs);
    r := Refit(fs, alloc, blocks, CeilDiv(|data|, bs), follow);
    if r.Err? {
      return;
    }
    var list := r.value;
    ghost var s1, g1, c1 := alloc.Now(fs), Elems(blocks) - Elems(list), Elems(list) - Elems(blocks);
    WriteContents(fs, alloc, bs, list, data);
    HoleKept(blocks, list);
    assert (old(fs.log) + list)[|old(fs.log)|..] == list;
    if HOLE !in blocks && NoDup(blocks) {
      ChangedParts(s, s1, g1, c1, Elems(list));
      NoHoleElems(blocks, |blocks|);
      ChangedTrans(s, s1, alloc.Now(fs), g1, c1, Elems(list), {}, {}, Elems(list));
      assert g1 + {} == g1 && c1 + {} == c1 && Elems(list) + Elems(list) == Elems(list);
    }
  }

  lemma {:induction false} HoleKept(list: seq<nat>, now: seq<nat>)
    requires KeptPart(list, now)
    ensures HOLE in now <==> HOLE in list[..Min(|list|, |now|)]
  {
    var n := Min(|list|, |now|);
    assert now == now[..n] + now[n..];
  }

  /** Put contents into blocks and the blocks into a map: the whole of a file's rewriting but its inode. */
  method StoreData(fs: Filesystem, alloc: Allocator, bs: nat, m: InodeMap, usesExtents: bool, data: Bytes, follow: bool, ghost was: seq<nat>)
    returns (r: Result<Stored>, ghost own: seq<nat>)
    requires alloc.Now(fs).Valid() && ZeroTaken(alloc.Now(fs)) && 24 <= bs
    requires !usesExtents ==> fs.geo.blocksCount <= U32_LIMIT
    requires Ready(alloc.Now(fs), m, bs / 4, was, MetaOf(WalkMap(fs.device, m, bs / 4)))
    modifies alloc`blockCache, alloc`dirtyBlock, fs`descs, fs`freeBlocks, fs`device, fs`log
    ensures alloc.Now(fs).Valid()
    ensures r.Ok? ==> StoredAs(old(alloc.Now(fs)), alloc.Now(fs), bs / 4, bs, was, old(MetaOf(WalkMap(fs.device, m, bs / 4))), data, r.value, own)
    ensures r.Ok? ==> WroteOnce(old(fs.log), fs.log, r.value.list)
    ensures r.Ok? && |r.value.list| <= INLINE_MAX ==> fs.log == old(fs.log) + r.value.list
    ensures r.Ok? ==> KeptPart(was, r.value.list)
    ensures r.Err? ==> r.error == NoSpace || r.error == Unsupported
    ensures Ample(old(alloc.Now(fs)).freeBlocks, usesExtents, bs, |was|, CeilDiv(|data|, bs)) ==>
              r.Ok? && Spent(old(alloc.Now(fs)), alloc.Now(fs), usesExtents, bs, |was|, CeilDiv(|data|, bs))
  {
    hide KeptPart, Changed, State.Valid, State.UsedBlocks, WalkMap, DataOf, MetaOf, NoDup, Grown, HoldsData, MapIs, Elems, ZeroTaken, Listed, Logs, WroteOnce, Spares, Resolves, CeilDiv, Ample, Spent;
    ghost var log := fs.log;
    ghost var s := alloc.Now(fs);
    var p := bs / 4;
    own := [];
    ghost var metas := MetaOf(WalkMap(fs.device, m, p));
    var blocks := ReadBlockList(fs.device, m, p);
    ReadsBack(fs.device, m, p, was);
    var fitted := PutContents(fs, alloc, bs, blocks, data, follow);
    if fitted.Err? {
      if Ample(s.freeBlocks, usesExtents, bs, |was|, CeilDiv(|data|, bs)) {
        AmpleFits(s.freeBlocks, usesExtents, bs, |was|, CeilDiv(|data|, bs));
      }
      return Err(fitted.error), own;
    }
    var list := fitted.value;
    ghost var s2, g1, c1 := alloc.Now(fs), Elems(was) - Elems(list), Elems(list) - Elems(was);
    ChangedParts(s, s2, g1, c1, Elems(list));
    FittedSets(Elems(was), Elems(list), Elems(metas), s.UsedBlocks(), s.fixed);
    MetasStay(s, s2, m, p, g1, c1, Elems(list));
    StillTaken(s, s2);
    ListAddressable(s2, list);
    FreeAfter(s, s2, g1, c1, Elems(list));
    FewNew(was, list);
    AmpleAfter(s.freeBlocks, s2.freeBlocks, usesExtents, bs, |was|, |list|);
    var written, taken := WriteBlockList(fs, alloc, bs, m, usesExtents, list);
    if written.Err? {
      return Err(written.error), own;
    }
    own := taken;
    ghost var s3 := alloc.Now(fs);
    ChangedParts(s2, s3, Elems(metas), Elems(own), Elems(own));
    ChangedTrans(s, s2, s3, g1, c1, Elems(list), Elems(metas), Elems(own), Elems(own));
    ContentsStay(s2, s3, list, data, bs, Elems(own));
    LogsSpare(log + list, fs.log, own, list);
    OnceEach(log, list, fs.log);
    NoneLogged(log + list, fs.log, own);
    FreeAfter(s2, s3, Elems(metas), Elems(own), Elems(own));
    FewElems(own);
    SpentAll(s, s2, s3, usesExtents, bs, |was|, |list|, |own|);
    r := Ok(Stored(list, written.value));
  }

  /** Growing a list of `had` blocks to n and mapping it takes no more blocks than that. */
  ghost predicate Spent(s: State, t: State, usesExtents: bool, bs: nat, had: nat, n: nat)
    requires 24 <= bs
  {
    s.freeBlocks <= t.freeBlocks + SatSub(n, had) + MapBlocks(usesExtents, bs, n)
  }

  lemma {:induction false} AmpleFits(free: nat, usesExtents: bool, bs: nat, had: nat, n: nat)
    requires 24 <= bs && Ample(free, usesExtents, bs, had, n)
    ensures n <= had + free
  {
    hide MapSize, MapLimit, CeilDiv;
  }

  lemma {:induction false} AmpleAfter(free: nat, now: nat, usesExtents: bool, bs: nat, had: nat, n: nat)
    requires 24 <= bs && free <= now + SatSub(n, had)
    ensures Ample(free, usesExtents, bs, had, n) ==> Ample(now, usesExtents, bs, n, n)
  {
    hide MapSize, MapLimit, CeilDiv;
  }

  lemma {:induction false} SpentAll(s: State, t: State, u: State, usesExtents: bool, bs: nat, had: nat, n: nat, own: nat)
    requires 24 <= bs && s.freeBlocks <= t.freeBlocks + SatSub(n, had) && t.freeBlocks <= u.freeBlocks + own
    requires own <= MapBlocks(usesExtents, bs, n)
    ensures Spent(s, u, usesExtents, bs, had, n)
  {
    hide MapBlocks;
  }

  /** A list refitted has no more new blocks than it is longer. */
  lemma {:induction false} FewNew(was: seq<nat>, list: seq<nat>)
    requires KeptPart(was, list)
    ensures |Elems(list) - Elems(was)| <= SatSub(|list|, |was|)
  {
    var n := Min(|was|, |list|);
    forall b | b in Elems(list) - Elems(was) ensures b in Elems(list[n..]) {
      assert b in list && b !in was;
      assert b !in list[..n] by {
        assert forall k :: 0 <= k < n ==> was[..n][k] == was[k];
      }
      assert list == list[..n] + list[n..];
    }
    FewElems(list[n..]);
    SubsetFewer(Elems(list) - Elems(was), Elems(list[n..]));
  }

  lemma {:induction false} NoneLogged(before: seq<nat>, after: seq<nat>, own: seq<nat>)
    requires Logs(before, after, own)
    ensures own == [] ==> after == before
  {
    assert |before| < |after| ==> after[|before|] in own;
    assert after[..|before|] == before;
  }

  /** Where the old map and the new data lie once the data has been fitted. */
  lemma {:induction false} FittedSets(W: set<nat>, N: set<nat>, M: set<nat>, used: set<nat>, fixed: set<nat>)
    requires W !! M && W + M <= used - fixed && (N - W) !! used - (W - N) && N - W !! fixed
    ensures N <= used - (W - N) + (N - W) && N !! fixed
    ensures M <= used - (W - N) + (N - W) && M !! N && M !! N - W && M !! fixed
  {
    forall x | x in M ensures x !in N {
      assert x in used - (W - N);
    }
  }

  lemma {:induction false} MetasStay(s: State, t: State, m: InodeMap, p: nat, gone: set<nat>, came: set<nat>, touched: set<nat>)
    requires Changed(s, t, gone, came, touched) && Elems(MetaOf(WalkMap(s.device, m, p))) !! touched
    ensures WalkMap(t.device, m, p) == WalkMap(s.device, m, p)
  {
    hide State.Valid, State.UsedBlocks, State.UsedInodes, WalkMap, MetaOf, SameAt;
    forall b | b in MetaOf(WalkMap(s.device, m, p)) ensures SameAt(s.device, t.device, b) {
      assert b in Elems(MetaOf(WalkMap(s.device, m, p)));
    }
    MapFrame(s.device, t.device, m, p);
  }

  lemma {:induction false} ListAddressable(s: State, list: seq<nat>)
    requires s.Valid() && Elems(list) <= s.UsedBlocks()
    ensures s.geo.blocksCount <= U32_LIMIT ==> Addressable(list)
  {
    hide State.Layout, State.BlocksOk, State.InodesOk, State.BlockMaps;
    forall i | 0 <= i < |list| ensures list[i] < s.geo.blocksCount {
      assert list[i] in Elems(list);
    }
  }

  lemma {:induction false} GrownAddressable(s: State, t: State, list: seq<nat>)
    requires Grown(s, t, list)
    ensures s.geo.blocksCount <= U32_LIMIT ==> Addressable(list)
  {
    hide State.Valid, State.UsedBlocks;
    forall i | 0 <= i < |list| ensures list[i] < s.geo.blocksCount {
      assert list[i] in list;
    }
  }

  lemma {:induction false} ContentsStay(s: State, t: State, list: seq<nat>, data: Bytes, bs: nat, own: set<nat>)
    requires HoldsData(s.device, list, data, bs) && own !! Elems(list)
    requires forall x :: x !in own ==> SameAt(s.device, t.device, x)
    ensures HoldsData(t.device, list, data, bs)
  {
    hide HoldsData;
    forall b | b in list ensures BlockBytes(t.device, b, bs) == BlockBytes(s.device, b, bs) {
      assert b in Elems(list);
      assert SameAt(s.device, t.device, b);
    }
    HoldsDataFrame(s.device, t.device, list, data, bs);
  }

  class Volume {
    const fs: Filesystem
    const alloc: Allocator
    const blockSize: nat
    var inodes: Table

    ghost function Now(): State
      reads this, fs, alloc
    {
      alloc.Now(fs)
    }

    ghost predicate Valid()
      reads this, fs, alloc
    {
      VolumeOk(Now(), inodes, blockSize)
    }

    constructor (fs: Filesystem, alloc: Allocator, blockSize: nat, inodes: Table)
      ensures this.fs == fs && this.alloc == alloc && this.blockSize == blockSize && this.inodes == inodes
    {
      this.fs, this.alloc, this.blockSize, this.inodes := fs, alloc, blockSize, inodes;
    }

    /** The file has this list of blocks, without holes. */
    ghost predicate HasBlocks(inum: nat, list: seq<nat>)
      reads this, fs
    {
      inum in inodes && DataIs(fs.device, inodes[inum].map_, blockSize / 4, list)
    }

    /** Enough blocks are free for a file of `had` blocks to have n, and its map. */
    ghost predicate AmpleFor(inum: nat, had: nat, n: nat)
      requires inum in inodes && 24 <= blockSize
      reads this, fs
    {
      Ample(fs.freeBlocks, inodes[inum].usesExtents, blockSize, had, n)
    }

    /** Give a file other contents. */
    method WriteData(inum: nat, data: Bytes, ghost was: seq<nat>) returns (r: Result<()>, ghost list: seq<nat>)
      requires Valid() && HasBlocks(inum, was)
      modifies this`inodes, alloc`blockCache, alloc`dirtyBlock, fs`descs, fs`freeBlocks, fs`device, fs`log
      ensures r.Ok? ==> Valid() && Rewrote(old(Now()), Now(), old(inodes), inodes, inum, blockSize, list, data)
      ensures r.Ok? ==> WroteOnce(old(fs.log), fs.log, list)
      ensures r.Ok? && |list| <= INLINE_MAX ==> fs.log == old(fs.log) + list
      ensures r.Ok? ==> KeptPart(was, list)
      ensures r.Err? ==> r.error == NoSpace || r.error == Unsupported
      ensures old(AmpleFor(inum, |was|, CeilDiv(|data|, blockSize))) ==>
                r.Ok? && Spent(old(Now()), Now(), old(inodes)[inum].usesExtents, blockSize, |was|, CeilDiv(|data|, blockSize))
    {
      r, list := Rewrite(inum, data, false, was);
    }

    /** Replace an inode's contents, new blocks sought from its last one or each from the one before. */
    method Rewrite(inum: nat, data: Bytes, follow: bool, ghost was: seq<nat>) returns (r: Result<()>, ghost list: seq<nat>)
      requires Valid() && HasBlocks(inum, was)
      modifies this`inodes, alloc`blockCache, alloc`dirtyBlock, fs`descs, fs`freeBlocks, fs`device, fs`log
      ensures r.Ok? ==> Valid() && Rewrote(old(Now()), Now(), old(inodes), inodes, inum, blockSize, list, data)
      ensures r.Ok? ==> WroteOnce(old(fs.log), fs.log, list)
      ensures r.Ok? && |list| <= INLINE_MAX ==> fs.log == old(fs.log) + list
      ensures r.Ok? ==> KeptPart(was, list)
      ensures r.Err? ==> r.error == NoSpace || r.error == Unsupported
      ensures old(AmpleFor(inum, |was|, CeilDiv(|data|, blockSize))) ==>
                r.Ok? && Spent(old(Now()), Now(), old(inodes)[inum].usesExtents, blockSize, |was|, CeilDiv(|data|, blockSize))
    {
      hide KeptPart, Changed, State.Valid, State.UsedBlocks, WalkMap, DataOf, MetaOf, NoDup, HoldsData, Owns, DataIs, MapIs, Elems, ZeroTaken, BlocksOf, Kept, Sectors, WroteOnce, Resolves, Ample, Spent, CeilDiv;
      ghost var s := Now();
      ghost var p := blockSize / 4;
      list := [];
      OwnBlocks(s, inodes, inum, p, was);
      var inode := inodes[inum];
      ghost var metas := MetaOf(WalkMap(fs.device, inode.map_, p));
      var stored, own := StoreData(fs, alloc, blockSize, inode.map_, inode.usesExtents, data, follow, was);
      if stored.Err? {
        return Err(stored.error), list;
      }
      list := stored.value.list;
      var now := inode.(map_ := stored.value.written.inodeMap, size := |data|,
                        blocks := Sectors(|stored.value.list| + stored.value.written.metaUsed, blockSize));
      assert Sectored(inode, now, data, stored.value, blockSize);
      hide StoredAs, Rewrote, Sectored, VolumeOk;
      Settled(s, Now(), inodes, inum, now, blockSize, was, data, stored.value, own);
      inodes := inodes[inum := now];
      r := Ok(());
    }
  }

  /** The inode a rewriting leaves. */
  ghost predicate Sectored(i: Inode, now: Inode, data: Bytes, r: Stored, bs: nat) {
    now == i.(map_ := r.written.inodeMap, size := |data|, blocks := Sectors(|r.list| + r.written.metaUsed, bs))
  }

  lemma {:induction false} Settled(s: State, t: State, table: Table, inum: nat, now: Inode, bs: nat, was: seq<nat>, data: Bytes, r: Stored, own: seq<nat>)
    requires VolumeOk(s, table, bs) && inum in table
    requires DataIs(s.device, table[inum].map_, bs / 4, was)
    requires StoredAs(s, t, bs / 4, bs, was, MetaOf(WalkMap(s.device, table[inum].map_, bs / 4)), data, r, own)
    requires Sectored(table[inum], now, data, r, bs)
    ensures VolumeOk(t, table[inum := now], bs)
    ensures Rewrote(s, t, table, table[inum := now], inum, bs, r.list, data)
  {
    hide Changed, State.Valid, State.UsedBlocks, WalkMap, DataOf, MetaOf, NoDup, HoldsData, Owns, DataIs, MapIs, Elems, ZeroTaken, BlocksOf, Kept, AclBlock, Sectors, Resolves;
    var p := bs / 4;
    var metas := MetaOf(WalkMap(s.device, table[inum].map_, p));
    ChangedParts(s, t, Elems(was) - Elems(r.list) + Elems(metas), Elems(r.list) - Elems(was) + Elems(own), Elems(r.list) + Elems(own));
    StillTaken(s, t);
    Replaced(s, t, table, inum, now, p, was, r.list, own, Elems(r.list) + Elems(own));
    SettledAs(s, t, table, inum, now, bs, was, metas, data, r, own);
    hide StoredAs, Rewrote;
  }

  lemma {:induction false} SettledAs(s: State, t: State, table: Table, inum: nat, now: Inode, bs: nat, was: seq<nat>, metas: seq<nat>, data: Bytes, r: Stored, own: seq<nat>)
    requires inum in table && 0 < bs && Kept(s, t, table, inum, bs / 4) && DataIs(t.device, now.map_, bs / 4, r.list)
    requires BlocksOf(t.device, now, bs / 4) == r.list + own + AclBlock(now)
    requires StoredAs(s, t, bs / 4, bs, was, metas, data, r, own) && Sectored(table[inum], now, data, r, bs)
    ensures Rewrote(s, t, table, table[inum := now], inum, bs, r.list, data)
  {
    hide Changed, WalkMap, DataOf, NoDup, HoldsData, DataIs, Elems, BlocksOf, Kept, AclBlock, Sectors, Resolves, Listed;
  }

  lemma {:induction false} ReadsBack(dev: Device, m: InodeMap, p: nat, list: seq<nat>)
    requires DataIs(dev, m, p, list)
    ensures PlaceAll(DataOf(WalkMap(dev, m, p))) == list
  {
    hide WalkMap, DataOf;
    PlaceListed(list);
    if list != [] {
      assert list[|list| - 1] in list;
    }
  }

  /** What writing a file's contents leaves: the file's own blocks hold them, and nothing else has changed. */
  ghost predicate Rewrote(s: State, t: State, table: Table, table': Table, inum: nat, bs: nat, list: seq<nat>, data: Bytes)
    requires inum in table && 0 < bs
  {
    var p := bs / 4;
    && inum in table' && table' == table[inum := table'[inum]]
    && DataIs(t.device, table'[inum].map_, p, list) && NoDup(list) && 0 < p && Resolves(t.device, table'[inum].map_, p, list)
    && HoldsData(t.device, list, data, bs)
    && (|list| <= INLINE_MAX ==> MetaOf(WalkMap(t.device, table'[inum].map_, p)) == [])
    && table'[inum] == table[inum].(map_ := table'[inum].map_, size := |data|, blocks := table'[inum].blocks)
    && Kept(s, t, table, inum, p)
    && |AclBlock(table'[inum])| <= |BlocksOf(t.device, table'[inum], p)|
    && table'[inum].blocks == Sectors(|BlocksOf(t.device, table'[inum], p)| - |AclBlock(table'[inum])|, bs)
  }
}
