/** What a call that allocates and writes fresh blocks leaves as it was. */
module MapSpace {
  import opened Base
  import opened Disk
  import opened Bitmaps
  import opened Allocation
  import opened Allocators

  ghost predicate SameAt(a: Device, b: Device, x: nat) {
    (x in a <==> x in b) && (x in a ==> a[x] == b[x])
  }

  ghost predicate Outside(a: Device, b: Device, touched: seq<nat>) {
    forall x :: x !in touched ==> SameAt(a, b, x)
  }

  /** t is s after the blocks of the list, distinct and free before, were taken; only they may have been written. */
  ghost predicate Grown(s: State, t: State, taken: seq<nat>) {
    && s.Valid() && t.Valid() && NoDup(taken) && Elems(taken) !! s.UsedBlocks()
    && (forall b :: b in taken ==> s.geo.firstDataBlock <= b < s.geo.blocksCount)
    && t.UsedBlocks() == s.UsedBlocks() + Elems(taken) && t.UsedInodes() == s.UsedInodes()
    && t.geo == s.geo && t.fixed == s.fixed && t.dirs == s.dirs
    && t.freeBlocks == s.freeBlocks - |taken| && t.freeInodes == s.freeInodes
    && Outside(s.device, t.device, taken)
  }

  lemma {:induction false} GrownNone(s: State)
    requires s.Valid()
    ensures Grown(s, s, [])
  {
    hide State.Valid, State.UsedBlocks, State.UsedInodes;
  }

  lemma {:induction false} GrownAlike(s: State, t: State)
    requires Alike(s, t)
    ensures Grown(s, t, [])
  {
    hide State.Layout, State.BlocksOk, State.InodesOk, State.UsedBlocks, State.UsedInodes, State.BlockMaps, State.InodeMaps;
    assert Elems<nat>([]) == {};
  }

  lemma {:induction false} GrownTook(s: State, t: State, b: nat)
    requires TookBlock(s, t, b)
    ensures Grown(s, t, [b])
  {
    hide State.Layout, State.BlocksOk, State.InodesOk, State.UsedBlocks, State.UsedInodes;
    assert Elems([b]) == {b};
  }

  lemma {:induction false} NoDupConcat(a: seq<nat>, b: seq<nat>)
    requires NoDup(a) && NoDup(b) && Elems(a) !! Elems(b)
    ensures NoDup(a + b) && Elems(a + b) == Elems(a) + Elems(b)
  {
    var c := a + b;
    forall i, j | 0 <= i < j < |c| ensures c[i] != c[j] {
      if i < |a| && |a| <= j {
        assert c[i] in Elems(a) && c[j] in Elems(b);
      }
    }
  }

  lemma {:induction false} OutsideTrans(a: Device, b: Device, c: Device, x: seq<nat>, y: seq<nat>)
    requires Outside(a, b, x) && Outside(b, c, y)
    ensures Outside(a, c, x + y)
  {
    forall z | z !in x + y ensures SameAt(a, c, z) {
      assert z !in x && z !in y;
      assert SameAt(a, b, z) && SameAt(b, c, z);
    }
  }

  lemma {:induction false} GrownTrans(s: State, t: State, u: State, a: seq<nat>, b: seq<nat>)
    requires Grown(s, t, a) && Grown(t, u, b)
    ensures Grown(s, u, a + b)
    ensures Elems(a) !! Elems(b)
  {
    hide State.Valid, State.UsedBlocks, State.UsedInodes, Outside, NoDup;
    NoDupConcat(a, b);
    OutsideTrans(s.device, t.device, u.device, a, b);
  }

  lemma {:induction false} GrownParts(s: State, t: State, taken: seq<nat>)
    requires Grown(s, t, taken)
    ensures t.Valid() && NoDup(taken) && Outside(s.device, t.device, taken)
    ensures t.geo == s.geo && t.fixed == s.fixed && t.freeBlocks == s.freeBlocks - |taken|
  {
  }

  /** Writing a block that holds no bitmap changes no bitmap. */
  lemma {:induction false} WriteKeeps(s: State, b: nat, content: Block)
    requires s.Valid() && b !in s.fixed
    ensures var t := s.(device := s.device[b := content]);
            t.Valid() && t.BlockMaps() == s.BlockMaps() && t.InodeMaps() == s.InodeMaps()
            && t.UsedBlocks() == s.UsedBlocks() && t.UsedInodes() == s.UsedInodes()
  {
    hide Counted, TailUnused, DirsCounted, CacheOk, Current, NoDup, BlockLocs, InodeLocs;
    var t := s.(device := s.device[b := content]);
    var bl, il := BlockLocs(s.descs), InodeLocs(s.descs);
    LocsPresent(s.blockCache, s.dirtyBlock, s.device, bl);
    LocsPresent(s.inodeCache, s.dirtyInode, s.device, il);
    LocsFixed(s);
    CurrentFrame(s.blockCache, s.dirtyBlock, s.device, t.device, bl);
    CurrentFrame(s.inodeCache, s.dirtyInode, s.device, t.device, il);
  }

  lemma {:induction false} LocsFixed(s: State)
    requires s.Valid()
    ensures forall g :: 0 <= g < |s.descs| ==> BlockLocs(s.descs)[g] in s.fixed && InodeLocs(s.descs)[g] in s.fixed
  {
    hide Counted, TailUnused, DirsCounted, CacheOk, Current, NoDup;
  }

  lemma {:induction false} GrownWrite(s: State, t: State, taken: seq<nat>, b: nat, content: Block)
    requires Grown(s, t, taken) && b in taken
    ensures Grown(s, t.(device := t.device[b := content]), taken)
  {
    hide State.Layout, State.BlocksOk, State.InodesOk, State.BlockMaps, State.InodeMaps, NoDup;
    assert b in Elems(taken);
    FixedUsed(s);
    WriteKeeps(t, b, content);
    var u := t.(device := t.device[b := content]);
    forall x | x !in taken ensures SameAt(s.device, u.device, x) {
      assert SameAt(s.device, t.device, x);
    }
  }

  lemma {:induction false} FixedUsed(s: State)
    requires s.Valid()
    ensures s.fixed <= s.UsedBlocks()
  {
    hide Counted, TailUnused, DirsCounted, CacheOk, Current, NoDup;
  }

  // ---- what was written ----

  /** Between one point of the log and a later one only these blocks were written. */
  ghost predicate Logs(before: seq<nat>, after: seq<nat>, own: seq<nat>) {
    before <= after && forall k :: |before| <= k < |after| ==> after[k] in own
  }

  lemma {:induction false} LogsMore(a: seq<nat>, b: seq<nat>, c: seq<nat>, x: seq<nat>, y: seq<nat>)
    requires Logs(a, b, x) && Logs(b, c, y)
    ensures Logs(a, c, x + y)
  {
    forall k | |a| <= k < |c| ensures c[k] in x + y {
      if k < |b| {
        assert b[k] == c[k];
      }
    }
  }

  lemma {:induction false} LogsWithin(a: seq<nat>, b: seq<nat>, x: seq<nat>, y: seq<nat>)
    requires Logs(a, b, x) && forall m :: m in x ==> m in y
    ensures Logs(a, b, y)
  {
  }

  /** Between one point of the log and a later one none of these blocks was written. */
  ghost predicate Spares(before: seq<nat>, after: seq<nat>, list: seq<nat>) {
    before <= after && forall k :: |before| <= k < |after| ==> after[k] !in list
  }

  /** Between one point of the log and a later one each of these blocks was written exactly once. */
  ghost predicate WroteOnce(before: seq<nat>, after: seq<nat>, list: seq<nat>) {
    before <= after && forall b :: b in list ==> multiset(after[|before|..])[b] == 1
  }

  lemma {:induction false} LogsSpare(before: seq<nat>, after: seq<nat>, own: seq<nat>, list: seq<nat>)
    requires Logs(before, after, own) && Elems(own) !! Elems(list)
    ensures Spares(before, after, list)
  {
    forall b | b in own ensures b !in list {
      Apart(own, list, b);
    }
  }

  lemma {:induction false} Apart(own: seq<nat>, list: seq<nat>, b: nat)
    requires Elems(own) !! Elems(list) && b in own
    ensures b !in list
  {
    assert b in Elems(own) && b !in Elems(list);
  }

  /** Distinct blocks written one after another, and then spared, were written once each. */
  lemma {:induction false} OnceEach(before: seq<nat>, list: seq<nat>, after: seq<nat>)
    requires NoDup(list) && Spares(before + list, after, list)
    ensures WroteOnce(before, after, list)
  {
    var later := after[|before + list|..];
    assert after[|before|..] == list + later;
    assert multiset(list + later) == multiset(list) + multiset(later);
    forall k | 0 <= k < |later| ensures later[k] !in list {
      assert later[k] == after[|before + list| + k];
    }
    forall b | b in list ensures multiset(list + later)[b] == 1 {
      OnceIn(list, b);
      assert b !in later;
    }
  }

  lemma {:induction false} OnceIn(list: seq<nat>, b: nat)
    requires NoDup(list) && b in list
    ensures multiset(list)[b] == 1
  {
    var k :| 0 <= k < |list| && list[k] == b;
    assert list == list[..k] + [b] + list[k + 1..];
    assert b !in list[..k] && b !in list[k + 1..];
    assert multiset(list) == multiset(list[..k]) + multiset([b]) + multiset(list[k + 1..]);
  }

  /** Block 0 is never a free block: it lies before the data, or holds the superblock. */
  ghost predicate ZeroTaken(s: State) {
    0 < s.geo.firstDataBlock || 0 in s.fixed
  }

  lemma {:induction false} TakenNonZero(s: State, t: State, taken: seq<nat>)
    requires Grown(s, t, taken) && ZeroTaken(s)
    ensures 0 !in taken && ZeroTaken(t)
  {
    hide State.Layout, State.BlocksOk, State.InodesOk, NoDup, State.UsedBlocks;
    FixedUsed(s);
    assert 0 in taken ==> 0 in Elems(taken);
  }

  /** When no block can be had, none is free. */
  lemma {:induction false} FullMeansZero(s: State)
    requires s.Valid() && forall b :: s.geo.firstDataBlock <= b < s.geo.blocksCount ==> b in s.UsedBlocks()
    ensures s.freeBlocks == 0
  {
    hide State.Valid, State.UsedBlocks;
    TotalsCountFree(s);
    assert FreeUnits(s.geo.Blocks(), s.UsedBlocks()) == {};
  }

  /** Allocate one block for a map or for data; when there is none, none is free at all. */
  method TakeBlock(fs: Filesystem, alloc: Allocator, goal: nat) returns (r: Result<nat>)
    requires alloc.Now(fs).Valid() && ZeroTaken(alloc.Now(fs))
    modifies alloc`blockCache, alloc`dirtyBlock, fs`descs, fs`freeBlocks
    ensures ZeroTaken(alloc.Now(fs))
    ensures r.Ok? ==> r.value != 0 && Grown(old(alloc.Now(fs)), alloc.Now(fs), [r.value])
    ensures r.Ok? ==> r == old(match FirstFree(BlockOrder(fs.geo.Blocks(), fs.geo.Groups(), goal, 0), alloc.Now(fs).UsedBlocks())
                               case None => Err(NoSpace)
                               case Some(b) => Ok(b))
    ensures r.Err? ==> r == Err(NoSpace) && Grown(old(alloc.Now(fs)), alloc.Now(fs), []) && alloc.Now(fs).freeBlocks == 0
    ensures fs.device == old(fs.device)
  {
    hide State.Layout, State.BlocksOk, State.InodesOk, State.UsedBlocks, FirstFree, BlockOrder;
    ghost var s := alloc.Now(fs);
    r := alloc.AllocBlock(fs, goal);
    if r.Ok? {
      GrownTook(s, alloc.Now(fs), r.value);
      TakenNonZero(s, alloc.Now(fs), [r.value]);
    } else {
      NoSpaceMeansFull(s, goal);
      FullMeansZero(s);
      GrownAlike(s, alloc.Now(fs));
    }
  }
}
