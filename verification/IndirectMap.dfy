/**
 Direct and indirect pointers (src/map.rs:236-355): building the pointer trees
 for a list of blocks, one fresh block at a time.
 */
module IndirectMap {
  import opened Base
  import opened Disk
  import opened BlockWalk
  import opened Allocators
  import opened MapSpace

  const NDIR_BLOCKS := 12
  const N_BLOCKS := 15

  function AsU32(b: nat): nat {
    b % U32_LIMIT
  }

  /** Pointers are 32 bits wide: the block numbers a pointer map can hold. */
  ghost predicate Addressable(list: seq<nat>) {
    forall i :: 0 <= i < |list| ==> list[i] < U32_LIMIT
  }

  function Goal(list: seq<nat>): nat {
    if list == [] then 0 else if list[0] != HOLE then list[0] else Goal(list[1..])
  }

  function CeilDiv(n: nat, d: nat): nat
    requires 0 < d
  {
    (n + d - 1) / d
  }

  /** A block of pointers to list[from..to], the rest of it zero. */
  method PointerBlock(p: nat, list: seq<nat>, from: nat, to: nat) returns (buf: array<nat>)
    requires from <= to <= |list| && to - from <= p && Addressable(list)
    ensures fresh(buf) && buf[..] == list[from..to] + Holes(p - (to - from))
  {
    buf := new nat[p](_ => 0);
    for i := 0 to to - from
      invariant forall j :: 0 <= j < i ==> buf[j] == list[from + j]
      invariant forall j :: i <= j < p ==> buf[j] == HOLE
    {
      buf[i] := AsU32(list[from + i]);
    }
    assert buf[..] == list[from..to] + Holes(p - (to - from));
  }

  lemma {:induction false} StillTaken(s: State, t: State)
    requires ZeroTaken(s) && t.geo == s.geo && t.fixed == s.fixed
    ensures ZeroTaken(t)
  {
  }

  /** Store the chunk list[from..to] in a fresh block of data pointers. */
  method WriteSingle(fs: Filesystem, alloc: Allocator, p: nat, goal: nat, list: seq<nat>, from: nat, to: nat)
    returns (r: Result<nat>)
    requires alloc.Now(fs).Valid() && ZeroTaken(alloc.Now(fs)) && fs.geo.blocksCount <= U32_LIMIT
    requires from <= to <= |list| && to - from <= p && Addressable(list)
    modifies alloc`blockCache, alloc`dirtyBlock, fs`descs, fs`freeBlocks, fs`device, fs`log
    ensures ZeroTaken(alloc.Now(fs))
    ensures r.Ok? ==> Grown(old(alloc.Now(fs)), alloc.Now(fs), [r.value])
                      && Maps(fs.device, r.value, 1, from, p, list[from..to], [r.value])
    ensures r.Ok? ==> fs.log == old(fs.log) + [r.value]
    ensures r.Err? ==> fs.log == old(fs.log)
    ensures r.Err? ==> r == Err(NoSpace) && Grown(old(alloc.Now(fs)), alloc.Now(fs), []) && alloc.Now(fs).freeBlocks == 0
  {
    hide Grown, Maps, State.Valid, ZeroTaken;
    ghost var s := alloc.Now(fs);
    r := TakeBlock(fs, alloc, goal);
    if r.Err? {
      return r;
    }
    var leaf := r.value;
    ghost var t := alloc.Now(fs);
    var buf := PointerBlock(p, list, from, to);
    fs.WriteBlock(leaf, Pointers(buf[..]));
    GrownWrite(s, t, [leaf], leaf, Pointers(buf[..]));
    MapsLeaf(t.device, leaf, list[from..to], p - (to - from), from, p);
    StillTaken(t, alloc.Now(fs));
  }

  // ---- how many blocks a map takes ----

  /** The pointer blocks of a tree d levels deep over n blocks of data. */
  function TreeSize(n: nat, d: nat, p: nat): nat
    requires 0 < p
    decreases d, 0
  {
    if n == 0 || d == 0 then 0 else 1 + KidsSize(n, d - 1, p)
  }

  function KidsSize(n: nat, d: nat, p: nat): nat
    requires 0 < p
    decreases d, n + 1
  {
    if n == 0 then 0
    else
      var first := Min(n, Pow(p, d));
      TreeSize(first, d, p) + KidsSize(n - first, d, p)
  }

  lemma {:induction false} DataTakesNone(n: nat, p: nat)
    requires 0 < p
    ensures KidsSize(n, 0, p) == 0
  {
    if n > 0 {
      DataTakesNone(n - 1, p);
    }
  }

  lemma {:induction false} SingleTakesOne(n: nat, p: nat)
    requires 0 < p && 0 < n
    ensures TreeSize(n, 1, p) == 1
  {
    DataTakesNone(n, p);
  }

  // ---- growing a tree child by child ----

  lemma {:induction false} OutsideFrame(a: Device, b: Device, touched: seq<nat>, metas: seq<nat>)
    requires Outside(a, b, touched) && Elems(metas) !! Elems(touched)
    ensures forall m :: m in metas ==> PtrsOf(b, m) == PtrsOf(a, m)
  {
    forall m | m in metas ensures PtrsOf(b, m) == PtrsOf(a, m) {
      assert m in Elems(metas);
      assert m in touched ==> m in Elems(touched);
      assert SameAt(a, b, m);
    }
  }

  /** A child built in fresh blocks joins the children built before it. */
  lemma {:induction false} Graft(dev: Device, now: Device, kids: seq<nat>, d: nat, base: nat, p: nat, chunk: seq<nat>, metas: seq<nat>,
              b: nat, more: seq<nat>, own: seq<nat>)
    requires MapsAll(dev, kids, d, base, p, chunk, metas) && base + |chunk| == ChildBase(base, |kids|, p, d)
    requires Outside(dev, now, own) && Elems(metas) !! Elems(own)
    requires Maps(now, b, d, base + |chunk|, p, more, own)
    ensures MapsAll(now, kids + [b], d, base, p, chunk + more, metas + own)
  {
    hide MapsAll, Maps, Outside, ChildBase;
    OutsideFrame(dev, now, own, metas);
    MapsAllFrame(dev, now, kids, d, base, p, chunk, metas);
    MapsMore(now, kids, d, base, p, chunk, metas, b, more, own);
  }

  lemma {:induction false} LogsOne(a: seq<nat>, b: seq<nat>, x: seq<nat>, m: nat)
    requires Logs(a, b, x)
    ensures Logs(a, b + [m], x + [m])
  {
  }

  /** A tree under construction: the block b set aside for its root, and the children built so far. */
  ghost predicate Growing(s: State, t: State, b: nat, kids: seq<nat>, d: nat, base: nat, p: nat, chunk: seq<nat>, metas: seq<nat>) {
    Grown(s, t, [b] + metas) && ZeroTaken(t) && b != 0 && MapsAll(t.device, kids, d, base, p, chunk, metas)
  }

  lemma {:induction false} GrowingMore(s: State, t: State, u: State, b: nat, kids: seq<nat>, d: nat, base: nat, p: nat, chunk: seq<nat>, metas: seq<nat>,
                    c: nat, more: seq<nat>, own: seq<nat>)
    requires Growing(s, t, b, kids, d, base, p, chunk, metas) && base + |chunk| == ChildBase(base, |kids|, p, d)
    requires Grown(t, u, own) && ZeroTaken(u) && Maps(u.device, c, d, base + |chunk|, p, more, own)
    ensures Growing(s, u, b, kids + [c], d, base, p, chunk + more, metas + own)
  {
    hide Grown, Maps, MapsAll, ChildBase, ZeroTaken, NoDup, Outside;
    GrownTrans(s, t, u, [b] + metas, own);
    GrownParts(t, u, own);
    assert [b] + metas + own == [b] + (metas + own);
    assert Elems(metas) <= Elems([b] + metas);
    Graft(t.device, u.device, kids, d, base, p, chunk, metas, c, more, own);
  }

  /** Writing the children's pointers into the block set aside finishes the tree. */
  lemma {:induction false} GrowingDone(s: State, t: State, b: nat, kids: seq<nat>, n: nat, d: nat, base: nat, p: nat, chunk: seq<nat>, metas: seq<nat>)
    requires Growing(s, t, b, kids, d, base, p, chunk, metas) && |kids| + n <= p
    ensures var u := t.(device := t.device[b := Pointers(kids + Holes(n))]);
            && Grown(s, u, [b] + metas) && ZeroTaken(u) && Maps(u.device, b, d + 1, base, p, chunk, [b] + metas)
  {
    hide Grown, MapsAll, Maps, Outside;
    GrownParts(s, t, [b] + metas);
    HeadApart(b, metas);
    GrownWrite(s, t, [b] + metas, b, Pointers(kids + Holes(n)));
    MapsUp(t.device, b, kids, n, d, base, p, chunk, metas);
  }

  lemma {:induction false} HeadApart(b: nat, metas: seq<nat>)
    requires NoDup([b] + metas)
    ensures b !in metas && b in [b] + metas
  {
    var all := [b] + metas;
    assert all[0] == b;
    forall i | 0 <= i < |metas| ensures metas[i] != b {
      assert all[i + 1] == metas[i];
    }
  }

  lemma {:induction false} GrowingStart(s: State, t: State, b: nat, d: nat, base: nat, p: nat)
    requires Grown(s, t, [b]) && ZeroTaken(t) && b != 0
    ensures Growing(s, t, b, [], d, base, p, [], [])
  {
    assert [b] + [] == [b];
    MapsAllNone(t.device, d, base, p);
  }

  lemma {:induction false} GrowingValid(s: State, t: State, b: nat, kids: seq<nat>, d: nat, base: nat, p: nat, chunk: seq<nat>, metas: seq<nat>)
    requires Growing(s, t, b, kids, d, base, p, chunk, metas)
    ensures t.Valid() && ZeroTaken(t) && Grown(s, t, [b] + metas)
  {
  }

  lemma {:induction false} TakenFits(s: State, t: State, b: nat, own: seq<nat>)
    requires Grown(s, t, own) && b in own && s.geo.blocksCount <= U32_LIMIT
    ensures AsU32(b) == b
  {
    hide State.Valid, State.UsedBlocks, State.UsedInodes;
  }

  lemma {:induction false} TreeOpens(n: nat, d: nat, p: nat)
    requires 0 < p && 0 < n && 0 < d
    ensures TreeSize(n, d, p) == 1 + KidsSize(n, d - 1, p)
  {
  }

  lemma {:induction false} PowSmall(p: nat)
    ensures Pow(p, 0) == 1 && Pow(p, 1) == p && Pow(p, 2) == p * p && Pow(p, 3) == p * p * p
  {
    assert Pow(p, 1) == p * Pow(p, 0);
    assert Pow(p, 2) == p * Pow(p, 1);
    assert Pow(p, 3) == p * Pow(p, 2);
  }

  lemma {:induction false} ReachMono(a: nat, b: nat, q: nat)
    requires a < b
    ensures a * q + q == (a + 1) * q <= b * q
  {
  }

  /** How far into a list of `len` blocks a tree d levels deep reaches from `start`. */
  function Reach(start: nat, d: nat, p: nat, len: nat): (stop: nat)
    requires start <= len
    ensures start <= stop <= len
  {
    Min(start + Pow(p, d), len)
  }

  /** How far `child` children, each d levels deep, reach from `start`. */
  function ReachKids(start: nat, child: nat, d: nat, p: nat, len: nat): (stop: nat)
    requires start <= len
    ensures start <= stop <= len
  {
    Min(start + child * Pow(p, d), len)
  }

  /** Where child number `child` starts and stops, and what it and those after it will take. */
  lemma {:induction false} ChildPlace(start: nat, child: nat, d: nat, p: nat, logical: nat, len: nat)
    requires 0 < p && child < p && start <= logical < len && logical == ReachKids(start, child, d, p, len)
    ensures logical == ChildBase(start, child, p, d)
    ensures var end, stop := Reach(logical, d, p, len), Reach(start, d + 1, p, len);
            && logical < end <= stop && end == ReachKids(start, child + 1, d, p, len)
            && KidsSize(stop - logical, d, p) == TreeSize(end - logical, d, p) + KidsSize(stop - end, d, p)
  {
    var q := Pow(p, d);
    assert Pow(p, d + 1) == p * q;
    ReachMono(child, p, q);
  }

  /** Children are added until the list or the tree is used up. */
  lemma {:induction false} AllKids(start: nat, child: nat, d: nat, p: nat, logical: nat, len: nat)
    requires 0 < p && child <= p && start <= logical <= len && logical == ReachKids(start, child, d, p, len)
    requires !(logical < len && child < p)
    ensures logical == Reach(start, d + 1, p, len) && KidsSize(Reach(start, d + 1, p, len) - logical, d, p) == 0
  {
    var q := Pow(p, d);
    assert Pow(p, d + 1) == p * q;
    if child < p {
      ReachMono(child, p, q);
    }
  }

  lemma {:induction false} NoneReached(start: nat, d: nat, p: nat, len: nat)
    requires start < len && 0 < p
    ensures ReachKids(start, 0, d, p, len) == start < Reach(start, d, p, len)
  {
  }

  lemma {:induction false} EndOfChild(logical: nat, p: nat, len: nat)
    requires logical <= len
    ensures Reach(logical, 1, p, len) == Min(logical + p, len)
  {
    PowSmall(p);
  }

  /** Add the next block of data pointers to the double indirect tree under construction at b. */
  method AddSingle(fs: Filesystem, alloc: Allocator, p: nat, goal: nat, list: seq<nat>, start: nat, logical: nat, child: nat,
                   ghost s: State, ghost b: nat, ghost kids: seq<nat>, ghost metas: seq<nat>)
    returns (r: Result<nat>, end: nat)
    requires fs.geo.blocksCount <= U32_LIMIT && Addressable(list) && child < p && |kids| == child
    requires start <= logical < |list| && logical == ReachKids(start, child, 1, p, |list|)
    requires Growing(s, alloc.Now(fs), b, kids, 1, start, p, list[start..logical], metas)
    modifies alloc`blockCache, alloc`dirtyBlock, fs`descs, fs`freeBlocks, fs`device, fs`log
    ensures var stop := Reach(start, 2, p, |list|);
            && logical < end <= stop && end == ReachKids(start, child + 1, 1, p, |list|)
            && KidsSize(stop - logical, 1, p) == 1 + KidsSize(stop - end, 1, p)
    ensures r.Ok? ==> Growing(s, alloc.Now(fs), b, kids + [r.value], 1, start, p, list[start..end], metas + [r.value])
                      && AsU32(r.value) == r.value && fs.log == old(fs.log) + [r.value]
    ensures r.Err? ==> fs.log == old(fs.log)
    ensures r.Err? ==> r == Err(NoSpace) && Grown(s, alloc.Now(fs), [b] + metas) && alloc.Now(fs).freeBlocks == 0 && ZeroTaken(alloc.Now(fs))
  {
    hide Grown, Maps, MapsAll, State.Valid, TreeSize, KidsSize, ZeroTaken, Growing, Addressable, Reach, ReachKids, ChildBase;
    ghost var t := alloc.Now(fs);
    end := Min(logical + p, |list|);
    ChildPlace(start, child, 1, p, logical, |list|);
    EndOfChild(logical, p, |list|);
    SingleTakesOne(end - logical, p);
    GrowingValid(s, t, b, kids, 1, start, p, list[start..logical], metas);
    r := WriteSingle(fs, alloc, p, goal, list, logical, end);
    if r.Err? {
      GrownTrans(s, t, alloc.Now(fs), [b] + metas, []);
      assert [b] + metas + [] == [b] + metas;
      return;
    }
    GrowingMore(s, t, alloc.Now(fs), b, kids, 1, start, p, list[start..logical], metas, r.value, list[logical..end], [r.value]);
    assert list[start..logical] + list[logical..end] == list[start..end];
    TakenFits(t, alloc.Now(fs), r.value, [r.value]);
  }

  /** Write the children's pointers into the block set aside for them. */
  method CloseTree(fs: Filesystem, alloc: Allocator, p: nat, b: nat, buf: seq<nat>,
                   ghost s: State, ghost kids: seq<nat>, ghost d: nat, ghost base: nat, ghost chunk: seq<nat>, ghost metas: seq<nat>)
    requires Growing(s, alloc.Now(fs), b, kids, d, base, p, chunk, metas) && Filled(buf, kids) && |buf| == p
    modifies fs`device, fs`log
    ensures Grown(s, alloc.Now(fs), [b] + metas) && ZeroTaken(alloc.Now(fs))
    ensures Maps(fs.device, b, d + 1, base, p, chunk, [b] + metas) && b in [b] + metas
    ensures fs.log == old(fs.log) + [b]
  {
    hide Grown, Maps, ZeroTaken, Growing, Filled;
    FilledIs(buf, kids);
    GrowingDone(s, alloc.Now(fs), b, kids, |buf| - |kids|, d, base, p, chunk, metas);
    fs.WriteBlock(b, Pointers(buf));
  }

  lemma {:induction false} FilledMore(was: seq<nat>, kids: seq<nat>, b: nat)
    requires Filled(was, kids) && |kids| < |was|
    ensures Filled(was[|kids| := b], kids + [b])
  {
  }

  /** Fill the double indirect block set aside at b with blocks of data pointers, as many as it takes or holds. */
  method FillDouble(fs: Filesystem, alloc: Allocator, p: nat, goal: nat, list: seq<nat>, start: nat, ghost s: State, ghost b: nat)
    returns (r: Result<seq<nat>>, logical: nat, used: nat, ghost kids: seq<nat>, ghost metas: seq<nat>)
    requires fs.geo.blocksCount <= U32_LIMIT && start < |list| && 0 < p && Addressable(list)
    requires Growing(s, alloc.Now(fs), b, [], 1, start, p, [], [])
    modifies alloc`blockCache, alloc`dirtyBlock, fs`descs, fs`freeBlocks, fs`device, fs`log
    ensures Grown(s, alloc.Now(fs), [b] + metas) && ZeroTaken(alloc.Now(fs)) && used == |metas| && Logs(old(fs.log), fs.log, metas)
    ensures r.Ok? ==> logical == Reach(start, 2, p, |list|) && |metas| == KidsSize(logical - start, 1, p) && Filled(r.value, kids) && |r.value| == p
                      && Growing(s, alloc.Now(fs), b, kids, 1, start, p, list[start..logical], metas)
    ensures r.Err? ==> r == Err(NoSpace) && alloc.Now(fs).freeBlocks == 0
                       && |metas| < KidsSize(Reach(start, 2, p, |list|) - start, 1, p)
  {
    hide Grown, Maps, MapsAll, State.Valid, TreeSize, KidsSize, ZeroTaken, Growing, Addressable, Reach, ReachKids, ChildBase;
    logical := start;
    ghost var stop := Reach(start, 2, p, |list|);
    NoneReached(start, 1, p, |list|);
    NoneReached(start, 2, p, |list|);
    var buf: seq<nat> := Holes(p);
    kids, metas, used := [], [], 0;
    var child := 0;
    assert list[start..start] == [];
    assert Filled(buf, kids) && Logs(fs.log, fs.log, metas);
    hide Filled, Holes, AsU32, Logs;
    // A double indirect block holds p pointers and no more; past that the file needs the third level.
    while logical < |list| && child < p
      invariant child <= p && |kids| == child && start <= logical <= stop
      invariant logical == ReachKids(start, child, 1, p, |list|)
      invariant Growing(s, alloc.Now(fs), b, kids, 1, start, p, list[start..logical], metas)
      invariant |buf| == p && Filled(buf, kids)
      invariant used == |metas| && |metas| + KidsSize(stop - logical, 1, p) == KidsSize(stop - start, 1, p)
      invariant Logs(old(fs.log), fs.log, metas)
      decreases p - child
    {
      ghost var log := fs.log;
      var leaf, end := AddSingle(fs, alloc, p, goal, list, start, logical, child, s, b, kids, metas);
      if leaf.Err? {
        return Err(leaf.error), logical, used, kids, metas;
      }
      FilledMore(buf, kids, leaf.value);
      LogsOne(old(fs.log), log, metas, leaf.value);
      buf := buf[child := AsU32(leaf.value)];
      kids, metas := kids + [leaf.value], metas + [leaf.value];
      child, logical, used := child + 1, end, used + 1;
    }
    AllKids(start, child, 1, p, logical, |list|);
    GrowingValid(s, alloc.Now(fs), b, kids, 1, start, p, list[start..logical], metas);
    r := Ok(buf);
  }

  /** Build a double indirect tree for the list from `start` on, as far as one reaches. */
  method WriteDouble(fs: Filesystem, alloc: Allocator, p: nat, goal: nat, list: seq<nat>, start: nat)
    returns (r: Result<nat>, logical: nat, used: nat, ghost own: seq<nat>)
    requires alloc.Now(fs).Valid() && ZeroTaken(alloc.Now(fs)) && fs.geo.blocksCount <= U32_LIMIT
    requires start < |list| && 0 < p && Addressable(list)
    modifies alloc`blockCache, alloc`dirtyBlock, fs`descs, fs`freeBlocks, fs`device, fs`log
    ensures Grown(old(alloc.Now(fs)), alloc.Now(fs), own) && ZeroTaken(alloc.Now(fs)) && used == |own| && Logs(old(fs.log), fs.log, own)
    ensures r.Ok? ==> logical == Reach(start, 2, p, |list|) && |own| == TreeSize(logical - start, 2, p)
                      && Maps(fs.device, r.value, 2, start, p, list[start..logical], own) && r.value in own
    ensures r.Err? ==> r == Err(NoSpace) && alloc.Now(fs).freeBlocks == 0 && |own| < TreeSize(Reach(start, 2, p, |list|) - start, 2, p)
  {
    hide Grown, Maps, MapsAll, State.Valid, TreeSize, KidsSize, ZeroTaken, Growing, Addressable, Reach, ReachKids, ChildBase;
    ghost var s := alloc.Now(fs);
    logical, used, own := start, 0, [];
    assert Logs(fs.log, fs.log, own);
    hide Logs;
    NoneReached(start, 2, p, |list|);
    TreeOpens(Reach(start, 2, p, |list|) - start, 2, p);
    r := TakeBlock(fs, alloc, goal);
    if r.Err? {
      return;
    }
    GrowingStart(s, alloc.Now(fs), r.value, 1, start, p);
    var buf, end, kidsUsed, kids, metas := FillDouble(fs, alloc, p, goal, list, start, s, r.value);
    logical, used, own := end, 1 + kidsUsed, [r.value] + metas;
    LogsWithin(old(fs.log), fs.log, metas, own);
    if buf.Err? {
      r := Err(buf.error);
      return;
    }
    LogsOne(old(fs.log), fs.log, own, r.value);
    LogsWithin(old(fs.log), fs.log + [r.value], own + [r.value], own);
    CloseTree(fs, alloc, p, r.value, buf.value, s, kids, 1, start, list[start..logical], metas);
  }

  /** A pointer buffer holding the children's numbers and zeroes after them. */
  ghost predicate Filled(buf: seq<nat>, kids: seq<nat>) {
    && |kids| <= |buf|
    && (forall j :: 0 <= j < |kids| ==> buf[j] == kids[j])
    && (forall j :: |kids| <= j < |buf| ==> buf[j] == HOLE)
  }

  lemma {:induction false} FilledIs(buf: seq<nat>, kids: seq<nat>)
    requires Filled(buf, kids)
    ensures |kids| <= |buf| && buf == kids + Holes(|buf| - |kids|)
  {
  }

  /** Add the next double indirect tree to the triple indirect tree under construction at b. */
  method AddDouble(fs: Filesystem, alloc: Allocator, p: nat, goal: nat, list: seq<nat>, start: nat, logical: nat, child: nat,
                   ghost s: State, ghost b: nat, ghost kids: seq<nat>, ghost metas: seq<nat>)
    returns (r: Result<nat>, end: nat, used: nat, ghost own: seq<nat>)
    requires fs.geo.blocksCount <= U32_LIMIT && Addressable(list) && child < p && |kids| == child
    requires start <= logical < |list| && logical == ReachKids(start, child, 2, p, |list|)
    requires Growing(s, alloc.Now(fs), b, kids, 2, start, p, list[start..logical], metas)
    modifies alloc`blockCache, alloc`dirtyBlock, fs`descs, fs`freeBlocks, fs`device, fs`log
    ensures logical <= Reach(start, 3, p, |list|) && used == |own| && Logs(old(fs.log), fs.log, own)
    ensures r.Ok? ==> var stop := Reach(start, 3, p, |list|);
                      && logical < end <= stop && end == ReachKids(start, child + 1, 2, p, |list|)
                      && KidsSize(stop - logical, 2, p) == |own| + KidsSize(stop - end, 2, p)
                      && Growing(s, alloc.Now(fs), b, kids + [r.value], 2, start, p, list[start..end], metas + own)
                      && AsU32(r.value) == r.value
    ensures r.Err? ==> r == Err(NoSpace) && Grown(s, alloc.Now(fs), [b] + metas + own) && alloc.Now(fs).freeBlocks == 0
                       && ZeroTaken(alloc.Now(fs)) && |own| < KidsSize(Reach(start, 3, p, |list|) - logical, 2, p)
  {
    hide Grown, Maps, MapsAll, State.Valid, TreeSize, KidsSize, ZeroTaken, Growing, Addressable, Reach, ReachKids, ChildBase;
    ghost var t := alloc.Now(fs);
    ChildPlace(start, child, 2, p, logical, |list|);
    GrowingValid(s, t, b, kids, 2, start, p, list[start..logical], metas);
    r, end, used, own := WriteDouble(fs, alloc, p, goal, list, logical);
    if r.Err? {
      GrownTrans(s, t, alloc.Now(fs), [b] + metas, own);
      return;
    }
    GrowingMore(s, t, alloc.Now(fs), b, kids, 2, start, p, list[start..logical], metas, r.value, list[logical..end], own);
    assert list[start..logical] + list[logical..end] == list[start..end];
    TakenFits(t, alloc.Now(fs), r.value, own);
  }

  /** Fill the triple indirect block set aside at b with double indirect trees, as many as it takes or holds. */
  method FillTriple(fs: Filesystem, alloc: Allocator, p: nat, goal: nat, list: seq<nat>, start: nat, ghost s: State, ghost b: nat)
    returns (r: Result<seq<nat>>, logical: nat, used: nat, ghost kids: seq<nat>, ghost metas: seq<nat>)
    requires fs.geo.blocksCount <= U32_LIMIT && start < |list| && 0 < p && Addressable(list)
    requires Growing(s, alloc.Now(fs), b, [], 2, start, p, [], [])
    modifies alloc`blockCache, alloc`dirtyBlock, fs`descs, fs`freeBlocks, fs`device, fs`log
    ensures Grown(s, alloc.Now(fs), [b] + metas) && ZeroTaken(alloc.Now(fs)) && used == |metas| && Logs(old(fs.log), fs.log, metas)
    ensures r.Ok? ==> logical == Reach(start, 3, p, |list|) && |metas| == KidsSize(logical - start, 2, p) && Filled(r.value, kids) && |r.value| == p
                      && Growing(s, alloc.Now(fs), b, kids, 2, start, p, list[start..logical], metas)
    ensures r.Err? ==> r == Err(NoSpace) && alloc.Now(fs).freeBlocks == 0
                       && |metas| < KidsSize(Reach(start, 3, p, |list|) - start, 2, p)
  {
    hide Grown, Maps, MapsAll, State.Valid, TreeSize, KidsSize, ZeroTaken, Growing, Addressable, Reach, ReachKids, ChildBase;
    logical := start;
    ghost var stop := Reach(start, 3, p, |list|);
    NoneReached(start, 2, p, |list|);
    NoneReached(start, 3, p, |list|);
    var buf: seq<nat> := Holes(p);
    kids, metas, used := [], [], 0;
    var grandchild := 0;
    assert list[start..start] == [];
    assert Filled(buf, kids) && Logs(fs.log, fs.log, metas);
    hide Filled, Holes, AsU32, Logs;
    while logical < |list| && grandchild < p
      invariant grandchild <= p && |kids| == grandchild && start <= logical <= stop
      invariant logical == ReachKids(start, grandchild, 2, p, |list|)
      invariant Growing(s, alloc.Now(fs), b, kids, 2, start, p, list[start..logical], metas)
      invariant |buf| == p && Filled(buf, kids)
      invariant used == |metas| && |metas| + KidsSize(stop - logical, 2, p) == KidsSize(stop - start, 2, p)
      invariant Logs(old(fs.log), fs.log, metas)
      decreases p - grandchild
    {
      ghost var log := fs.log;
      var child, end, more, own := AddDouble(fs, alloc, p, goal, list, start, logical, grandchild, s, b, kids, metas);
      assert [b] + metas + own == [b] + (metas + own);
      LogsMore(old(fs.log), log, fs.log, metas, own);
      metas, used := metas + own, used + more;
      if child.Err? {
        return Err(child.error), logical, used, kids, metas;
      }
      FilledMore(buf, kids, child.value);
      buf := buf[grandchild := AsU32(child.value)];
      kids := kids + [child.value];
      grandchild, logical := grandchild + 1, end;
    }
    AllKids(start, grandchild, 2, p, logical, |list|);
    GrowingValid(s, alloc.Now(fs), b, kids, 2, start, p, list[start..logical], metas);
    r := Ok(buf);
  }

  /** Build a triple indirect tree for the list from `start` on, as far as one reaches. */
  method WriteTriple(fs: Filesystem, alloc: Allocator, p: nat, goal: nat, list: seq<nat>, start: nat)
    returns (r: Result<nat>, logical: nat, used: nat, ghost own: seq<nat>)
    requires alloc.Now(fs).Valid() && ZeroTaken(alloc.Now(fs)) && fs.geo.blocksCount <= U32_LIMIT
    requires start < |list| && 0 < p && Addressable(list)
    modifies alloc`blockCache, alloc`dirtyBlock, fs`descs, fs`freeBlocks, fs`device, fs`log
    ensures Grown(old(alloc.Now(fs)), alloc.Now(fs), own) && ZeroTaken(alloc.Now(fs)) && used == |own| && Logs(old(fs.log), fs.log, own)
    ensures r.Ok? ==> logical == Reach(start, 3, p, |list|) && |own| == TreeSize(logical - start, 3, p)
                      && Maps(fs.device, r.value, 3, start, p, list[start..logical], own) && r.value in own
    ensures r.Err? ==> r == Err(NoSpace) && alloc.Now(fs).freeBlocks == 0 && |own| < TreeSize(Reach(start, 3, p, |list|) - start, 3, p)
  {
    hide Grown, Maps, MapsAll, State.Valid, TreeSize, KidsSize, ZeroTaken, Growing, Addressable, Reach, ReachKids, ChildBase;
    ghost var s := alloc.Now(fs);
    logical, used, own := start, 0, [];
    assert Logs(fs.log, fs.log, own);
    hide Logs;
    NoneReached(start, 3, p, |list|);
    TreeOpens(Reach(start, 3, p, |list|) - start, 3, p);
    r := TakeBlock(fs, alloc, goal);
    if r.Err? {
      return;
    }
    GrowingStart(s, alloc.Now(fs), r.value, 2, start, p);
    var buf, end, kidsUsed, kids, metas := FillTriple(fs, alloc, p, goal, list, start, s, r.value);
    logical, used, own := end, 1 + kidsUsed, [r.value] + metas;
    LogsWithin(old(fs.log), fs.log, metas, own);
    if buf.Err? {
      r := Err(buf.error);
      return;
    }
    LogsOne(old(fs.log), fs.log, own, r.value);
    LogsWithin(old(fs.log), fs.log + [r.value], own + [r.value], own);
    CloseTree(fs, alloc, p, r.value, buf.value, s, kids, 2, start, list[start..logical], metas);
  }
}
