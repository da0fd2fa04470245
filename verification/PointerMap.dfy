/**
 The whole pointer map of an inode (src/map.rs:236-355): twelve direct pointers,
 then one tree each of single, double and triple indirection.
 */
module PointerMap {
  import opened Base
  import opened Disk
  import opened BlockWalk
  import opened Allocators
  import opened MapSpace
  import opened IndirectMap

  /** Everything an inode's pointers reach. */
  function WalkPointers(dev: Device, ptrs: seq<nat>, p: nat): seq<Visit>
    requires |ptrs| == N_BLOCKS
  {
    WalkAll(dev, ptrs[..NDIR_BLOCKS], 0, 0, p)
    + Walk(dev, ptrs[12], 1, 12, p)
    + Walk(dev, ptrs[13], 2, 12 + Pow(p, 1), p)
    + Walk(dev, ptrs[14], 3, 12 + Pow(p, 1) + Pow(p, 2), p)
  }

  /** The longest list triple indirection addresses. */
  function MapLimit(p: nat): nat {
    12 + Pow(p, 1) + Pow(p, 2) + Pow(p, 3)
  }

  /** The map blocks a list of n blocks takes, as far as a map can hold it. */
  function MapSize(n: nat, p: nat): nat
    requires 0 < p
  {
    if n <= NDIR_BLOCKS then 0
    else
      var e1 := Reach(NDIR_BLOCKS, 1, p, n);
      var e2 := Reach(e1, 2, p, n);
      var e3 := Reach(e2, 3, p, n);
      TreeSize(e1 - NDIR_BLOCKS, 1, p) + TreeSize(e2 - e1, 2, p) + TreeSize(e3 - e2, 3, p)
  }

  /** The tree under b, or no tree, lists the chunk. */
  ghost predicate Part(dev: Device, b: nat, d: nat, base: nat, p: nat, chunk: seq<nat>, metas: seq<nat>) {
    && DataOf(Walk(dev, b, d, base, p)) == Listed(chunk, base) && MetaOf(Walk(dev, b, d, base, p)) == metas
    && Fit(dev, metas, p)
  }

  lemma {:induction false} NoPart(dev: Device, d: nat, base: nat, p: nat)
    ensures Part(dev, 0, d, base, p, [], [])
  {
  }

  lemma {:induction false} PartOf(dev: Device, b: nat, d: nat, base: nat, p: nat, chunk: seq<nat>, metas: seq<nat>)
    requires Maps(dev, b, d, base, p, chunk, metas)
    ensures Part(dev, b, d, base, p, chunk, metas)
  {
  }

  /** Blocks written elsewhere leave a tree as it was. */
  lemma {:induction false} PartStays(s: State, t: State, u: State, b: nat, d: nat, base: nat, p: nat, chunk: seq<nat>, metas: seq<nat>, before: seq<nat>, own: seq<nat>)
    requires Part(t.device, b, d, base, p, chunk, metas) && Grown(s, t, before) && Grown(t, u, own)
    requires Elems(metas) <= Elems(before)
    ensures Part(u.device, b, d, base, p, chunk, metas)
  {
    hide Grown;
    GrownTrans(s, t, u, before, own);
    GrownParts(t, u, own);
    OutsideFrame(t.device, u.device, own, metas);
    WalkFrame(t.device, u.device, b, d, base, p);
  }

  lemma {:induction false} Assemble(dev: Device, ptrs: seq<nat>, p: nat, list: seq<nat>,
                 c0: seq<nat>, c1: seq<nat>, c2: seq<nat>, c3: seq<nat>, m1: seq<nat>, m2: seq<nat>, m3: seq<nat>)
    requires |ptrs| == N_BLOCKS && list == c0 + c1 + c2 + c3
    requires |c0| <= 12 && ptrs[..NDIR_BLOCKS] == c0 + Holes(NDIR_BLOCKS - |c0|)
    requires Part(dev, ptrs[12], 1, 12, p, c1, m1) && (c1 != [] ==> |c0| == 12)
    requires Part(dev, ptrs[13], 2, 12 + Pow(p, 1), p, c2, m2) && (c2 != [] ==> |c0 + c1| == 12 + Pow(p, 1))
    requires Part(dev, ptrs[14], 3, 12 + Pow(p, 1) + Pow(p, 2), p, c3, m3)
    requires c3 != [] ==> |c0 + c1 + c2| == 12 + Pow(p, 1) + Pow(p, 2)
    ensures DataOf(WalkPointers(dev, ptrs, p)) == Listed(list, 0)
    ensures MetaOf(WalkPointers(dev, ptrs, p)) == m1 + m2 + m3 && Fit(dev, m1 + m2 + m3, p)
  {
    hide Walk, WalkAll, Pow, DataOf, MetaOf, Listed, Holes;
    WalkAllPadded(dev, c0, NDIR_BLOCKS - |c0|, 0, 0, p);
    WalkListed(dev, c0, 0, p);
    var w0, w1 := WalkAll(dev, ptrs[..NDIR_BLOCKS], 0, 0, p), Walk(dev, ptrs[12], 1, 12, p);
    var w2 := Walk(dev, ptrs[13], 2, 12 + Pow(p, 1), p);
    var w3 := Walk(dev, ptrs[14], 3, 12 + Pow(p, 1) + Pow(p, 2), p);
    VisitsConcat(w0, w1);
    VisitsConcat(w0 + w1, w2);
    VisitsConcat(w0 + w1 + w2, w3);
    ListedConcat(c0, c1, 0);
    ListedConcat(c0 + c1, c2, 0);
    ListedConcat(c0 + c1 + c2, c3, 0);
    ListedNone(|c0|);
    ListedNone(|c0 + c1|);
    ListedNone(|c0 + c1 + c2|);
    ListedNone(12);
    ListedNone(12 + Pow(p, 1));
    ListedNone(12 + Pow(p, 1) + Pow(p, 2));
  }

  lemma {:induction false} ListedNone(base: nat)
    ensures Listed([], base) == []
  {
  }

  /** What a finished map is for its list. */
  ghost predicate MapsList(dev: Device, ptrs: seq<nat>, p: nat, list: seq<nat>, metas: seq<nat>) {
    && |ptrs| == N_BLOCKS && DataOf(WalkPointers(dev, ptrs, p)) == Listed(list, 0) && MetaOf(WalkPointers(dev, ptrs, p)) == metas
    && Fit(dev, metas, p)
  }

  datatype NewMap = NewMap(pointers: seq<nat>, metaUsed: nat)

  /** The direct pointers: the list's first blocks, padded with holes. */
  function Direct(list: seq<nat>): (r: seq<nat>)
    ensures |r| == NDIR_BLOCKS
  {
    if |list| <= NDIR_BLOCKS then list + Holes(NDIR_BLOCKS - |list|) else list[..NDIR_BLOCKS]
  }

  method DirectPointers(list: seq<nat>) returns (pointers: seq<nat>)
    requires Addressable(list)
    ensures pointers == Direct(list) + [0, 0, 0]
  {
    pointers := Holes(N_BLOCKS);
    for i := 0 to NDIR_BLOCKS
      invariant |pointers| == N_BLOCKS
      invariant forall j :: 0 <= j < i ==> pointers[j] == if j < |list| then list[j] else HOLE
      invariant forall j :: i <= j < N_BLOCKS ==> pointers[j] == HOLE
    {
      pointers := pointers[i := AsU32(if i < |list| then list[i] else HOLE)];
    }
  }

  /** What writing a map amounts to: the map and its size, or the reason there is none. */
  ghost predicate Outcome(s: State, t: State, p: nat, list: seq<nat>, r: Result<NewMap>, own: seq<nat>)
    requires 0 < p
  {
    && Grown(s, t, own) && ZeroTaken(t)
    && match r
       case Ok(m) => && |list| <= MapLimit(p) && MapsList(t.device, m.pointers, p, list, own)
                     && m.metaUsed == |own| == MapSize(|list|, p)
       case Err(e) => || (e == NoSpace && t.freeBlocks == 0 && |own| < MapSize(|list|, p))
                      || (e == Unsupported && MapLimit(p) < |list| && |own| == MapSize(|list|, p))
  }

  /** Which way a map's writing goes is settled by the free blocks and the list's length. */
  lemma {:induction false} OutcomeExactly(s: State, t: State, p: nat, list: seq<nat>, r: Result<NewMap>, own: seq<nat>)
    requires 0 < p && Outcome(s, t, p, list, r, own)
    ensures r.Ok? <==> MapSize(|list|, p) <= s.freeBlocks && |list| <= 12 + p + p * p + p * p * p
    ensures r == Err(NoSpace) <==> s.freeBlocks < MapSize(|list|, p)
    ensures r == Err(Unsupported) <==> MapSize(|list|, p) <= s.freeBlocks && 12 + p + p * p + p * p * p < |list|
  {
    hide Grown, MapsList, ZeroTaken, MapSize;
    GrownParts(s, t, own);
    PowSmall(p);
  }

  /** A map that stops short of some level, its remaining pointers zero. */
  lemma {:induction false} Stops(dev: Device, pointers: seq<nat>, p: nat, list: seq<nat>, e1: nat, e2: nat, e3: nat, m1: seq<nat>, m2: seq<nat>, m3: seq<nat>)
    requires 0 < p && NDIR_BLOCKS < |list| && |pointers| == N_BLOCKS && pointers[..NDIR_BLOCKS] == Direct(list)
    requires e1 == Reach(NDIR_BLOCKS, 1, p, |list|) && e2 == Reach(e1, 2, p, |list|) && e3 == Reach(e2, 3, p, |list|)
    requires Part(dev, pointers[12], 1, 12, p, list[12..e1], m1)
    requires Part(dev, pointers[13], 2, 12 + Pow(p, 1), p, list[e1..e2], m2)
    requires Part(dev, pointers[14], 3, 12 + Pow(p, 1) + Pow(p, 2), p, list[e2..e3], m3)
    requires |m1| == TreeSize(e1 - 12, 1, p) && |m2| == TreeSize(e2 - e1, 2, p) && |m3| == TreeSize(e3 - e2, 3, p)
    requires e3 == |list|
    ensures |list| <= MapLimit(p) && MapsList(dev, pointers, p, list, m1 + m2 + m3)
    ensures |m1 + m2 + m3| == MapSize(|list|, p)
  {
    hide Part, TreeSize, Pow, WalkPointers, Listed, DataOf, MetaOf;
    assert list == list[..12] + list[12..e1] + list[e1..e2] + list[e2..e3];
    assert pointers[..NDIR_BLOCKS] == list[..12] + Holes(0);
    assert list[..12] + list[12..e1] == list[..e1] && list[..e1] + list[e1..e2] == list[..e2];
    Assemble(dev, pointers, p, list, list[..12], list[12..e1], list[e1..e2], list[e2..e3], m1, m2, m3);
  }

  /** How far each level reaches, and where the next therefore starts. */
  lemma {:induction false} Levels(p: nat, len: nat)
    requires 0 < p && NDIR_BLOCKS < len
    ensures var e1 := Reach(NDIR_BLOCKS, 1, p, len);
            var e2 := Reach(e1, 2, p, len);
            var e3 := Reach(e2, 3, p, len);
            && e1 == Min(NDIR_BLOCKS + p, len) && NDIR_BLOCKS < e1
            && (e1 < len ==> e1 == 12 + Pow(p, 1)) && (e2 < len ==> e2 == 12 + Pow(p, 1) + Pow(p, 2))
            && (e3 < len <==> MapLimit(p) < len)
            && TreeSize(e1 - NDIR_BLOCKS, 1, p) == 1
            && (e1 == len ==> e2 == len) && (e2 == len ==> e3 == len)
            && MapSize(len, p) == 1 + TreeSize(e2 - e1, 2, p) + TreeSize(e3 - e2, 3, p)
  {
    hide TreeSize;
    PowSmall(p);
    SingleTakesOne(Reach(NDIR_BLOCKS, 1, p, len) - NDIR_BLOCKS, p);
  }

  /** Write the list's map in fresh blocks: direct pointers, then each level of indirection it needs. */
  method WriteIndirectMap(fs: Filesystem, alloc: Allocator, p: nat, list: seq<nat>) returns (r: Result<NewMap>, ghost own: seq<nat>)
    requires alloc.Now(fs).Valid() && ZeroTaken(alloc.Now(fs)) && fs.geo.blocksCount <= U32_LIMIT
    requires 0 < p && Addressable(list)
    modifies alloc`blockCache, alloc`dirtyBlock, fs`descs, fs`freeBlocks, fs`device, fs`log
    ensures Outcome(old(alloc.Now(fs)), alloc.Now(fs), p, list, r, own) && Logs(old(fs.log), fs.log, own)
  {
    hide Grown, Maps, State.Valid, TreeSize, MapSize, MapLimit, ZeroTaken, Addressable, Reach, Pow, Part, MapsList, Direct;
    ghost var s := alloc.Now(fs);
    own := [];
    GrownNone(s);
    assert Logs(fs.log, fs.log, own);
    var pointers := DirectPointers(list);
    if |list| <= NDIR_BLOCKS {
      DirectOnly(fs.device, pointers, p, list);
      return Ok(NewMap(pointers, 0)), own;
    }
    Levels(p, |list|);
    var goal := Goal(list);
    var indEnd := Min(NDIR_BLOCKS + p, |list|);
    var ind := WriteSingle(fs, alloc, p, goal, list, NDIR_BLOCKS, indEnd);
    if ind.Err? {
      return Err(ind.error), own;
    }
    own := [ind.value];
    ghost var log := fs.log;
    assert Logs(old(fs.log), log, own);
    hide Logs;
    ghost var t1 := alloc.Now(fs);
    TakenFits(s, t1, ind.value, own);
    PartOf(fs.device, ind.value, 1, NDIR_BLOCKS, p, list[NDIR_BLOCKS..indEnd], own);
    pointers := pointers[NDIR_BLOCKS := AsU32(ind.value)];
    if |list| <= indEnd {
      assert list[NDIR_BLOCKS..indEnd] == list[NDIR_BLOCKS..];
      SingleOnly(fs.device, pointers, p, list, own);
      return Ok(NewMap(pointers, 1)), own;
    }
    r, own := WriteDeep(fs, alloc, p, goal, list, indEnd, pointers, s);
    LogsMore(old(fs.log), log, fs.log, [ind.value], own);
    LogsWithin(old(fs.log), fs.log, [ind.value] + own, own);
  }

  lemma {:induction false} DirectOnly(dev: Device, pointers: seq<nat>, p: nat, list: seq<nat>)
    requires 0 < p && |list| <= NDIR_BLOCKS && pointers == Direct(list) + [0, 0, 0]
    ensures MapsList(dev, pointers, p, list, []) && MapSize(|list|, p) == 0 && |list| <= MapLimit(p)
  {
    hide Pow;
    NoPart(dev, 1, 12, p);
    NoPart(dev, 2, 12 + Pow(p, 1), p);
    NoPart(dev, 3, 12 + Pow(p, 1) + Pow(p, 2), p);
    Assemble(dev, pointers, p, list, list, [], [], [], [], [], []);
    assert list + [] + [] + [] == list;
  }

  lemma {:induction false} SingleOnly(dev: Device, pointers: seq<nat>, p: nat, list: seq<nat>, own: seq<nat>)
    requires 0 < p && NDIR_BLOCKS < |list| && |list| == Reach(NDIR_BLOCKS, 1, p, |list|) && |own| == 1
    requires |pointers| == N_BLOCKS && pointers[..NDIR_BLOCKS] == Direct(list) && pointers[13] == 0 && pointers[14] == 0
    requires Part(dev, pointers[12], 1, NDIR_BLOCKS, p, list[NDIR_BLOCKS..], own)
    ensures |list| <= MapLimit(p) && MapsList(dev, pointers, p, list, own) && MapSize(|list|, p) == 1
  {
    hide Pow, TreeSize, Reach, Part, MapSize, MapLimit, MapsList, Direct;
    Levels(p, |list|);
    var n := |list|;
    NoPart(dev, 2, 12 + Pow(p, 1), p);
    NoPart(dev, 3, 12 + Pow(p, 1) + Pow(p, 2), p);
    NoTree(p);
    assert list[12..n] == list[12..] && list[n..n] == [];
    Stops(dev, pointers, p, list, n, n, n, own, [], []);
    assert own + [] + [] == own;
  }

  lemma {:induction false} NoTree(p: nat)
    requires 0 < p
    ensures TreeSize(0, 1, p) == 0 && TreeSize(0, 2, p) == 0 && TreeSize(0, 3, p) == 0
  {
  }

  /** The rest of a map that one indirect block does not hold. */
  method WriteDeep(fs: Filesystem, alloc: Allocator, p: nat, goal: nat, list: seq<nat>, indEnd: nat, direct: seq<nat>, ghost s: State)
    returns (r: Result<NewMap>, ghost own: seq<nat>)
    requires fs.geo.blocksCount <= U32_LIMIT && 0 < p && Addressable(list)
    requires NDIR_BLOCKS < indEnd < |list| && indEnd == Reach(NDIR_BLOCKS, 1, p, |list|)
    requires |direct| == N_BLOCKS && direct[..NDIR_BLOCKS] == Direct(list) && direct[13] == 0 && direct[14] == 0
    requires Grown(s, alloc.Now(fs), [direct[12]]) && ZeroTaken(alloc.Now(fs))
    requires Part(fs.device, direct[12], 1, NDIR_BLOCKS, p, list[NDIR_BLOCKS..indEnd], [direct[12]])
    modifies alloc`blockCache, alloc`dirtyBlock, fs`descs, fs`freeBlocks, fs`device, fs`log
    ensures Outcome(s, alloc.Now(fs), p, list, r, own) && Logs(old(fs.log), fs.log, own) && direct[12] in own
  {
    hide Grown, Maps, State.Valid, TreeSize, MapSize, MapLimit, ZeroTaken, Addressable, Reach, Pow, Part, MapsList, Direct, Logs;
    Levels(p, |list|);
    ghost var t1, m1 := alloc.Now(fs), [direct[12]];
    GrownParts(s, t1, m1);
    var dind, dindEnd, used2, m2 := WriteDouble(fs, alloc, p, goal, list, indEnd);
    ghost var t2 := alloc.Now(fs);
    GrownTrans(s, t1, t2, m1, m2);
    own := m1 + m2;
    ghost var log := fs.log;
    LogsWithin(old(fs.log), log, m2, own);
    if dind.Err? {
      return Err(dind.error), own;
    }
    TakenFits(t1, t2, dind.value, m2);
    PartStays(s, t1, t2, direct[12], 1, NDIR_BLOCKS, p, list[NDIR_BLOCKS..indEnd], m1, m1, m2);
    PartOf(fs.device, dind.value, 2, indEnd, p, list[indEnd..dindEnd], m2);
    var pointers := direct[NDIR_BLOCKS + 1 := AsU32(dind.value)];
    assert pointers[..NDIR_BLOCKS] == direct[..NDIR_BLOCKS];
    if |list| <= dindEnd {
      DoubleOnly(fs.device, pointers, p, list, indEnd, m1, m2);
      return Ok(NewMap(pointers, 1 + used2)), own;
    }
    GrownParts(s, t2, own);
    var tind, logical, used3, m3 := WriteTriple(fs, alloc, p, goal, list, dindEnd);
    ghost var t3 := alloc.Now(fs);
    GrownTrans(s, t2, t3, own, m3);
    ghost var before := own;
    own := own + m3;
    LogsMore(old(fs.log), log, fs.log, before, m3);
    if tind.Err? {
      return Err(tind.error), own;
    }
    TakenFits(t2, t3, tind.value, m3);
    pointers := pointers[NDIR_BLOCKS + 2 := AsU32(tind.value)];
    if logical < |list| {
      return Err(Unsupported), own;
    }
    ElemsParts(m1, m2);
    PartStays(s, t2, t3, direct[12], 1, NDIR_BLOCKS, p, list[NDIR_BLOCKS..indEnd], m1, before, m3);
    PartStays(s, t2, t3, dind.value, 2, indEnd, p, list[indEnd..dindEnd], m2, before, m3);
    PartOf(fs.device, tind.value, 3, dindEnd, p, list[dindEnd..logical], m3);
    assert pointers[..NDIR_BLOCKS] == direct[..NDIR_BLOCKS];
    Stops(fs.device, pointers, p, list, indEnd, dindEnd, logical, m1, m2, m3);
    r := Ok(NewMap(pointers, 1 + used2 + used3));
  }

  lemma {:induction false} ElemsParts(a: seq<nat>, b: seq<nat>)
    ensures Elems(a) <= Elems(a + b) && Elems(b) <= Elems(a + b)
  {
  }

  lemma {:induction false} DoubleOnly(dev: Device, pointers: seq<nat>, p: nat, list: seq<nat>, e1: nat, m1: seq<nat>, m2: seq<nat>)
    requires 0 < p && NDIR_BLOCKS < e1 < |list| && e1 == Reach(NDIR_BLOCKS, 1, p, |list|) && |list| == Reach(e1, 2, p, |list|)
    requires |pointers| == N_BLOCKS && pointers[..NDIR_BLOCKS] == Direct(list) && pointers[14] == 0
    requires Part(dev, pointers[12], 1, NDIR_BLOCKS, p, list[NDIR_BLOCKS..e1], m1) && |m1| == 1
    requires Part(dev, pointers[13], 2, e1, p, list[e1..|list|], m2) && |m2| == TreeSize(|list| - e1, 2, p)
    ensures |list| <= MapLimit(p) && MapsList(dev, pointers, p, list, m1 + m2) && MapSize(|list|, p) == |m1 + m2|
  {
    hide Pow, TreeSize, Reach, Part, MapSize, MapLimit, MapsList, Direct;
    Levels(p, |list|);
    var n := |list|;
    NoPart(dev, 3, 12 + Pow(p, 1) + Pow(p, 2), p);
    NoTree(p);
    assert list[n..n] == [];
    Stops(dev, pointers, p, list, e1, n, n, m1, m2, []);
    assert m1 + m2 + [] == m1 + m2;
  }
}
