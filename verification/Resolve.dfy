/**
 Looking up one block of a file through its pointers: the descent a reader makes,
 level by level, finds what a walk of the whole map would list there.
 */
module Resolve {
  import opened Base
  import opened Disk
  import opened BlockWalk
  import opened IndirectMap
  import opened PointerMap
  import opened Extents
  import opened ExtentTree
  import opened BlockMap
  import opened Bitmaps
  import opened Allocators
  import opened MapSpace
  import opened MapWriter

  /** Which child of a tree holds its i-th block, when each child holds q, and where in that child. */
  function ChildOf(i: nat, q: nat): nat
    requires 0 < q
  {
    i / q
  }

  function Offset(i: nat, q: nat): nat
    requires 0 < q
  {
    i % q
  }

  /** Follow d levels of pointers from block b to the i-th block of data under it. */
  function Descend(dev: Device, b: nat, d: nat, i: nat, p: nat): nat
    requires 0 < p
    decreases d
  {
    if b == 0 then HOLE
    else if d == 0 then b
    else
      var q, kids := Pow(p, d - 1), PtrsOf(dev, b);
      if ChildOf(i, q) < |kids| then Descend(dev, kids[ChildOf(i, q)], d - 1, Offset(i, q), p) else HOLE
  }

  /** Follow an inode's pointers to logical block l, at the level l falls in. */
  function ResolvePointers(dev: Device, ptrs: seq<nat>, l: nat, p: nat): nat
    requires 0 < p && |ptrs| == N_BLOCKS
  {
    var b2, b3 := 12 + Pow(p, 1), 12 + Pow(p, 1) + Pow(p, 2);
    if l < NDIR_BLOCKS then ptrs[l]
    else if l < b2 then Descend(dev, ptrs[12], 1, l - 12, p)
    else if l < b3 then Descend(dev, ptrs[13], 2, l - b2, p)
    else if l < MapLimit(p) then Descend(dev, ptrs[14], 3, l - b3, p)
    else HOLE
  }

  lemma {:induction false} ChildRange(base: nat, n: nat, p: nat, d: nat, l: nat)
    requires 0 < p && base <= l
    ensures var q, c := Pow(p, d), ChildBase(base, n, p, d);
            && (c <= l < c + q <==> ChildOf(l - base, q) == n)
            && (ChildOf(l - base, q) == n ==> l - c == Offset(l - base, q))
  {
    DivModBy(l - base, n, Pow(p, d));
  }

  lemma {:induction false} DivModBy(i: nat, n: nat, q: nat)
    requires 0 < q
    ensures n * q <= i < n * q + q <==> i / q == n
    ensures i / q == n ==> i - n * q == i % q
  {
    var m := i / q;
    assert i == m * q + i % q;
    MulMono(m + 1, n, q);
    MulMono(n + 1, m, q);
  }

  lemma {:induction false} ChildReach(i: nat, p: nat, d: nat)
    requires 0 < p && 0 < d && ChildOf(i, Pow(p, d - 1)) < p
    ensures i < Pow(p, d)
  {
    var q := Pow(p, d - 1);
    assert i == i / q * q + i % q;
    MulMono(i / q + 1, p, q);
  }

  /** The walk under b lists, from `base` on, what descents from b reach. */
  ghost predicate Reaches(dev: Device, b: nat, d: nat, base: nat, p: nat, x: Placed)
    requires 0 < p
  {
    base <= x.logical < base + Pow(p, d) && Descend(dev, b, d, x.logical - base, p) == x.physical != HOLE
  }

  ghost predicate ReachesAmong(dev: Device, kids: seq<nat>, d: nat, base: nat, p: nat, x: Placed)
    requires 0 < p
  {
    && base <= x.logical
    && ChildOf(x.logical - base, Pow(p, d)) < |kids|
    && Descend(dev, kids[ChildOf(x.logical - base, Pow(p, d))], d, Offset(x.logical - base, Pow(p, d)), p) == x.physical != HOLE
  }

  lemma {:induction false} FitParts(dev: Device, a: seq<nat>, b: seq<nat>, p: nat)
    requires Fit(dev, a + b, p)
    ensures Fit(dev, a, p) && Fit(dev, b, p)
    ensures |a| == 1 ==> |PtrsOf(dev, a[0])| <= p
  {
    assert forall m :: m in a || m in b ==> m in a + b;
  }

  lemma {:induction false} InWalk(dev: Device, b: nat, d: nat, base: nat, p: nat, x: Placed)
    requires 0 < p && Fit(dev, MetaOf(Walk(dev, b, d, base, p)), p)
    ensures x in DataOf(Walk(dev, b, d, base, p)) <==> Reaches(dev, b, d, base, p, x)
    decreases d, 0
  {
    if b != 0 && d > 0 {
      hide DataOf, MetaOf, Walk, WalkAll, Reaches, ReachesAmong, PtrsOf, Fit;
      var kids := PtrsOf(dev, b);
      WalkTop(dev, b, d, base, p);
      FitParts(dev, [b], MetaOf(WalkAll(dev, kids, d - 1, base, p)), p);
      InWalkAll(dev, kids, d - 1, base, p, x);
      UpOne(dev, b, d, base, p, x);
    } else {
      hide DataOf, MetaOf;
      OneVisit(base, b);
    }
  }

  lemma {:induction false} UpOne(dev: Device, b: nat, d: nat, base: nat, p: nat, x: Placed)
    requires 0 < p && |PtrsOf(dev, b)| <= p && b != 0 && 0 < d
    ensures Reaches(dev, b, d, base, p, x) <==> ReachesAmong(dev, PtrsOf(dev, b), d - 1, base, p, x)
  {
    hide Pow, ChildOf, Offset, PtrsOf;
    if base <= x.logical && ChildOf(x.logical - base, Pow(p, d - 1)) < p {
      ChildReach(x.logical - base, p, d);
    }
  }

  lemma {:induction false} InWalkAll(dev: Device, kids: seq<nat>, d: nat, base: nat, p: nat, x: Placed)
    requires 0 < p && Fit(dev, MetaOf(WalkAll(dev, kids, d, base, p)), p)
    ensures x in DataOf(WalkAll(dev, kids, d, base, p)) <==> ReachesAmong(dev, kids, d, base, p, x)
    decreases d, 1 + |kids|
  {
    if kids != [] {
      var n := |kids| - 1;
      VisitsConcat(WalkAll(dev, kids[..n], d, base, p), Walk(dev, kids[n], d, ChildBase(base, n, p, d), p));
      FitParts(dev, MetaOf(WalkAll(dev, kids[..n], d, base, p)), MetaOf(Walk(dev, kids[n], d, ChildBase(base, n, p, d), p)), p);
      InWalkAll(dev, kids[..n], d, base, p, x);
      InWalk(dev, kids[n], d, ChildBase(base, n, p, d), p, x);
      hide DataOf, Walk;
      AmongMore(dev, kids, d, base, p, x);
    }
  }

  lemma {:induction false} AmongMore(dev: Device, kids: seq<nat>, d: nat, base: nat, p: nat, x: Placed)
    requires 0 < p && kids != []
    ensures var n := |kids| - 1;
            ReachesAmong(dev, kids, d, base, p, x) <==>
            ReachesAmong(dev, kids[..n], d, base, p, x) || Reaches(dev, kids[n], d, ChildBase(base, n, p, d), p, x)
  {
    var n := |kids| - 1;
    assert base <= ChildBase(base, n, p, d);
    if base <= x.logical {
      ChildRange(base, n, p, d, x.logical);
    }
    hide Descend, Pow, ChildOf, Offset, ChildBase;
  }

  /** Following pointers to a logical block finds what the walk lists there, and a hole where it lists nothing. */
  lemma {:induction false} ResolveIsListed(dev: Device, ptrs: seq<nat>, p: nat, x: Placed)
    requires 0 < p && |ptrs| == N_BLOCKS && Fit(dev, MetaOf(WalkPointers(dev, ptrs, p)), p)
    ensures x in DataOf(WalkPointers(dev, ptrs, p)) <==> ResolvePointers(dev, ptrs, x.logical, p) == x.physical != HOLE
  {
    hide DataOf, MetaOf, Walk, WalkAll, Descend, Pow, Listed, WalkPointers, Fit;
    var b2, b3 := 12 + Pow(p, 1), 12 + Pow(p, 1) + Pow(p, 2);
    PointersVisit(dev, ptrs, p);
    InWalk(dev, ptrs[12], 1, 12, p, x);
    InWalk(dev, ptrs[13], 2, b2, p, x);
    InWalk(dev, ptrs[14], 3, b3, p, x);
    PlacedByList(ptrs[..NDIR_BLOCKS], 0, x);
  }

  /** What a walk of an inode's pointers lists: the direct blocks, then what is under each level. */
  lemma {:induction false} PointersVisit(dev: Device, ptrs: seq<nat>, p: nat)
    requires |ptrs| == N_BLOCKS && Fit(dev, MetaOf(WalkPointers(dev, ptrs, p)), p)
    ensures var w1 := Walk(dev, ptrs[12], 1, 12, p);
            var w2, w3 := Walk(dev, ptrs[13], 2, 12 + Pow(p, 1), p), Walk(dev, ptrs[14], 3, 12 + Pow(p, 1) + Pow(p, 2), p);
            && DataOf(WalkPointers(dev, ptrs, p)) == Listed(ptrs[..NDIR_BLOCKS], 0) + DataOf(w1) + DataOf(w2) + DataOf(w3)
            && Fit(dev, MetaOf(w1), p) && Fit(dev, MetaOf(w2), p) && Fit(dev, MetaOf(w3), p)
  {
    hide DataOf, MetaOf, Walk, WalkAll, Pow, Listed, Fit;
    var w0, w1 := WalkAll(dev, ptrs[..NDIR_BLOCKS], 0, 0, p), Walk(dev, ptrs[12], 1, 12, p);
    var w2, w3 := Walk(dev, ptrs[13], 2, 12 + Pow(p, 1), p), Walk(dev, ptrs[14], 3, 12 + Pow(p, 1) + Pow(p, 2), p);
    VisitsConcat(w0, w1);
    VisitsConcat(w0 + w1, w2);
    VisitsConcat(w0 + w1 + w2, w3);
    WalkListed(dev, ptrs[..NDIR_BLOCKS], 0, p);
    FitParts(dev, MetaOf(w0 + w1 + w2), MetaOf(w3), p);
    FitParts(dev, MetaOf(w0 + w1), MetaOf(w2), p);
    FitParts(dev, MetaOf(w0), MetaOf(w1), p);
  }

  /** A pointer map built for a list resolves every logical block to the list's block, and to a hole past its end. */
  lemma {:induction false} PointersResolve(dev: Device, ptrs: seq<nat>, p: nat, list: seq<nat>, metas: seq<nat>, l: nat)
    requires 0 < p && MapsList(dev, ptrs, p, list, metas)
    ensures ResolvePointers(dev, ptrs, l, p) == if l < |list| then list[l] else HOLE
  {
    hide DataOf, ResolvePointers, WalkPointers, Listed;
    var found := ResolvePointers(dev, ptrs, l, p);
    ResolveIsListed(dev, ptrs, p, Placed(l, found));
    PlacedByList(list, 0, Placed(l, found));
    if l < |list| {
      ResolveIsListed(dev, ptrs, p, Placed(l, list[l]));
      PlacedByList(list, 0, Placed(l, list[l]));
    }
  }

  /** An extent map built for a list resolves every logical block to the list's block, and to a hole past its end. */
  lemma {:induction false} ExtentsResolve(extents: seq<Extent>, list: seq<nat>, l: nat)
    requires DataOf(WalkExtents(extents)) == Listed(list, 0) && Ordered(extents) && Capped(extents)
    ensures ResolveIn(extents, l) == if l < |list| then list[l] else HOLE
  {
    hide DataOf, WalkExtents, ResolveIn, Listed;
    forall i | 0 <= i < |extents| ensures extents[i].start != 0 {
      var x := Placed(extents[i].block, extents[i].start);
      assert Covers(extents[i], x);
      PlacedByExtents(extents, x);
      PlacedByList(list, 0, x);
    }
    ResolveInMeans(extents, l);
    PlacedByList(list, 0, Placed(l, ResolveIn(extents, l)));
    if l < |list| {
      PlacedByList(list, 0, Placed(l, list[l]));
    }
  }

  /** The same of a tree of extents, searched root first. */
  lemma {:induction false} TreeResolves(dev: Device, indices: seq<ExtentIdx>, extents: seq<Extent>, list: seq<nat>, l: nat)
    requires DataOf(WalkExtents(extents)) == Listed(list, 0) && Ordered(extents) && Capped(extents)
    requires Holding(dev, indices, extents)
    ensures ResolveTree(dev, indices, l) == if l < |list| then list[l] else HOLE
  {
    ExtentsResolve(extents, list, l);
    TwoStepSearch(dev, indices, extents, l);
  }

  // ---- any map ----

  /** Look a logical block up in an inode's map, whatever its shape. */
  function ResolveMap(dev: Device, m: InodeMap, l: nat, p: nat): nat
    requires 0 < p
  {
    match m
    case PointerRoot(ptrs) => if |ptrs| == N_BLOCKS then ResolvePointers(dev, ptrs, l, p) else HOLE
    case ExtentRoot(extents) => ResolveIn(extents, l)
    case IndexRoot(indices) => ResolveTree(dev, indices, l)
    case NoMap => HOLE
  }

  /** Every logical block is found where the list has it, and a hole past the list's end. */
  ghost predicate Resolves(dev: Device, m: InodeMap, p: nat, list: seq<nat>)
    requires 0 < p
  {
    forall l: nat :: ResolveMap(dev, m, l, p) == if l < |list| then list[l] else HOLE
  }

  /** A pointer map just written resolves every logical block to the list's. */
  lemma {:induction false} OutcomeResolves(s: State, t: State, p: nat, list: seq<nat>, r: Result<NewMap>, own: seq<nat>)
    requires 0 < p && Outcome(s, t, p, list, r, own) && r.Ok?
    ensures Resolves(t.device, PointerRoot(r.value.pointers), p, list)
  {
    hide Grown, ZeroTaken, ResolvePointers, MapSize, MapLimit;
    forall l: nat ensures ResolvePointers(t.device, r.value.pointers, l, p) == if l < |list| then list[l] else HOLE {
      PointersResolve(t.device, r.value.pointers, p, list, own, l);
    }
  }

  /** So does a map of extents. */
  lemma {:induction false} ExtentsForResolves(dev: Device, m: InodeMap, extents: seq<Extent>, list: seq<nat>, per: nat, own: seq<nat>, p: nat)
    requires 0 < per && 0 < p && ExtentsFor(dev, m, extents, list, per, own)
    ensures Resolves(dev, m, p, list)
  {
    hide DataOf, WalkExtents, ResolveIn, ResolveTree, Listed, Holding, Ordered, Capped, Maximal;
    forall l: nat ensures ResolveMap(dev, m, l, p) == if l < |list| then list[l] else HOLE {
      if m.ExtentRoot? {
        ExtentsResolve(extents, list, l);
      } else {
        TreeResolves(dev, m.indices, extents, list, l);
      }
    }
  }
}
