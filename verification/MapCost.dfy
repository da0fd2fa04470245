/** What a list of blocks costs to map (src/map.rs:96-355): how many blocks at most, and how long it may be. */
module MapCost {
  import opened Base
  import opened Allocation
  import opened BlockWalk
  import opened ExtentTree
  import opened IndirectMap
  import opened PointerMap

  /** The map blocks a list of n blocks may take: a leaf for each lot of extents, or a tree of pointers. */
  function MapBlocks(usesExtents: bool, bs: nat, n: nat): nat
    requires 24 <= bs
  {
    if usesExtents then (if n <= INLINE_MAX then 0 else CeilDiv(n, MaxEntries(bs))) else MapSize(n, bs / 4)
  }

  /** However its blocks lie, a list of n blocks can be mapped. */
  predicate Mappable(usesExtents: bool, bs: nat, n: nat)
    requires 24 <= bs
  {
    if usesExtents then n <= INLINE_MAX * MaxEntries(bs) else n <= MapLimit(bs / 4)
  }

  /** So many free blocks are enough to make a list of `had` blocks one of n, and map it. */
  predicate Ample(free: nat, usesExtents: bool, bs: nat, had: nat, n: nat)
    requires 24 <= bs
  {
    Mappable(usesExtents, bs, n) && SatSub(n, had) + MapBlocks(usesExtents, bs, n) <= free
  }

  lemma {:induction false} CeilDivRises(a: nat, b: nat, d: nat)
    requires 0 < d && a <= b
    ensures CeilDiv(a, d) <= CeilDiv(b, d)
  {
    var x, y := CeilDiv(a, d), CeilDiv(b, d);
    assert a + d - 1 == x * d + (a + d - 1) % d && b + d - 1 == y * d + (b + d - 1) % d;
    if y < x {
      MulMono(y + 1, x, d);
    }
  }

  lemma {:induction false} TreeRises(a: nat, b: nat, d: nat, p: nat)
    requires 0 < p && a <= b
    ensures TreeSize(a, d, p) <= TreeSize(b, d, p)
    decreases d, 0
  {
    if a != 0 && d != 0 {
      KidsRise(a, b, d - 1, p);
    }
  }

  lemma {:induction false} KidsRise(a: nat, b: nat, d: nat, p: nat)
    requires 0 < p && a <= b
    ensures KidsSize(a, d, p) <= KidsSize(b, d, p)
    decreases d, a + 1
  {
    if a != 0 {
      var x, y := Min(a, Pow(p, d)), Min(b, Pow(p, d));
      PowPositive(p, d);
      TreeRises(x, y, d, p);
      if x < a {
        KidsRise(a - x, b - y, d, p);
      } else {
        NoKids(d, p);
      }
    }
  }

  lemma {:induction false} NoKids(d: nat, p: nat)
    requires 0 < p
    ensures KidsSize(0, d, p) == 0
  {
  }

  lemma {:induction false} PowPositive(p: nat, d: nat)
    requires 0 < p
    ensures 0 < Pow(p, d)
  {
  }

  /** Each level of a longer list reaches at least as far past the one before. */
  lemma {:induction false} ReachRises(start: nat, d: nat, p: nat, a: nat, b: nat)
    requires 0 < p && start <= a <= b
    ensures var x, y := Reach(start, d, p, a), Reach(start, d, p, b);
            start <= x <= a && x - start <= y - start && (x == a || x == y)
  {
    hide Pow;
    PowPositive(p, d);
  }

  /** A longer list never takes fewer map blocks. */
  lemma {:induction false} MapSizeRises(a: nat, b: nat, p: nat)
    requires 0 < p && a <= b
    ensures MapSize(a, p) <= MapSize(b, p)
  {
    hide Reach, TreeSize, Pow;
    if NDIR_BLOCKS < a {
      var x1, y1 := Reach(NDIR_BLOCKS, 1, p, a), Reach(NDIR_BLOCKS, 1, p, b);
      ReachRises(NDIR_BLOCKS, 1, p, a, b);
      ReachRises(y1, 2, p, b, b);
      var x2, y2 := Reach(x1, 2, p, a), Reach(y1, 2, p, b);
      ReachRises(x1, 2, p, a, if x1 == a then a else b);
      ReachRises(x2, 3, p, a, if x2 == a then a else b);
      ReachRises(y2, 3, p, b, b);
      var x3, y3 := Reach(x2, 3, p, a), Reach(y2, 3, p, b);
      TreeRises(x1 - NDIR_BLOCKS, y1 - NDIR_BLOCKS, 1, p);
      TreeRises(x2 - x1, y2 - y1, 2, p);
      TreeRises(x3 - x2, y3 - y2, 3, p);
    }
  }

  /** The set of a list is no larger than the list. */
  lemma {:induction false} FewElems(list: seq<nat>)
    ensures |Elems(list)| <= |list|
  {
    if list != [] {
      var n := |list| - 1;
      FewElems(list[..n]);
      assert list == list[..n] + [list[n]];
      assert Elems(list) == Elems(list[..n]) + {list[n]};
    }
  }
}
