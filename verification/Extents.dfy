/**
 Extents (src/map.rs:63-89): a list of blocks coalesced greedily into runs, the
 fewest runs that describe the same blocks at the same places.
 */
module Extents {
  import opened Base
  import opened Disk
  import opened BlockWalk

  const INIT_MAX_LEN := 32768

  /** The longest run an extent is let grow to. */
  const MAX_LEN := INIT_MAX_LEN - 1

  /** The first n blocks of an extent. */
  function Run(e: Extent, n: nat): seq<Visit> {
    if n == 0 then [] else Run(e, n - 1) + [Data(e.block + (n - 1), e.start + (n - 1))]
  }

  function WalkExtents(extents: seq<Extent>): seq<Visit> {
    if extents == [] then []
    else
      var n := |extents| - 1;
      WalkExtents(extents[..n]) + Run(extents[n], extents[n].len)
  }

  lemma {:induction false} WalkExtentsConcat(a: seq<Extent>, b: seq<Extent>)
    ensures WalkExtents(a + b) == WalkExtents(a) + WalkExtents(b)
  {
    if b == [] {
      assert a + b == a;
    } else {
      hide Run;
      var n := |b| - 1;
      assert (a + b)[..|a + b| - 1] == a + b[..n];
      WalkExtentsConcat(a, b[..n]);
    }
  }

  lemma {:induction false} RunIsData(e: Extent, n: nat)
    ensures MetaOf(Run(e, n)) == [] && |DataOf(Run(e, n))| == n
    ensures forall i :: 0 <= i < n ==> DataOf(Run(e, n))[i] == Placed(e.block + i, e.start + i)
  {
    if n > 0 {
      RunIsData(e, n - 1);
      VisitsConcat(Run(e, n - 1), [Data(e.block + (n - 1), e.start + (n - 1))]);
      OneVisit(e.block + (n - 1), e.start + (n - 1));
    }
  }

  lemma {:induction false} ExtentsAreData(extents: seq<Extent>)
    ensures MetaOf(WalkExtents(extents)) == []
  {
    if extents != [] {
      var n := |extents| - 1;
      ExtentsAreData(extents[..n]);
      RunIsData(extents[n], extents[n].len);
      VisitsConcat(WalkExtents(extents[..n]), Run(extents[n], extents[n].len));
    }
  }

  predicate Covers(e: Extent, x: Placed) {
    e.block <= x.logical < e.block + e.len && x.physical == e.start + (x.logical - e.block)
  }

  /** The walk of extents places exactly the blocks some extent covers. */
  lemma {:induction false} PlacedByExtents(extents: seq<Extent>, x: Placed)
    ensures x in DataOf(WalkExtents(extents)) <==> exists i :: 0 <= i < |extents| && Covers(extents[i], x)
  {
    if extents != [] {
      var n := |extents| - 1;
      var e := extents[n];
      PlacedByExtents(extents[..n], x);
      PlacedByRun(e, x);
      VisitsConcat(WalkExtents(extents[..n]), Run(e, e.len));
      hide DataOf, Run, Covers, WalkExtents;
      assert forall i :: 0 <= i < n ==> extents[..n][i] == extents[i];
      assert (exists i :: 0 <= i < |extents| && Covers(extents[i], x))
        <==> (exists i :: 0 <= i < n && Covers(extents[..n][i], x)) || Covers(extents[n], x);
    }
  }

  lemma {:induction false} PlacedByRun(e: Extent, x: Placed)
    ensures x in DataOf(Run(e, e.len)) <==> Covers(e, x)
  {
    RunIsData(e, e.len);
    if Covers(e, x) {
      assert DataOf(Run(e, e.len))[x.logical - e.block] == x;
    }
  }

  lemma {:induction false} PlacedByList(list: seq<nat>, base: nat, x: Placed)
    ensures x in Listed(list, base) <==>
            base <= x.logical < base + |list| && list[x.logical - base] == x.physical != HOLE
  {
    if list != [] {
      PlacedByList(list[..|list| - 1], base, x);
    }
  }

  ghost predicate Ordered(extents: seq<Extent>) {
    forall i, j :: 0 <= i < j < |extents| ==> extents[i].block + extents[i].len <= extents[j].block
  }

  ghost predicate Capped(extents: seq<Extent>) {
    forall i :: 0 <= i < |extents| ==> 1 <= extents[i].len <= MAX_LEN
  }

  predicate Continues(e: Extent, logical: nat, physical: nat) {
    e.block + e.len == logical && e.start + e.len == physical
  }

  /** Each extent stops only where its run does, or at the cap. */
  ghost predicate Maximal(extents: seq<Extent>) {
    forall i :: 0 <= i < |extents| - 1 ==>
      Continues(extents[i], extents[i + 1].block, extents[i + 1].start) ==> extents[i].len == MAX_LEN
  }

  ghost predicate Below(extents: seq<Extent>, n: nat) {
    forall i :: 0 <= i < |extents| ==> extents[i].block + extents[i].len <= n
  }

  /** The extents of a list: one for each run of blocks that follow one another. */
  method ToExtents(list: seq<nat>) returns (out: seq<Extent>)
    ensures DataOf(WalkExtents(out)) == Listed(list, 0)
    ensures Ordered(out) && Capped(out) && Maximal(out) && Below(out, |list|)
  {
    hide DataOf, WalkExtents, Listed, Ordered, Maximal, Below;
    out := [];
    NoExtents(list);
    for logical := 0 to |list|
      invariant DataOf(WalkExtents(out)) == Listed(list[..logical], 0)
      invariant Ordered(out) && Capped(out) && Maximal(out) && Below(out, logical)
    {
      var physical := list[logical];
      ListedMore(list, logical);
      BelowMore(out, logical);
      if physical == HOLE {
        continue;
      }
      // Extend the previous extent when this block continues it, both logically and physically.
      if |out| > 0 {
        var last := out[|out| - 1];
        if last.block + last.len == logical && last.start + last.len == physical && last.len < INIT_MAX_LEN - 1 {
          ExtendLast(out, logical, physical);
          out := out[|out| - 1 := last.(len := last.len + 1)];
          continue;
        }
      }
      AddExtent(out, Extent(logical, 1, physical));
      out := out + [Extent(logical, 1, physical)];
    }
    assert list[..|list|] == list;
  }

  lemma {:induction false} NoExtents(list: seq<nat>)
    ensures DataOf(WalkExtents([])) == Listed(list[..0], 0)
    ensures Ordered([]) && Capped([]) && Maximal([]) && Below([], 0)
  {
  }

  lemma {:induction false} BelowMore(out: seq<Extent>, n: nat)
    requires Below(out, n)
    ensures Below(out, n + 1)
  {
  }

  lemma {:induction false} ListedMore(list: seq<nat>, n: nat)
    requires n < |list|
    ensures Listed(list[..n + 1], 0) == Listed(list[..n], 0) + if list[n] == HOLE then [] else [Placed(n, list[n])]
  {
    assert list[..n + 1][..n] == list[..n];
  }

  lemma {:induction false} ExtendLast(out: seq<Extent>, logical: nat, physical: nat)
    requires |out| > 0 && Continues(out[|out| - 1], logical, physical) && out[|out| - 1].len < MAX_LEN
    requires Ordered(out) && Capped(out) && Maximal(out) && Below(out, logical)
    ensures var last := out[|out| - 1];
            var now := out[|out| - 1 := last.(len := last.len + 1)];
            && DataOf(WalkExtents(now)) == DataOf(WalkExtents(out)) + [Placed(logical, physical)]
            && Ordered(now) && Capped(now) && Maximal(now) && Below(now, logical + 1)
  {
    var n := |out| - 1;
    var last := out[n];
    var grown := last.(len := last.len + 1);
    var now := out[n := grown];
    assert now[..n] == out[..n];
    RunSame(last, grown, last.len);
    var v := Data(logical, physical);
    VisitsConcat(WalkExtents(out[..n]), Run(last, last.len));
    VisitsConcat(WalkExtents(out[..n]), Run(grown, grown.len));
    VisitsConcat(Run(last, last.len), [v]);
    OneVisit(logical, physical);
  }

  lemma {:induction false} RunSame(a: Extent, b: Extent, n: nat)
    requires a.block == b.block && a.start == b.start
    ensures Run(a, n) == Run(b, n)
  {
    if n > 0 {
      RunSame(a, b, n - 1);
    }
  }

  lemma {:induction false} AddExtent(out: seq<Extent>, e: Extent)
    requires Ordered(out) && Capped(out) && Maximal(out) && Below(out, e.block) && e.len == 1
    requires |out| > 0 && Continues(out[|out| - 1], e.block, e.start) ==> out[|out| - 1].len == MAX_LEN
    ensures DataOf(WalkExtents(out + [e])) == DataOf(WalkExtents(out)) + [Placed(e.block, e.start)]
    ensures Ordered(out + [e]) && Capped(out + [e]) && Maximal(out + [e]) && Below(out + [e], e.block + 1)
  {
    var now := out + [e];
    assert now[..|out|] == out;
    assert Run(e, 1) == Run(e, 0) + [Data(e.block, e.start)];
    VisitsConcat(WalkExtents(out), Run(e, 1));
    OneVisit(e.block, e.start);
  }

  // ---- no list of extents does it in fewer ----

  /** The extents place exactly the list's blocks. */
  ghost predicate Describes(extents: seq<Extent>, list: seq<nat>) {
    forall x :: x in DataOf(WalkExtents(extents)) <==> x in Listed(list, 0)
  }

  lemma {:induction false} CoveredIsListed(extents: seq<Extent>, list: seq<nat>, i: nat, l: nat)
    requires Describes(extents, list) && i < |extents| && extents[i].block <= l < extents[i].block + extents[i].len
    ensures l < |list| && list[l] == extents[i].start + (l - extents[i].block) != HOLE
  {
    var x := Placed(l, extents[i].start + (l - extents[i].block));
    assert Covers(extents[i], x);
    PlacedByExtents(extents, x);
    PlacedByList(list, 0, x);
  }

  lemma {:induction false} ListedIsCovered(extents: seq<Extent>, list: seq<nat>, l: nat) returns (i: nat)
    requires Describes(extents, list) && l < |list| && list[l] != HOLE
    ensures i < |extents| && Covers(extents[i], Placed(l, list[l]))
  {
    var x := Placed(l, list[l]);
    PlacedByList(list, 0, x);
    PlacedByExtents(extents, x);
    i :| 0 <= i < |extents| && Covers(extents[i], x);
  }

  /** No capped extent reaches from one greedy extent into the next. */
  lemma {:induction false} NoBridge(greedy: seq<Extent>, list: seq<nat>, i: nat, other: seq<Extent>, k: nat)
    requires Describes(greedy, list) && Ordered(greedy) && Capped(greedy) && Maximal(greedy)
    requires Describes(other, list) && Capped(other)
    requires i + 1 < |greedy| && k < |other|
    requires other[k].block <= greedy[i].block
    ensures other[k].block + other[k].len <= greedy[i + 1].block
  {
    var g, h, e := greedy[i], greedy[i + 1], other[k];
    if h.block < e.block + e.len {
      var end := g.block + g.len;
      CoveredIsListed(other, list, k, g.block);
      CoveredIsListed(other, list, k, end);
      CoveredIsListed(greedy, list, i, g.block);
      if end < h.block {
        var j := ListedIsCovered(greedy, list, end);
      } else {
        CoveredIsListed(greedy, list, i + 1, h.block);
        assert Continues(g, h.block, h.start);
      }
    }
  }

  /** The coalesced list is as short as any list of capped extents that describes the same blocks. */
  lemma {:induction false} FewestExtents(greedy: seq<Extent>, list: seq<nat>, other: seq<Extent>)
    requires DataOf(WalkExtents(greedy)) == Listed(list, 0) && Ordered(greedy) && Capped(greedy) && Maximal(greedy)
    requires Describes(other, list) && Capped(other)
    ensures |greedy| <= |other|
  {
    var owners := Owners(greedy, list, other, |greedy|);
    Pigeonhole(owners, |other|);
  }

  /** For each greedy extent, an extent of the other list that covers its first block; all different. */
  lemma {:induction false} Owners(greedy: seq<Extent>, list: seq<nat>, other: seq<Extent>, n: nat) returns (owners: seq<nat>)
    requires Describes(greedy, list) && Ordered(greedy) && Capped(greedy) && Maximal(greedy)
    requires Describes(other, list) && Capped(other) && n <= |greedy|
    ensures |owners| == n && NoDup(owners)
    ensures forall i :: 0 <= i < n ==> owners[i] < |other| && Covers(other[owners[i]], Placed(greedy[i].block, greedy[i].start))
  {
    if n == 0 {
      return [];
    }
    owners := Owners(greedy, list, other, n - 1);
    CoveredIsListed(greedy, list, n - 1, greedy[n - 1].block);
    var k := ListedIsCovered(other, list, greedy[n - 1].block);
    forall i | 0 <= i < n - 1 ensures owners[i] != k {
      NoBridge(greedy, list, i, other, owners[i]);
      assert greedy[i + 1].block <= greedy[n - 1].block;
    }
    owners := owners + [k];
  }
}
