/**
 Numbered units (blocks, inodes) laid out over groups of bitmap bits, and the
 counts kept beside the bitmaps. Everything here is a value; the allocator in
 Allocators.dfy changes these values step by step.
 */
module Bitmaps {
  import opened Base

  type Bits = seq<bool>

  /** Units base, base + 1, ..., limit - 1, spread over groups of `per`. */
  datatype Space = Space(base: nat, limit: nat, per: nat) {
    ghost predicate Valid(groups: nat) {
      base <= limit && 0 < per && limit <= base + groups * per
    }

    function First(g: nat): nat {
      base + g * per
    }

    /** How many units group g really has; the last group may be short. */
    function InGroup(g: nat): nat {
      if limit <= First(g) then 0 else Min(per, limit - First(g))
    }

    function GroupOf(u: nat): nat
      requires base <= u && 0 < per
    {
      (u - base) / per
    }

    function IndexOf(u: nat): nat
      requires base <= u && 0 < per
    {
      (u - base) % per
    }
  }

  lemma {:induction false} Placed(sp: Space, g: nat, i: nat)
    requires 0 < sp.per && i < sp.InGroup(g)
    ensures var u := sp.First(g) + i;
            sp.base <= u < sp.limit && sp.GroupOf(u) == g && sp.IndexOf(u) == i
  {
    DivModUnique(sp.First(g) + i - sp.base, g, i, sp.per);
  }

  lemma {:induction false} Located(sp: Space, groups: nat, u: nat)
    requires sp.Valid(groups) && sp.base <= u < sp.limit
    ensures sp.GroupOf(u) < groups && sp.IndexOf(u) < sp.InGroup(sp.GroupOf(u))
    ensures sp.First(sp.GroupOf(u)) + sp.IndexOf(u) == u
  {
    var g := sp.GroupOf(u);
    assert u - sp.base == g * sp.per + sp.IndexOf(u);
    MulMono(groups, g, sp.per);
  }

  // ---- which units the bitmaps mark ----

  ghost predicate Sized(sp: Space, maps: seq<Bits>) {
    forall g :: 0 <= g < |maps| ==> sp.InGroup(g) <= |maps[g]|
  }

  ghost predicate Marked(sp: Space, maps: seq<Bits>, u: nat)
    requires sp.Valid(|maps|) && Sized(sp, maps) && sp.base <= u < sp.limit
  {
    Located(sp, |maps|, u);
    maps[sp.GroupOf(u)][sp.IndexOf(u)]
  }

  ghost function UsedUnits(sp: Space, maps: seq<Bits>): set<nat>
    requires sp.Valid(|maps|) && Sized(sp, maps)
  {
    set u | sp.base <= u < sp.limit && Marked(sp, maps, u)
  }

  function SetBit(maps: seq<Bits>, g: nat, i: nat, v: bool): (r: seq<Bits>)
    requires g < |maps| && i < |maps[g]|
    ensures |r| == |maps| && forall h :: 0 <= h < |maps| ==> |r[h]| == |maps[h]|
  {
    maps[g := maps[g][i := v]]
  }

  /** Setting or clearing one bit marks or unmarks exactly one unit. */
  lemma {:induction false} SetBitMarks(sp: Space, maps: seq<Bits>, g: nat, i: nat, v: bool)
    requires sp.Valid(|maps|) && Sized(sp, maps)
    requires g < |maps| && i < sp.InGroup(g)
    ensures Sized(sp, SetBit(maps, g, i, v))
    ensures var u := sp.First(g) + i;
            UsedUnits(sp, SetBit(maps, g, i, v)) == if v then UsedUnits(sp, maps) + {u} else UsedUnits(sp, maps) - {u}
  {
    var u := sp.First(g) + i;
    var now := SetBit(maps, g, i, v);
    Placed(sp, g, i);
    forall x | sp.base <= x < sp.limit ensures Marked(sp, now, x) == if x == u then v else Marked(sp, maps, x) {
      Located(sp, |maps|, x);
    }
  }

  // ---- free counts ----

  function Clear(bits: Bits, n: nat): (c: nat)
    requires n <= |bits|
    ensures c <= n
    ensures c == 0 <==> forall i :: 0 <= i < n ==> bits[i]
  {
    if n == 0 then 0 else Clear(bits, n - 1) + if bits[n - 1] then 0 else 1
  }

  lemma {:induction false} ClearSet(bits: Bits, n: nat, i: nat, v: bool)
    requires i < n <= |bits| && bits[i] != v
    ensures Clear(bits[i := v], n) == if v then Clear(bits, n) - 1 else Clear(bits, n) + 1
  {
    if i == n - 1 {
      ClearSame(bits, bits[i := v], n - 1);
    } else {
      ClearSet(bits, n - 1, i, v);
    }
  }

  lemma {:induction false} ClearSame(a: Bits, b: Bits, n: nat)
    requires n <= |a| && n <= |b| && forall i :: 0 <= i < n ==> a[i] == b[i]
    ensures Clear(a, n) == Clear(b, n)
  {
    if n > 0 {
      ClearSame(a, b, n - 1);
    }
  }

  function Sum(counts: seq<nat>): nat {
    if counts == [] then 0 else Sum(counts[..|counts| - 1]) + counts[|counts| - 1]
  }

  lemma {:induction false} SumUpdate(counts: seq<nat>, g: nat, v: nat)
    requires g < |counts|
    ensures Sum(counts[g := v]) == Sum(counts) - counts[g] + v
    ensures counts[g] <= Sum(counts)
  {
    var n := |counts| - 1;
    if g == n {
      assert counts[g := v][..n] == counts[..n];
    } else {
      SumUpdate(counts[..n], g, v);
      assert counts[g := v][..n] == counts[..n][g := v];
    }
  }

  /** The unmarked units below m. */
  ghost function FreeBelow(sp: Space, maps: seq<Bits>, m: nat): set<nat>
    requires sp.Valid(|maps|) && Sized(sp, maps)
  {
    set u | sp.base <= u < sp.limit && u < m && !Marked(sp, maps, u)
  }

  lemma {:induction false} FreeBelowStep(sp: Space, maps: seq<Bits>, u: nat)
    requires sp.Valid(|maps|) && Sized(sp, maps) && sp.base <= u < sp.limit
    ensures |FreeBelow(sp, maps, u + 1)| == |FreeBelow(sp, maps, u)| + if Marked(sp, maps, u) then 0 else 1
  {
    hide Marked;
    var was := FreeBelow(sp, maps, u);
    assert FreeBelow(sp, maps, u + 1) == if Marked(sp, maps, u) then was else was + {u};
  }

  lemma {:induction false} FreeInGroup(sp: Space, maps: seq<Bits>, g: nat, i: nat)
    requires sp.Valid(|maps|) && Sized(sp, maps) && g < |maps| && i <= sp.InGroup(g)
    ensures |FreeBelow(sp, maps, sp.First(g) + i)| == |FreeBelow(sp, maps, sp.First(g))| + Clear(maps[g], i)
  {
    if i > 0 {
      FreeInGroup(sp, maps, g, i - 1);
      Placed(sp, g, i - 1);
      FreeBelowStep(sp, maps, sp.First(g) + i - 1);
      MarkedAt(sp, maps, g, i - 1);
    }
  }

  lemma {:induction false} MarkedAt(sp: Space, maps: seq<Bits>, g: nat, i: nat)
    requires sp.Valid(|maps|) && Sized(sp, maps) && g < |maps| && i < sp.InGroup(g)
    ensures var u := sp.First(g) + i; sp.base <= u < sp.limit && Marked(sp, maps, u) == maps[g][i]
  {
    Placed(sp, g, i);
  }

  /** The units not in a set of used ones. */
  ghost function FreeUnits(sp: Space, used: set<nat>): set<nat> {
    set u | sp.base <= u < sp.limit && u !in used
  }

  /** Summed over the groups, clear bits count the free units there are. */
  lemma {:induction false} FreeUpToGroup(sp: Space, maps: seq<Bits>, free: seq<nat>, n: nat)
    requires sp.Valid(|maps|) && Sized(sp, maps) && n <= |maps| == |free|
    requires forall g :: 0 <= g < |maps| ==> free[g] == Clear(maps[g], sp.InGroup(g))
    ensures |FreeBelow(sp, maps, sp.First(n))| == Sum(free[..n])
  {
    if n == 0 {
      assert FreeBelow(sp, maps, sp.First(0)) == {};
    } else {
      FreeUpToGroup(sp, maps, free, n - 1);
      FreeInGroup(sp, maps, n - 1, sp.InGroup(n - 1));
      assert free[..n][..n - 1] == free[..n - 1];
      assert sp.First(n) == sp.First(n - 1) + sp.per;
      assert FreeBelow(sp, maps, sp.First(n - 1) + sp.InGroup(n - 1)) == FreeBelow(sp, maps, sp.First(n));
    }
  }

  lemma {:induction false} SumCountsFree(sp: Space, maps: seq<Bits>, free: seq<nat>)
    requires sp.Valid(|maps|) && Sized(sp, maps) && |maps| == |free|
    requires forall g :: 0 <= g < |maps| ==> free[g] == Clear(maps[g], sp.InGroup(g))
    ensures Sum(free) == |FreeUnits(sp, UsedUnits(sp, maps))|
  {
    FreeUpToGroup(sp, maps, free, |maps|);
    assert free[..|maps|] == free;
    assert FreeBelow(sp, maps, sp.First(|maps|)) == FreeUnits(sp, UsedUnits(sp, maps));
  }

  // ---- search order ----

  /** The units of one group, from bit `from` around to the bit before it. */
  function GroupOrder(sp: Space, g: nat, from: nat): seq<nat>
    requires from <= sp.InGroup(g)
  {
    seq(sp.InGroup(g), j requires 0 <= j < sp.InGroup(g) =>
      sp.First(g) + if from + j < sp.InGroup(g) then from + j else from + j - sp.InGroup(g))
  }

  function FirstFree(order: seq<nat>, used: set<nat>): (r: Option<nat>)
    ensures r.None? <==> forall u :: u in order ==> u in used
    ensures r.Some? ==> r.value in order && r.value !in used
  {
    if order == [] then None
    else if order[0] !in used then Some(order[0])
    else FirstFree(order[1..], used)
  }

  lemma {:induction false} FirstFreeSkip(a: seq<nat>, b: seq<nat>, used: set<nat>)
    requires forall i :: 0 <= i < |a| ==> a[i] in used
    ensures FirstFree(a + b, used) == FirstFree(b, used)
  {
    if a == [] {
      assert a + b == b;
    } else {
      assert (a + b)[1..] == a[1..] + b;
      FirstFreeSkip(a[1..], b, used);
    }
  }

  lemma {:induction false} FirstFreeAt(order: seq<nat>, j: nat, used: set<nat>)
    requires j < |order| && order[j] !in used && forall i :: 0 <= i < j ==> order[i] in used
    ensures FirstFree(order, used) == Some(order[j])
  {
    FirstFreeSkip(order[..j], order[j..], used);
    assert order == order[..j] + order[j..];
  }

  lemma {:induction false} GroupOrderElems(sp: Space, g: nat, from: nat, i: nat)
    requires 0 < sp.per && from <= sp.InGroup(g) && i < sp.InGroup(g)
    ensures sp.First(g) + i in GroupOrder(sp, g, from)
  {
    var j := if from <= i then i - from else i + sp.InGroup(g) - from;
    assert GroupOrder(sp, g, from)[j] == sp.First(g) + i;
  }
}
