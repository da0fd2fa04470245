/**
 Reading an inode's block map (src/map.rs:25-61): a walk that visits every block
 the map reaches, as data at its logical place or as part of the map itself.
 A map is correct for a list of blocks when its walk visits exactly the list's
 blocks at their places.
 */
module BlockWalk {
  import opened Disk

  /** What stands for no block. */
  const HOLE: nat := 0

  datatype Visit = Data(logical: nat, physical: nat) | Meta(physical: nat)

  datatype Placed = Placed(logical: nat, physical: nat)

  function DataOf(visits: seq<Visit>): seq<Placed> {
    if visits == [] then []
    else
      var v := visits[|visits| - 1];
      DataOf(visits[..|visits| - 1]) + if v.Data? then [Placed(v.logical, v.physical)] else []
  }

  function MetaOf(visits: seq<Visit>): seq<nat> {
    if visits == [] then []
    else
      var v := visits[|visits| - 1];
      MetaOf(visits[..|visits| - 1]) + if v.Meta? then [v.physical] else []
  }

  lemma {:induction false} VisitsConcat(a: seq<Visit>, b: seq<Visit>)
    ensures DataOf(a + b) == DataOf(a) + DataOf(b)
    ensures MetaOf(a + b) == MetaOf(a) + MetaOf(b)
  {
    if b == [] {
      assert a + b == a;
    } else {
      var n := |b| - 1;
      assert (a + b)[..|a + b| - 1] == a + b[..n];
      VisitsConcat(a, b[..n]);
    }
  }

  /** The blocks of a list that are not holes, each with its logical place. */
  function Listed(list: seq<nat>, base: nat): seq<Placed> {
    if list == [] then []
    else
      var n := |list| - 1;
      Listed(list[..n], base) + if list[n] == HOLE then [] else [Placed(base + n, list[n])]
  }

  lemma {:induction false} ListedConcat(a: seq<nat>, b: seq<nat>, base: nat)
    ensures Listed(a + b, base) == Listed(a, base) + Listed(b, base + |a|)
  {
    if b == [] {
      assert a + b == a;
    } else {
      var n := |b| - 1;
      assert (a + b)[..|a + b| - 1] == a + b[..n];
      ListedConcat(a, b[..n], base);
    }
  }

  // ---- pointer trees ----

  function Pow(p: nat, d: nat): (r: nat)
    ensures 0 < p ==> 0 < r
  {
    if d == 0 then 1 else p * Pow(p, d - 1)
  }

  /** Where child n of a tree starts, when each child covers Pow(p, d) blocks. */
  function ChildBase(base: nat, n: nat, p: nat, d: nat): nat {
    base + n * Pow(p, d)
  }

  function PtrsOf(dev: Device, b: nat): seq<nat> {
    if b in dev && dev[b].Pointers? then dev[b].ptrs else []
  }

  /** Everything under block b, d levels of pointers above the data. */
  function Walk(dev: Device, b: nat, d: nat, base: nat, p: nat): seq<Visit>
    decreases d, 0
  {
    if b == 0 then []
    else if d == 0 then [Data(base, b)]
    else [Meta(b)] + WalkAll(dev, PtrsOf(dev, b), d - 1, base, p)
  }

  function WalkAll(dev: Device, kids: seq<nat>, d: nat, base: nat, p: nat): seq<Visit>
    decreases d, 1 + |kids|
  {
    if kids == [] then []
    else
      var n := |kids| - 1;
      WalkAll(dev, kids[..n], d, base, p) + Walk(dev, kids[n], d, ChildBase(base, n, p, d), p)
  }

  /** A walk visits its top block, then what is under it. */
  lemma {:induction false} WalkTop(dev: Device, b: nat, d: nat, base: nat, p: nat)
    requires b != 0 && 0 < d
    ensures var rest := WalkAll(dev, PtrsOf(dev, b), d - 1, base, p);
            && Walk(dev, b, d, base, p) == [Meta(b)] + rest
            && DataOf(Walk(dev, b, d, base, p)) == DataOf(rest) && MetaOf(Walk(dev, b, d, base, p)) == [b] + MetaOf(rest)
  {
    hide WalkAll, PtrsOf, DataOf, MetaOf;
    VisitsConcat([Meta(b)], WalkAll(dev, PtrsOf(dev, b), d - 1, base, p));
    OneVisit(0, b);
    assert [] + DataOf(WalkAll(dev, PtrsOf(dev, b), d - 1, base, p)) == DataOf(WalkAll(dev, PtrsOf(dev, b), d - 1, base, p));
  }

  /** A walk reads only the map blocks it visits. */
  lemma {:induction false} WalkFrame(dev: Device, now: Device, b: nat, d: nat, base: nat, p: nat)
    requires forall m :: m in MetaOf(Walk(dev, b, d, base, p)) ==> PtrsOf(now, m) == PtrsOf(dev, m)
    ensures Walk(now, b, d, base, p) == Walk(dev, b, d, base, p)
    decreases d, 0
  {
    if b != 0 && d > 0 {
      WalkTop(dev, b, d, base, p);
      WalkTop(now, b, d, base, p);
      hide Walk, WalkAll, PtrsOf, MetaOf, DataOf;
      assert b in MetaOf(Walk(dev, b, d, base, p));
      WalkAllFrame(dev, now, PtrsOf(dev, b), d - 1, base, p);
    }
  }

  lemma {:induction false} WalkAllFrame(dev: Device, now: Device, kids: seq<nat>, d: nat, base: nat, p: nat)
    requires forall m :: m in MetaOf(WalkAll(dev, kids, d, base, p)) ==> PtrsOf(now, m) == PtrsOf(dev, m)
    ensures WalkAll(now, kids, d, base, p) == WalkAll(dev, kids, d, base, p)
    decreases d, 1 + |kids|
  {
    if kids != [] {
      hide ChildBase, MetaOf, DataOf;
      var n := |kids| - 1;
      var first, last := WalkAll(dev, kids[..n], d, base, p), Walk(dev, kids[n], d, ChildBase(base, n, p, d), p);
      VisitsConcat(first, last);
      WalkAllFrame(dev, now, kids[..n], d, base, p);
      WalkFrame(dev, now, kids[n], d, ChildBase(base, n, p, d), p);
    }
  }

  function Holes(n: nat): (z: seq<nat>)
    ensures |z| == n
  {
    seq(n, i => HOLE)
  }

  /** Pointers left at zero lead nowhere. */
  lemma {:induction false} WalkAllPadded(dev: Device, kids: seq<nat>, n: nat, d: nat, base: nat, p: nat)
    ensures WalkAll(dev, kids + Holes(n), d, base, p) == WalkAll(dev, kids, d, base, p)
  {
    if n == 0 {
      assert kids + Holes(0) == kids;
    } else {
      var all := kids + Holes(n);
      assert all[..|all| - 1] == kids + Holes(n - 1);
      WalkAllPadded(dev, kids, n - 1, d, base, p);
    }
  }

  lemma {:induction false} OneVisit(logical: nat, b: nat)
    ensures DataOf([Data(logical, b)]) == [Placed(logical, b)] && MetaOf([Data(logical, b)]) == []
    ensures DataOf([Meta(b)]) == [] && MetaOf([Meta(b)]) == [b]
    ensures DataOf([]) == [] && MetaOf([]) == []
  {
  }

  /** A block of data pointers visits the blocks it lists. */
  lemma {:induction false} WalkListed(dev: Device, chunk: seq<nat>, base: nat, p: nat)
    ensures DataOf(WalkAll(dev, chunk, 0, base, p)) == Listed(chunk, base)
    ensures MetaOf(WalkAll(dev, chunk, 0, base, p)) == []
  {
    if chunk != [] {
      var n := |chunk| - 1;
      assert ChildBase(base, n, p, 0) == base + n;
      hide ChildBase;
      var last := Walk(dev, chunk[n], 0, base + n, p);
      WalkListed(dev, chunk[..n], base, p);
      VisitsConcat(WalkAll(dev, chunk[..n], 0, base, p), last);
      OneVisit(base + n, chunk[n]);
    }
  }

  /** Each of the pointer blocks holds at most p pointers. */
  ghost predicate Fit(dev: Device, metas: seq<nat>, p: nat) {
    forall m :: m in metas ==> |PtrsOf(dev, m)| <= p
  }

  /** The tree under b lists the chunk from `base` on, and its own blocks are `metas`, in walking order. */
  ghost predicate Maps(dev: Device, b: nat, d: nat, base: nat, p: nat, chunk: seq<nat>, metas: seq<nat>) {
    var w := Walk(dev, b, d, base, p);
    b != 0 && DataOf(w) == Listed(chunk, base) && MetaOf(w) == metas && Fit(dev, metas, p)
  }

  ghost predicate MapsAll(dev: Device, kids: seq<nat>, d: nat, base: nat, p: nat, chunk: seq<nat>, metas: seq<nat>) {
    var w := WalkAll(dev, kids, d, base, p);
    DataOf(w) == Listed(chunk, base) && MetaOf(w) == metas && Fit(dev, metas, p)
  }

  lemma {:induction false} MapsAllFrame(dev: Device, now: Device, kids: seq<nat>, d: nat, base: nat, p: nat, chunk: seq<nat>, metas: seq<nat>)
    requires MapsAll(dev, kids, d, base, p, chunk, metas)
    requires forall m :: m in metas ==> PtrsOf(now, m) == PtrsOf(dev, m)
    ensures MapsAll(now, kids, d, base, p, chunk, metas)
  {
    WalkAllFrame(dev, now, kids, d, base, p);
  }

  /** One more child carries the list on from where the children before it stop. */
  lemma {:induction false} MapsMore(dev: Device, kids: seq<nat>, d: nat, base: nat, p: nat, chunk: seq<nat>, metas: seq<nat>, b: nat, more: seq<nat>, own: seq<nat>)
    requires MapsAll(dev, kids, d, base, p, chunk, metas) && base + |chunk| == ChildBase(base, |kids|, p, d)
    requires Maps(dev, b, d, base + |chunk|, p, more, own)
    ensures MapsAll(dev, kids + [b], d, base, p, chunk + more, metas + own)
  {
    hide ChildBase, DataOf, MetaOf, Listed, Walk;
    var all := kids + [b];
    assert all[..|all| - 1] == kids;
    VisitsConcat(WalkAll(dev, kids, d, base, p), Walk(dev, b, d, base + |chunk|, p));
    ListedConcat(chunk, more, base);
  }

  /** Writing the children's pointers, padded with zeroes, into block b puts b above them. */
  lemma {:induction false} MapsUp(dev: Device, b: nat, kids: seq<nat>, n: nat, d: nat, base: nat, p: nat, chunk: seq<nat>, metas: seq<nat>)
    requires b != 0 && b !in metas && |kids| + n <= p && MapsAll(dev, kids, d, base, p, chunk, metas)
    ensures Maps(dev[b := Pointers(kids + Holes(n))], b, d + 1, base, p, chunk, [b] + metas)
  {
    var now := dev[b := Pointers(kids + Holes(n))];
    MapsAllFrame(dev, now, kids, d, base, p, chunk, metas);
    WalkAllPadded(now, kids, n, d, base, p);
    var w := WalkAll(now, kids, d, base, p);
    VisitsConcat([Meta(b)], w);
    OneVisit(0, b);
  }

  lemma {:induction false} MapsAllNone(dev: Device, d: nat, base: nat, p: nat)
    ensures MapsAll(dev, [], d, base, p, [], [])
  {
  }

  /** A block of data pointers, padded with zeroes, maps the chunk. */
  lemma {:induction false} MapsLeaf(dev: Device, b: nat, chunk: seq<nat>, n: nat, base: nat, p: nat)
    requires b != 0 && |chunk| + n <= p
    ensures Maps(dev[b := Pointers(chunk + Holes(n))], b, 1, base, p, chunk, [b])
  {
    WalkListed(dev, chunk, base, p);
    MapsUp(dev, b, chunk, n, 0, base, p, chunk, []);
    assert [b] + [] == [b];
  }
}
