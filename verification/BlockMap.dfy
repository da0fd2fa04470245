/**
 An inode's block map in either shape (src/map.rs): read out as a list of blocks,
 and written back whole in fresh map blocks after the old ones are given back.
 */
module BlockMap {
  import opened Disk
  import opened BlockWalk
  import opened Extents
  import opened ExtentTree
  import opened Bitmaps
  import opened MapSpace
  import opened IndirectMap
  import opened PointerMap

  /** What i_block holds: pointers, extents, indices of extent leaves, or no map at all. */
  datatype InodeMap =
    | PointerRoot(ptrs: seq<nat>)
    | ExtentRoot(extents: seq<Extent>)
    | IndexRoot(indices: seq<ExtentIdx>)
    | NoMap

  function WalkMap(dev: Device, m: InodeMap, p: nat): seq<Visit> {
    match m
    case PointerRoot(ptrs) => if |ptrs| == N_BLOCKS then WalkPointers(dev, ptrs, p) else []
    case ExtentRoot(extents) => WalkExtents(extents)
    case IndexRoot(indices) => WalkIndices(dev, indices)
    case NoMap => []
  }

  /** The map lists exactly these blocks, and its own blocks are `metas`. */
  ghost predicate MapIs(dev: Device, m: InodeMap, p: nat, list: seq<nat>, metas: seq<nat>) {
    DataOf(WalkMap(dev, m, p)) == Listed(list, 0) && MetaOf(WalkMap(dev, m, p)) == metas
  }

  lemma {:induction false} IndicesFrame(dev: Device, now: Device, indices: seq<ExtentIdx>)
    requires forall b :: b in MetaOf(WalkIndices(dev, indices)) ==> SameAt(dev, now, b)
    ensures WalkIndices(now, indices) == WalkIndices(dev, indices)
  {
    if indices != [] {
      hide DataOf, MetaOf, WalkExtents;
      WalkIndicesMore(dev, indices);
      IndicesFrame(dev, now, indices[..|indices| - 1]);
      assert SameAt(dev, now, indices[|indices| - 1].leaf);
    }
  }

  /** A map reads only its own blocks. */
  lemma {:induction false} MapFrame(dev: Device, now: Device, m: InodeMap, p: nat)
    requires forall b :: b in MetaOf(WalkMap(dev, m, p)) ==> SameAt(dev, now, b)
    ensures WalkMap(now, m, p) == WalkMap(dev, m, p)
  {
    match m {
      case PointerRoot(ptrs) =>
        if |ptrs| == N_BLOCKS {
          PointersFrame(dev, now, ptrs, p);
        }
      case IndexRoot(indices) => IndicesFrame(dev, now, indices);
      case ExtentRoot(_) =>
      case NoMap =>
    }
  }

  lemma {:induction false} PointersFrame(dev: Device, now: Device, ptrs: seq<nat>, p: nat)
    requires |ptrs| == N_BLOCKS
    requires forall b :: b in MetaOf(WalkPointers(dev, ptrs, p)) ==> SameAt(dev, now, b)
    ensures WalkPointers(now, ptrs, p) == WalkPointers(dev, ptrs, p)
  {
    hide MetaOf, DataOf, Walk, WalkAll, Pow;
    var b2, b3 := 12 + Pow(p, 1), 12 + Pow(p, 1) + Pow(p, 2);
    var w0, w1 := WalkAll(dev, ptrs[..NDIR_BLOCKS], 0, 0, p), Walk(dev, ptrs[12], 1, 12, p);
    var w2, w3 := Walk(dev, ptrs[13], 2, b2, p), Walk(dev, ptrs[14], 3, b3, p);
    VisitsConcat(w0, w1);
    VisitsConcat(w0 + w1, w2);
    VisitsConcat(w0 + w1 + w2, w3);
    SamePointers(dev, now, MetaOf(w0 + w1 + w2 + w3));
    WalkAllFrame(dev, now, ptrs[..NDIR_BLOCKS], 0, 0, p);
    WalkFrame(dev, now, ptrs[12], 1, 12, p);
    WalkFrame(dev, now, ptrs[13], 2, b2, p);
    WalkFrame(dev, now, ptrs[14], 3, b3, p);
  }

  lemma {:induction false} SamePointers(dev: Device, now: Device, metas: seq<nat>)
    requires forall b :: b in metas ==> SameAt(dev, now, b)
    ensures forall b :: b in metas ==> PtrsOf(now, b) == PtrsOf(dev, b)
  {
  }

  // ---- reading ----

  /** Put one block in its place, with holes up to it where the list was shorter. */
  function Place(list: seq<nat>, x: Placed): (r: seq<nat>)
    ensures x.logical < |r|
  {
    var long := if |list| <= x.logical then list + Holes(x.logical + 1 - |list|) else list;
    long[x.logical := x.physical]
  }

  function PlaceAll(xs: seq<Placed>): seq<nat> {
    if xs == [] then [] else Place(PlaceAll(xs[..|xs| - 1]), xs[|xs| - 1])
  }

  /** A list without the holes at its end. */
  function Stripped(list: seq<nat>): seq<nat> {
    if list == [] then [] else if list[|list| - 1] != HOLE then list else Stripped(list[..|list| - 1])
  }

  lemma {:induction false} StrippedPadded(list: seq<nat>)
    ensures |Stripped(list)| <= |list| && Stripped(list) + Holes(|list| - |Stripped(list)|) == list
  {
    if list == [] || list[|list| - 1] != HOLE {
    } else {
      var n := |list| - 1;
      StrippedPadded(list[..n]);
      assert Holes(n + 1 - |Stripped(list[..n])|) == Holes(n - |Stripped(list[..n])|) + [HOLE];
      assert list == list[..n] + [HOLE];
    }
  }

  lemma {:induction false} PlaceOnto(list: seq<nat>, b: nat)
    ensures Place(Stripped(list), Placed(|list|, b)) == list + [b]
  {
    StrippedPadded(list);
    var short := Stripped(list);
    assert Holes(|list| + 1 - |short|) == Holes(|list| - |short|) + [HOLE];
    assert short + Holes(|list| + 1 - |short|) == list + [HOLE];
  }

  lemma {:induction false} PlaceAllMore(xs: seq<Placed>, x: Placed)
    ensures PlaceAll(xs + [x]) == Place(PlaceAll(xs), x)
  {
    assert (xs + [x])[..|xs|] == xs;
  }

  /** Placing the blocks a list holds gives the list back, but for holes at its end. */
  lemma {:induction false} PlaceListed(list: seq<nat>)
    ensures PlaceAll(Listed(list, 0)) == Stripped(list)
  {
    if list != [] {
      var n := |list| - 1;
      PlaceListed(list[..n]);
      if list[n] != HOLE {
        PlaceAllMore(Listed(list[..n], 0), Placed(n, list[n]));
        hide PlaceAll, Place;
        PlaceOnto(list[..n], list[n]);
        assert list == list[..n] + [list[n]];
      } else {
        assert Listed(list[..n], 0) + [] == Listed(list[..n], 0);
      }
    }
  }

  /** Read an inode's block map as a list of physical blocks in logical order; holes read as HOLE. */
  method ReadBlockList(dev: Device, m: InodeMap, p: nat) returns (list: seq<nat>)
    ensures list == PlaceAll(DataOf(WalkMap(dev, m, p)))
  {
    hide PlaceAll;
    var visits := WalkMap(dev, m, p);
    list := [];
    NothingPlaced();
    assert visits[..0] == [];
    for i := 0 to |visits|
      invariant list == PlaceAll(DataOf(visits[..i]))
    {
      PlaceMore(visits, i);
      if visits[i].Data? {
        var idx := visits[i].logical;
        if |list| <= idx {
          list := list + Holes(idx + 1 - |list|);
        }
        list := list[idx := visits[i].physical];
      }
    }
    assert visits[..|visits|] == visits;
  }

  lemma {:induction false} NothingPlaced()
    ensures PlaceAll(DataOf([])) == []
  {
  }

  lemma {:induction false} PlaceMore(visits: seq<Visit>, i: nat)
    requires i < |visits|
    ensures PlaceAll(DataOf(visits[..i + 1])) ==
            if visits[i].Data? then Place(PlaceAll(DataOf(visits[..i])), Placed(visits[i].logical, visits[i].physical))
            else PlaceAll(DataOf(visits[..i]))
  {
    assert visits[..i + 1][..i] == visits[..i];
    var xs := DataOf(visits[..i]);
    if visits[i].Data? {
      var x := Placed(visits[i].logical, visits[i].physical);
      assert (xs + [x])[..|xs + [x]| - 1] == xs;
    } else {
      assert xs + [] == xs;
    }
  }

  /** The blocks the map is kept in, as against those it lists. */
  method MapMetadataBlocks(dev: Device, m: InodeMap, p: nat) returns (meta: seq<nat>)
    ensures meta == MetaOf(WalkMap(dev, m, p))
  {
    var visits := WalkMap(dev, m, p);
    meta := [];
    for i := 0 to |visits|
      invariant meta == MetaOf(visits[..i])
    {
      assert visits[..i + 1][..i] == visits[..i];
      if visits[i].Meta? {
        meta := meta + [visits[i].physical];
      }
    }
    assert visits[..|visits|] == visits;
  }
}
