/**
 Searching a directory's hash index (src/index.rs:127-191): one level or two, the
 leaf found is the same, and the run read from it holds every name of its hash
 unless a run crosses from one interior node into the next.
 */
module IndexSearch {
  import opened Base
  import opened DirBlock
  import opened HashIndex

  function Hashes(entries: seq<IndexEntry>): (r: seq<nat>)
    ensures |r| == |entries|
    ensures forall k :: 0 <= k < |r| ==> r[k] == entries[k].hash
  {
    seq(|entries|, k requires 0 <= k < |entries| => entries[k].hash)
  }

  lemma {:induction false} FindUnique(hashes: seq<nat>, h: nat, i: nat)
    requires i < |hashes| && (i == 0 || hashes[i] <= h) && forall j :: i < j < |hashes| ==> h < hashes[j]
    ensures FindLast(hashes, h) == i
  {
  }

  /** A search of one node's entries, in terms of the leaves' own hashes. */
  lemma {:induction false} NodeSearch(node: seq<IndexEntry>, hashes: seq<nat>, first: nat, count: nat, h: nat)
    requires NodeOver(node, hashes, first, count) && 0 < count
    ensures var k := FindLast(Hashes(node), h);
            && k < count && (k == 0 || hashes[first + k] <= h)
            && forall j :: first + k < j < first + count ==> h < hashes[j]
  {
    var k := FindLast(Hashes(node), h);
    forall j | first + k < j < first + count ensures h < hashes[j] {
      assert Hashes(node)[j - first] == hashes[j];
    }
  }

  /** The node a search for h descends into. */
  function NodeFor(root: seq<IndexEntry>, h: nat): nat
    requires root != []
  {
    FindLast(Hashes(root), h)
  }

  lemma {:induction false} NodeParts(root: seq<IndexEntry>, nodes: seq<seq<IndexEntry>>, per: nat, hashes: seq<nat>, n: nat)
    requires TreeOver(root, nodes, per, hashes) && n < |nodes|
    ensures 0 < per && |root| == |nodes| && FirstOf(n, per) < |hashes| && 0 < CountOf(n, per, |hashes|)
    ensures NodeOver(nodes[n], hashes, FirstOf(n, per), CountOf(n, per, |hashes|))
    ensures root[n] == IndexEntry(EntryHash(n, hashes[FirstOf(n, per)]), 1 + |hashes| + n)
    ensures FirstOf(n, per) + CountOf(n, per, |hashes|) <= |hashes|
    ensures FirstOf(n, per) + CountOf(n, per, |hashes|) == if n + 1 < |nodes| then FirstOf(n + 1, per) else |hashes|
  {
    hide FirstOf;
    FirstOfRises(n + 1, |nodes|, per);
    if n + 1 < |nodes| {
      FirstOfRises(n + 1, |nodes| - 1, per);
    }
    FirstOfRises(n, n, per);
  }

  lemma {:induction false} RisingAt(hashes: seq<nat>, i: nat, j: nat)
    requires Rising(hashes) && i <= j < |hashes|
    ensures hashes[i] <= hashes[j]
  {
  }

  /** Leaves past the node descended into are stored past h. */
  lemma {:induction false} PastNode(root: seq<IndexEntry>, nodes: seq<seq<IndexEntry>>, per: nat, hashes: seq<nat>, h: nat, j: nat)
    requires TreeOver(root, nodes, per, hashes) && nodes != [] && root != [] && Rising(hashes)
    requires NodeFor(root, h) + 1 < |nodes| && FirstOf(NodeFor(root, h) + 1, per) <= j < |hashes|
    ensures h < hashes[j]
  {
    hide FirstOf, TreeOver, NodeOver, CountOf, Rising;
    var n := NodeFor(root, h) + 1;
    NodeParts(root, nodes, per, hashes, n);
    assert h < Hashes(root)[n];
    RisingAt(hashes, FirstOf(n, per), j);
  }

  /** Descending through the root and one node finds the leaf a search of all the leaves' hashes finds. */
  lemma {:induction false} TwoLevelIsFlat(root: seq<IndexEntry>, nodes: seq<seq<IndexEntry>>, per: nat, hashes: seq<nat>, h: nat)
    requires TreeOver(root, nodes, per, hashes) && nodes != [] && Rising(hashes)
    ensures hashes != [] && root != []
    ensures var n := NodeFor(root, h);
            n < |nodes| && nodes[n] != [] && FirstOf(n, per) + FindLast(Hashes(nodes[n]), h) == FindLast(hashes, h)
  {
    hide FirstOf, TreeOver, NodeOver, CountOf, Rising;
    NodeParts(root, nodes, per, hashes, 0);
    var n := NodeFor(root, h);
    NodeParts(root, nodes, per, hashes, n);
    var first, count := FirstOf(n, per), CountOf(n, per, |hashes|);
    NodeFull(nodes[n], hashes, first, count);
    NodeSearch(nodes[n], hashes, first, count, h);
    var s := first + FindLast(Hashes(nodes[n]), h);
    FirstOfZero(per);
    assert n == 0 || Hashes(root)[n] <= h;
    forall j | s < j < |hashes| ensures h < hashes[j] {
      if first + count <= j {
        PastNode(root, nodes, per, hashes, h, j);
      }
    }
    FindUnique(hashes, h, s);
  }

  lemma {:induction false} FirstOfZero(per: nat)
    ensures FirstOf(0, per) == 0
  {
  }

  lemma {:induction false} NodeFull(node: seq<IndexEntry>, hashes: seq<nat>, first: nat, count: nat)
    requires NodeOver(node, hashes, first, count) && 0 < count
    ensures node != [] && |node| == count
  {
  }

  /** Where the entries end that a search for h has in front of it. */
  function RunLimit(root: seq<IndexEntry>, nodes: seq<seq<IndexEntry>>, per: nat, leaves: nat, h: nat): nat
    requires root != []
  {
    if nodes == [] then leaves else FirstOf(NodeFor(root, h), per) + CountOf(NodeFor(root, h), per, leaves)
  }

  /** Leaf i is among those a search for h reads: in the run, and in the same node. */
  ghost predicate Reached(root: seq<IndexEntry>, nodes: seq<seq<IndexEntry>>, per: nat, hashes: seq<nat>, i: nat, h: nat)
    requires root != [] && hashes != []
  {
    InRun(hashes, i, h) && i < RunLimit(root, nodes, per, |hashes|, h)
  }

  /** Follow the run in one block of entries: the blocks of every leaf a name with this hash could be in. */
  method ReadRun(entries: seq<IndexEntry>, h: nat, ghost hashes: seq<nat>, ghost first: nat) returns (run: seq<nat>)
    requires entries != [] && NodeOver(entries, hashes, first, |entries|)
    ensures var s := first + FindLast(Hashes(entries), h);
            && run != [] && s + |run| <= first + |entries|
            && (forall k :: 0 <= k < |run| ==> run[k] == 1 + s + k)
            && (forall j :: s < j < s + |run| ==> hashes[j] % 2 == 1)
            && (s + |run| < first + |entries| ==> hashes[s + |run|] % 2 == 0)
  {
    var at := FindLast(Hashes(entries), h);
    ghost var s := first + at;
    run := [];
    while true
      invariant at < |entries| && first + at == s + |run|
      invariant forall k :: 0 <= k < |run| ==> run[k] == 1 + s + k
      invariant forall j :: s < j <= s + |run| ==> hashes[j] % 2 == 1
      decreases |entries| - at
    {
      run := run + [entries[at].block];
      at := at + 1;
      if at >= |entries| {
        break;
      }
      if entries[at].hash % 2 == 0 {
        break;
      }
    }
  }

  /** The leaves a search for a hash reads. */
  method LeafRun(root: seq<IndexEntry>, levels: nat, nodes: seq<seq<IndexEntry>>, h: nat, ghost per: nat, ghost hashes: seq<nat>) returns (run: seq<nat>)
    requires hashes != [] && Rising(hashes) && TreeOver(root, nodes, per, hashes) && (levels == 0 <==> nodes == [])
    ensures root != [] && run != [] && run[0] == 1 + FindLast(hashes, h)
    ensures forall k :: 0 <= k < |run| ==> run[k] == run[0] + k
    ensures forall i: nat :: 1 + i in run <==> Reached(root, nodes, per, hashes, i, h)
    ensures forall b :: b in run ==> 1 <= b <= |hashes|
  {
    hide FirstOf, CountOf, Rising, FindLast, NodeOver, Reached;
    if levels == 0 {
      NodeFull(root, hashes, 0, |hashes|);
      FlatSearch(root, hashes, h);
      run := ReadRun(root, h, hashes, 0);
      RunIsReached(root, nodes, per, hashes, h, run, |hashes|);
      return;
    }
    TwoLevelIsFlat(root, nodes, per, hashes, h);
    var chosen := FindLast(Hashes(root), h);
    NodeParts(root, nodes, per, hashes, chosen);
    // The entry chosen names the node's block; the nodes come after the leaves.
    assert root[chosen].block == 1 + |hashes| + chosen;
    NodeFull(nodes[chosen], hashes, FirstOf(chosen, per), CountOf(chosen, per, |hashes|));
    run := ReadRun(nodes[chosen], h, hashes, FirstOf(chosen, per));
    RunIsReached(root, nodes, per, hashes, h, run, FirstOf(chosen, per) + CountOf(chosen, per, |hashes|));
  }

  lemma {:induction false} FlatSearch(root: seq<IndexEntry>, hashes: seq<nat>, h: nat)
    requires NodeOver(root, hashes, 0, |hashes|) && hashes != []
    ensures FindLast(Hashes(root), h) == FindLast(hashes, h)
  {
    NodeSearch(root, hashes, 0, |hashes|, h);
    FindUnique(hashes, h, FindLast(Hashes(root), h));
  }

  lemma {:induction false} RunIsReached(root: seq<IndexEntry>, nodes: seq<seq<IndexEntry>>, per: nat, hashes: seq<nat>, h: nat, run: seq<nat>, end: nat)
    requires root != [] && hashes != [] && RunLimit(root, nodes, per, |hashes|, h) == end <= |hashes|
    requires var s := FindLast(hashes, h);
             && run != [] && s + |run| <= end
             && (forall k :: 0 <= k < |run| ==> run[k] == 1 + s + k)
             && (forall j :: s < j < s + |run| ==> hashes[j] % 2 == 1)
             && (s + |run| < end ==> hashes[s + |run|] % 2 == 0)
    ensures forall i: nat :: 1 + i in run <==> Reached(root, nodes, per, hashes, i, h)
    ensures forall b :: b in run ==> 1 <= b <= |hashes|
  {
    hide FindLast, RunLimit;
    var s := FindLast(hashes, h);
    forall i: nat ensures 1 + i in run <==> Reached(root, nodes, per, hashes, i, h) {
      if Reached(root, nodes, per, hashes, i, h) {
        assert i < s + |run|;
        assert run[i - s] == 1 + i;
      }
    }
  }

  // ---- when the run is complete ----

  /** No interior node but the first begins with a leaf that carries a run on. */
  ghost predicate NodesStartRuns(nodes: seq<seq<IndexEntry>>, per: nat, hashes: seq<nat>) {
    forall n :: 0 < n < |nodes| && FirstOf(n, per) < |hashes| ==> hashes[FirstOf(n, per)] % 2 == 0
  }

  /** Where nodes begin runs of their own, a search reaches its whole run. */
  lemma {:induction false} WholeRun(root: seq<IndexEntry>, nodes: seq<seq<IndexEntry>>, per: nat, hashes: seq<nat>, i: nat, h: nat)
    requires hashes != [] && Rising(hashes) && TreeOver(root, nodes, per, hashes) && NodesStartRuns(nodes, per, hashes)
    ensures root != []
    ensures InRun(hashes, i, h) ==> Reached(root, nodes, per, hashes, i, h)
  {
    hide FirstOf, CountOf, FindLast, NodeOver;
    if nodes == [] {
      NodeFull(root, hashes, 0, |hashes|);
    } else {
      TwoLevelIsFlat(root, nodes, per, hashes, h);
      var n := NodeFor(root, h);
      NodeParts(root, nodes, per, hashes, n);
      if n + 1 < |nodes| && InRun(hashes, i, h) && FirstOf(n + 1, per) <= i {
        NodeParts(root, nodes, per, hashes, n + 1);
        var j := FirstOf(n + 1, per);
        StartsBefore(nodes[n], hashes, FirstOf(n, per), CountOf(n, per, |hashes|), h);
      }
    }
  }

  lemma {:induction false} StartsBefore(node: seq<IndexEntry>, hashes: seq<nat>, first: nat, count: nat, h: nat)
    requires NodeOver(node, hashes, first, count) && node != []
    ensures first + FindLast(Hashes(node), h) < first + count
  {
  }

  /** A node that begins in the middle of a run hides the names there from every search. */
  lemma {:induction false} HiddenNames(names: seq<Sorted>, leaves: seq<seq<Sorted>>, hashes: seq<nat>, usable: nat,
                                       root: seq<IndexEntry>, nodes: seq<seq<IndexEntry>>, per: nat, n: nat)
    requires Packed(names, leaves, hashes, usable) && HashOrder(names) && RealHashes(names) && names != []
    requires TreeOver(root, nodes, per, hashes) && 0 < n < |nodes| && FirstOf(n, per) < |hashes| && hashes[FirstOf(n, per)] % 2 == 1
    ensures root != [] && leaves[FirstOf(n, per)] != []
    ensures !Reached(root, nodes, per, hashes, FirstOf(n, per), leaves[FirstOf(n, per)][0].hash)
  {
    hide FirstOf, CountOf, FindLast, NodeOver, Packed, TreeOver;
    var i := FirstOf(n, per);
    PackedParts(names, leaves, hashes, usable, i);
    var x := leaves[i][0];
    FlattenHas(leaves, i, x);
    EvenHash(names, x);
    NodeParts(root, nodes, per, hashes, n);
    var m := NodeFor(root, x.hash);
    StoredRise(names, leaves, hashes, usable);
    TwoLevelIsFlat(root, nodes, per, hashes, x.hash);
    NodeParts(root, nodes, per, hashes, m);
    FindLastBefore(root, nodes, per, hashes, x.hash, n);
    FirstOfRises(m + 1, n, per);
  }

  lemma {:induction false} FindLastBefore(root: seq<IndexEntry>, nodes: seq<seq<IndexEntry>>, per: nat, hashes: seq<nat>, h: nat, n: nat)
    requires TreeOver(root, nodes, per, hashes) && Rising(hashes) && 0 < n < |nodes| && root != []
    requires FirstOf(n, per) < |hashes| && h < hashes[FirstOf(n, per)]
    ensures NodeFor(root, h) < n
  {
    hide FirstOf, CountOf, NodeOver, TreeOver, Rising;
    var m := NodeFor(root, h);
    NodeParts(root, nodes, per, hashes, n);
    assert m == 0 || Hashes(root)[m] <= h;
    if n <= m {
      NodeParts(root, nodes, per, hashes, m);
      FirstOfRises(n, m, per);
      RisingAt(hashes, FirstOf(n, per), FirstOf(m, per));
    }
  }

  lemma {:induction false} PackedParts(names: seq<Sorted>, leaves: seq<seq<Sorted>>, hashes: seq<nat>, usable: nat, i: nat)
    requires Packed(names, leaves, hashes, usable) && i < |hashes|
    ensures |leaves| == |hashes| && hashes != [] && Flatten(leaves) == names && (leaves[i] == [] <==> names == [])
    ensures hashes[i] == StoredHash(leaves, i)
  {
    assert LeafOk(leaves, hashes, i, usable);
  }

  /** Every name is among those its own hash's search reads. */
  ghost predicate AllReached(leaves: seq<seq<Sorted>>, root: seq<IndexEntry>, nodes: seq<seq<IndexEntry>>, per: nat, hashes: seq<nat>)
    requires root != [] && hashes != []
  {
    forall i, x :: 0 <= i < |leaves| && x in leaves[i] ==> Reached(root, nodes, per, hashes, i, x.hash)
  }

  /**
   A freshly built index finds every name exactly when no interior node but the
   first begins with a leaf that carries a run on; a flat one always does.
   */
  lemma {:induction false} CompleteExactly(names: seq<Sorted>, leaves: seq<seq<Sorted>>, hashes: seq<nat>, usable: nat,
                                           root: seq<IndexEntry>, nodes: seq<seq<IndexEntry>>, per: nat)
    requires Packed(names, leaves, hashes, usable) && HashOrder(names) && RealHashes(names) && names != []
    requires TreeOver(root, nodes, per, hashes)
    ensures root != [] && hashes != []
    ensures AllReached(leaves, root, nodes, per, hashes) <==> NodesStartRuns(nodes, per, hashes)
    ensures nodes == [] ==> AllReached(leaves, root, nodes, per, hashes)
  {
    hide FirstOf, CountOf, FindLast, TreeOver, Reached, Packed, HashOrder, RealHashes, InRun, Rising;
    PackedSome(names, leaves, hashes, usable);
    StoredRise(names, leaves, hashes, usable);
    if NodesStartRuns(nodes, per, hashes) {
      forall i, x | 0 <= i < |leaves| && x in leaves[i] ensures root != [] && Reached(root, nodes, per, hashes, i, x.hash) {
        FlatComplete(names, leaves, hashes, usable, i, x);
        WholeRun(root, nodes, per, hashes, i, x.hash);
      }
      RootFull(root, nodes, per, hashes);
    } else {
      var n :| 0 < n < |nodes| && FirstOf(n, per) < |hashes| && hashes[FirstOf(n, per)] % 2 != 0;
      HiddenNames(names, leaves, hashes, usable, root, nodes, per, n);
      assert leaves[FirstOf(n, per)][0] in leaves[FirstOf(n, per)];
    }
  }

  lemma {:induction false} RootFull(root: seq<IndexEntry>, nodes: seq<seq<IndexEntry>>, per: nat, hashes: seq<nat>)
    requires TreeOver(root, nodes, per, hashes) && hashes != []
    ensures root != []
  {
  }

  lemma {:induction false} PackedSome(names: seq<Sorted>, leaves: seq<seq<Sorted>>, hashes: seq<nat>, usable: nat)
    requires Packed(names, leaves, hashes, usable)
    ensures |leaves| == |hashes| && hashes != []
  {
  }

  /** When every name has the one hash, and there are more leaves than one node holds, names are hidden. */
  lemma {:induction false} OneHashHides(names: seq<Sorted>, leaves: seq<seq<Sorted>>, hashes: seq<nat>, usable: nat,
                                        root: seq<IndexEntry>, nodes: seq<seq<IndexEntry>>, per: nat, h: nat)
    requires Packed(names, leaves, hashes, usable) && names != [] && h % 2 == 0 && forall x :: x in names ==> x.hash == h
    requires TreeOver(root, nodes, per, hashes) && 1 < |nodes|
    ensures root != [] && hashes != [] && !AllReached(leaves, root, nodes, per, hashes)
  {
    hide FirstOf, CountOf, FindLast, Reached, Packed, AllReached;
    PackedSome(names, leaves, hashes, usable);
    OneHashOrder(names, h);
    CompleteExactly(names, leaves, hashes, usable, root, nodes, per);
    NodeParts(root, nodes, per, hashes, 1);
    FirstOfRises(0, 1, per);
    var i := FirstOf(1, per);
    PackedParts(names, leaves, hashes, usable, i);
    PackedParts(names, leaves, hashes, usable, i - 1);
    FlattenHas(leaves, i, leaves[i][0]);
    FlattenHas(leaves, i - 1, leaves[i - 1][|leaves[i - 1]| - 1]);
    assert hashes[FirstOf(1, per)] == h + 1;
  }

  lemma {:induction false} OneHashOrder(names: seq<Sorted>, h: nat)
    requires h % 2 == 0 && forall x :: x in names ==> x.hash == h
    ensures HashOrder(names) && RealHashes(names)
  {
  }

  // ---- a directory whose index does not find its names ----

  /** The kth of a family of distinct names, each 255 bytes long. */
  function LongName(k: nat): (r: Bytes)
    requires k < 400
    ensures |r| == 255
  {
    [65 + k % 20, 65 + k / 20] + seq(253, i => 97)
  }

  /** Names of that length, all under one hash. */
  ghost predicate AllLong(names: seq<Sorted>) {
    forall k :: 0 <= k < |names| ==> names[k].hash == 2 && |names[k].entry.name| == 255
  }

  /** Three of them to a leaf. */
  function Three(names: seq<Sorted>, i: nat): seq<Sorted>
    requires 3 * i + 3 <= |names|
  {
    [names[3 * i], names[3 * i + 1], names[3 * i + 2]]
  }

  lemma {:induction false} ThreeOk(names: seq<Sorted>, leaves: seq<seq<Sorted>>, hashes: seq<nat>, i: nat)
    requires |names| == 384 && AllLong(names) && i < |leaves| == |hashes| == 128
    requires leaves[i] == Three(names, i) && (i > 0 ==> leaves[i - 1] == Three(names, i - 1))
    requires hashes[i] == if i == 0 then 2 else 3
    ensures LeafOk(leaves, hashes, i, 1024)
  {
    ThreeTaken(names, i);
    if i > 0 {
      ThreeTaken(names, i - 1);
    }
  }

  lemma {:induction false} ThreeTaken(names: seq<Sorted>, i: nat)
    requires AllLong(names) && 3 * i + 3 <= |names|
    ensures Taken(Three(names, i)) == 792 && Taken(Three(names, i)[..2]) == 528
  {
    var leaf := Three(names, i);
    var a, b, c := leaf[0], leaf[1], leaf[2];
    assert RecLen(255) == 264;
    assert [] + [a] == [a] && [a] + [b] == leaf[..2] && leaf[..2] + [c] == leaf;
    NoneTaken(1024);
    TakenMore([], a);
    TakenMore([a], b);
    TakenMore(leaf[..2], c);
  }

  lemma {:induction false} ThreesFlat(names: seq<Sorted>, leaves: seq<seq<Sorted>>)
    requires 3 * |leaves| <= |names| && forall i :: 0 <= i < |leaves| ==> leaves[i] == Three(names, i)
    ensures Flatten(leaves) == names[..3 * |leaves|]
  {
    if leaves != [] {
      var n := |leaves| - 1;
      ThreesFlat(names, leaves[..n]);
      assert names[..3 * n + 3] == names[..3 * n] + Three(names, n);
    }
  }

  /** However they are ordered, 384 such names fill 128 leaves in blocks of 1024 bytes, one more than a node holds. */
  lemma {:induction false} LongPacked(names: seq<Sorted>) returns (leaves: seq<seq<Sorted>>, hashes: seq<nat>)
    requires |names| == 384 && AllLong(names)
    ensures |leaves| == |hashes| == 128 && Packed(names, leaves, hashes, Usable(1024, false))
    ensures forall i :: 0 <= i < 128 ==> hashes[i] == if i == 0 then 2 else 3
    ensures PlanIndex(128, IndexLimit(1024, ROOT_COUNT_OFFSET, false), IndexLimit(1024, NODE_COUNT_OFFSET, false)) == Ok(Plan(1, 2, 127, 131))
  {
    leaves := seq(128, i requires 0 <= i < 128 => Three(names, i));
    hashes := seq(128, i => if i == 0 then 2 else 3);
    hide LeafOk, Flatten, AllLong;
    ThreesFlat(names, leaves);
    assert names[..384] == names;
    forall i | 0 <= i < 128 ensures LeafOk(leaves, hashes, i, 1024) && leaves[i] != [] {
      ThreeOk(names, leaves, hashes, i);
    }
  }

  /**
   A concrete such directory: 384 names of 255 bytes on one hash, in blocks of
   1024 bytes. They pack into 128 leaves, one more than an interior node holds,
   and the names in the last leaf are never found.
   */
  lemma {:induction false} HiddenExample() returns (names: seq<Sorted>, leaves: seq<seq<Sorted>>, hashes: seq<nat>)
    ensures |names| == 384 && |leaves| == 128 && Packed(names, leaves, hashes, Usable(1024, false))
    ensures forall k :: 0 <= k < 384 ==> names[k] == Sorted(2, 0, Entry(LongName(k), 12, 1))
    ensures forall root, nodes :: TreeOver(root, nodes, 127, hashes) && |nodes| == 2 ==>
              root != [] && !AllReached(leaves, root, nodes, 127, hashes)
  {
    names := seq(384, k requires 0 <= k < 384 => Sorted(2, 0, Entry(LongName(k), 12, 1)));
    leaves, hashes := LongPacked(names);
    hide Packed, TreeOver, AllReached;
    forall root, nodes | TreeOver(root, nodes, 127, hashes) && |nodes| == 2
      ensures root != [] && !AllReached(leaves, root, nodes, 127, hashes)
    {
      OneHashHides(names, leaves, hashes, 1024, root, nodes, 127, 2);
    }
  }

  lemma {:induction false} LongNamesDiffer(j: nat, k: nat)
    requires j < k < 400
    ensures LongName(j) != LongName(k)
  {
    assert LongName(j)[0] == 65 + j % 20 && LongName(j)[1] == 65 + j / 20;
    assert LongName(k)[0] == 65 + k % 20 && LongName(k)[1] == 65 + k / 20;
    assert j == j / 20 * 20 + j % 20 && k == k / 20 * 20 + k % 20;
  }
}
