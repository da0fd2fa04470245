/**
 What a directory whose index has just been built finds of its own names
 (src/index.rs:127-191 and 204-317).
 */
module FreshDirectory {
  import opened Base
  import opened DirBlock
  import opened DirEntries
  import opened HashIndex
  import opened IndexSearch
  import opened Directories
  import opened DirectoryIndex

  /** A search sees every name the directory has. */
  ghost predicate AllSeen(blocks: seq<DirBlk>, indexed: bool, shape: Shape, hashes: seq<nat>, per: nat, hash: Bytes -> nat)
    requires shape.Valid()
  {
    forall e :: e in Contents(blocks, shape) ==> Seen(blocks, indexed, shape, hashes, per, hash(e.name), e.name)
  }

  /** Where every name can be found, every name is. */
  lemma {:induction false} FindableSeen(blocks: seq<DirBlk>, indexed: bool, shape: Shape, hashes: seq<nat>, per: nat, hash: Bytes -> nat)
    requires Sound(blocks, indexed, shape, hashes, per, hash) && Findable(blocks, indexed, hashes, per)
    ensures AllSeen(blocks, indexed, shape, hashes, per, hash)
  {
    hide EntriesOf, DistinctNames, Undotted, All, InRun, Dotted, HomedIn, EvenHashes, Searched, PlainOk;
    forall e | e in Contents(blocks, shape) ensures Seen(blocks, indexed, shape, hashes, per, hash(e.name), e.name) {
      InUndotted(All(blocks, shape), e);
      var k := InSomeBlock(blocks, shape, e);
      if indexed {
        RunSearched(blocks, shape, hashes, per, hash, k, e);
      } else {
        ListSearched(blocks, hashes, per, hash(e.name), k);
      }
    }
  }

  lemma {:induction false} RunSearched(blocks: seq<DirBlk>, shape: Shape, hashes: seq<nat>, per: nat, hash: Bytes -> nat, k: nat, e: Entry)
    requires Sound(blocks, true, shape, hashes, per, hash) && Findable(blocks, true, hashes, per)
    requires k < |blocks| && e in EntriesOf(blocks[k], shape) && !Dotted(e)
    ensures Searched(blocks, true, hashes, per, hash(e.name), k)
  {
    hide EntriesOf, DistinctNames, Undotted, All, InRun, Dotted, HomedIn, EvenHashes, PlainOk, Reached, TreeOver, Rising, NodesStartRuns;
    LeafHomes(blocks, shape, hashes, per, hash, k, e);
    WholeRun(blocks[0].entries, NodesOf(blocks, |hashes|), per, hashes, k - 1, hash(e.name));
  }

  // ---- one block for one name ----

  lemma {:induction false} TwoNamed(x: seq<Entry>, y: seq<Entry>, a: Entry, b: Entry)
    requires a in x && b in y && a.name == b.name
    ensures !DistinctNames(x + y)
  {
    var i :| 0 <= i < |x| && x[i] == a;
    var j :| 0 <= j < |y| && y[j] == b;
    assert (x + y)[i] == a && (x + y)[|x| + j] == b;
  }

  /** No two blocks have the same name. */
  lemma {:induction false} OneBlock(blocks: seq<DirBlk>, shape: Shape, j: nat, k: nat, a: Entry, b: Entry)
    requires shape.Valid() && DistinctNames(Undotted(All(blocks, shape))) && j < k < |blocks|
    requires a in EntriesOf(blocks[j], shape) && b in EntriesOf(blocks[k], shape) && !Dotted(a) && !Dotted(b)
    ensures a.name != b.name
  {
    hide EntriesOf, DistinctNames, Undotted, Dotted;
    AllConcat(blocks[..k], blocks[k..], shape);
    assert blocks == blocks[..k] + blocks[k..];
    AllAround(blocks[..k], j, shape);
    AllAround(blocks[k..], 0, shape);
    hide All;
    InUndotted(All(blocks[..k], shape), a);
    InUndotted(All(blocks[k..], shape), b);
    UndottedConcat(All(blocks[..k], shape), All(blocks[k..], shape));
    if a.name == b.name {
      TwoNamed(Undotted(All(blocks[..k], shape)), Undotted(All(blocks[k..], shape)), a, b);
    }
  }

  /** A name of leaf i is seen only if leaf i is reached. */
  lemma {:induction false} SeenReached(blocks: seq<DirBlk>, shape: Shape, hashes: seq<nat>, per: nat, hash: Bytes -> nat, i: nat, e: Entry)
    requires Sound(blocks, true, shape, hashes, per, hash) && 1 + i < |blocks| && e in EntriesOf(blocks[1 + i], shape) && !Dotted(e)
    requires Seen(blocks, true, shape, hashes, per, hash(e.name), e.name)
    ensures hashes != [] && blocks[0].Root? && blocks[0].entries != []
    ensures Reached(blocks[0].entries, NodesOf(blocks, |hashes|), per, hashes, i, hash(e.name))
  {
    hide EntriesOf, DistinctNames, Undotted, All, Dotted, HomedIn, EvenHashes, PlainOk, Reached, TreeOver, Rising;
    var k, x :| 0 <= k < |blocks| && Searched(blocks, true, hashes, per, hash(e.name), k) && x in EntriesOf(blocks[k], shape) && x.name == e.name;
    SameDotted(e, x);
    if k < 1 + i {
      OneBlock(blocks, shape, k, 1 + i, x, e);
    } else if 1 + i < k {
      OneBlock(blocks, shape, 1 + i, k, e, x);
    }
  }

  lemma {:induction false} SameDotted(a: Entry, b: Entry)
    requires a.name == b.name
    ensures Dotted(a) <==> Dotted(b)
  {
  }

  /** An index just built, with the parts of what makes it one. */
  lemma {:induction false} FreshParts(blocks: seq<DirBlk>, shape: Shape, hashes: seq<nat>, per: nat, hash: Bytes -> nat, minor: Bytes -> nat)
      returns (names: seq<Sorted>, leaves: seq<seq<Sorted>>)
    requires Sound(blocks, true, shape, hashes, per, hash) && FreshIndex(blocks, hashes, shape, hash, minor)
    ensures Describes(names, Contents(blocks, shape), hash, minor) && LeavesHold(blocks, leaves, shape)
    ensures Packed(SortNames(names), leaves, hashes, shape.Room())
    ensures HashOrder(SortNames(names)) && RealHashes(SortNames(names)) && Stamped(SortNames(names), hash)
  {
    hide Contents, Treed, Homed, Packed, LeavesHold, HashOrder, RealHashes, SortNames, DistinctNames, Listing;
    names :| Describes(names, Contents(blocks, shape), hash, minor) && LaidOut(blocks, names, hashes, shape);
    leaves :| Packed(SortNames(names), leaves, hashes, shape.Room()) && LeavesHold(blocks, leaves, shape);
    SortStamped(names, hash);
  }

  /** A name of a leaf is an entry of the directory. */
  lemma {:induction false} LeafEntry(blocks: seq<DirBlk>, shape: Shape, hashes: seq<nat>, per: nat, hash: Bytes -> nat, leaves: seq<seq<Sorted>>, i: nat, x: Sorted)
    requires Sound(blocks, true, shape, hashes, per, hash) && LeavesHold(blocks, leaves, shape) && |leaves| == |hashes|
    requires i < |leaves| && x in leaves[i]
    ensures x.entry in EntriesOf(blocks[1 + i], shape) && !Dotted(x.entry) && x.entry in Contents(blocks, shape)
  {
    hide EntriesOf, DistinctNames, Undotted, All, Dotted, EvenHashes, PlainOk, TreeOver, Rising, Contents, InRun;
    var j :| 0 <= j < |leaves[i]| && leaves[i][j] == x;
    assert Listing(leaves[i])[j] == x.entry;
    assert HomedIn(blocks[1 + i], shape, hashes, i, hash);
    IsContent(blocks, shape, 1 + i, x.entry);
  }

  /**
   A directory whose index has just been built finds every name it has exactly
   when no interior node but the first begins inside a run of one hash.
   */
  lemma {:induction false} FreshSeesExactly(blocks: seq<DirBlk>, shape: Shape, hashes: seq<nat>, per: nat, hash: Bytes -> nat, minor: Bytes -> nat)
    requires Sound(blocks, true, shape, hashes, per, hash) && FreshIndex(blocks, hashes, shape, hash, minor)
    ensures AllSeen(blocks, true, shape, hashes, per, hash) <==> Findable(blocks, true, hashes, per)
  {
    if Findable(blocks, true, hashes, per) {
      FindableSeen(blocks, true, shape, hashes, per, hash);
    } else {
      var e := HiddenEntry(blocks, shape, hashes, per, hash, minor);
    }
  }

  /** Where one does, some entry is not seen. */
  lemma {:induction false} HiddenEntry(blocks: seq<DirBlk>, shape: Shape, hashes: seq<nat>, per: nat, hash: Bytes -> nat, minor: Bytes -> nat) returns (e: Entry)
    requires Sound(blocks, true, shape, hashes, per, hash) && FreshIndex(blocks, hashes, shape, hash, minor)
    requires !Findable(blocks, true, hashes, per)
    ensures e in Contents(blocks, shape) && !Seen(blocks, true, shape, hashes, per, hash(e.name), e.name)
  {
    var names, leaves := FreshParts(blocks, shape, hashes, per, hash, minor);
    var sorted := SortNames(names);
    var root, nodes := blocks[0].entries, NodesOf(blocks, |hashes|);
    TreedFindable(blocks, shape, hashes, per);
    hide Sound, Findable, Packed, LeavesHold, HashOrder, RealHashes, SortNames, Describes, Contents, FreshIndex, Reached, TreeOver, FirstOf;
    PackedSome(sorted, leaves, hashes, shape.Room());
    SoundTree(blocks, shape, hashes, per, hash);
    SomeNames(root, nodes, hashes, per, sorted, leaves, shape.Room());
    CompleteExactly(sorted, leaves, hashes, shape.Room(), root, nodes, per);
    var i: nat, x: Sorted :| i < |leaves| && x in leaves[i] && !Reached(root, nodes, per, hashes, i, x.hash);
    e := x.entry;
    LeafEntry(blocks, shape, hashes, per, hash, leaves, i, x);
    LeafStamp(sorted, leaves, hashes, shape.Room(), hash, i, x);
    if Seen(blocks, true, shape, hashes, per, hash(e.name), e.name) {
      SeenReached(blocks, shape, hashes, per, hash, i, e);
    }
  }

  lemma {:induction false} SoundTree(blocks: seq<DirBlk>, shape: Shape, hashes: seq<nat>, per: nat, hash: Bytes -> nat)
    requires Sound(blocks, true, shape, hashes, per, hash)
    ensures 1 + |hashes| <= |blocks| && (forall k :: 1 + |hashes| <= k < |blocks| ==> blocks[k].Node?) && blocks[0].Root?
    ensures TreeOver(blocks[0].entries, NodesOf(blocks, |hashes|), per, hashes)
  {
    hide DistinctNames, Undotted, All, Homed, EvenHashes, PlainOk, TreeOver, Rising;
  }

  lemma {:induction false} LeafStamp(names: seq<Sorted>, leaves: seq<seq<Sorted>>, hashes: seq<nat>, usable: nat, hash: Bytes -> nat, i: nat, x: Sorted)
    requires Packed(names, leaves, hashes, usable) && Stamped(names, hash) && i < |leaves| && x in leaves[i]
    ensures x.hash == hash(x.entry.name)
  {
    hide LeafOk, Flatten;
    FlattenHas(leaves, i, x);
  }

  /** An index of no names has one leaf, and no node begins inside a run. */
  lemma {:induction false} SomeNames(root: seq<IndexEntry>, nodes: seq<seq<IndexEntry>>, hashes: seq<nat>, per: nat, names: seq<Sorted>, leaves: seq<seq<Sorted>>, usable: nat)
    requires Packed(names, leaves, hashes, usable) && !NodesStartRuns(nodes, per, hashes) && TreeOver(root, nodes, per, hashes)
    ensures names != []
  {
    hide LeafOk, Flatten;
    var n :| 0 < n < |nodes| && FirstOf(n, per) < |hashes| && hashes[FirstOf(n, per)] % 2 != 0;
    MulMono(1, n, per);
  }

  // ---- how many leaves there are ----

  lemma {:induction false} DistinctCount(entries: seq<Entry>)
    requires DistinctNames(entries)
    ensures |Elems(entries)| == |entries|
  {
    if entries == [] {
      assert Elems(entries) == {};
    } else {
      var n := |entries| - 1;
      DistinctCount(entries[..n]);
      assert entries == entries[..n] + [entries[n]];
      assert Elems(entries) == Elems(entries[..n]) + {entries[n]};
      assert entries[n] !in Elems(entries[..n]) by {
        forall i | 0 <= i < n ensures entries[i] != entries[n] {
          assert entries[i].name != entries[n].name;
        }
      }
    }
  }

  /** As many names as entries, sorted or not. */
  lemma {:induction false} DescribedCount(names: seq<Sorted>, entries: set<Entry>, hash: Bytes -> nat, minor: Bytes -> nat)
    requires Describes(names, entries, hash, minor)
    ensures |names| == |SortNames(names)| == |entries|
  {
    hide SortNames, InOrder;
    DistinctCount(Listing(names));
    SortSorts(names);
    assert |multiset(SortNames(names))| == |multiset(names)|;
  }

  lemma {:induction false} LeavesAtMost(leaves: seq<seq<Sorted>>)
    requires forall i :: 0 <= i < |leaves| ==> leaves[i] != []
    ensures |leaves| <= |Flatten(leaves)|
  {
    if leaves != [] {
      LeavesAtMost(leaves[..|leaves| - 1]);
    }
  }

  /** As many names as an index is sure to hold: one for each place in a full root's full nodes. */
  function MostNames(shape: Shape): nat {
    FirstOf(RootLimit(shape), NodeLimit(shape))
  }

  /** No more entries than that are never too many. */
  lemma {:induction false} FewFit(entries: set<Entry>, shape: Shape, hash: Bytes -> nat, minor: Bytes -> nat)
    requires shape.Valid() && |entries| <= MostNames(shape)
    ensures !TooLarge(entries, shape, hash, minor)
  {
    hide Describes, Flatten, LeafOk, SortNames, FirstOf;
    forall names: seq<Sorted>, hashes: seq<nat> | Describes(names, entries, hash, minor) && Leaved(names, hashes, shape)
      ensures !Overfull(|hashes|, shape)
    {
      var leaves :| Packed(SortNames(names), leaves, hashes, shape.Room());
      DescribedCount(names, entries, hash, minor);
      if SortNames(names) != [] {
        LeavesAtMost(leaves);
      }
      RootHolds(shape);
    }
  }

  /** An index just built takes a block for itself and at most two for each name, or one where there is none. */
  lemma {:induction false} FreshBlocks(blocks: seq<DirBlk>, hashes: seq<nat>, per: nat, shape: Shape, hash: Bytes -> nat, minor: Bytes -> nat)
    requires shape.Valid() && FreshIndex(blocks, hashes, shape, hash, minor) && PlannedFor(|hashes|, |blocks|, per, shape)
    ensures |blocks| <= if Contents(blocks, shape) == {} then 2 else 1 + 2 * |Contents(blocks, shape)|
  {
    hide Describes, Flatten, LeafOk, SortNames, FirstOf, Contents, LeavesHold;
    var names :| Describes(names, Contents(blocks, shape), hash, minor) && LaidOut(blocks, names, hashes, shape);
    var leaves :| Packed(SortNames(names), leaves, hashes, shape.Room()) && LeavesHold(blocks, leaves, shape);
    DescribedCount(names, Contents(blocks, shape), hash, minor);
    RootHolds(shape);
    if SortNames(names) != [] {
      LeavesAtMost(leaves);
      FewNodes(|hashes|, NodeLimit(shape));
    }
  }

  lemma {:induction false} FewNodes(leaves: nat, per: nat)
    requires 0 < per && 0 < leaves
    ensures CeilOf(leaves, per) <= leaves
  {
    var c := (leaves + per - 1) / per;
    assert leaves + per - 1 == c * per + (leaves + per - 1) % per;
    if leaves < c {
      MulMono(leaves + 1, c, per);
      assert (leaves + 1) * per == leaves * per + per;
      MulMono(1, per, leaves);
    }
  }

  lemma {:induction false} RootHolds(shape: Shape)
    requires shape.Valid()
    ensures 1 <= RootLimit(shape)
  {
  }

  // ---- a directory that does not find its names ----

  /** 384 entries with names of 255 bytes, all of them with the one hash, in blocks of 1024 bytes. */
  ghost predicate LongOnes(entries: set<Entry>, shape: Shape, hash: Bytes -> nat) {
    && shape.blockSize == 1024 && !shape.withTail && |entries| == 384
    && forall e :: e in entries ==> |e.name| == 255 && hash(e.name) == 2
  }

  lemma {:induction false} LongNames(names: seq<Sorted>, entries: set<Entry>, shape: Shape, hash: Bytes -> nat, minor: Bytes -> nat)
    requires Describes(names, entries, hash, minor) && LongOnes(entries, shape, hash)
    ensures |SortNames(names)| == 384 && AllLong(SortNames(names))
  {
    hide SortNames, InOrder, DistinctNames;
    DescribedCount(names, entries, hash, minor);
    SortSorts(names);
    forall k | 0 <= k < 384 ensures SortNames(names)[k].hash == 2 && |SortNames(names)[k].entry.name| == 255 {
      assert SortNames(names)[k] in multiset(SortNames(names));
      InListing(names, SortNames(names)[k]);
    }
  }

  /** They pack into 128 leaves: not too many for an index, but one more than a node holds. */
  lemma {:induction false} LongLeaves(names: seq<Sorted>, hashes: seq<nat>, entries: set<Entry>, shape: Shape, hash: Bytes -> nat, minor: Bytes -> nat)
    requires shape.Valid() && Describes(names, entries, hash, minor) && LongOnes(entries, shape, hash) && Leaved(names, hashes, shape)
    ensures |hashes| == 128 && (forall i :: 0 < i < 128 ==> hashes[i] == 3) && !Overfull(128, shape)
    ensures PlanIndex(128, RootLimit(shape), NodeLimit(shape)) == Ok(Plan(1, 2, 127, 131))
  {
    hide Packed, SortNames, Describes, AllLong;
    var a :| Packed(SortNames(names), a, hashes, shape.Room());
    LongNames(names, entries, shape, hash, minor);
    var b, h := LongPacked(SortNames(names));
    OnePacking(SortNames(names), a, hashes, b, h, shape.Room());
  }

  /**
   However such a directory is kept, building its index again succeeds, loses no
   entry, and leaves at least one that no search finds.
   */
  method RebuildHides(d: Directory) returns (ghost e: Entry)
    requires d.Valid() && LongOnes(d.Entries(), d.shape, d.hash)
    modifies d
    ensures d.Valid() && d.indexed && d.Entries() == old(d.Entries())
    ensures e in d.Entries() && !Seen(d.blocks, true, d.shape, d.hashes, d.per, d.hash(e.name), e.name)
  {
    assert d.shape.Valid();
    NotTooLong(d.Entries(), d.shape, d.hash, d.minor);
    hide Sound, Contents, TooLarge, LongOnes, FreshIndex, PlannedFor, Seen, Treed, Homed, ParentOf;
    var r := d.Rebuild(None);
    LongHides(d.blocks, d.shape, d.hashes, d.per, d.hash, d.minor);
    e := HiddenEntry(d.blocks, d.shape, d.hashes, d.per, d.hash, d.minor);
  }

  // ---- one that is made so ----

  /** Add each of the first n of those names. */
  function LongAdds(n: nat): seq<Op>
    requires n <= 384
  {
    seq(n, k requires 0 <= k < n => Add(LongName(k), 12, 1))
  }

  /** The map the first n of those names make. */
  function LongMap(n: nat): (m: map<Bytes, Entry>)
    requires n <= 384
    ensures |m| == n && (forall x :: x in m ==> m[x] == Entry(x, 12, 1))
    ensures forall x :: x in m <==> exists k :: 0 <= k < n && x == LongName(k)
  {
    if n == 0 then map[]
    else
      var was := LongMap(n - 1);
      LongNext(was, n - 1);
      was[LongName(n - 1) := Entry(LongName(n - 1), 12, 1)]
  }

  lemma {:induction false} LongNext(was: map<Bytes, Entry>, k: nat)
    requires k < 384 && forall x :: x in was <==> exists j :: 0 <= j < k && x == LongName(j)
    ensures LongName(k) !in was && |was[LongName(k) := Entry(LongName(k), 12, 1)]| == |was| + 1
  {
    hide LongName;
    if LongName(k) in was {
      var j :| 0 <= j < k && LongName(k) == LongName(j);
      LongNamesDiffer(j, k);
    }
    assert was[LongName(k) := Entry(LongName(k), 12, 1)].Keys == was.Keys + {LongName(k)};
  }

  lemma {:induction false} LongApplied(n: nat)
    requires n <= 384
    ensures ApplyAll(map[], LongAdds(n)) == LongMap(n)
  {
    hide LongName;
    if n > 0 {
      LongApplied(n - 1);
      assert LongAdds(n)[..n - 1] == LongAdds(n - 1);
    }
  }

  lemma {:induction false} LongEntries(n: nat)
    requires n <= 384
    ensures |EntriesIn(LongMap(n))| == n && forall e :: e in EntriesIn(LongMap(n)) ==> |e.name| == 255
  {
    hide LongName;
    if n > 0 {
      LongEntries(n - 1);
      LongNext(LongMap(n - 1), n - 1);
      var e := Entry(LongName(n - 1), 12, 1);
      assert LongMap(n)[e.name] == e;
      assert EntriesIn(LongMap(n)) == EntriesIn(LongMap(n - 1)) + {e} by {
        forall x | x in EntriesIn(LongMap(n)) ensures x in EntriesIn(LongMap(n - 1)) + {e} {
          var m :| m in LongMap(n) && LongMap(n)[m] == x;
          assert m == e.name || (m in LongMap(n - 1) && LongMap(n - 1)[m] == x);
        }
        forall x | x in EntriesIn(LongMap(n - 1)) ensures x in EntriesIn(LongMap(n)) {
          var m :| m in LongMap(n - 1) && LongMap(n - 1)[m] == x;
          assert LongMap(n)[m] == x;
        }
      }
      assert e !in EntriesIn(LongMap(n - 1));
    }
    assert |LongName(0)| == 255;
  }

  lemma {:induction false} LongNameOk(k: nat)
    requires k < 384
    ensures DirectoryIndex.NameOk(LongName(k)) && LongName(k) != DOT && LongName(k) != DOTDOT
  {
  }

  function LongShape(): Shape {
    Shape(1024, false, 2, 2)
  }

  lemma {:induction false} LongLimit()
    ensures LongShape().Valid() && 384 <= MostNames(LongShape())
  {
    assert 4 <= RootLimit(LongShape()) && 96 <= NodeLimit(LongShape());
    MulMono(4, RootLimit(LongShape()), NodeLimit(LongShape()));
  }

  lemma {:induction false} LongOne(i: nat, hash: Bytes -> nat, minor: Bytes -> nat)
    requires i < 384 && LongShape().Valid()
    ensures LongAdds(384)[..i] == LongAdds(i) && LongAdds(384)[i] == Add(LongName(i), 12, 1) && LongName(i) !in ApplyAll(map[], LongAdds(i))
    ensures !TooLarge(EntriesIn(Apply(ApplyAll(map[], LongAdds(i)), LongAdds(384)[i])), LongShape(), hash, minor)
  {
    hide LongName, TooLarge, ApplyAll, LongMap, EntriesIn, DirectoryIndex.NameOk, MostNames, LongShape, Apply;
    LongApplied(i);
    LongNext(LongMap(i), i);
    LongStep(i);
    LongEntries(i + 1);
    LongLimit();
    FewFit(EntriesIn(LongMap(i + 1)), LongShape(), hash, minor);
  }

  /** Such names added one at a time to a new directory are what a caller may ask for, and never too many. */
  lemma {:induction false} LongAsked(hash: Bytes -> nat, minor: Bytes -> nat)
    ensures LongShape().Valid() && Asked(map[], LongAdds(384)) && Modest(map[], LongAdds(384), LongShape(), hash, minor)
  {
    hide LongName, TooLarge, ApplyAll, LongMap, EntriesIn, DirectoryIndex.NameOk, MostNames, LongShape, Apply;
    LongLimit();
    var ops := LongAdds(384);
    forall i | 0 <= i < |ops|
      ensures ops[i].Add? && ops[i].target == 12 && ops[i].name != DOT && ops[i].name != DOTDOT && DirectoryIndex.NameOk(ops[i].name)
      ensures ops[i].name !in ApplyAll(map[], ops[..i])
      ensures !TooLarge(EntriesIn(Apply(ApplyAll(map[], ops[..i]), ops[i])), LongShape(), hash, minor)
    {
      LongOne(i, hash, minor);
      LongNameOk(i);
    }
  }

  lemma {:induction false} LongStep(i: nat)
    requires i < 384
    ensures Apply(LongMap(i), Add(LongName(i), 12, 1)) == LongMap(i + 1)
  {
    hide LongName;
  }

  lemma {:induction false} LongAre(entries: set<Entry>, n: nat, hash: Bytes -> nat)
    requires n == 384 && Agrees(entries, LongMap(n)) && forall x :: hash(x) == 2
    ensures LongOnes(entries, LongShape(), hash)
  {
    hide LongMap;
    LongEntries(n);
    assert entries == EntriesIn(LongMap(n));
  }

  /** A new directory, to which names of that length, all on one hash, have been added one by one. */
  method LongDirectory() returns (d: Directory)
    ensures fresh(d) && d.Valid() && LongOnes(d.Entries(), d.shape, d.hash)
  {
    hide LongMap, LongAdds, Sound, Contents, LongName, Asked, Modest, ApplyAll, TooLarge, LongOnes, LongShape, Agrees, EvenHashes, Findable;
    var hash := (n: Bytes) => 2;
    ghost var n := LongStart(hash);
    d := new Directory(LongShape(), true, hash, hash, 2);
    var ok := RunOps(d, LongAdds(384), map[]);
    LongAre(d.Entries(), n, d.hash);
  }

  lemma {:induction false} LongStart(hash: Bytes -> nat) returns (n: nat)
    requires forall x :: hash(x) == 2
    ensures n == 384 && LongShape().Valid() && Asked(map[], LongAdds(384)) && Modest(map[], LongAdds(384), LongShape(), hash, hash)
    ensures EvenHashes(hash) && Agrees({}, map[]) && ApplyAll(map[], LongAdds(384)) == LongMap(n)
  {
    hide LongMap, LongAdds, LongName, Asked, Modest, ApplyAll, LongShape;
    LongAsked(hash, hash);
    n := 384;
    LongApplied(n);
  }

  lemma {:induction false} NotTooLong(entries: set<Entry>, shape: Shape, hash: Bytes -> nat, minor: Bytes -> nat)
    requires shape.Valid() && LongOnes(entries, shape, hash)
    ensures !TooLarge(entries, shape, hash, minor)
  {
    hide Describes, Leaved, Overfull;
    forall names: seq<Sorted>, hashes: seq<nat> | Describes(names, entries, hash, minor) && Leaved(names, hashes, shape)
      ensures !Overfull(|hashes|, shape)
    {
      LongLeaves(names, hashes, entries, shape, hash, minor);
    }
  }

  lemma {:induction false} LongHides(blocks: seq<DirBlk>, shape: Shape, hashes: seq<nat>, per: nat, hash: Bytes -> nat, minor: Bytes -> nat)
    requires Sound(blocks, true, shape, hashes, per, hash) && FreshIndex(blocks, hashes, shape, hash, minor)
    requires LongOnes(Contents(blocks, shape), shape, hash) && PlannedFor(|hashes|, |blocks|, per, shape)
    ensures !Findable(blocks, true, hashes, per)
  {
    var names, leaves := FreshParts(blocks, shape, hashes, per, hash, minor);
    SoundTree(blocks, shape, hashes, per, hash);
    hide Sound, Contents, Packed, Describes, LongOnes, SortNames, FreshIndex;
    LongLeaves(names, hashes, Contents(blocks, shape), shape, hash, minor);
    var nodes := NodesOf(blocks, |hashes|);
    assert |nodes| == 2 && per == 127;
    SecondOdd(nodes, hashes);
  }

  lemma {:induction false} SecondOdd(nodes: seq<seq<IndexEntry>>, hashes: seq<nat>)
    requires |nodes| == 2 && |hashes| == 128 && hashes[127] == 3
    ensures !NodesStartRuns(nodes, 127, hashes)
  {
    assert FirstOf(1, 127) == 127;
  }
}
