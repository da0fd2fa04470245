/**
 A directory whose operations search a list of blocks or a hash index, whichever
 it has, and rebuild the index when a leaf is full (src/index.rs:59-125 and
 204-317, src/volume.rs:1645-1748).
 */
module DirectoryIndex {
  import opened Base
  import opened DirBlock
  import opened DirEntries
  import opened HashIndex
  import opened IndexSearch
  import opened Directories

  // ---- names and their entries ----

  function Listing(names: seq<Sorted>): (r: seq<Entry>)
    ensures |r| == |names|
    ensures forall i :: 0 <= i < |r| ==> r[i] == names[i].entry
  {
    seq(|names|, i requires 0 <= i < |names| => names[i].entry)
  }

  /** Each name carries the hash of its own name. */
  ghost predicate Stamped(names: seq<Sorted>, hash: Bytes -> nat) {
    forall x :: x in names ==> x.hash == hash(x.entry.name)
  }

  ghost predicate Minored(names: seq<Sorted>, minor: Bytes -> nat) {
    forall x :: x in names ==> x.minor == minor(x.entry.name)
  }

  lemma {:induction false} ListingCons(x: Sorted, rest: seq<Sorted>)
    ensures Listing([x] + rest) == [x.entry] + Listing(rest) && Listing([]) == []
  {
  }

  lemma {:induction false} AddsFirst(entries: seq<Entry>, e: Entry)
    ensures AddsOne(entries, [e] + entries, e)
  {
    AddsAt([], entries, e);
    assert [] + entries == entries && [] + [e] + entries == [e] + entries;
  }

  lemma {:induction false} AddsBehind(first: Entry, was: seq<Entry>, now: seq<Entry>, e: Entry)
    requires AddsOne(was, now, e)
    ensures AddsOne([first] + was, [first] + now, e)
  {
    AddsOneWithin([first], was, now, [], e);
    assert [first] + was + [] == [first] + was && [first] + now + [] == [first] + now;
  }

  lemma {:induction false} InsertLists(x: Sorted, names: seq<Sorted>)
    ensures AddsOne(Listing(names), Listing(InsertInOrder(x, names)), x.entry)
  {
    hide Listing, AddsOne, Le;
    if names == [] || Le(x, names[0]) {
      ListingCons(x, names);
      AddsFirst(Listing(names), x.entry);
    } else {
      var first, rest := names[0], names[1..];
      var more := InsertInOrder(x, rest);
      InsertLists(x, rest);
      AddsBehind(first.entry, Listing(rest), Listing(more), x.entry);
      assert names == [first] + rest;
      ListingCons(first, rest);
      ListingCons(first, more);
    }
  }

  /** Sorting changes neither which entries there are nor whether their names are distinct. */
  lemma {:induction false} SortLists(names: seq<Sorted>)
    ensures Elems(Listing(SortNames(names))) == Elems(Listing(names))
    ensures DistinctNames(Listing(SortNames(names))) <==> DistinctNames(Listing(names))
  {
    hide DistinctNames, AddsOne, InsertInOrder, Listing, Elems, Unnamed;
    if names != [] {
      var x, rest := names[0], names[1..];
      SortLists(rest);
      InsertLists(x, SortNames(rest));
      AddsOneSet(Listing(SortNames(rest)), Listing(SortNames(names)), x.entry);
      AddsFirst(Listing(rest), x.entry);
      assert names == [x] + rest;
      ListingCons(x, rest);
      AddsOneSet(Listing(rest), Listing(names), x.entry);
      UnnamedSame(Listing(rest), Listing(SortNames(rest)), x.entry);
    }
  }

  lemma {:induction false} UnnamedSame(a: seq<Entry>, b: seq<Entry>, e: Entry)
    requires Elems(a) == Elems(b)
    ensures Unnamed(a, e) <==> Unnamed(b, e)
  {
    forall i | 0 <= i < |a| ensures a[i] in Elems(b) {
      assert a[i] in Elems(a);
    }
    forall i | 0 <= i < |b| ensures b[i] in Elems(a) {
      assert b[i] in Elems(b);
    }
  }

  lemma {:induction false} SortStamped(names: seq<Sorted>, hash: Bytes -> nat)
    requires Stamped(names, hash) && forall n: Bytes :: hash(n) % 2 == 0
    ensures Stamped(SortNames(names), hash) && HashOrder(SortNames(names)) && RealHashes(SortNames(names))
  {
    hide Le;
    SortSorts(names);
    forall x | x in SortNames(names) ensures x in names {
      assert x in multiset(SortNames(names));
    }
    InOrderHashes(SortNames(names));
  }

  lemma {:induction false} InOrderHashes(names: seq<Sorted>)
    requires InOrder(names)
    ensures HashOrder(names)
  {
  }

  lemma {:induction false} TakenNeed(leaf: seq<Sorted>)
    ensures Need(Listing(leaf)) == Taken(leaf)
  {
    hide RecLen;
    if leaf == [] {
      assert Listing(leaf) == [];
    } else {
      var n := |leaf| - 1;
      TakenNeed(leaf[..n]);
      NeedMore(Listing(leaf[..n]), leaf[n].entry);
      assert Listing(leaf) == Listing(leaf[..n]) + [leaf[n].entry];
    }
  }

  lemma {:induction false} NeedMore(entries: seq<Entry>, e: Entry)
    ensures Need(entries + [e]) == Need(entries) + RecLen(|e.name|)
  {
    hide RecLen;
    if entries == [] {
      assert [] + [e] == [e] && [e][1..] == [];
    } else {
      NeedMore(entries[1..], e);
      assert (entries + [e])[1..] == entries[1..] + [e];
    }
  }

  // ---- blocks for leaves ----

  /** The block of each leaf lists its names. */
  ghost predicate LeafBlocks(blocks: seq<DirBlk>, leaves: seq<seq<Sorted>>, shape: Shape)
    requires shape.Valid()
  {
    |blocks| == |leaves| && forall i :: 0 <= i < |blocks| ==> PlainOk(blocks[i], shape) && EntriesOf(blocks[i], shape) == Listing(leaves[i])
  }

  lemma {:induction false} LeafBlocksList(blocks: seq<DirBlk>, leaves: seq<seq<Sorted>>, shape: Shape)
    requires shape.Valid() && LeafBlocks(blocks, leaves, shape)
    ensures All(blocks, shape) == Listing(Flatten(leaves))
  {
    hide EntriesOf, PlainOk;
    if blocks == [] {
      assert Listing([]) == [];
    } else {
      var n := |blocks| - 1;
      LeafBlocksList(blocks[..n], leaves[..n], shape);
      assert Listing(Flatten(leaves[..n]) + leaves[n]) == Listing(Flatten(leaves[..n])) + Listing(leaves[n]);
    }
  }

  ghost predicate NamesOk(names: seq<Sorted>) {
    forall x :: x in names ==> EntryOk(x.entry) && !Dotted(x.entry)
  }

  method BuildLeaves(leaves: seq<seq<Sorted>>, shape: Shape) returns (blocks: seq<DirBlk>)
    requires shape.Valid() && NamesOk(Flatten(leaves)) && forall i :: 0 <= i < |leaves| ==> Taken(leaves[i]) <= shape.Room()
    ensures LeafBlocks(blocks, leaves, shape)
  {
    hide Taken, Need, PlainOk, EntriesOf, BlockOf, EntryOk, Dotted;
    blocks := [];
    for i := 0 to |leaves|
      invariant LeafBlocks(blocks, leaves[..i], shape)
    {
      LeafStorable(leaves, i);
      TakenNeed(leaves[i]);
      BlockOfLists(Listing(leaves[i]), shape);
      blocks := blocks + [Plain(BlockOf(Listing(leaves[i]), shape))];
      assert leaves[..i + 1] == leaves[..i] + [leaves[i]];
    }
    assert leaves[..|leaves|] == leaves;
  }

  lemma {:induction false} LeafStorable(leaves: seq<seq<Sorted>>, i: nat)
    requires i < |leaves| && NamesOk(Flatten(leaves))
    ensures EntriesOk(Listing(leaves[i]))
  {
    hide EntryOk;
    forall k | 0 <= k < |leaves[i]| ensures EntryOk(Listing(leaves[i])[k]) {
      FlattenHas(leaves, i, leaves[i][k]);
    }
  }

  /** The blocks of an indexed directory: a root, its leaves, its nodes. */
  function Assembled(parent: nat, root: seq<IndexEntry>, leafBlocks: seq<DirBlk>, nodes: seq<seq<IndexEntry>>): seq<DirBlk> {
    [Root(parent, if nodes == [] then 0 else 1, root)] + leafBlocks + seq(|nodes|, n requires 0 <= n < |nodes| => Node(nodes[n]))
  }

  lemma {:induction false} NodesList(nodes: seq<DirBlk>, shape: Shape)
    requires shape.Valid() && forall n :: 0 <= n < |nodes| ==> nodes[n].Node?
    ensures All(nodes, shape) == []
  {
    if nodes != [] {
      NodesList(nodes[..|nodes| - 1], shape);
    }
  }

  lemma {:induction false} DotsOnly(shape: Shape, parent: nat)
    ensures Undotted(DotEntries(shape.self, parent, shape.dirType)) == []
    ensures ParentOf(DotEntries(shape.self, parent, shape.dirType), shape.self) == parent
  {
    var dots := DotEntries(shape.self, parent, shape.dirType);
    assert dots == [dots[0]] + [dots[1]];
    UndottedConcat([dots[0]], [dots[1]]);
    UndottedOne(dots[0]);
    UndottedOne(dots[1]);
    assert dots[1..][0].name == DOTDOT;
  }

  lemma {:induction false} NoneDotted(entries: seq<Entry>)
    requires forall i :: 0 <= i < |entries| ==> !Dotted(entries[i])
    ensures Undotted(entries) == entries
  {
    hide Dotted;
    if entries != [] {
      var n := |entries| - 1;
      NoneDotted(entries[..n]);
      assert entries == entries[..n] + [entries[n]];
    }
  }

  lemma {:induction false} NoParent(entries: seq<Entry>, self: nat)
    requires forall i :: 0 <= i < |entries| ==> !Dotted(entries[i])
    ensures ParentOf(entries, self) == self
  {
    if entries != [] {
      NoParent(entries[1..], self);
    }
  }

  /** What the assembled blocks list. */
  lemma {:induction false} AssembledLists(parent: nat, root: seq<IndexEntry>, leafBlocks: seq<DirBlk>, nodes: seq<seq<IndexEntry>>,
                                          leaves: seq<seq<Sorted>>, shape: Shape)
    requires shape.Valid() && LeafBlocks(leafBlocks, leaves, shape) && NamesOk(Flatten(leaves))
    ensures var all := All(Assembled(parent, root, leafBlocks, nodes), shape);
            Undotted(all) == Listing(Flatten(leaves)) && ParentOf(all, shape.self) == parent
  {
    hide EntriesOf, PlainOk, Undotted, ParentOf;
    var first := Root(parent, if nodes == [] then 0 else 1, root);
    var last := seq(|nodes|, n requires 0 <= n < |nodes| => Node(nodes[n]));
    AllConcat([first] + leafBlocks, last, shape);
    AllConcat([first], leafBlocks, shape);
    AllOne(first, shape);
    RootLists(first, shape);
    NodesList(last, shape);
    LeafBlocksList(leafBlocks, leaves, shape);
    var dots, rest := DotEntries(shape.self, parent, shape.dirType), Listing(Flatten(leaves));
    DotsOnly(shape, parent);
    forall i | 0 <= i < |rest| ensures !Dotted(rest[i]) {
      assert Flatten(leaves)[i] in Flatten(leaves);
    }
    NoneDotted(rest);
    NoParent(rest, shape.self);
    UndottedConcat(dots, rest);
    ParentConcat(dots, rest, shape.self);
    assert dots + rest + [] == dots + rest && [] + rest == rest;
  }

  lemma {:induction false} RootLists(b: DirBlk, shape: Shape)
    requires shape.Valid() && b.Root?
    ensures EntriesOf(b, shape) == DotEntries(shape.self, b.parent, shape.dirType)
  {
  }

  /** The assembled blocks are a tree over the leaves, and every name is home. */
  lemma {:induction false} AssembledTreed(parent: nat, root: seq<IndexEntry>, leafBlocks: seq<DirBlk>, nodes: seq<seq<IndexEntry>>,
                                          names: seq<Sorted>, leaves: seq<seq<Sorted>>, hashes: seq<nat>, per: nat, shape: Shape, hash: Bytes -> nat)
    requires shape.Valid() && LeafBlocks(leafBlocks, leaves, shape) && NamesOk(names)
    requires Packed(names, leaves, hashes, shape.Room()) && HashOrder(names) && RealHashes(names) && Stamped(names, hash)
    requires TreeOver(root, nodes, per, hashes)
    ensures var blocks := Assembled(parent, root, leafBlocks, nodes);
            && |hashes| < |blocks| && Treed(blocks, shape, hashes, per) && Homed(blocks, shape, hashes, hash)
  {
    hide EntriesOf, PlainOk, TreeOver, Rising, InRun, HashOrder, RealHashes;
    var blocks := Assembled(parent, root, leafBlocks, nodes);
    StoredRise(names, leaves, hashes, shape.Room());
    assert |leaves| == |hashes| && hashes != [];
    assert NodesOf(blocks, |hashes|) == nodes;
    forall k | 1 <= k <= |hashes| ensures HomedIn(blocks[k], shape, hashes, k - 1, hash) {
      assert blocks[k] == leafBlocks[k - 1];
      forall e | e in EntriesOf(blocks[k], shape) ensures !Dotted(e) && InRun(hashes, k - 1, hash(e.name)) {
        var j :| 0 <= j < |leaves[k - 1]| && Listing(leaves[k - 1])[j] == e;
        var x := leaves[k - 1][j];
        FlattenHas(leaves, k - 1, x);
        FlatComplete(names, leaves, hashes, shape.Room(), k - 1, x);
      }
    }
  }

  /** Every hash has its low bit clear. */
  ghost predicate EvenHashes(hash: Bytes -> nat) {
    forall n: Bytes :: hash(n) % 2 == 0
  }

  /** The names of a directory's entries but for the two dots, with their hashes. */
  method Gather(existing: seq<Entry>, hash: Bytes -> nat, minor: Bytes -> nat) returns (names: seq<Sorted>)
    ensures Listing(names) == Undotted(existing) && Stamped(names, hash) && Minored(names, minor)
    ensures forall x :: x in names ==> x.entry in existing && !Dotted(x.entry)
  {
    hide Listing, Undotted;
    names := [];
    ListingCons(Sorted(0, 0, Entry([], 0, 0)), []);
    assert existing[..0] == [];
    NoneUndotted();
    for i := 0 to |existing|
      invariant Listing(names) == Undotted(existing[..i]) && Stamped(names, hash) && Minored(names, minor)
      invariant forall x :: x in names ==> x.entry in existing && !Dotted(x.entry)
    {
      var entry := existing[i];
      assert existing[..i + 1] == existing[..i] + [entry];
      UndottedConcat(existing[..i], [entry]);
      UndottedOne(entry);
      if entry.name == DOT || entry.name == DOTDOT {
        assert Undotted(existing[..i]) + [] == Undotted(existing[..i]);
        continue;
      }
      var x := Sorted(hash(entry.name), minor(entry.name), entry);
      ListingMore(names, x);
      names := names + [x];
    }
    assert existing[..|existing|] == existing;
  }

  lemma {:induction false} NoneUndotted()
    ensures Undotted([]) == []
  {
  }

  lemma {:induction false} ListingMore(names: seq<Sorted>, x: Sorted)
    ensures Listing(names + [x]) == Listing(names) + [x.entry]
  {
  }

  /** Every entry but the two dots can be stored again. */
  lemma {:induction false} AllStored(blocks: seq<DirBlk>, shape: Shape, e: Entry)
    requires shape.Valid() && e in All(blocks, shape) && !Dotted(e)
    ensures EntryOk(e)
  {
    hide Chain, Live, EntryOk;
    var n := |blocks| - 1;
    if e in All(blocks[..n], shape) {
      AllStored(blocks[..n], shape, e);
    } else {
      assert e in EntriesOf(blocks[n], shape);
      match blocks[n] {
        case Plain(bytes) => LiveOk(bytes[..shape.Room()], e);
        case Root(parent, _, _) => DotsDotted(shape, parent, e);
        case Node(_) =>
      }
    }
  }

  lemma {:induction false} DotsDotted(shape: Shape, parent: nat, e: Entry)
    requires e in DotEntries(shape.self, parent, shape.dirType)
    ensures Dotted(e)
  {
  }

  /** An index just built: its leaves are those its entries pack into. */
  ghost predicate FreshIndex(blocks: seq<DirBlk>, hashes: seq<nat>, shape: Shape, hash: Bytes -> nat, minor: Bytes -> nat)
    requires shape.Valid()
  {
    exists names: seq<Sorted> :: Describes(names, Contents(blocks, shape), hash, minor) && LaidOut(blocks, names, hashes, shape)
  }

  /** What a rebuild leaves: the same entries, with one more if asked for, in an index that has a home for each. */
  ghost predicate Rebuilt(was: seq<DirBlk>, now: seq<DirBlk>, shape: Shape, extra: Option<Entry>, hashes: seq<nat>, per: nat, hash: Bytes -> nat)
    requires shape.Valid()
  {
    && |hashes| < |now| && Treed(now, shape, hashes, per) && Homed(now, shape, hashes, hash) && DistinctNames(Undotted(All(now, shape)))
    && ParentOf(All(now, shape), shape.self) == ParentOf(All(was, shape), shape.self)
    && match extra
       case None => Contents(now, shape) == Contents(was, shape)
       case Some(e) => Contents(now, shape) == Contents(was, shape) + {e} && e !in Contents(was, shape)
  }

  /** A set of entries, with one more if asked for. */
  ghost function With(entries: set<Entry>, extra: Option<Entry>): set<Entry> {
    match extra
    case None => entries
    case Some(e) => entries + {e}
  }

  /** The names to be placed: those there, and the one to be added. */
  ghost predicate ToPlace(names: seq<Sorted>, was: seq<DirBlk>, shape: Shape, extra: Option<Entry>, hash: Bytes -> nat, minor: Bytes -> nat)
    requires shape.Valid()
  {
    && NamesOk(names) && Describes(names, With(Contents(was, shape), extra), hash, minor)
    && (extra.Some? ==> extra.value !in Contents(was, shape))
  }

  method NamesToPlace(blocks: seq<DirBlk>, shape: Shape, extra: Option<Entry>, hash: Bytes -> nat, minor: Bytes -> nat) returns (r: Result<seq<Sorted>>)
    requires shape.Valid() && DistinctNames(Undotted(All(blocks, shape)))
    requires extra.Some? ==> EntryOk(extra.value) && !Dotted(extra.value)
    ensures r.Ok? ==> ToPlace(r.value, blocks, shape, extra, hash, minor)
    ensures r.Err? <==> extra.Some? && !NoneNamed(Contents(blocks, shape), extra.value.name)
    ensures r.Err? ==> r == Err(AlreadyExists)
  {
    hide EntryOk, Dotted, DistinctNames, Undotted, Listing;
    var existing := All(blocks, shape);
    var names := Gather(existing, hash, minor);
    forall x | x in names ensures EntryOk(x.entry) && !Dotted(x.entry) {
      AllStored(blocks, shape, x.entry);
    }
    if extra.None? {
      return Ok(names);
    }
    var e := extra.value;
    ListedNames(names, e.name);
    if exists i :: 0 <= i < |names| && names[i].entry.name == e.name {
      return Err(AlreadyExists);
    }
    var x := Sorted(hash(e.name), minor(e.name), e);
    ListingMore(names, x);
    AddsAt(Listing(names), [], e);
    assert Listing(names) + [] == Listing(names) && Listing(names) + [e] + [] == Listing(names) + [e];
    AddsOneSet(Listing(names), Listing(names + [x]), e);
    r := Ok(names + [x]);
  }

  lemma {:induction false} ListedNames(names: seq<Sorted>, name: Bytes)
    ensures (exists i :: 0 <= i < |names| && names[i].entry.name == name) <==> !NoneNamed(Elems(Listing(names)), name)
    ensures forall e: Entry :: e.name == name && NoneNamed(Elems(Listing(names)), name) ==> Unnamed(Listing(names), e) && e !in Elems(Listing(names))
  {
    if i :| 0 <= i < |names| && names[i].entry.name == name {
      assert Listing(names)[i] in Elems(Listing(names));
    }
    forall i | 0 <= i < |names| ensures Listing(names)[i] in Elems(Listing(names)) {
    }
    if !NoneNamed(Elems(Listing(names)), name) {
      var e :| e in Elems(Listing(names)) && e.name == name;
      var i :| 0 <= i < |names| && Listing(names)[i] == e;
      assert names[i].entry.name == name;
    }
  }

  // ---- how large an index is ----

  /** Names that stand for a set of entries, each with the hashes of its own name. */
  ghost predicate Describes(names: seq<Sorted>, entries: set<Entry>, hash: Bytes -> nat, minor: Bytes -> nat) {
    Stamped(names, hash) && Minored(names, minor) && DistinctNames(Listing(names)) && Elems(Listing(names)) == entries
  }

  /** The names pack into leaves with these hashes. */
  ghost predicate Leaved(names: seq<Sorted>, hashes: seq<nat>, shape: Shape)
    requires shape.Valid()
  {
    exists leaves: seq<seq<Sorted>> :: Packed(SortNames(names), leaves, hashes, shape.Room())
  }

  /** The block of each leaf, behind the root's, lists the leaf's names. */
  ghost predicate LeavesHold(blocks: seq<DirBlk>, leaves: seq<seq<Sorted>>, shape: Shape)
    requires shape.Valid()
  {
    |leaves| < |blocks| && forall i :: 0 <= i < |leaves| ==> EntriesOf(blocks[1 + i], shape) == Listing(leaves[i])
  }

  /** The leaves the names pack into are in the blocks behind the root's. */
  ghost predicate LaidOut(blocks: seq<DirBlk>, names: seq<Sorted>, hashes: seq<nat>, shape: Shape)
    requires shape.Valid()
  {
    exists leaves: seq<seq<Sorted>> :: Packed(SortNames(names), leaves, hashes, shape.Room()) && LeavesHold(blocks, leaves, shape)
  }

  function RootLimit(shape: Shape): nat {
    IndexLimit(shape.blockSize, ROOT_COUNT_OFFSET, shape.withTail)
  }

  function NodeLimit(shape: Shape): nat {
    IndexLimit(shape.blockSize, NODE_COUNT_OFFSET, shape.withTail)
  }

  /** More leaves than a root and one level of nodes hold. */
  predicate Overfull(leaves: nat, shape: Shape) {
    RootLimit(shape) < leaves && FirstOf(RootLimit(shape), NodeLimit(shape)) < leaves
  }

  /** The entries need more leaves than an index holds. */
  ghost predicate TooLarge(entries: set<Entry>, shape: Shape, hash: Bytes -> nat, minor: Bytes -> nat)
    requires shape.Valid()
  {
    exists names: seq<Sorted>, hashes: seq<nat> ::
      Describes(names, entries, hash, minor) && Leaved(names, hashes, shape) && Overfull(|hashes|, shape)
  }

  lemma {:induction false} InListing(names: seq<Sorted>, x: Sorted)
    requires x in names
    ensures x.entry in Elems(Listing(names))
  {
    var i :| 0 <= i < |names| && names[i] == x;
    assert Listing(names)[i] == x.entry;
  }

  lemma {:induction false} FromListing(names: seq<Sorted>, e: Entry) returns (x: Sorted)
    requires e in Elems(Listing(names))
    ensures x in names && x.entry == e
  {
    var i :| 0 <= i < |names| && Listing(names)[i] == e;
    x := names[i];
  }

  /** Names that stand for the same entries are the same names. */
  lemma {:induction false} SameNames(a: seq<Sorted>, b: seq<Sorted>, entries: set<Entry>, hash: Bytes -> nat, minor: Bytes -> nat)
    requires Describes(a, entries, hash, minor) && Describes(b, entries, hash, minor)
    ensures forall x :: x in a ==> x in b
  {
    hide Listing, DistinctNames;
    forall x | x in a ensures x in b {
      InListing(a, x);
      var y := FromListing(b, x.entry);
    }
  }

  /** Distinct names are each of them there once. */
  lemma {:induction false} EachOnce(names: seq<Sorted>, x: Sorted)
    requires DistinctNames(Listing(names)) && x in names
    ensures multiset(names)[x] == 1
  {
    var k :| 0 <= k < |names| && names[k] == x;
    assert names == names[..k] + [x] + names[k + 1..];
    forall j | 0 <= j < |names| && j != k ensures names[j] != x {
      assert Listing(names)[j].name != Listing(names)[k].name;
    }
    assert x !in names[..k] && x !in names[k + 1..];
    assert multiset(names) == multiset(names[..k]) + multiset([x]) + multiset(names[k + 1..]);
  }

  lemma {:induction false} SortedOneEach(names: seq<Sorted>)
    requires DistinctNames(Listing(names))
    ensures OneEach(SortNames(names))
  {
    hide SortNames, InOrder;
    SortSorts(names);
    forall x, y | x in SortNames(names) && y in SortNames(names) && x.entry.name == y.entry.name ensures x == y {
      assert x in multiset(SortNames(names)) && y in multiset(SortNames(names));
      var i :| 0 <= i < |names| && names[i] == x;
      var j :| 0 <= j < |names| && names[j] == y;
      assert Listing(names)[i].name == Listing(names)[j].name;
    }
  }

  /** However they are listed, the same entries sort one way. */
  lemma {:induction false} SortedOneWay(a: seq<Sorted>, b: seq<Sorted>, entries: set<Entry>, hash: Bytes -> nat, minor: Bytes -> nat)
    requires Describes(a, entries, hash, minor) && Describes(b, entries, hash, minor)
    ensures SortNames(a) == SortNames(b)
  {
    hide Listing, DistinctNames, Elems, InOrder, OneEach, SortNames;
    SameNames(a, b, entries, hash, minor);
    SameNames(b, a, entries, hash, minor);
    forall x: Sorted ensures multiset(a)[x] == multiset(b)[x] {
      if x in a {
        EachOnce(a, x);
        EachOnce(b, x);
      }
    }
    assert multiset(a) == multiset(b);
    SortSorts(a);
    SortSorts(b);
    SortedOneEach(a);
    OneOrder(SortNames(a), SortNames(b));
  }

  /** So whether an index is too large is told by any listing of its entries. */
  lemma {:induction false} TooLargeIs(names: seq<Sorted>, hashes: seq<nat>, entries: set<Entry>, shape: Shape, hash: Bytes -> nat, minor: Bytes -> nat)
    requires shape.Valid() && Describes(names, entries, hash, minor) && Leaved(names, hashes, shape)
    ensures TooLarge(entries, shape, hash, minor) <==> Overfull(|hashes|, shape)
  {
    hide Describes, Packed, Overfull, SortNames;
    if TooLarge(entries, shape, hash, minor) {
      var names', hashes' :| Describes(names', entries, hash, minor) && Leaved(names', hashes', shape) && Overfull(|hashes'|, shape);
      SortedOneWay(names, names', entries, hash, minor);
      var a :| Packed(SortNames(names), a, hashes, shape.Room());
      var b :| Packed(SortNames(names'), b, hashes', shape.Room());
      OnePacking(SortNames(names), a, hashes, b, hashes', shape.Room());
    }
  }

  /** Sort the names, pack them into leaves and lay an index over those. */
  method BuildDirectory(names: seq<Sorted>, parent: nat, shape: Shape, ghost hash: Bytes -> nat) returns (r: Result<seq<DirBlk>>, ghost hashes: seq<nat>, ghost per: nat)
    requires shape.Valid() && Stamped(names, hash) && NamesOk(names) && DistinctNames(Listing(names)) && EvenHashes(hash)
    ensures r.Ok? ==> |hashes| < |r.value| && Treed(r.value, shape, hashes, per) && Homed(r.value, shape, hashes, hash)
    ensures r.Ok? ==> Elems(Undotted(All(r.value, shape))) == Elems(Listing(names)) && DistinctNames(Undotted(All(r.value, shape)))
    ensures r.Ok? ==> ParentOf(All(r.value, shape), shape.self) == parent
    ensures Leaved(names, hashes, shape) && (r.Err? ==> r == Err(Unsupported)) && (r.Err? <==> Overfull(|hashes|, shape))
    ensures r.Ok? ==> PlannedFor(|hashes|, |r.value|, per, shape) && LaidOut(r.value, names, hashes, shape)
  {
    hide EntryOk, Dotted, DistinctNames, Undotted, Listing, InsertInOrder, Le, Taken, Flatten, TreeOver, HashOrder, RealHashes, FirstOf, Treed, Homed, ParentOf, IndexLimit;
    hashes, per := [], 0;
    var sorted := SortNames(names);
    SortStamped(names, hash);
    SortLists(names);
    SortOk(names);
    var leaves, stored := PackLeaves(sorted, shape.blockSize, shape.withTail);
    NamesFit(sorted, shape);
    var rootLimit := IndexLimit(shape.blockSize, ROOT_COUNT_OFFSET, shape.withTail);
    var nodeLimit := IndexLimit(shape.blockSize, NODE_COUNT_OFFSET, shape.withTail);
    LimitsPositive(shape);
    PackedFits(sorted, leaves.value, stored, shape.Room());
    var plan, root, nodes := BuildIndex(stored, rootLimit, nodeLimit);
    hashes := stored;
    PlanHolds(|stored|, rootLimit, nodeLimit);
    if plan.Err? {
      return Err(Unsupported), hashes, per;
    }
    var leafBlocks := BuildLeaves(leaves.value, shape);
    per := plan.value.perNode;
    AssembledLists(parent, root, leafBlocks, nodes, leaves.value, shape);
    AssembledTreed(parent, root, leafBlocks, nodes, sorted, leaves.value, stored, per, shape, hash);
    AssembledHold(parent, root, leafBlocks, nodes, leaves.value, shape);
    r := Ok(Assembled(parent, root, leafBlocks, nodes));
  }

  lemma {:induction false} AssembledHold(parent: nat, root: seq<IndexEntry>, leafBlocks: seq<DirBlk>, nodes: seq<seq<IndexEntry>>,
                                         leaves: seq<seq<Sorted>>, shape: Shape)
    requires shape.Valid() && LeafBlocks(leafBlocks, leaves, shape)
    ensures LeavesHold(Assembled(parent, root, leafBlocks, nodes), leaves, shape)
  {
    hide EntriesOf, PlainOk;
    var blocks := Assembled(parent, root, leafBlocks, nodes);
    forall i | 0 <= i < |leaves| ensures EntriesOf(blocks[1 + i], shape) == Listing(leaves[i]) {
      assert blocks[1 + i] == leafBlocks[i];
    }
  }

  /** The index is laid out over its leaves as planned. */
  predicate PlannedFor(leaves: nat, blocks: nat, per: nat, shape: Shape) {
    0 < NodeLimit(shape) &&
    var plan := PlanIndex(leaves, RootLimit(shape), NodeLimit(shape));
    plan.Ok? && per == plan.value.perNode && blocks == plan.value.total
  }

  lemma {:induction false} SortOk(names: seq<Sorted>)
    requires NamesOk(names)
    ensures NamesOk(SortNames(names))
  {
    SortSorts(names);
    forall x | x in SortNames(names) ensures x in names {
      assert x in multiset(SortNames(names));
    }
  }

  /** No name is too long for a block. */
  lemma {:induction false} NamesFit(names: seq<Sorted>, shape: Shape)
    requires shape.Valid() && NamesOk(names)
    ensures forall x :: x in names ==> RecLen(|x.entry.name|) <= shape.Room()
  {
    forall x | x in names ensures RecLen(|x.entry.name|) <= shape.Room() {
      RecLenMonotone(|x.entry.name|, 255);
    }
  }

  lemma {:induction false} LimitsPositive(shape: Shape)
    requires shape.Valid()
    ensures 0 < IndexLimit(shape.blockSize, NODE_COUNT_OFFSET, shape.withTail)
  {
  }

  lemma {:induction false} PackedFits(names: seq<Sorted>, leaves: seq<seq<Sorted>>, hashes: seq<nat>, usable: nat)
    requires Packed(names, leaves, hashes, usable)
    ensures |leaves| == |hashes| && hashes != [] && Flatten(leaves) == names
    ensures forall i :: 0 <= i < |leaves| ==> Taken(leaves[i]) <= usable
  {
    forall i | 0 <= i < |leaves| ensures Taken(leaves[i]) <= usable {
      assert LeafOk(leaves, hashes, i, usable);
    }
  }

  // ---- the directory ----

  lemma {:induction false} DotsStorable(shape: Shape, parent: nat)
    requires shape.Valid() && 0 < parent < U32_LIMIT
    ensures var dots := DotEntries(shape.self, parent, shape.dirType); Need(dots) <= shape.Room() && EntriesOk(dots)
  {
    var dots := DotEntries(shape.self, parent, shape.dirType);
    assert RecLen(1) == 12 && RecLen(2) == 12;
    assert Need(dots[1..]) == RecLen(2) + Need(dots[1..][1..]);
  }

  /** The block a directory begins with. */
  function FirstBlock(shape: Shape, parent: nat): DirBlk
    requires shape.Valid() && 0 < parent < U32_LIMIT
  {
    DotsStorable(shape, parent);
    Plain(BlockOf(DotEntries(shape.self, parent, shape.dirType), shape))
  }

  /** One block of the two dots is a sound directory that has no other names. */
  lemma {:induction false} NewSound(shape: Shape, parent: nat, hash: Bytes -> nat)
    requires shape.Valid() && 0 < parent < U32_LIMIT && EvenHashes(hash)
    ensures Sound([FirstBlock(shape, parent)], false, shape, [], 0, hash) && Contents([FirstBlock(shape, parent)], shape) == {}
    ensures ParentOf(All([FirstBlock(shape, parent)], shape), shape.self) == parent
  {
    hide EntriesOf, PlainOk, BlockOf, Need, Undotted, ParentOf, EvenHashes;
    DotsStorable(shape, parent);
    BlockOfLists(DotEntries(shape.self, parent, shape.dirType), shape);
    AllOne(FirstBlock(shape, parent), shape);
    DotsOnly(shape, parent);
  }

  /** Sound whichever way it is kept: as a list of blocks, or as a tree with a home for every name. */
  ghost predicate Sound(blocks: seq<DirBlk>, indexed: bool, shape: Shape, hashes: seq<nat>, per: nat, hash: Bytes -> nat) {
    && shape.Valid() && EvenHashes(hash) && DistinctNames(Undotted(All(blocks, shape)))
    && if indexed then |hashes| < |blocks| && Treed(blocks, shape, hashes, per) && Homed(blocks, shape, hashes, hash)
       else forall k :: 0 <= k < |blocks| ==> PlainOk(blocks[k], shape)
  }

  /** Every name can be found: in a list always, under an index where no interior node begins inside a run. */
  ghost predicate Findable(blocks: seq<DirBlk>, indexed: bool, hashes: seq<nat>, per: nat) {
    indexed ==> 1 + |hashes| <= |blocks| && (forall k :: 1 + |hashes| <= k < |blocks| ==> blocks[k].Node?)
                && NodesStartRuns(NodesOf(blocks, |hashes|), per, hashes)
  }

  predicate NameOk(name: Bytes) {
    name != [] && |name| <= NAME_LEN_MAX && 47 !in name
  }

  /** The blocks of a run are all of them blocks of entries. */
  ghost predicate Within(run: seq<nat>, blocks: seq<DirBlk>, shape: Shape)
    requires shape.Valid()
  {
    forall j :: 0 <= j < |run| ==> run[j] < |blocks| && PlainOk(blocks[run[j]], shape)
  }

  /** None of a run's blocks has the name. */
  ghost predicate NotIn(run: seq<nat>, blocks: seq<DirBlk>, shape: Shape, name: Bytes)
    requires shape.Valid() && Within(run, blocks, shape)
  {
    forall j, x :: 0 <= j < |run| && x in EntriesOf(blocks[run[j]], shape) ==> x.name != name
  }

  /** No record of the block has room for the name. */
  ghost predicate NoRoom(b: DirBlk, shape: Shape, name: Bytes)
    requires shape.Valid() && PlainOk(b, shape)
  {
    forall s :: s in SlotsOf(b, shape) ==> Slack(s) < RecLen(|name|)
  }

  /** No room where a name would go, so that the index has to be built again. */
  ghost predicate Crammed(blocks: seq<DirBlk>, indexed: bool, indexing: bool, shape: Shape, hashes: seq<nat>, h: nat, name: Bytes)
    requires shape.Valid()
  {
    if indexed then
      hashes != [] && 1 + FindLast(hashes, h) < |blocks| && PlainOk(blocks[1 + FindLast(hashes, h)], shape)
      && NoRoom(blocks[1 + FindLast(hashes, h)], shape, name)
    else indexing && forall k :: 0 <= k < |blocks| ==> PlainOk(blocks[k], shape) && NoRoom(blocks[k], shape, name)
  }

  /** Block k is among those a search for a hash reads. */
  ghost predicate Searched(blocks: seq<DirBlk>, indexed: bool, hashes: seq<nat>, per: nat, h: nat, k: nat) {
    indexed ==>
      && 1 <= k && hashes != [] && 1 + |hashes| <= |blocks| && (forall j :: 1 + |hashes| <= j < |blocks| ==> blocks[j].Node?)
      && blocks[0].Root? && blocks[0].entries != []
      && Reached(blocks[0].entries, NodesOf(blocks, |hashes|), per, hashes, k - 1, h)
  }

  /** A block searched has the name. */
  ghost predicate Seen(blocks: seq<DirBlk>, indexed: bool, shape: Shape, hashes: seq<nat>, per: nat, h: nat, name: Bytes)
    requires shape.Valid()
  {
    exists k, e :: 0 <= k < |blocks| && Searched(blocks, indexed, hashes, per, h, k) && e in EntriesOf(blocks[k], shape) && e.name == name
  }

  /** The blocks changed only so. */
  predicate ChangedSo(was: seq<DirBlk>, now: seq<DirBlk>, how: Change) {
    match how
    case Edited(k) => k < |was| == |now| && now == was[k := now[k]]
    case Added => |now| == |was| + 1 && now[..|was|] == was
    case Relaid => true
  }

  /** What of a directory has to be written once a name has been put in: one block, one more, or all of them. */
  datatype Change = Edited(block: nat) | Added | Relaid

  class Directory {
    const shape: Shape
    const indexing: bool  // whether the filesystem allows indices
    const hash: Bytes -> nat
    const minor: Bytes -> nat
    var blocks: seq<DirBlk>
    var indexed: bool
    ghost var hashes: seq<nat>
    ghost var per: nat

    /** A new directory: one block with the two dots. */
    constructor (shape: Shape, indexing: bool, hash: Bytes -> nat, minor: Bytes -> nat, parent: nat)
      requires shape.Valid() && EvenHashes(hash) && 0 < parent < U32_LIMIT
      ensures Valid() && Entries() == {} && !indexed && Findable(blocks, indexed, hashes, per)
      ensures this.shape == shape && this.indexing == indexing && this.hash == hash && this.minor == minor
      ensures blocks == [FirstBlock(shape, parent)] && ParentOf(All(blocks, shape), shape.self) == parent
    {
      this.shape, this.indexing, this.hash, this.minor := shape, indexing, hash, minor;
      DotsStorable(shape, parent);
      blocks, indexed := [FirstBlock(shape, parent)], false;
      hashes, per := [], 0;
      NewSound(shape, parent, hash);
    }

    ghost predicate Valid()
      reads this
    {
      Sound(blocks, indexed, shape, hashes, per, hash)
    }

    ghost function Entries(): set<Entry>
      reads this
      requires Valid()
    {
      Contents(blocks, shape)
    }

    /** Every leaf a name could be in, as blocks of the directory. */
    method FindRun(name: Bytes) returns (run: seq<nat>)
      requires Valid() && indexed
      ensures run != [] && hashes != [] && run[0] == 1 + FindLast(hashes, hash(name))
      ensures forall b :: b in run ==> 1 <= b <= |hashes| < |blocks|
      ensures Findable(blocks, indexed, hashes, per) ==> forall i: nat :: InRun(hashes, i, hash(name)) ==> 1 + i in run
      ensures forall k :: 0 <= k < |blocks| ==> (k in run <==> Searched(blocks, indexed, hashes, per, hash(name), k))
    {
      hide EntriesOf, PlainOk, DistinctNames, Undotted, Homed, InRun, Reached, TreeOver, Rising, NodesStartRuns;
      ghost var nodes := NodesOf(blocks, |hashes|);
      var from := LeafCount();
      run := LeafRun(blocks[0].entries, blocks[0].levels, NodesOf(blocks, from), hash(name), per, hashes);
      if Findable(blocks, indexed, hashes, per) {
        forall i: nat | InRun(hashes, i, hash(name)) ensures 1 + i in run {
          WholeRun(blocks[0].entries, nodes, per, hashes, i, hash(name));
        }
      }
    }

    /** How many leaves there are: the blocks between the root and the first node. */
    method LeafCount() returns (n: nat)
      requires Valid() && indexed
      ensures n == |hashes|
    {
      hide EntriesOf, DistinctNames, Undotted, Homed, TreeOver, Rising;
      n := 0;
      while 1 + n < |blocks| && blocks[1 + n].Plain?
        invariant n <= |hashes|
        decreases |blocks| - n
      {
        n := n + 1;
      }
    }

    /** Put a name in the first of some blocks with room for it. */
    method PutFirst(run: seq<nat>, e: Entry) returns (done: bool, k: nat)
      requires shape.Valid() && EntryOk(e) && Within(run, blocks, shape)
      modifies this`blocks
      ensures done ==> k in run && k < old(|blocks|) == |blocks| && blocks == old(blocks)[k := blocks[k]] && PlainOk(blocks[k], shape)
                       && AddsOne(EntriesOf(old(blocks)[k], shape), EntriesOf(blocks[k], shape), e)
      ensures !done ==> blocks == old(blocks)
      ensures done <==> exists j :: 0 <= j < |run| && !NoRoom(old(blocks)[run[j]], shape, e.name)
    {
      hide EntriesOf, PlainOk, AddsOne, EntryOk, SlotsOf;
      k := 0;
      for i := 0 to |run|
        invariant blocks == old(blocks)
        invariant forall j :: 0 <= j < i ==> NoRoom(blocks[run[j]], shape, e.name)
      {
        var now := PutInto(blocks[run[i]], shape, e);
        if now.Some? {
          k := run[i];
          blocks := blocks[run[i] := now.value];
          return true, k;
        }
      }
      done := false;
    }

    /** Take a name out of the first of some blocks that has it. */
    method TakeFirst(run: seq<nat>, name: Bytes) returns (r: Option<nat>, k: nat, ghost e: Entry)
      requires shape.Valid() && Within(run, blocks, shape)
      modifies this`blocks
      ensures r.Some? ==> k in run && k < old(|blocks|) == |blocks| && blocks == old(blocks)[k := blocks[k]] && PlainOk(blocks[k], shape)
                          && e.name == name && e.inode == r.value && AddsOne(EntriesOf(blocks[k], shape), EntriesOf(old(blocks)[k], shape), e)
      ensures r.None? ==> blocks == old(blocks) && Within(run, blocks, shape) && NotIn(run, blocks, shape, name)
    {
      hide EntriesOf, PlainOk, AddsOne;
      k, e := 0, Entry(name, 0, 0);
      for i := 0 to |run|
        invariant blocks == old(blocks)
        invariant forall j, x :: 0 <= j < i && x in EntriesOf(blocks[run[j]], shape) ==> x.name != name
      {
        var now, removed := TakeFrom(blocks[run[i]], shape, name);
        if now.Some? {
          k := run[i];
          e :| e.name == name && e.inode == removed && AddsOne(EntriesOf(now.value, shape), EntriesOf(blocks[k], shape), e);
          blocks := blocks[run[i] := now.value];
          return Some(removed), k, e;
        }
      }
      r := None;
    }

    /** Rebuild the index from scratch, with one more name if asked for. */
    method Rebuild(extra: Option<Entry>) returns (r: Result<()>)
      requires Valid() && (extra.Some? ==> EntryOk(extra.value) && !Dotted(extra.value))
      modifies this
      ensures Valid()
      ensures r.Ok? ==> indexed && Rebuilt(old(blocks), blocks, shape, extra, hashes, per, hash)
      ensures r.Err? ==> blocks == old(blocks) && indexed == old(indexed) && hashes == old(hashes) && per == old(per)
      ensures r == Err(AlreadyExists) <==> extra.Some? && !NoneNamed(Contents(old(blocks), shape), extra.value.name)
      ensures r.Err? ==> r.error == AlreadyExists || r.error == Unsupported
      ensures r != Err(AlreadyExists) ==> (r.Err? <==> TooLarge(With(Contents(old(blocks), shape), extra), shape, hash, minor))
      ensures r.Ok? ==> PlannedFor(|hashes|, |blocks|, per, shape) && FreshIndex(blocks, hashes, shape, hash, minor)
    {
      hide EntriesOf, PlainOk, EntryOk, Dotted, DistinctNames, Undotted, Listing, Treed, Homed, ParentOf, NoneNamed, Stamped, Minored, NamesOk, EvenHashes, All;
      hide Leaved, LaidOut, TooLarge, Overfull, PlannedFor;
      var parent := ParentOf(All(blocks, shape), shape.self);
      var names := NamesToPlace(blocks, shape, extra, hash, minor);
      if names.Err? {
        return Err(names.error);
      }
      var built, stored, perNode := BuildDirectory(names.value, parent, shape, hash);
      TooLargeIs(names.value, stored, With(Contents(blocks, shape), extra), shape, hash, minor);
      if built.Err? {
        return Err(built.error);
      }
      blocks, indexed := built.value, true;
      hashes, per := stored, perNode;
      r := Ok(());
    }

    /** Add a name: to the one leaf it belongs in, or to the first block with room; else rebuild, or grow. */
    method Link(name: Bytes, target: nat, fileType: byte) returns (r: Result<()>, how: Change)
      requires Valid() && 0 < target < U32_LIMIT && name != DOT && name != DOTDOT && NoneNamed(Entries(), name)
      modifies this
      ensures Valid()
      ensures r.Ok? ==> Gained(old(blocks), blocks, shape, Entry(name, target, fileType))
      ensures r.Err? ==> blocks == old(blocks) && indexed == old(indexed)
      ensures r == Err(InvalidName) <==> !NameOk(name)
      ensures r.Err? ==> r.error == InvalidName || r.error == Unsupported
      ensures r == Err(Unsupported) <==>
                && NameOk(name) && old(Crammed(blocks, indexed, indexing, shape, hashes, hash(name), name))
                && TooLarge(old(Entries()) + {Entry(name, target, fileType)}, shape, hash, minor)
      ensures old(indexed) ==> indexed
      ensures !indexing ==> indexed == old(indexed)
      ensures r.Ok? ==> ChangedSo(old(blocks), blocks, how) && indexed == (old(indexed) || how.Relaid?)
      ensures r.Ok? && how.Edited? ==> forall n: Bytes ::
                Seen(blocks, indexed, shape, hashes, per, hash(n), n) <==> n == name || Seen(old(blocks), indexed, shape, hashes, per, hash(n), n)
      ensures r.Ok? && how.Relaid? ==> PlannedFor(|hashes|, |blocks|, per, shape) && FreshIndex(blocks, hashes, shape, hash, minor)
    {
      hide EntriesOf, PlainOk, DistinctNames, Undotted, Treed, Homed, ParentOf, All, AddsOne, FindLast, Findable, NoneNamed, NoRoom, TooLarge, Searched, FreshIndex, PlannedFor, Seen;
      how := Relaid;
      if name == [] || |name| > NAME_LEN_MAX || 47 in name {
        return Err(InvalidName), how;
      }
      var e := Entry(name, target, fileType);
      var run := if indexed then [] else Every(|blocks|);
      if indexed {
        var found := FindRun(name);
        run := [found[0]];
        LeafPlain(blocks, shape, hashes, per, found[0]);
      }
      var done, k := PutFirst(run, e);
      if done {
        PutKeeps(old(blocks), blocks, indexed, shape, hashes, per, hash, k, e);
        if !indexed {
          ListSearched(old(blocks), hashes, per, hash(name), k);
        }
        PutSeen(old(blocks), blocks, indexed, shape, hashes, per, hash, k, e);
        forall n: Bytes ensures Seen(blocks, indexed, shape, hashes, per, hash(n), n) <==> n == name || Seen(old(blocks), indexed, shape, hashes, per, hash(n), n)
        {
          if n != name {
            SeenKept(old(blocks), blocks, indexed, shape, hashes, per, hash, k, e, n);
          }
        }
        return Ok(()), Edited(k);
      }
      ListRoom(blocks, run, indexed, shape, hash(name), hashes, name, indexing);
      if indexed || indexing {
        r := Rebuild(Some(e));
        RebuiltGains(old(blocks), blocks, shape, e, hashes, per, hash, r);
        return;
      }
      Grow(e);
      r, how := Ok(()), Added;
    }

    /** No room anywhere, and no index to be had: add a block. */
    method Grow(e: Entry)
      requires Valid() && !indexed && EntryOk(e) && !Dotted(e) && NoneNamed(Entries(), e.name)
      modifies this`blocks
      ensures Valid() && Gained(old(blocks), blocks, shape, e) && ChangedSo(old(blocks), blocks, Added)
    {
      hide DistinctNames, Undotted, ParentOf, All, AddsOne, NoneNamed, Chain, Build, Live, EntriesOf, EntryOk, Dotted, RecLen, Slack;
      var buf := EmptyBlock(shape.blockSize, shape.withTail);
      var made := Plain(buf[..]);
      assert made.bytes[..shape.Room()] == buf[..shape.Room()];
      EmptyRoom(made, shape, e);
      var full := PutInto(made, shape, e);
      GrowGains(blocks, full.value, made, shape, e);
      blocks := blocks + [full.value];
    }

    /** Take a name out. */
    method Unlink(name: Bytes) returns (r: Result<nat>, k: nat)
      requires Valid() && name != DOT && name != DOTDOT
      modifies this`blocks
      ensures Valid()
      ensures r.Ok? ==> exists e: Entry :: e.name == name && e.inode == r.value && Gained(blocks, old(blocks), shape, e)
      ensures r.Err? ==> r == Err(NotFound) && blocks == old(blocks)
      ensures r.Ok? <==> Seen(old(blocks), indexed, shape, hashes, per, hash(name), name)
      ensures r.Err? && Findable(blocks, indexed, hashes, per) ==> NoneNamed(Entries(), name)
      ensures Findable(blocks, indexed, hashes, per) <==> old(Findable(blocks, indexed, hashes, per))
      ensures r.Ok? ==> ChangedSo(old(blocks), blocks, Edited(k))
      ensures forall n: Bytes :: n != name ==>
                (Seen(blocks, indexed, shape, hashes, per, hash(n), n) <==> Seen(old(blocks), indexed, shape, hashes, per, hash(n), n))
    {
      hide Seen, EntriesOf, PlainOk, DistinctNames, Undotted, Treed, Homed, ParentOf, All, AddsOne, FindLast, NoneNamed, InRun, Findable, Searched;
      var run := Every(|blocks|);
      EveryHas(|blocks|);
      if indexed {
        run := FindRun(name);
        RunPlain(blocks, shape, hashes, per, run);
      }
      var found, at, e := TakeFirst(run, name);
      k := at;
      if found.Some? {
        TakeKeeps(old(blocks), blocks, indexed, shape, hashes, per, hash, k, e);
        AddsHas(EntriesOf(blocks[k], shape), EntriesOf(old(blocks)[k], shape), e);
        ListSearched(old(blocks), hashes, per, hash(name), k);
        SeenIn(old(blocks), indexed, shape, hashes, per, hash(name), k, e);
        forall n: Bytes | n != name
          ensures Seen(blocks, indexed, shape, hashes, per, hash(n), n) <==> Seen(old(blocks), indexed, shape, hashes, per, hash(n), n)
        {
          SeenKept(blocks, old(blocks), indexed, shape, hashes, per, hash, k, e, n);
        }
        return Ok(found.value), k;
      }
      if Findable(blocks, indexed, hashes, per) {
        NotThere(blocks, indexed, shape, hashes, per, hash, run, name);
      }
      NotSeen(blocks, indexed, shape, hashes, per, hash(name), run, name);
      r := Err(NotFound);
    }

    /** Look a name up. */
    method Lookup(name: Bytes) returns (r: Option<Entry>)
      requires Valid() && name != DOT && name != DOTDOT
      ensures r.Some? ==> r.value in Entries() && r.value.name == name
      ensures r.Some? <==> Seen(blocks, indexed, shape, hashes, per, hash(name), name)
      ensures r.None? && Findable(blocks, indexed, hashes, per) ==> NoneNamed(Entries(), name)
    {
      hide EntriesOf, PlainOk, DistinctNames, Undotted, Treed, Homed, ParentOf, All, FindLast, NoneNamed, InRun, Findable, Searched;
      var run := Every(|blocks|);
      EveryHas(|blocks|);
      if indexed {
        run := FindRun(name);
        RunPlain(blocks, shape, hashes, per, run);
      }
      for i := 0 to |run|
        invariant forall j, x :: 0 <= j < i && x in EntriesOf(blocks[run[j]], shape) ==> x.name != name
      {
        var entries := EntriesOf(blocks[run[i]], shape);
        for j := 0 to |entries|
          invariant forall x :: x in entries[..j] ==> x.name != name
        {
          assert entries[..j + 1] == entries[..j] + [entries[j]];
          if entries[j].name == name {
            IsContent(blocks, shape, run[i], entries[j]);
            ListSearched(blocks, hashes, per, hash(name), run[i]);
            return Some(entries[j]);
          }
        }
        assert entries[..|entries|] == entries;
      }
      if Findable(blocks, indexed, hashes, per) {
        NotThere(blocks, indexed, shape, hashes, per, hash, run, name);
      }
      NotSeen(blocks, indexed, shape, hashes, per, hash(name), run, name);
      r := None;
    }
  }

  lemma {:induction false} SeenIn(blocks: seq<DirBlk>, indexed: bool, shape: Shape, hashes: seq<nat>, per: nat, h: nat, k: nat, e: Entry)
    requires shape.Valid() && k < |blocks| && Searched(blocks, indexed, hashes, per, h, k) && e in EntriesOf(blocks[k], shape)
    ensures Seen(blocks, indexed, shape, hashes, per, h, e.name)
  {
    hide Searched, EntriesOf;
  }

  /** An entry more in one block changes no other name's being seen. */
  lemma {:induction false} SeenKept(was: seq<DirBlk>, now: seq<DirBlk>, indexed: bool, shape: Shape, hashes: seq<nat>, per: nat, hash: Bytes -> nat, k: nat, e: Entry, n: Bytes)
    requires Sound(was, indexed, shape, hashes, per, hash) && k < |was| == |now| && now == was[k := now[k]] && PlainOk(now[k], shape)
    requires AddsOne(EntriesOf(was[k], shape), EntriesOf(now[k], shape), e) && n != e.name && (indexed ==> 1 <= k <= |hashes|)
    ensures Seen(now, indexed, shape, hashes, per, hash(n), n) <==> Seen(was, indexed, shape, hashes, per, hash(n), n)
  {
    hide EntriesOf, PlainOk, DistinctNames, Undotted, ParentOf, All, AddsOne, Treed, Homed, EvenHashes, Reached;
    AddsOneSet(EntriesOf(was[k], shape), EntriesOf(now[k], shape), e);
    if indexed {
      TreedEdit(was, shape, hashes, per, k, now[k]);
      IndexPlaces(was, shape, hashes, per);
    }
    forall j, x: Entry | 0 <= j < |was| && x.name == n ensures x in EntriesOf(now[j], shape) <==> x in EntriesOf(was[j], shape) {
      assert x in Elems(EntriesOf(was[k], shape)) <==> x in Elems(EntriesOf(now[k], shape));
    }
    forall j | 0 <= j < |was| ensures Searched(now, indexed, hashes, per, hash(n), j) <==> Searched(was, indexed, hashes, per, hash(n), j) {
      SearchedSame(was, now, indexed, shape, hashes, per, hash(n), j);
    }
    hide Searched;
  }

  lemma {:induction false} IndexPlaces(blocks: seq<DirBlk>, shape: Shape, hashes: seq<nat>, per: nat)
    requires shape.Valid() && Treed(blocks, shape, hashes, per)
    ensures |hashes| < |blocks| && forall k :: 1 + |hashes| <= k < |blocks| ==> blocks[k].Node?
  {
    hide TreeOver, Rising, PlainOk;
  }

  lemma {:induction false} SearchedSame(was: seq<DirBlk>, now: seq<DirBlk>, indexed: bool, shape: Shape, hashes: seq<nat>, per: nat, h: nat, j: nat)
    requires |now| == |was| && j < |was|
    requires indexed ==> |hashes| < |was| && was[0] == now[0] && (forall k :: 1 + |hashes| <= k < |was| ==> was[k].Node? && now[k] == was[k])
    ensures Searched(now, indexed, hashes, per, h, j) <==> Searched(was, indexed, hashes, per, h, j)
  {
    hide Reached;
    if indexed {
      assert NodesOf(now, |hashes|) == NodesOf(was, |hashes|);
    }
  }

  /** A name put in the leaf its hash leads to is seen. */
  lemma {:induction false} PutSeen(was: seq<DirBlk>, now: seq<DirBlk>, indexed: bool, shape: Shape, hashes: seq<nat>, per: nat, hash: Bytes -> nat, k: nat, e: Entry)
    requires Sound(was, indexed, shape, hashes, per, hash) && k < |was| == |now| && now == was[k := now[k]] && PlainOk(now[k], shape)
    requires AddsOne(EntriesOf(was[k], shape), EntriesOf(now[k], shape), e)
    requires Searched(was, indexed, hashes, per, hash(e.name), k) && (indexed ==> 1 <= k <= |hashes|)
    ensures Seen(now, indexed, shape, hashes, per, hash(e.name), e.name)
  {
    hide EntriesOf, PlainOk, DistinctNames, Undotted, ParentOf, All, AddsOne, Treed, Homed, EvenHashes, Searched;
    AddsHas(EntriesOf(was[k], shape), EntriesOf(now[k], shape), e);
    if indexed {
      TreedEdit(was, shape, hashes, per, k, now[k]);
      IndexPlaces(was, shape, hashes, per);
    }
    SearchedSame(was, now, indexed, shape, hashes, per, hash(e.name), k);
    SeenIn(now, indexed, shape, hashes, per, hash(e.name), k, e);
  }

  /** A search of a list reads every block. */
  lemma {:induction false} ListSearched(blocks: seq<DirBlk>, hashes: seq<nat>, per: nat, h: nat, k: nat)
    ensures Searched(blocks, false, hashes, per, h, k)
  {
  }

  lemma {:induction false} NotSeen(blocks: seq<DirBlk>, indexed: bool, shape: Shape, hashes: seq<nat>, per: nat, h: nat, run: seq<nat>, name: Bytes)
    requires shape.Valid() && Within(run, blocks, shape) && NotIn(run, blocks, shape, name)
    requires forall k :: 0 <= k < |blocks| && Searched(blocks, indexed, hashes, per, h, k) ==> k in run
    ensures !Seen(blocks, indexed, shape, hashes, per, h, name)
  {
    hide EntriesOf, PlainOk, Searched;
    forall k, e | 0 <= k < |blocks| && Searched(blocks, indexed, hashes, per, h, k) && e in EntriesOf(blocks[k], shape) ensures e.name != name {
      var j :| 0 <= j < |run| && run[j] == k;
      assert e in EntriesOf(blocks[run[j]], shape);
    }
  }

  lemma {:induction false} AddsHas(was: seq<Entry>, now: seq<Entry>, e: Entry)
    requires AddsOne(was, now, e)
    ensures e in now
  {
    AddsOneSet(was, now, e);
    assert e in Elems(now);
  }

  /** None of the blocks a name may go in has room for it. */
  lemma {:induction false} ListRoom(blocks: seq<DirBlk>, run: seq<nat>, indexed: bool, shape: Shape, h: nat, hashes: seq<nat>, name: Bytes, indexing: bool)
    requires shape.Valid() && Within(run, blocks, shape) && forall j :: 0 <= j < |run| ==> NoRoom(blocks[run[j]], shape, name)
    requires if indexed then hashes != [] && run == [1 + FindLast(hashes, h)] else run == Every(|blocks|)
    ensures indexed || indexing ==> Crammed(blocks, indexed, indexing, shape, hashes, h, name)
  {
    hide PlainOk, NoRoom, FindLast;
    if indexed {
      assert NoRoom(blocks[run[0]], shape, name);
    } else {
      forall k | 0 <= k < |blocks| ensures PlainOk(blocks[k], shape) && NoRoom(blocks[k], shape, name) {
        assert run[k] == k && NoRoom(blocks[run[k]], shape, name);
      }
    }
  }

  lemma {:induction false} RunPlain(blocks: seq<DirBlk>, shape: Shape, hashes: seq<nat>, per: nat, run: seq<nat>)
    requires shape.Valid() && Treed(blocks, shape, hashes, per) && forall b :: b in run ==> 1 <= b <= |hashes|
    ensures Within(run, blocks, shape)
  {
    hide PlainOk, TreeOver, Rising;
    forall j | 0 <= j < |run| ensures 1 <= run[j] <= |hashes| {
      assert run[j] in run;
    }
  }

  lemma {:induction false} LeafPlain(blocks: seq<DirBlk>, shape: Shape, hashes: seq<nat>, per: nat, b: nat)
    requires shape.Valid() && Treed(blocks, shape, hashes, per) && 1 <= b <= |hashes|
    ensures b < |blocks| && PlainOk(blocks[b], shape)
  {
    hide PlainOk, TreeOver, Rising;
  }

  lemma {:induction false} PutKeeps(was: seq<DirBlk>, now: seq<DirBlk>, indexed: bool, shape: Shape, hashes: seq<nat>, per: nat, hash: Bytes -> nat, k: nat, e: Entry)
    requires Sound(was, indexed, shape, hashes, per, hash) && k < |was| == |now| && now == was[k := now[k]] && PlainOk(now[k], shape)
    requires AddsOne(EntriesOf(was[k], shape), EntriesOf(now[k], shape), e) && !Dotted(e) && NoneNamed(Contents(was, shape), e.name)
    requires indexed ==> hashes != [] && k == 1 + FindLast(hashes, hash(e.name))
    ensures Sound(now, indexed, shape, hashes, per, hash) && Gained(was, now, shape, e)
  {
    hide EntriesOf, PlainOk, DistinctNames, Undotted, ParentOf, All, AddsOne, NoneNamed, Treed, Homed, FindLast, EvenHashes, Dotted;
    BlockAddsOne(was, k, now[k], shape, e);
    GainsOne(was, now, shape, e);
    if indexed {
      InOwnRun(hashes, hash(e.name));
      TreedEdit(was, shape, hashes, per, k, now[k]);
      HomedPut(was, shape, hashes, hash, k, now[k], e);
    }
  }

  lemma {:induction false} InOwnRun(hashes: seq<nat>, h: nat)
    requires hashes != []
    ensures InRun(hashes, FindLast(hashes, h), h)
  {
  }

  lemma {:induction false} RebuiltGains(was: seq<DirBlk>, now: seq<DirBlk>, shape: Shape, e: Entry, hashes: seq<nat>, per: nat, hash: Bytes -> nat, r: Result<()>)
    requires shape.Valid() && (r.Ok? ==> Rebuilt(was, now, shape, Some(e), hashes, per, hash))
    ensures r.Ok? ==> Gained(was, now, shape, e)
  {
    hide Treed, Homed, ParentOf, All;
  }

  /** A fresh block has room for any name. */
  lemma {:induction false} EmptyRoom(b: DirBlk, shape: Shape, e: Entry)
    requires shape.Valid() && b.Plain? && |b.bytes| == shape.blockSize && Chain(b.bytes[..shape.Room()]) == Some(Build([], shape.Room()))
    requires EntryOk(e)
    ensures PlainOk(b, shape) && EntriesOf(b, shape) == []
    ensures !(forall s :: s in SlotsOf(b, shape) ==> Slack(s) < RecLen(|e.name|))
  {
    hide Chain;
    BuildLists([], shape.Room());
    var s := Build([], shape.Room())[0];
    assert s in SlotsOf(b, shape);
    RecLenMonotone(|e.name|, 255);
    assert RecLen(255) == 264;
  }

  lemma {:induction false} GrowGains(blocks: seq<DirBlk>, full: DirBlk, empty: DirBlk, shape: Shape, e: Entry)
    requires shape.Valid() && EntriesOf(empty, shape) == [] && AddsOne([], EntriesOf(full, shape), e) && !Dotted(e)
    requires DistinctNames(Undotted(All(blocks, shape))) && NoneNamed(Contents(blocks, shape), e.name)
    ensures Gained(blocks, blocks + [full], shape, e) && DistinctNames(Undotted(All(blocks + [full], shape)))
  {
    hide DistinctNames, Undotted, ParentOf, All, AddsOne, NoneNamed, EntriesOf, Dotted;
    AllConcat(blocks, [full], shape);
    AllOne(full, shape);
    AddsOneWithin(All(blocks, shape), [], EntriesOf(full, shape), [], e);
    assert All(blocks, shape) + [] + [] == All(blocks, shape);
    assert All(blocks, shape) + EntriesOf(full, shape) + [] == All(blocks + [full], shape);
    GainsOne(blocks, blocks + [full], shape, e);
  }

  lemma {:induction false} TakeKeeps(was: seq<DirBlk>, now: seq<DirBlk>, indexed: bool, shape: Shape, hashes: seq<nat>, per: nat, hash: Bytes -> nat, k: nat, e: Entry)
    requires Sound(was, indexed, shape, hashes, per, hash) && k < |was| == |now| && now == was[k := now[k]] && PlainOk(now[k], shape)
    requires AddsOne(EntriesOf(now[k], shape), EntriesOf(was[k], shape), e) && !Dotted(e)
    requires indexed ==> 1 <= k <= |hashes|
    ensures Sound(now, indexed, shape, hashes, per, hash) && Gained(now, was, shape, e)
    ensures Findable(now, indexed, hashes, per) <==> Findable(was, indexed, hashes, per)
  {
    hide EntriesOf, PlainOk, DistinctNames, Undotted, ParentOf, All, AddsOne, NoneNamed, Treed, Homed, EvenHashes, Dotted, NodesStartRuns;
    BlockAddsOne(was, k, now[k], shape, e);
    LosesOne(was, now, shape, e);
    if indexed {
      TreedEdit(was, shape, hashes, per, k, now[k]);
      HomedTake(was, shape, hashes, hash, k, now[k], e);
      TreedFindable(was, shape, hashes, per);
      TreedFindable(now, shape, hashes, per);
    }
  }

  lemma {:induction false} TreedFindable(blocks: seq<DirBlk>, shape: Shape, hashes: seq<nat>, per: nat)
    requires shape.Valid() && Treed(blocks, shape, hashes, per)
    ensures 1 + |hashes| <= |blocks| && (forall k :: 1 + |hashes| <= k < |blocks| ==> blocks[k].Node?)
    ensures Findable(blocks, true, hashes, per) <==> NodesStartRuns(NodesOf(blocks, |hashes|), per, hashes)
  {
    hide TreeOver, Rising, NodesStartRuns, PlainOk;
  }

  /** An entry of one block is one of the directory's. */
  lemma {:induction false} IsContent(blocks: seq<DirBlk>, shape: Shape, k: nat, e: Entry)
    requires shape.Valid() && k < |blocks| && e in EntriesOf(blocks[k], shape) && !Dotted(e)
    ensures e in Contents(blocks, shape)
  {
    hide EntriesOf, Dotted;
    AllAround(blocks, k, shape);
    hide All;
    InUndotted(All(blocks, shape), e);
  }

  lemma {:induction false} InUndotted(entries: seq<Entry>, e: Entry)
    ensures e in Undotted(entries) <==> e in entries && !Dotted(e)
  {
    hide Dotted;
    if entries != [] {
      var n := |entries| - 1;
      InUndotted(entries[..n], e);
      assert entries == entries[..n] + [entries[n]];
    }
  }

  lemma {:induction false} InSomeBlock(blocks: seq<DirBlk>, shape: Shape, e: Entry) returns (k: nat)
    requires shape.Valid() && e in All(blocks, shape)
    ensures k < |blocks| && e in EntriesOf(blocks[k], shape)
  {
    hide EntriesOf;
    var n := |blocks| - 1;
    if e in EntriesOf(blocks[n], shape) {
      k := n;
    } else {
      k := InSomeBlock(blocks[..n], shape, e);
    }
  }

  lemma {:induction false} RunHas(hashes: seq<nat>, k: nat, run: seq<nat>, h: nat)
    requires hashes != [] && 1 <= k && forall i: nat :: InRun(hashes, i, h) ==> 1 + i in run
    ensures InRun(hashes, k - 1, h) ==> k in run
  {
    hide InRun;
    var i: nat := k - 1;
    assert InRun(hashes, i, h) ==> 1 + i in run;
  }

  /** Every block there is, in order. */
  function Every(n: nat): (r: seq<nat>)
    ensures |r| == n && forall k :: 0 <= k < n ==> r[k] == k
  {
    seq(n, k => k)
  }

  lemma {:induction false} EveryHas(n: nat)
    ensures forall k :: 0 <= k < n ==> k in Every(n)
  {
    forall k | 0 <= k < n ensures k in Every(n) {
      assert Every(n)[k] == k;
    }
  }

  /** A name that is in none of the blocks searched is not in the directory. */
  lemma {:induction false} NotThere(blocks: seq<DirBlk>, indexed: bool, shape: Shape, hashes: seq<nat>, per: nat, hash: Bytes -> nat, run: seq<nat>, name: Bytes)
    requires Sound(blocks, indexed, shape, hashes, per, hash)
    requires Within(run, blocks, shape)
    requires NotIn(run, blocks, shape, name)
    requires if indexed then hashes != [] && forall i: nat :: InRun(hashes, i, hash(name)) ==> 1 + i in run
             else forall k :: 0 <= k < |blocks| ==> k in run
    ensures NoneNamed(Contents(blocks, shape), name)
  {
    hide EntriesOf, PlainOk, DistinctNames, Undotted, All, InRun, Dotted, HomedIn, EvenHashes, Treed;
    forall e | e in Contents(blocks, shape) ensures e.name != name {
      InUndotted(All(blocks, shape), e);
      var k := InSomeBlock(blocks, shape, e);
      if indexed {
        LeafHomes(blocks, shape, hashes, per, hash, k, e);
        RunHas(hashes, k, run, hash(name));
      }
      if k in run {
        var j :| 0 <= j < |run| && run[j] == k;
        assert e in EntriesOf(blocks[run[j]], shape);
      }
    }
  }

  lemma {:induction false} RootDotted(b: DirBlk, shape: Shape, e: Entry)
    requires shape.Valid() && e in EntriesOf(b, shape)
    ensures b.Root? ==> Dotted(e)
    ensures !b.Node?
  {
    if b.Root? {
      DotsDotted(shape, b.parent, e);
    }
  }

  /** Under an index, a name is in a leaf of its own hash's run. */
  lemma {:induction false} LeafHomes(blocks: seq<DirBlk>, shape: Shape, hashes: seq<nat>, per: nat, hash: Bytes -> nat, k: nat, e: Entry)
    requires shape.Valid() && Treed(blocks, shape, hashes, per) && |hashes| < |blocks| && Homed(blocks, shape, hashes, hash)
    requires k < |blocks| && e in EntriesOf(blocks[k], shape) && !Dotted(e)
    ensures 1 <= k <= |hashes| && InRun(hashes, k - 1, hash(e.name))
  {
    hide InRun, Dotted, PlainOk, TreeOver, Rising;
    RootDotted(blocks[k], shape, e);
    assert HomedIn(blocks[k], shape, hashes, k - 1, hash);
  }

  // ---- runs ----

  datatype Op =
    | Add(name: Bytes, target: nat, fileType: byte)
    | Drop(name: Bytes)
    | Reindex

  /** A directory is what a plain map of names would be. */
  ghost predicate Agrees(entries: set<Entry>, m: map<Bytes, Entry>) {
    && (forall e :: e in entries ==> e.name in m && m[e.name] == e)
    && (forall n :: n in m ==> m[n] in entries && m[n].name == n)
  }

  function Apply(m: map<Bytes, Entry>, op: Op): map<Bytes, Entry> {
    match op
    case Add(name, target, fileType) => m[name := Entry(name, target, fileType)]
    case Drop(name) => m - {name}
    case Reindex => m
  }

  function ApplyAll(m: map<Bytes, Entry>, ops: seq<Op>): map<Bytes, Entry> {
    if ops == [] then m else Apply(ApplyAll(m, ops[..|ops| - 1]), ops[|ops| - 1])
  }

  lemma {:induction false} AgreesAdd(was: set<Entry>, now: set<Entry>, m: map<Bytes, Entry>, e: Entry)
    requires Agrees(was, m) && now == was + {e} && NoneNamed(was, e.name)
    ensures Agrees(now, m[e.name := e])
  {
  }

  lemma {:induction false} AgreesDrop(was: set<Entry>, now: set<Entry>, m: map<Bytes, Entry>, e: Entry)
    requires Agrees(was, m) && was == now + {e} && e !in now
    ensures Agrees(now, m - {e.name})
  {
    assert e in was;
    forall x | x in now ensures x.name in m - {e.name} && (m - {e.name})[x.name] == x {
      assert x in was;
    }
  }

  /**
   When an operation succeeds: a name is added unless there is no room where it
   would go and the index that needs is too large, and dropped if a search sees it.
   */
  ghost predicate Accepted(d: Directory, op: Op)
    requires d.shape.Valid()
    reads d
  {
    var now := Contents(d.blocks, d.shape);
    match op
    case Add(name, target, fileType) =>
      NameOk(name) && !(Crammed(d.blocks, d.indexed, d.indexing, d.shape, d.hashes, d.hash(name), name)
                        && TooLarge(now + {Entry(name, target, fileType)}, d.shape, d.hash, d.minor))
    case Drop(name) => Seen(d.blocks, d.indexed, d.shape, d.hashes, d.per, d.hash(name), name)
    case Reindex => !TooLarge(now, d.shape, d.hash, d.minor)
  }

  /** One operation, asked for as its callers ask for it: a name is added only where there is none. */
  method Do(d: Directory, op: Op, ghost m: map<Bytes, Entry>) returns (ok: bool)
    requires d.Valid() && Agrees(d.Entries(), m)
    requires op.Reindex? || (op.name != DOT && op.name != DOTDOT)
    requires op.Add? ==> 0 < op.target < U32_LIMIT && op.name !in m
    modifies d
    ensures d.Valid()
    ensures if ok then Agrees(d.Entries(), Apply(m, op)) else d.Entries() == old(d.Entries())
    ensures ok <==> old(Accepted(d, op))
  {
    assert d.shape.Valid();
    hide Sound, Contents, NoneNamed, Agrees, Crammed, TooLarge, Seen, NameOk;
    ghost var was := d.Entries();
    match op {
      case Add(name, target, fileType) =>
        Absent(was, m, name);
        var r, how := d.Link(name, target, fileType);
        if r.Ok? {
          AgreesAdd(was, d.Entries(), m, Entry(name, target, fileType));
        }
        ok := r.Ok?;
      case Drop(name) =>
        var r, k := d.Unlink(name);
        if r.Ok? {
          ghost var e: Entry :| e.name == name && e.inode == r.value && Gained(d.blocks, old(d.blocks), d.shape, e);
          AgreesDrop(was, d.Entries(), m, e);
        }
        ok := r.Ok?;
      case Reindex =>
        var r := d.Rebuild(None);
        ok := r.Ok?;
    }
  }

  lemma {:induction false} Absent(entries: set<Entry>, m: map<Bytes, Entry>, name: Bytes)
    requires Agrees(entries, m)
    ensures name !in m <==> NoneNamed(entries, name)
  {
  }

  /** What the callers of a run of operations see to. */
  ghost predicate Asked(m: map<Bytes, Entry>, ops: seq<Op>) {
    forall i :: 0 <= i < |ops| ==>
      && (ops[i].Reindex? || (ops[i].name != DOT && ops[i].name != DOTDOT))
      && (ops[i].Add? ==> 0 < ops[i].target < U32_LIMIT && ops[i].name !in ApplyAll(m, ops[..i]))
  }

  ghost function EntriesIn(m: map<Bytes, Entry>): set<Entry> {
    set n | n in m :: m[n]
  }

  /** Additions of proper names and rebuilds, no index coming to be too large on the way. */
  ghost predicate Modest(m: map<Bytes, Entry>, ops: seq<Op>, shape: Shape, hash: Bytes -> nat, minor: Bytes -> nat)
    requires shape.Valid()
  {
    forall i :: 0 <= i < |ops| ==>
      && !ops[i].Drop? && (ops[i].Add? ==> NameOk(ops[i].name))
      && !TooLarge(EntriesIn(Apply(ApplyAll(m, ops[..i]), ops[i])), shape, hash, minor)
  }

  lemma {:induction false} ModestAccepted(d: Directory, m: map<Bytes, Entry>, op: Op)
    requires d.shape.Valid() && Agrees(Contents(d.blocks, d.shape), m) && !op.Drop? && (op.Add? ==> NameOk(op.name) && op.name !in m)
    requires !TooLarge(EntriesIn(Apply(m, op)), d.shape, d.hash, d.minor)
    ensures Accepted(d, op)
  {
    hide TooLarge, Contents, Crammed, NameOk;
    var now := Contents(d.blocks, d.shape);
    assert now == EntriesIn(m);
    if op.Add? {
      var e := Entry(op.name, op.target, op.fileType);
      assert EntriesIn(m[op.name := e]) == now + {e} by {
        assert m[op.name := e][op.name] == e;
        forall n | n in m ensures m[op.name := e][n] == m[n] {
        }
      }
    }
  }

  /** After any run of additions, removals and rebuilds, the directory is what a plain map would be. */
  method RunOps(d: Directory, ops: seq<Op>, ghost m: map<Bytes, Entry>) returns (ok: bool)
    requires d.Valid() && Agrees(d.Entries(), m) && Asked(m, ops)
    modifies d
    ensures d.Valid()
    ensures Modest(m, ops, d.shape, d.hash, d.minor) ==> ok
    ensures ok ==> Agrees(d.Entries(), ApplyAll(m, ops))
  {
    assert d.shape.Valid();
    hide Sound, Contents, NoneNamed, Agrees, Findable, Apply, Accepted, TooLarge, NameOk;
    ghost var modest := Modest(m, ops, d.shape, d.hash, d.minor);
    assert ops[..0] == [];
    for i := 0 to |ops|
      invariant d.Valid() && Agrees(d.Entries(), ApplyAll(m, ops[..i]))
    {
      if modest {
        ModestAccepted(d, ApplyAll(m, ops[..i]), ops[i]);
      }
      var done := Do(d, ops[i], ApplyAll(m, ops[..i]));
      if !done {
        return false;
      }
      assert ops[..i + 1][..i] == ops[..i];
    }
    assert ops[..|ops|] == ops;
    ok := true;
  }

  /** And looking a name up then gives what the map gives whenever every name can be found. */
  method RunThenLookup(d: Directory, ops: seq<Op>, name: Bytes, ghost m: map<Bytes, Entry>) returns (ok: bool, r: Option<Entry>)
    requires d.Valid() && Agrees(d.Entries(), m) && Asked(m, ops) && name != DOT && name != DOTDOT
    modifies d
    ensures d.Valid()
    ensures Modest(m, ops, d.shape, d.hash, d.minor) ==> ok
    ensures ok ==> Agrees(d.Entries(), ApplyAll(m, ops))
    ensures ok ==> (r.Some? <==> Seen(d.blocks, d.indexed, d.shape, d.hashes, d.per, d.hash(name), name))
    ensures ok && r.Some? ==> name in ApplyAll(m, ops) && r.value == ApplyAll(m, ops)[name]
    ensures ok && Findable(d.blocks, d.indexed, d.hashes, d.per) ==>
              r == if name in ApplyAll(m, ops) then Some(ApplyAll(m, ops)[name]) else None
  {
    assert d.shape.Valid();
    hide Sound, Contents, NoneNamed, Agrees, Findable, Asked, ApplyAll, Modest, Seen;
    r := None;
    ok := RunOps(d, ops, m);
    if !ok {
      return;
    }
    r := d.Lookup(name);
    Absent(d.Entries(), ApplyAll(m, ops), name);
    if r.Some? {
      Present(d.Entries(), ApplyAll(m, ops), r.value);
    }
  }

  lemma {:induction false} Present(entries: set<Entry>, m: map<Bytes, Entry>, e: Entry)
    requires Agrees(entries, m) && e in entries
    ensures e.name in m && m[e.name] == e
  {
  }
}
