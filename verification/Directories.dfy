/**
 A directory, as a list of blocks or under a hash index (src/index.rs:59-125 and
 204-317, src/volume.rs:1645-1748). Whichever it is, putting names in and taking
 them out is what it would be to a plain set of entries.
 */
module Directories {
  import opened Base
  import opened DirBlock
  import opened DirEntries
  import opened HashIndex

  datatype DirBlk =
    | Plain(bytes: Bytes)
    | Root(parent: nat, levels: nat, entries: seq<IndexEntry>)
    | Node(entries: seq<IndexEntry>)

  /** What does not change about a directory. */
  datatype Shape = Shape(blockSize: nat, withTail: bool, self: nat, dirType: byte) {
    predicate Valid() {
      1024 <= blockSize < U16_LIMIT && blockSize % 4 == 0 && 0 < self < U32_LIMIT
    }

    function Room(): nat
      requires 1024 <= blockSize
    {
      Limit(blockSize, withTail)
    }
  }

  // ---- bytes for records ----

  predicate Storable(s: Slot) {
    s.inode < U32_LIMIT && s.recLen < U16_LIMIT && |s.name| <= NAME_LEN_MAX && SlotOk(s) && ENTRY_HEADER_LEN + |s.name| <= s.recLen
  }

  ghost predicate AllStorable(slots: seq<Slot>) {
    forall i :: 0 <= i < |slots| ==> Storable(slots[i])
  }

  function Records(slots: seq<Slot>): Bytes
    requires AllStorable(slots)
  {
    if slots == [] then [] else Record(slots[0]) + Records(slots[1..])
  }

  lemma {:induction false} RecordsChain(slots: seq<Slot>)
    requires AllStorable(slots)
    ensures |Records(slots)| == Span(slots) && Chain(Records(slots)) == Some(slots)
  {
    hide Chain, Record;
    if slots == [] {
      EmptyChain();
    } else {
      RecordsChain(slots[1..]);
      RecordChain(slots[0]);
      ChainConcat(Record(slots[0]), Records(slots[1..]));
      assert slots == [slots[0]] + slots[1..];
    }
  }

  lemma {:induction false} EmptyChain()
    ensures Chain([]) == Some([])
  {
  }

  /** Records read from bytes may be written back. */
  lemma {:induction false} ChainStorable(b: Bytes, s: Slot)
    requires Chain(b).Some? && s in Chain(b).value && |b| < U16_LIMIT
    ensures Storable(s)
    decreases |b|
  {
    if b != [] {
      var first := Decode(b).value;
      var rest := Chain(b[first.recLen..]);
      if s != first {
        ChainStorable(b[first.recLen..], s);
      }
    }
  }

  lemma {:induction false} LiveFrom(slots: seq<Slot>, e: Entry)
    requires e in Live(slots)
    ensures e.inode != 0 && exists s :: s in slots && s.inode == e.inode && s.name == e.name
  {
    if slots[0].inode != 0 && e == Entry(slots[0].name, slots[0].inode, slots[0].fileType) {
      assert slots[0] in slots;
    } else {
      LiveFrom(slots[1..], e);
    }
  }

  /** An entry that can be stored. */
  predicate EntryOk(e: Entry) {
    0 < e.inode < U32_LIMIT && |e.name| <= NAME_LEN_MAX
  }

  ghost predicate EntriesOk(entries: seq<Entry>) {
    forall i :: 0 <= i < |entries| ==> EntryOk(entries[i])
  }

  lemma {:induction false} LiveOk(b: Bytes, e: Entry)
    requires Chain(b).Some? && |b| < U16_LIMIT && e in Live(Chain(b).value)
    ensures EntryOk(e)
  {
    LiveFrom(Chain(b).value, e);
    var s :| s in Chain(b).value && s.inode == e.inode && s.name == e.name;
    ChainStorable(b, s);
  }

  lemma {:induction false} RecLenCovers(n: nat)
    ensures ENTRY_HEADER_LEN + n <= RecLen(n) && RecLen(n) % 4 == 0
  {
  }

  lemma {:induction false} BuildStorable(entries: seq<Entry>, limit: nat)
    requires Need(entries) <= limit < U16_LIMIT && limit % 4 == 0 && 8 <= limit && EntriesOk(entries)
    ensures AllStorable(Build(entries, limit))
  {
    hide RecLen;
    if entries == [] {
      assert RecLen(0) == 8;
    } else {
      var e := entries[0];
      RecLenCovers(|e.name|);
      if |entries| > 1 {
        RecLenCovers(|entries[1].name|);
        BuildStorable(entries[1..], limit - RecLen(|e.name|));
      } else {
        assert Need(entries) == RecLen(|entries[0].name|) + Need(entries[1..]);
      }
    }
  }

  /** A block holding some entries, with room for its checksum behind them. */
  function BlockOf(entries: seq<Entry>, shape: Shape): Bytes
    requires shape.Valid() && Need(entries) <= shape.Room() && EntriesOk(entries)
  {
    BuildStorable(entries, shape.Room());
    Records(Build(entries, shape.Room())) + Zeros(shape.blockSize - shape.Room())
  }

  lemma {:induction false} BlockOfLists(entries: seq<Entry>, shape: Shape)
    requires shape.Valid() && Need(entries) <= shape.Room() && EntriesOk(entries)
    ensures PlainOk(Plain(BlockOf(entries, shape)), shape) && EntriesOf(Plain(BlockOf(entries, shape)), shape) == entries
  {
    hide Chain, Record, Build, Need, Live, Span;
    var limit := shape.Room();
    BuildStorable(entries, limit);
    RecordsChain(Build(entries, limit));
    BuildLists(entries, limit);
    var records := Records(Build(entries, limit));
    assert (records + Zeros(shape.blockSize - limit))[..limit] == records;
  }

  // ---- blocks of an index as bytes ----

  /** Where the dots at the head of a root end and its index begins. */
  const ROOT_DOTS := 24

  /** The head of a root: "." and then "..", whose record says it runs to the very end of the block. */
  function RootDots(shape: Shape, parent: nat): (r: Bytes)
    requires shape.Valid()
    ensures |r| == ROOT_DOTS
  {
    Record(Slot(shape.self, 12, DOT, shape.dirType)) + Le32(parent % U32_LIMIT) + Le16(shape.blockSize - 12) + [2, shape.dirType] + DOTDOT + Zeros(2)
  }

  /**
   How blocks are written, each of them one block long: those of entries as they
   are, a root with its dots at its head, and what an index has besides somehow.
   */
  ghost predicate Coded(code: DirBlk -> Bytes, shape: Shape)
    requires shape.Valid()
  {
    && (forall bytes: Bytes :: code(Plain(bytes)) == bytes)
    && (forall b: DirBlk :: !b.Plain? ==> |code(b)| == shape.blockSize)
    && forall parent, levels, entries ::
         code(Root(parent, levels, entries)) == RootDots(shape, parent) + code(Root(0, levels, entries))[ROOT_DOTS..]
  }

  /** One way of doing so. */
  function BareCode(shape: Shape): DirBlk -> Bytes
    requires shape.Valid()
  {
    (b: DirBlk) =>
      match b
      case Plain(bytes) => bytes
      case Root(parent, _, _) => RootDots(shape, parent) + Zeros(shape.blockSize - ROOT_DOTS)
      case Node(_) => Zeros(shape.blockSize)
  }

  lemma {:induction false} BareCoded(shape: Shape)
    requires shape.Valid()
    ensures Coded(BareCode(shape), shape)
  {
    hide RootDots;
    var code := BareCode(shape);
    forall parent, levels, entries
      ensures code(Root(parent, levels, entries)) == RootDots(shape, parent) + code(Root(0, levels, entries))[ROOT_DOTS..]
    {
      assert (RootDots(shape, 0) + Zeros(shape.blockSize - ROOT_DOTS))[ROOT_DOTS..] == Zeros(shape.blockSize - ROOT_DOTS);
    }
  }

  // ---- the entries of a directory ----

  /** A block of entries whose records tile it. */
  predicate PlainOk(b: DirBlk, shape: Shape)
    requires shape.Valid()
  {
    b.Plain? && |b.bytes| == shape.blockSize && Chain(b.bytes[..shape.Room()]).Some?
  }

  function SlotsOf(b: DirBlk, shape: Shape): seq<Slot>
    requires shape.Valid() && PlainOk(b, shape)
  {
    Chain(b.bytes[..shape.Room()]).value
  }

  /** What a block lists: a root holds the two dots, where a reader that knows nothing of the index finds them. */
  function EntriesOf(b: DirBlk, shape: Shape): seq<Entry>
    requires shape.Valid()
  {
    match b
    case Plain(_) => if PlainOk(b, shape) then Live(SlotsOf(b, shape)) else []
    case Root(parent, _, _) => DotEntries(shape.self, parent, shape.dirType)
    case Node(_) => []
  }

  function All(blocks: seq<DirBlk>, shape: Shape): seq<Entry>
    requires shape.Valid()
  {
    if blocks == [] then [] else All(blocks[..|blocks| - 1], shape) + EntriesOf(blocks[|blocks| - 1], shape)
  }

  lemma {:induction false} AllConcat(a: seq<DirBlk>, b: seq<DirBlk>, shape: Shape)
    requires shape.Valid()
    ensures All(a + b, shape) == All(a, shape) + All(b, shape)
  {
    hide EntriesOf;
    if b == [] {
      assert a + b == a;
    } else {
      var n := |b| - 1;
      assert (a + b)[..|a + b| - 1] == a + b[..n];
      AllConcat(a, b[..n], shape);
    }
  }

  lemma {:induction false} AllOne(b: DirBlk, shape: Shape)
    requires shape.Valid()
    ensures All([b], shape) == EntriesOf(b, shape) && All([], shape) == []
  {
    hide EntriesOf;
    assert [b][..0] == [];
  }

  lemma {:induction false} AllAround(blocks: seq<DirBlk>, k: nat, shape: Shape)
    requires shape.Valid() && k < |blocks|
    ensures All(blocks, shape) == All(blocks[..k], shape) + EntriesOf(blocks[k], shape) + All(blocks[k + 1..], shape)
  {
    hide EntriesOf;
    assert blocks == blocks[..k] + [blocks[k]] + blocks[k + 1..];
    AllConcat(blocks[..k] + [blocks[k]], blocks[k + 1..], shape);
    AllConcat(blocks[..k], [blocks[k]], shape);
    AllOne(blocks[k], shape);
  }

  lemma {:induction false} AddsOneWithin(a: seq<Entry>, x: seq<Entry>, y: seq<Entry>, b: seq<Entry>, e: Entry)
    requires AddsOne(x, y, e)
    ensures AddsOne(a + x + b, a + y + b, e)
  {
    var i :| 0 <= i <= |x| && y == x[..i] + [e] + x[i..];
    var p, q := x[..i], x[i..];
    hide AddsOne;
    AddsAt(a + p, q + b, e);
    assert x == p + [] + q;
    Regroup(a, p, [], q, b);
    Regroup(a, p, [e], q, b);
    assert (a + p) + [] == a + p;
  }

  lemma {:induction false} Regroup(a: seq<Entry>, p: seq<Entry>, m: seq<Entry>, q: seq<Entry>, b: seq<Entry>)
    ensures a + (p + m + q) + b == (a + p) + m + (q + b)
  {
  }

  /** A change to one block that adds one entry adds it to the directory. */
  lemma {:induction false} BlockAddsOne(blocks: seq<DirBlk>, k: nat, b: DirBlk, shape: Shape, e: Entry)
    requires shape.Valid() && k < |blocks|
    ensures AddsOne(EntriesOf(blocks[k], shape), EntriesOf(b, shape), e) ==> AddsOne(All(blocks, shape), All(blocks[k := b], shape), e)
    ensures AddsOne(EntriesOf(b, shape), EntriesOf(blocks[k], shape), e) ==> AddsOne(All(blocks[k := b], shape), All(blocks, shape), e)
  {
    hide EntriesOf, AddsOne;
    var now := blocks[k := b];
    AllAround(blocks, k, shape);
    AllAround(now, k, shape);
    assert now[..k] == blocks[..k] && now[k + 1..] == blocks[k + 1..] && now[k] == b;
    var front, back := All(blocks[..k], shape), All(blocks[k + 1..], shape);
    if AddsOne(EntriesOf(blocks[k], shape), EntriesOf(b, shape), e) {
      AddsOneWithin(front, EntriesOf(blocks[k], shape), EntriesOf(b, shape), back, e);
    }
    if AddsOne(EntriesOf(b, shape), EntriesOf(blocks[k], shape), e) {
      AddsOneWithin(front, EntriesOf(b, shape), EntriesOf(blocks[k], shape), back, e);
    }
  }

  // ---- editing one block ----

  /** Put an entry into a block of records, if it has room: through the editor of its bytes. */
  method PutInto(b: DirBlk, shape: Shape, e: Entry) returns (r: Option<DirBlk>)
    requires shape.Valid() && PlainOk(b, shape) && EntryOk(e)
    ensures r.Some? ==> PlainOk(r.value, shape) && AddsOne(EntriesOf(b, shape), EntriesOf(r.value, shape), e)
    ensures r.None? <==> forall s :: s in SlotsOf(b, shape) ==> Slack(s) < RecLen(|e.name|)
  {
    hide Chain, Insert, Live, AddsOne, Slack, RecLen;
    var buf := new byte[|b.bytes|](i requires 0 <= i < |b.bytes| => b.bytes[i]);
    assert buf[..] == b.bytes;
    ghost var limit, slots := shape.Room(), SlotsOf(b, shape);
    assert buf[..limit] == b.bytes[..limit];
    InsertRefused(slots, e);
    ChainSpan(b.bytes[..limit]);
    var done := InsertIntoBlock(buf, shape.withTail, e.inode, e.name, e.fileType);
    if done == Ok(true) {
      InsertAddsOne(slots, e);
      var now := Plain(buf[..]);
      assert now.bytes[..limit] == buf[..limit];
      return Some(now);
    }
    return None;
  }

  /** Take a name out of a block of records, if it is there. */
  method TakeFrom(b: DirBlk, shape: Shape, name: Bytes) returns (r: Option<DirBlk>, removed: nat)
    requires shape.Valid() && PlainOk(b, shape)
    ensures r.Some? ==> PlainOk(r.value, shape)
                        && exists e: Entry :: e.name == name && e.inode == removed && AddsOne(EntriesOf(r.value, shape), EntriesOf(b, shape), e)
    ensures r.None? <==> forall e :: e in EntriesOf(b, shape) ==> e.name != name
  {
    hide Chain, Remove, Live, AddsOne, Slack, RecLen, IndexOf;
    var buf := new byte[|b.bytes|](i requires 0 <= i < |b.bytes| => b.bytes[i]);
    assert buf[..] == b.bytes;
    ghost var limit, slots := shape.Room(), SlotsOf(b, shape);
    assert buf[..limit] == b.bytes[..limit];
    ChainSpan(b.bytes[..limit]);
    IndexOfLive(slots, name);
    var found := RemoveFromBlock(buf, shape.withTail, name);
    removed := 0;
    if found.Ok? && found.value.Some? {
      RemoveDropsOne(slots, name);
      removed := found.value.value;
      var now := Plain(buf[..]);
      assert now.bytes[..limit] == buf[..limit];
      return Some(now), removed;
    }
    return None, removed;
  }

  // ---- the two dots, and the rest ----

  predicate Dotted(e: Entry) {
    e.name == DOT || e.name == DOTDOT
  }

  /** The entries but for the two dots. */
  function Undotted(entries: seq<Entry>): seq<Entry> {
    if entries == [] then []
    else
      var e := entries[|entries| - 1];
      Undotted(entries[..|entries| - 1]) + if Dotted(e) then [] else [e]
  }

  lemma {:induction false} UndottedConcat(a: seq<Entry>, b: seq<Entry>)
    ensures Undotted(a + b) == Undotted(a) + Undotted(b)
  {
    if b == [] {
      assert a + b == a;
    } else {
      var n := |b| - 1;
      assert (a + b)[..|a + b| - 1] == a + b[..n];
      UndottedConcat(a, b[..n]);
    }
  }

  lemma {:induction false} UndottedOne(e: Entry)
    ensures Undotted([e]) == if Dotted(e) then [] else [e]
  {
    assert [e][..0] == [];
  }

  lemma {:induction false} UndottedAdds(was: seq<Entry>, now: seq<Entry>, e: Entry)
    requires AddsOne(was, now, e) && !Dotted(e)
    ensures AddsOne(Undotted(was), Undotted(now), e)
  {
    var i :| 0 <= i <= |was| && now == was[..i] + [e] + was[i..];
    var p, q := was[..i], was[i..];
    hide AddsOne, Undotted;
    assert was == p + q;
    UndottedConcat(p, q);
    UndottedConcat(p + [e], q);
    UndottedConcat(p, [e]);
    UndottedOne(e);
    AddsAt(Undotted(p), Undotted(q), e);
  }

  /** A directory's parent, from its own `..`; one without it is its own parent. */
  function ParentOf(entries: seq<Entry>, self: nat): nat {
    if entries == [] then self else if entries[0].name == DOTDOT then entries[0].inode else ParentOf(entries[1..], self)
  }

  lemma {:induction false} ParentConcat(a: seq<Entry>, b: seq<Entry>, self: nat)
    ensures ParentOf(a + b, self) == ParentOf(a, ParentOf(b, self))
  {
    if a == [] {
      assert a + b == b;
    } else {
      assert (a + b)[1..] == a[1..] + b;
      ParentConcat(a[1..], b, self);
    }
  }

  lemma {:induction false} ParentAdds(was: seq<Entry>, now: seq<Entry>, e: Entry, self: nat)
    requires AddsOne(was, now, e) && !Dotted(e)
    ensures ParentOf(now, self) == ParentOf(was, self)
  {
    var i :| 0 <= i <= |was| && now == was[..i] + [e] + was[i..];
    var p, q := was[..i], was[i..];
    assert was == p + q;
    ParentConcat(p, q, self);
    ParentConcat(p + [e], q, self);
    ParentConcat(p, [e], ParentOf(q, self));
    assert ParentOf([e], ParentOf(q, self)) == ParentOf(q, self);
  }

  /** The names a directory holds, with what they map to. */
  ghost function Contents(blocks: seq<DirBlk>, shape: Shape): set<Entry>
    requires shape.Valid()
  {
    Elems(Undotted(All(blocks, shape)))
  }

  /** now is was with entry e, and the directory's parent is the same. */
  ghost predicate Gained(was: seq<DirBlk>, now: seq<DirBlk>, shape: Shape, e: Entry)
    requires shape.Valid()
  {
    && Contents(now, shape) == Contents(was, shape) + {e} && e !in Contents(was, shape)
    && ParentOf(All(now, shape), shape.self) == ParentOf(All(was, shape), shape.self)
  }

  ghost predicate NoneNamed(entries: set<Entry>, name: Bytes) {
    forall e :: e in entries ==> e.name != name
  }

  /** One entry more in the blocks is one entry more in the directory, and the names are still distinct. */
  lemma {:induction false} GainsOne(was: seq<DirBlk>, now: seq<DirBlk>, shape: Shape, e: Entry)
    requires shape.Valid() && AddsOne(All(was, shape), All(now, shape), e) && !Dotted(e)
    requires DistinctNames(Undotted(All(was, shape))) && NoneNamed(Contents(was, shape), e.name)
    ensures Gained(was, now, shape, e) && DistinctNames(Undotted(All(now, shape)))
  {
    hide AddsOne, Undotted, ParentOf, DistinctNames;
    UndottedAdds(All(was, shape), All(now, shape), e);
    ParentAdds(All(was, shape), All(now, shape), e, shape.self);
    AddsOneSet(Undotted(All(was, shape)), Undotted(All(now, shape)), e);
    forall i | 0 <= i < |Undotted(All(was, shape))| ensures Undotted(All(was, shape))[i].name != e.name {
      assert Undotted(All(was, shape))[i] in Contents(was, shape);
    }
  }

  /** One entry fewer in the blocks is one entry fewer in the directory. */
  lemma {:induction false} LosesOne(was: seq<DirBlk>, now: seq<DirBlk>, shape: Shape, e: Entry)
    requires shape.Valid() && AddsOne(All(now, shape), All(was, shape), e) && !Dotted(e)
    requires DistinctNames(Undotted(All(was, shape)))
    ensures Gained(now, was, shape, e) && DistinctNames(Undotted(All(now, shape))) && NoneNamed(Contents(now, shape), e.name)
  {
    hide AddsOne, Undotted, ParentOf, DistinctNames;
    UndottedAdds(All(now, shape), All(was, shape), e);
    ParentAdds(All(now, shape), All(was, shape), e, shape.self);
    AddsOneSet(Undotted(All(now, shape)), Undotted(All(was, shape)), e);
    forall x | x in Contents(now, shape) ensures x.name != e.name {
      var i :| 0 <= i < |Undotted(All(now, shape))| && Undotted(All(now, shape))[i] == x;
    }
  }

  // ---- the index in place ----

  function NodesOf(blocks: seq<DirBlk>, leaves: nat): seq<seq<IndexEntry>>
    requires 1 + leaves <= |blocks| && forall k :: 1 + leaves <= k < |blocks| ==> blocks[k].Node?
  {
    seq(|blocks| - 1 - leaves, n requires 0 <= n < |blocks| - 1 - leaves => blocks[1 + leaves + n].entries)
  }

  /** A root, then the leaves, then the interior nodes. */
  ghost predicate InPlace(blocks: seq<DirBlk>, shape: Shape, leaves: nat)
    requires shape.Valid()
  {
    && 0 < leaves && 1 + leaves <= |blocks| && blocks[0].Root?
    && (forall k :: 1 <= k <= leaves ==> PlainOk(blocks[k], shape))
    && (forall k :: 1 + leaves <= k < |blocks| ==> blocks[k].Node?)
  }

  /** The tree of a directory in its blocks, over leaves stored under these hashes. */
  ghost predicate Treed(blocks: seq<DirBlk>, shape: Shape, hashes: seq<nat>, per: nat)
    requires shape.Valid()
  {
    && InPlace(blocks, shape, |hashes|) && Rising(hashes)
    && TreeOver(blocks[0].entries, NodesOf(blocks, |hashes|), per, hashes)
    && (blocks[0].levels == 0 <==> NodesOf(blocks, |hashes|) == [])
  }

  /** Every name in leaf i's block is one whose hash's run the leaf is in. */
  ghost predicate HomedIn(b: DirBlk, shape: Shape, hashes: seq<nat>, i: nat, hash: Bytes -> nat)
    requires shape.Valid() && hashes != []
  {
    forall e :: e in EntriesOf(b, shape) ==> !Dotted(e) && InRun(hashes, i, hash(e.name))
  }

  /** Every name stored lies in a leaf of its own hash's run. */
  ghost predicate Homed(blocks: seq<DirBlk>, shape: Shape, hashes: seq<nat>, hash: Bytes -> nat)
    requires shape.Valid() && |hashes| < |blocks|
  {
    hashes != [] && forall k :: 1 <= k <= |hashes| ==> HomedIn(blocks[k], shape, hashes, k - 1, hash)
  }

  lemma {:induction false} TreedEdit(blocks: seq<DirBlk>, shape: Shape, hashes: seq<nat>, per: nat, k: nat, b: DirBlk)
    requires shape.Valid() && Treed(blocks, shape, hashes, per) && 1 <= k <= |hashes| && PlainOk(b, shape)
    ensures k < |blocks| && Treed(blocks[k := b], shape, hashes, per)
    ensures NodesOf(blocks[k := b], |hashes|) == NodesOf(blocks, |hashes|) && blocks[k := b][0] == blocks[0]
  {
    hide TreeOver, Rising, PlainOk;
    assert NodesOf(blocks[k := b], |hashes|) == NodesOf(blocks, |hashes|);
  }

  lemma {:induction false} HomedPut(blocks: seq<DirBlk>, shape: Shape, hashes: seq<nat>, hash: Bytes -> nat, k: nat, b: DirBlk, e: Entry)
    requires shape.Valid() && |hashes| < |blocks| && Homed(blocks, shape, hashes, hash) && 1 <= k <= |hashes|
    requires AddsOne(EntriesOf(blocks[k], shape), EntriesOf(b, shape), e) && !Dotted(e) && InRun(hashes, k - 1, hash(e.name))
    ensures Homed(blocks[k := b], shape, hashes, hash)
  {
    hide AddsOne, EntriesOf, InRun, DistinctNames, Dotted;
    AddsOneSet(EntriesOf(blocks[k], shape), EntriesOf(b, shape), e);
    assert HomedIn(blocks[k], shape, hashes, k - 1, hash);
    forall x | x in EntriesOf(b, shape) ensures !Dotted(x) && InRun(hashes, k - 1, hash(x.name)) {
      assert x in Elems(EntriesOf(b, shape));
    }
    hide HomedIn;
  }

  lemma {:induction false} HomedTake(blocks: seq<DirBlk>, shape: Shape, hashes: seq<nat>, hash: Bytes -> nat, k: nat, b: DirBlk, e: Entry)
    requires shape.Valid() && |hashes| < |blocks| && Homed(blocks, shape, hashes, hash) && 1 <= k <= |hashes|
    requires AddsOne(EntriesOf(b, shape), EntriesOf(blocks[k], shape), e)
    ensures Homed(blocks[k := b], shape, hashes, hash) && !Dotted(e)
  {
    hide AddsOne, EntriesOf, InRun, DistinctNames, Dotted;
    AddsOneSet(EntriesOf(b, shape), EntriesOf(blocks[k], shape), e);
    assert HomedIn(blocks[k], shape, hashes, k - 1, hash);
    assert e in Elems(EntriesOf(blocks[k], shape));
    forall x | x in EntriesOf(b, shape) ensures !Dotted(x) && InRun(hashes, k - 1, hash(x.name)) {
      assert x in Elems(EntriesOf(b, shape));
      assert x in Elems(EntriesOf(blocks[k], shape));
    }
    hide HomedIn;
  }
}
