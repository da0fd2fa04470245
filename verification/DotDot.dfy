/**
 The ".." of a directory moved to another parent (src/volume.rs:731-757): the
 first record of that name is pointed at the new one, wherever it is.
 */
module DotDot {
  import opened Base
  import opened DirBlock
  import opened DirEntries
  import opened HashIndex
  import opened IndexSearch
  import opened Directories
  import opened DirectoryIndex
  import opened FreshDirectory

  /** The first record named "..", whether it is dead or not. */
  function DotAt(slots: seq<Slot>): (k: nat)
    ensures k <= |slots| && (forall i :: 0 <= i < k ==> slots[i].name != DOTDOT) && (k < |slots| ==> slots[k].name == DOTDOT)
  {
    if slots == [] || slots[0].name == DOTDOT then 0 else 1 + DotAt(slots[1..])
  }

  lemma {:induction false} DotIs(pre: seq<Slot>, s: Slot, rest: seq<Slot>)
    requires (forall i :: 0 <= i < |pre| ==> pre[i].name != DOTDOT) && s.name == DOTDOT
    ensures DotAt(pre + [s] + rest) == |pre|
  {
    var all := pre + [s] + rest;
    assert all[|pre|] == s;
    assert forall i :: 0 <= i < |pre| ==> all[i] == pre[i];
  }

  /** A record's inode rewritten changes nothing else of it. */
  lemma {:induction false} Reinode(d: Bytes, c: Bytes, s: Slot, to: nat)
    requires Decode(d) == Some(s) && SlotOk(s) && to < U32_LIMIT && |c| == s.recLen && |c| <= |d|
    requires c[..4] == Le32(to) && c[4..] == d[4..|c|]
    ensures Chain(c) == Some([s.(inode := to)])
  {
    var n, z := |s.name|, Le32(to);
    assert c[0] == c[..4][0] && c[1] == c[..4][1] && c[2] == c[..4][2] && c[3] == c[..4][3];
    assert U32(c, 0) == U32(z, 0);
    assert forall i :: 4 <= i < |c| ==> c[i] == c[4..][i - 4] && d[i] == d[4..|c|][i - 4];
    assert c[8..8 + n] == d[8..8 + n];
    assert Decode(c) == Some(s.(inode := to));
    ChainStep(c, s.(inode := to));
    assert c[s.recLen..] == [];
    assert [s.(inode := to)] + [] == [s.(inode := to)];
  }

  lemma {:induction false} OverwriteSlices(b: Bytes, at: nat, x: Bytes, end: nat)
    requires at + |x| <= end <= |b|
    ensures var c := Overwrite(b, at, x);
            && c[..at] == b[..at] && c[end..] == b[end..] && |c[at..end]| == end - at
            && c[at..end][..|x|] == x && c[at..end][|x|..] == b[at + |x|..end]
  {
  }

  lemma {:induction false} Repointed(b: Bytes, at: nat, pre: seq<Slot>, s: Slot, to: nat)
    requires |b| < U16_LIMIT && Chain(b).Some? && Passed(b, at, pre) && Decode(b[at..]) == Some(s) && to < U32_LIMIT
    requires (forall i :: 0 <= i < |pre| ==> pre[i].name != DOTDOT) && s.name == DOTDOT
    ensures at + 4 <= |b|
    ensures var all, k := Chain(b).value, DotAt(Chain(b).value);
            k < |all| && Chain(Overwrite(b, at, Le32(to))) == Some(all[k := all[k].(inode := to)])
  {
    hide Chain, Decode, Le32;
    PassOne(b, at, pre, s);
    var end, rest := at + s.recLen, Chain(b[at + s.recLen..]).value;
    var b1 := Overwrite(b, at, Le32(to));
    OverwriteSlices(b, at, Le32(to), end);
    assert b[at..][4..s.recLen] == b[at + 4..end];
    Reinode(b[at..], b1[at..end], s, to);
    Replaced(b, b1, at, pre, end, [s.(inode := to)], rest);
    DotIs(pre, s, rest);
    var all := pre + [s] + rest;
    assert Chain(b) == Some(all);
    assert all[|pre| := s.(inode := to)] == pre + ([s.(inode := to)] + rest);
  }

  /** Where a walk over records comes to one named ".."; it fails at one that does not fit what is left. */
  function FindDot(b: Bytes, at: nat): (r: Result<Option<nat>>)
    requires at <= |b|
    ensures r.Ok? && r.value.Some? ==> at <= r.value.value && r.value.value + ENTRY_HEADER_LEN <= |b|
    decreases |b| - at
  {
    if at + ENTRY_HEADER_LEN > |b| then Ok(None)
    else
      match Decode(b[at..])
      case None => Err(Fs)
      case Some(s) =>
        if s.recLen == 0 then Ok(None)
        else if s.name == DOTDOT then Ok(Some(at))
        else FindDot(b, at + s.recLen)
  }

  /** Point the first record named ".." in a block at another inode: four bytes, and no other. */
  method RepointInBlock(block: array<byte>, withTail: bool, to: nat) returns (r: Result<bool>)
    requires block.Length < U16_LIMIT && (withTail ==> TAIL_LEN <= block.Length) && to < U32_LIMIT
    modifies block
    ensures var found := FindDot(old(block[..Limit(block.Length, withTail)]), 0);
            && r == (if found.Err? then Err(found.error) else Ok(found.value.Some?))
            && block[..] == if r == Ok(true) then Overwrite(old(block[..]), found.value.value, Le32(to)) else old(block[..])
    ensures var limit := Limit(block.Length, withTail);
            var before := Chain(old(block[..limit]));
            && block[limit..] == old(block[limit..])
            && (before.Some? ==>
                var k := DotAt(before.value);
                r == Ok(k < |before.value|)
                && (r.value ==> Chain(block[..limit]) == Some(before.value[k := before.value[k].(inode := to)])))
  {
    hide Chain, Passed, Decode, Le32, Overwrite;
    var limit := Limit(block.Length, withTail);
    ghost var b := block[..limit];
    ghost var pre: seq<Slot> := [];
    var at := 0;
    if Chain(b).Some? {
      PassNone(b);
    }
    while at + ENTRY_HEADER_LEN <= limit
      invariant 0 <= at <= limit && block[..] == old(block[..])
      invariant FindDot(b, 0) == FindDot(b, at)
      invariant Chain(b).Some? ==> Passed(b, at, pre)
      invariant forall i :: 0 <= i < |pre| ==> pre[i].name != DOTDOT
      decreases limit - at
    {
      assert block[at..limit] == b[at..];
      var d := Decode(block[at..limit]);
      if Chain(b).Some? {
        ChainDecodes(b, at, pre);
      }
      if d.None? {
        return Err(Fs);
      }
      var s := d.value;
      if s.recLen == 0 {
        break;
      }
      if s.name == DOTDOT {
        if Chain(b).Some? {
          Repointed(b, at, pre, s, to);
        }
        PutBytes(block, at, Le32(to));
        OverwriteTake(old(block[..]), limit, at, Le32(to));
        return Ok(true);
      }
      if Chain(b).Some? {
        PassOne(b, at, pre, s);
      }
      pre := pre + [s];
      at := at + s.recLen;
    }
    if Chain(b).Some? {
      PassAll(b, at, pre);
    }
    return Ok(false);
  }

  // ---- the root of an index ----

  /** The ".." of a root is decoded only where the whole of the block is given to decode it from. */
  lemma {:induction false} RootSecond(b: Bytes, shape: Shape, parent: nat, limit: nat)
    requires shape.Valid() && |b| == shape.blockSize && b[..ROOT_DOTS] == RootDots(shape, parent) && ROOT_DOTS <= limit <= |b|
    ensures Decode(b[12..limit]) ==
              if limit < |b| then None else Some(Slot(parent % U32_LIMIT, shape.blockSize - 12, DOTDOT, shape.dirType))
  {
    var d, ino, len := b[12..limit], Le32(parent % U32_LIMIT), Le16(shape.blockSize - 12);
    var head := RootDots(shape, parent);
    assert forall i :: 0 <= i < 12 ==> d[i] == b[..ROOT_DOTS][12 + i];
    assert head[12..] == ino + len + [2, shape.dirType] + DOTDOT + Zeros(2);
    assert forall i :: 0 <= i < 12 ==> d[i] == head[12..][i];
    assert U32(d, 0) == U32(ino, 0) && U16(d, 4) == U16(len, 0);
    assert d[8..10] == DOTDOT;
  }

  lemma {:induction false} RootFirst(b: Bytes, shape: Shape, parent: nat, limit: nat)
    requires shape.Valid() && |b| == shape.blockSize && b[..ROOT_DOTS] == RootDots(shape, parent) && ROOT_DOTS <= limit <= |b|
    ensures Decode(b[..limit]) == Some(Slot(shape.self, 12, DOT, shape.dirType))
  {
    hide Record, Decode, Chain;
    var s := Slot(shape.self, 12, DOT, shape.dirType);
    var r := Record(s);
    RecordChain(s);
    ChainDecodesFirst(r, s);
    assert b[..limit][..12] == b[..ROOT_DOTS][..12] == r;
    assert b[..limit] == r + b[12..limit];
    DecodePrefix(r, b[12..limit]);
  }

  lemma {:induction false} ChainDecodesFirst(b: Bytes, s: Slot)
    requires Chain(b) == Some([s])
    ensures Decode(b) == Some(s)
  {
    assert Chain(b).value[0] == s;
  }

  /** So a walk over a root fails where blocks end in a checksum, and otherwise comes to the "..". */
  lemma {:induction false} RootWalk(b: Bytes, shape: Shape, parent: nat)
    requires shape.Valid() && |b| == shape.blockSize && b[..ROOT_DOTS] == RootDots(shape, parent)
    ensures FindDot(b[..shape.Room()], 0) == if shape.withTail then Err(Fs) else Ok(Some(12))
  {
    hide Decode;
    var limit := shape.Room();
    var c := b[..limit];
    RootFirst(b, shape, parent, limit);
    RootSecond(b, shape, parent, limit);
    assert c[0..] == c && c[12..] == b[12..limit];
    assert DOT != DOTDOT;
  }

  /** A root's head but for its parent. */
  lemma {:induction false} DotsSplit(shape: Shape, parent: nat) returns (front: Bytes, back: Bytes)
    requires shape.Valid()
    ensures |front| == 12
    ensures RootDots(shape, parent) == front + Le32(parent % U32_LIMIT) + back
    ensures forall to: nat :: to < U32_LIMIT ==> RootDots(shape, to) == front + Le32(to) + back
  {
    front := Record(Slot(shape.self, 12, DOT, shape.dirType));
    back := Le16(shape.blockSize - 12) + [2, shape.dirType] + DOTDOT + Zeros(2);
    hide Record, Le32, Le16;
    forall to: nat | to < U32_LIMIT ensures RootDots(shape, to) == front + Le32(to) + back {
      assert to % U32_LIMIT == to;
      Reassociate(front, Le32(to), Le16(shape.blockSize - 12), [2, shape.dirType], DOTDOT, Zeros(2));
    }
    Reassociate(front, Le32(parent % U32_LIMIT), Le16(shape.blockSize - 12), [2, shape.dirType], DOTDOT, Zeros(2));
  }

  lemma {:induction false} Reassociate(a: Bytes, b: Bytes, c: Bytes, d: Bytes, e: Bytes, f: Bytes)
    ensures a + b + c + d + e + f == a + b + (c + d + e + f)
  {
  }

  /** The four bytes written are the root's parent. */
  lemma {:induction false} RootRewritten(shape: Shape, parent: nat, levels: nat, entries: seq<IndexEntry>, to: nat, code: DirBlk -> Bytes)
    requires shape.Valid() && Coded(code, shape) && to < U32_LIMIT
    ensures |code(Root(parent, levels, entries))| == shape.blockSize
    ensures code(Root(parent, levels, entries))[..ROOT_DOTS] == RootDots(shape, parent)
    ensures code(Root(to, levels, entries)) == Overwrite(code(Root(parent, levels, entries)), 12, Le32(to))
  {
    hide RootDots, Le32, Overwrite;
    var rest := code(Root(0, levels, entries))[ROOT_DOTS..];
    var was, now := Root(parent, levels, entries), Root(to, levels, entries);
    assert !was.Plain? && code(was) == RootDots(shape, parent) + rest && code(now) == RootDots(shape, to) + rest;
    var front, back := DotsSplit(shape, parent);
    OverwriteMiddle(front, Le32(parent % U32_LIMIT), back, rest, Le32(to));
  }

  lemma {:induction false} OverwriteMiddle(a: Bytes, x: Bytes, b: Bytes, c: Bytes, y: Bytes)
    requires |x| == |y|
    ensures Overwrite((a + x + b) + c, |a|, y) == (a + y + b) + c
  {
    var z := (a + x + b) + c;
    assert z[..|a|] == a && z[|a| + |x|..] == b + c;
  }

  // ---- what it means for the directory ----

  lemma {:induction false} NoneDotDot(slots: seq<Slot>, self: nat)
    requires forall i :: 0 <= i < |slots| ==> slots[i].name != DOTDOT
    ensures ParentOf(Live(slots), self) == self
  {
    if slots != [] {
      NoneDotDot(slots[1..], self);
      ParentConcat(LiveOne(slots[0]), Live(slots[1..]), self);
    }
  }

  /** The first ".." pointed elsewhere is the parent, and the other names are as they were. */
  lemma {:induction false} RepointMeans(slots: seq<Slot>, to: nat, self: nat)
    requires DotAt(slots) < |slots| && to != 0
    ensures var now := slots[DotAt(slots) := slots[DotAt(slots)].(inode := to)];
            ParentOf(Live(now), self) == to && Undotted(Live(now)) == Undotted(Live(slots))
  {
    hide Live, Undotted, ParentOf;
    var k := DotAt(slots);
    var pre, s, rest := slots[..k], slots[k], slots[k + 1..];
    var t := s.(inode := to);
    assert slots == pre + [s] + rest && slots[k := t] == pre + [t] + rest;
    LiveThree(pre, s, rest);
    LiveThree(pre, t, rest);
    UndottedThree(Live(pre), LiveOne(s), Live(rest));
    UndottedThree(Live(pre), LiveOne(t), Live(rest));
    OneDotted(s);
    OneDotted(t);
    NoneDotDot(pre, to);
    ParentConcat(Live(pre) + LiveOne(t), Live(rest), self);
    ParentConcat(Live(pre), LiveOne(t), ParentOf(Live(rest), self));
    DotParent(t, ParentOf(Live(rest), self));
  }

  lemma {:induction false} LiveThree(a: seq<Slot>, s: Slot, b: seq<Slot>)
    ensures Live(a + [s] + b) == Live(a) + LiveOne(s) + Live(b)
  {
    LiveConcat(a + [s], b);
    LiveConcat(a, [s]);
    LiveSingle(s);
  }

  lemma {:induction false} UndottedThree(a: seq<Entry>, m: seq<Entry>, b: seq<Entry>)
    ensures Undotted(a + m + b) == Undotted(a) + Undotted(m) + Undotted(b)
  {
    UndottedConcat(a + m, b);
    UndottedConcat(a, m);
  }

  lemma {:induction false} OneDotted(s: Slot)
    requires s.name == DOTDOT
    ensures Undotted(LiveOne(s)) == []
  {
    if s.inode != 0 {
      UndottedOne(Entry(s.name, s.inode, s.fileType));
    }
  }

  lemma {:induction false} DotParent(s: Slot, self: nat)
    requires s.name == DOTDOT && s.inode != 0
    ensures ParentOf(LiveOne(s), self) == s.inode
  {
  }

  /** The bytes of a block with its first ".." pointed elsewhere, four of them other than they were. */
  predicate PointedAt(was: Bytes, now: Bytes, shape: Shape, to: nat)
    requires shape.Valid() && to < U32_LIMIT
  {
    |was| == shape.blockSize &&
    var found := FindDot(was[..shape.Room()], 0);
    found.Ok? && found.value.Some? && now == Overwrite(was, found.value.value, Le32(to))
  }

  /** Point a block's ".." elsewhere, if it has one. */
  method RepointInto(b: DirBlk, shape: Shape, to: nat) returns (r: Option<DirBlk>)
    requires shape.Valid() && PlainOk(b, shape) && 0 < to < U32_LIMIT
    ensures r.Some? ==> r.value.Plain? && PointedAt(b.bytes, r.value.bytes, shape, to)
    ensures r.Some? ==> PlainOk(r.value, shape) && Undotted(EntriesOf(r.value, shape)) == Undotted(EntriesOf(b, shape))
                        && forall self: nat :: ParentOf(EntriesOf(r.value, shape), self) == to
    ensures r.None? ==> forall self: nat :: ParentOf(EntriesOf(b, shape), self) == self
  {
    hide Chain, Live, Undotted, ParentOf;
    var buf := new byte[|b.bytes|](i requires 0 <= i < |b.bytes| => b.bytes[i]);
    assert buf[..] == b.bytes;
    ghost var limit, slots := shape.Room(), SlotsOf(b, shape);
    assert buf[..limit] == b.bytes[..limit];
    var done := RepointInBlock(buf, shape.withTail, to);
    if done == Ok(true) {
      var now := Plain(buf[..]);
      assert now.bytes[..limit] == buf[..limit];
      RepointMeans(slots, to, 0);
      forall self: nat ensures ParentOf(EntriesOf(now, shape), self) == to {
        RepointMeans(slots, to, self);
      }
      return Some(now);
    }
    forall self: nat ensures ParentOf(EntriesOf(b, shape), self) == self {
      NoneDotDot(slots, self);
    }
    return None;
  }

  /** What changing one block's ".." leaves of the whole directory. */
  lemma {:induction false} RepointAll(blocks: seq<DirBlk>, k: nat, b: DirBlk, shape: Shape, to: nat)
    requires shape.Valid() && k < |blocks| && Undotted(EntriesOf(b, shape)) == Undotted(EntriesOf(blocks[k], shape))
    requires forall self: nat :: ParentOf(EntriesOf(b, shape), self) == to
    requires forall j :: 0 <= j < k ==> forall self: nat :: ParentOf(EntriesOf(blocks[j], shape), self) == self
    ensures Undotted(All(blocks[k := b], shape)) == Undotted(All(blocks, shape)) && ParentOf(All(blocks[k := b], shape), shape.self) == to
  {
    hide EntriesOf, Undotted, ParentOf;
    var now := blocks[k := b];
    AllAround(blocks, k, shape);
    AllAround(now, k, shape);
    assert now[..k] == blocks[..k] && now[k + 1..] == blocks[k + 1..] && now[k] == b;
    var front, back := All(blocks[..k], shape), All(blocks[k + 1..], shape);
    UndottedThree(front, EntriesOf(blocks[k], shape), back);
    UndottedThree(front, EntriesOf(b, shape), back);
    ParentConcat(front + EntriesOf(b, shape), back, shape.self);
    ParentConcat(front, EntriesOf(b, shape), ParentOf(back, shape.self));
    assert ParentOf(EntriesOf(b, shape), ParentOf(back, shape.self)) == to;
    NoParents(blocks[..k], shape, to);
  }

  lemma {:induction false} NoParents(blocks: seq<DirBlk>, shape: Shape, self: nat)
    requires shape.Valid() && forall j :: 0 <= j < |blocks| ==> forall x: nat :: ParentOf(EntriesOf(blocks[j], shape), x) == x
    ensures ParentOf(All(blocks, shape), self) == self
  {
    hide EntriesOf, ParentOf;
    if blocks != [] {
      var n := |blocks| - 1;
      NoParents(blocks[..n], shape, self);
      ParentConcat(All(blocks[..n], shape), EntriesOf(blocks[n], shape), self);
      assert ParentOf(EntriesOf(blocks[n], shape), self) == self;
    } else {
      NothingParent(self);
    }
  }

  lemma {:induction false} NothingParent(self: nat)
    ensures ParentOf([], self) == self
  {
  }

  /** A root's parent is its own to give. */
  lemma {:induction false} RootParent(b: DirBlk, shape: Shape, self: nat)
    requires shape.Valid() && b.Root?
    ensures ParentOf(EntriesOf(b, shape), self) == b.parent && Undotted(EntriesOf(b, shape)) == []
  {
    var dots := DotEntries(shape.self, b.parent, shape.dirType);
    assert dots[1..][0].name == DOTDOT;
    DotsOnly(shape, b.parent);
  }

  /** A root pointed elsewhere is still over the same tree. */
  lemma {:induction false} RootTreed(blocks: seq<DirBlk>, shape: Shape, hashes: seq<nat>, per: nat, hash: Bytes -> nat, to: nat)
    requires shape.Valid() && Treed(blocks, shape, hashes, per) && |hashes| < |blocks| && Homed(blocks, shape, hashes, hash)
    ensures blocks[0].Root?
    ensures var now := blocks[0 := blocks[0].(parent := to)];
            && Treed(now, shape, hashes, per) && Homed(now, shape, hashes, hash) && NodesOf(now, |hashes|) == NodesOf(blocks, |hashes|)
  {
    hide TreeOver, Rising, PlainOk, HomedIn;
    var now := blocks[0 := blocks[0].(parent := to)];
    assert NodesOf(now, |hashes|) == NodesOf(blocks, |hashes|);
    forall k | 1 <= k <= |hashes| ensures HomedIn(now[k], shape, hashes, k - 1, hash) {
      assert now[k] == blocks[k];
    }
  }

  /**
   Point a directory's ".." at a new parent, by four bytes of one block: the names
   in it stay as they are, and so does which of them a search sees. Nothing is done
   to a directory without one. The walk fails, and nothing is done, exactly where
   the directory is under an index and blocks end in a checksum, since the root's
   ".." is as long as its whole block.
   */
  method Repoint(d: Directory, to: nat, code: DirBlk -> Bytes) returns (r: Result<Option<nat>>)
    requires d.Valid() && 0 < to < U32_LIMIT && Coded(code, d.shape)
    modifies d`blocks
    ensures d.Valid() && d.Entries() == old(d.Entries())
    ensures r.Err? <==> d.indexed && d.shape.withTail
    ensures r.Err? ==> r == Err(Fs) && d.blocks == old(d.blocks)
    ensures r.Ok? ==> ParentOf(All(d.blocks, d.shape), d.shape.self) == if r.value.Some? then to else d.shape.self
    ensures r.Ok? && r.value.Some? ==>
              var k := r.value.value;
              ChangedSo(old(d.blocks), d.blocks, Edited(k)) && PointedAt(code(old(d.blocks)[k]), code(d.blocks[k]), d.shape, to)
    ensures r == Ok(None) ==> d.blocks == old(d.blocks) && ParentOf(All(old(d.blocks), d.shape), d.shape.self) == d.shape.self
    ensures forall n: Bytes :: n != DOT && n != DOTDOT ==>
              (Seen(d.blocks, d.indexed, d.shape, d.hashes, d.per, d.hash(n), n)
               <==> Seen(old(d.blocks), d.indexed, d.shape, d.hashes, d.per, d.hash(n), n))
  {
    hide Seen, Sound, Contents, ParentOf, All, PointedAt;
    if d.indexed {
      r := RepointRoot(d, to, code);
    } else {
      r := RepointList(d, to, code);
    }
  }

  /** A search reads no root for names. */
  lemma {:induction false} RootUnseen(was: seq<DirBlk>, now: seq<DirBlk>, shape: Shape, hashes: seq<nat>, per: nat, h: nat, n: Bytes)
    requires shape.Valid() && 0 < |was| == |now| && was[0].Root? && now[0].Root? && was[0].entries == now[0].entries && was[1..] == now[1..]
    ensures Seen(now, true, shape, hashes, per, h, n) ==> Seen(was, true, shape, hashes, per, h, n)
  {
    hide Reached, EntriesOf;
    assert forall j :: 1 <= j < |was| ==> was[j] == was[1..][j - 1] && now[j] == now[1..][j - 1];
    if Seen(now, true, shape, hashes, per, h, n) {
      var k, e :| 0 <= k < |now| && Searched(now, true, hashes, per, h, k) && e in EntriesOf(now[k], shape) && e.name == n;
      assert NodesOf(now, |hashes|) == NodesOf(was, |hashes|);
      assert Searched(was, true, hashes, per, h, k) && e in EntriesOf(was[k], shape);
    }
  }

  lemma {:induction false} ListUnseen(was: seq<DirBlk>, now: seq<DirBlk>, k: nat, shape: Shape, hashes: seq<nat>, per: nat, h: nat, n: Bytes)
    requires shape.Valid() && k < |was| == |now| && n != DOT && n != DOTDOT && now == was[k := now[k]]
    requires Undotted(EntriesOf(now[k], shape)) == Undotted(EntriesOf(was[k], shape))
    ensures Seen(now, false, shape, hashes, per, h, n) ==> Seen(was, false, shape, hashes, per, h, n)
  {
    hide EntriesOf, Undotted;
    if Seen(now, false, shape, hashes, per, h, n) {
      var j, e :| 0 <= j < |now| && Searched(now, false, hashes, per, h, j) && e in EntriesOf(now[j], shape) && e.name == n;
      InUndotted(EntriesOf(now[j], shape), e);
      InUndotted(EntriesOf(was[j], shape), e);
      assert Searched(was, false, hashes, per, h, j) && e in EntriesOf(was[j], shape);
    }
  }

  /** The same walk over the root of an index, whose head is records too. */
  method RepointRoot(d: Directory, to: nat, code: DirBlk -> Bytes) returns (r: Result<Option<nat>>)
    requires d.Valid() && 0 < to < U32_LIMIT && d.indexed && Coded(code, d.shape)
    modifies d`blocks
    ensures d.Valid() && d.Entries() == old(d.Entries())
    ensures r == if d.shape.withTail then Err(Fs) else Ok(Some(0))
    ensures r.Err? ==> d.blocks == old(d.blocks)
    ensures r.Ok? ==> ParentOf(All(d.blocks, d.shape), d.shape.self) == to
    ensures r.Ok? ==> ChangedSo(old(d.blocks), d.blocks, Edited(0)) && PointedAt(code(old(d.blocks)[0]), code(d.blocks[0]), d.shape, to)
    ensures forall n: Bytes :: Seen(d.blocks, true, d.shape, d.hashes, d.per, d.hash(n), n)
                          <==> Seen(old(d.blocks), true, d.shape, d.hashes, d.per, d.hash(n), n)
  {
    hide EntriesOf, Undotted, All, ParentOf, Treed, Homed, Seen, DistinctNames, EvenHashes, Coded, RootDots, FindDot, Overwrite, Chain;
    RootTreed(d.blocks, d.shape, d.hashes, d.per, d.hash, to);
    var root := d.blocks[0];
    ghost var was := d.blocks;
    RootRewritten(d.shape, root.parent, root.levels, root.entries, to, code);
    RootWalk(code(root), d.shape, root.parent);
    var buf := new byte[|code(root)|](i requires 0 <= i < |code(root)| => code(root)[i]);
    assert buf[..] == code(root);
    assert buf[..d.shape.Room()] == code(root)[..d.shape.Room()];
    var done := RepointInBlock(buf, d.shape.withTail, to);
    if done.Err? {
      return Err(done.error);
    }
    var now := root.(parent := to);
    assert buf[..] == code(now);
    forall self: nat ensures ParentOf(EntriesOf(now, d.shape), self) == to {
      RootParent(now, d.shape, self);
    }
    RootParent(root, d.shape, 0);
    RootParent(now, d.shape, 0);
    RepointAll(d.blocks, 0, now, d.shape, to);
    d.blocks := d.blocks[0 := now];
    assert was[1..] == d.blocks[1..];
    forall n: Bytes ensures Seen(d.blocks, true, d.shape, d.hashes, d.per, d.hash(n), n) <==> Seen(was, true, d.shape, d.hashes, d.per, d.hash(n), n) {
      RootUnseen(was, d.blocks, d.shape, d.hashes, d.per, d.hash(n), n);
      RootUnseen(d.blocks, was, d.shape, d.hashes, d.per, d.hash(n), n);
    }
    r := Ok(Some(0));
  }

  method RepointList(d: Directory, to: nat, code: DirBlk -> Bytes) returns (r: Result<Option<nat>>)
    requires d.Valid() && 0 < to < U32_LIMIT && !d.indexed && Coded(code, d.shape)
    modifies d`blocks
    ensures d.Valid() && d.Entries() == old(d.Entries()) && r.Ok?
    ensures ParentOf(All(d.blocks, d.shape), d.shape.self) == if r.value.Some? then to else d.shape.self
    ensures r.value.Some? ==> var k := r.value.value;
                              ChangedSo(old(d.blocks), d.blocks, Edited(k)) && PointedAt(code(old(d.blocks)[k]), code(d.blocks[k]), d.shape, to)
    ensures r.value.None? ==> d.blocks == old(d.blocks) && ParentOf(All(old(d.blocks), d.shape), d.shape.self) == d.shape.self
    ensures forall n: Bytes :: n != DOT && n != DOTDOT ==>
              (Seen(d.blocks, false, d.shape, d.hashes, d.per, d.hash(n), n)
               <==> Seen(old(d.blocks), false, d.shape, d.hashes, d.per, d.hash(n), n))
  {
    hide EntriesOf, Undotted, All, ParentOf, PlainOk, DistinctNames, EvenHashes, Seen, PointedAt, RootDots;
    for i := 0 to |d.blocks|
      invariant d.blocks == old(d.blocks)
      invariant forall j :: 0 <= j < i ==> forall self: nat :: ParentOf(EntriesOf(d.blocks[j], d.shape), self) == self
    {
      var now := RepointInto(d.blocks[i], d.shape, to);
      if now.Some? {
        RepointAll(d.blocks, i, now.value, d.shape, to);
        ghost var was := d.blocks;
        PlainCoded(was[i], d.shape, code);
        PlainCoded(now.value, d.shape, code);
        d.blocks := d.blocks[i := now.value];
        forall n: Bytes | n != DOT && n != DOTDOT
          ensures Seen(d.blocks, false, d.shape, d.hashes, d.per, d.hash(n), n) <==> Seen(was, false, d.shape, d.hashes, d.per, d.hash(n), n)
        {
          ListUnseen(was, d.blocks, i, d.shape, d.hashes, d.per, d.hash(n), n);
          ListUnseen(d.blocks, was, i, d.shape, d.hashes, d.per, d.hash(n), n);
        }
        return Ok(Some(i));
      }
    }
    NoParents(d.blocks, d.shape, d.shape.self);
    r := Ok(None);
  }

  lemma {:induction false} PlainCoded(b: DirBlk, shape: Shape, code: DirBlk -> Bytes)
    requires shape.Valid() && Coded(code, shape) && PlainOk(b, shape)
    ensures b.Plain? && code(b) == b.bytes
  {
    hide RootDots;
    assert b == Plain(b.bytes);
  }

  // ---- a directory that is stuck ----

  function StuckShape(): Shape {
    Shape(1024, true, 12, 2)
  }

  lemma {:induction false} OneFits(e: Entry, hash: Bytes -> nat)
    ensures StuckShape().Valid() && !TooLarge({e}, StuckShape(), hash, hash)
  {
    var shape := StuckShape();
    assert 1 <= RootLimit(shape) && 1 <= NodeLimit(shape);
    MulMono(1, RootLimit(shape), NodeLimit(shape));
    FewFit({e}, shape, hash, hash);
  }

  /** With checksums, a new directory whose first name went into an index cannot be given another parent. */
  method StuckExample(to: nat) returns (d: Directory, r: Result<Option<nat>>)
    requires 0 < to < U32_LIMIT
    ensures fresh(d) && d.Valid() && d.indexed && d.Entries() == {Entry([97], 13, 1)}
    ensures r == Err(Fs) && ParentOf(All(d.blocks, d.shape), d.shape.self) == 2
  {
    hide Sound, Contents, TooLarge, FreshIndex, PlannedFor, Seen, ParentOf, All, PointedAt, Coded, Treed, Homed;
    var hash, e := (n: Bytes) => 2, Entry([97], 13, 1);
    OneFits(e, hash);
    d := new Directory(StuckShape(), true, hash, hash, 2);
    var built := d.Rebuild(Some(e));
    assert {} + {e} == {e};
    BareCoded(d.shape);
    r := Repoint(d, to, BareCode(d.shape));
  }
}
