/**
 Directory blocks (src/dir.rs): a chain of records, each carrying the distance
 to the next. The meaning of a block is the list of records its chain spells
 out; the two in-place editors are proved against operations on that list.
 */
module DirBlock {
  import opened Base

  const ENTRY_HEADER_LEN := 8
  const TAIL_LEN := 12
  const NAME_LEN_MAX := 255

  function RecLen(n: nat): (r: nat)
    ensures r % 4 == 0 && 8 + n <= r < 12 + n
  {
    (n + 11) / 4 * 4
  }

  /** One record of the chain; a zero inode marks a dead one. */
  datatype Slot = Slot(inode: nat, recLen: nat, name: Bytes, fileType: byte)

  /** What a directory maps a name to. */
  datatype Entry = Entry(name: Bytes, inode: nat, fileType: byte)

  /** Decoding a record fails when it, or its name, does not fit the slice. */
  function Decode(slice: Bytes): (r: Option<Slot>)
    ensures r.Some? ==> r.value.recLen <= |slice| && ENTRY_HEADER_LEN + |r.value.name| <= |slice|
  {
    if |slice| < ENTRY_HEADER_LEN then None
    else
      var recLen, n := U16(slice, 4), slice[6];
      if recLen > |slice| || ENTRY_HEADER_LEN + n > |slice| then None
      else Some(Slot(U32(slice, 0), recLen, slice[8..8 + n], slice[7]))
  }

  /** A record as a correct writer leaves it: aligned, and long enough for its name. */
  predicate SlotOk(s: Slot) {
    s.recLen % 4 == 0 && RecLen(|s.name|) <= s.recLen
  }

  /** The records that tile the bytes exactly, when they do. */
  function Chain(b: Bytes): (r: Option<seq<Slot>>)
    decreases |b|
  {
    if b == [] then Some([])
    else
      match Decode(b)
      case None => None
      case Some(s) =>
        if !SlotOk(s) then None
        else
          match Chain(b[s.recLen..])
          case None => None
          case Some(rest) => Some([s] + rest)
  }

  function Span(slots: seq<Slot>): nat {
    if slots == [] then 0 else slots[0].recLen + Span(slots[1..])
  }

  /** The entries a reader sees, in block order. */
  function Live(slots: seq<Slot>): seq<Entry> {
    if slots == [] then []
    else (if slots[0].inode == 0 then [] else [Entry(slots[0].name, slots[0].inode, slots[0].fileType)]) + Live(slots[1..])
  }

  ghost predicate AllOk(slots: seq<Slot>) {
    forall i :: 0 <= i < |slots| ==> SlotOk(slots[i])
  }

  // ---- what the editors mean on the list of records ----

  function Used(s: Slot): nat {
    if s.inode == 0 then 0 else RecLen(|s.name|)
  }

  function Slack(s: Slot): nat {
    if s.recLen < Used(s) then 0 else s.recLen - Used(s)
  }

  function FirstFit(slots: seq<Slot>, need: nat): (k: nat)
    ensures k <= |slots|
    ensures forall i :: 0 <= i < k ==> Slack(slots[i]) < need
    ensures k < |slots| ==> Slack(slots[k]) >= need
  {
    if slots == [] || Slack(slots[0]) >= need then 0 else 1 + FirstFit(slots[1..], need)
  }

  /** What becomes of the record that takes the new name. */
  function Split(s: Slot, e: Entry): seq<Slot> {
    if Used(s) == 0 then [Slot(e.inode, s.recLen, e.name, e.fileType)]
    else [s.(recLen := Used(s)), Slot(e.inode, Slack(s), e.name, e.fileType)]
  }

  function Insert(slots: seq<Slot>, e: Entry): Option<seq<Slot>> {
    var k := FirstFit(slots, RecLen(|e.name|));
    if k == |slots| then None else Some(slots[..k] + Split(slots[k], e) + slots[k + 1..])
  }

  predicate Names(s: Slot, name: Bytes) {
    s.inode != 0 && s.name == name
  }

  function IndexOf(slots: seq<Slot>, name: Bytes): (k: nat)
    ensures k <= |slots|
    ensures forall i :: 0 <= i < k ==> !Names(slots[i], name)
    ensures k < |slots| ==> Names(slots[k], name)
  {
    if slots == [] || Names(slots[0], name) then 0 else 1 + IndexOf(slots[1..], name)
  }

  function Remove(slots: seq<Slot>, name: Bytes): seq<Slot>
    requires IndexOf(slots, name) < |slots|
  {
    var k := IndexOf(slots, name);
    if k == 0 then slots[0 := slots[0].(inode := 0)]
    else slots[..k - 1] + [slots[k - 1].(recLen := slots[k - 1].recLen + slots[k].recLen)] + slots[k + 1..]
  }

  // ---- facts about chains ----

  lemma {:induction false} ChainSpan(b: Bytes)
    requires Chain(b).Some?
    ensures Span(Chain(b).value) == |b|
    ensures AllOk(Chain(b).value)
    decreases |b|
  {
    if b != [] {
      ChainSpan(b[Decode(b).value.recLen..]);
    }
  }

  lemma {:induction false} DecodePrefix(a: Bytes, b: Bytes)
    requires Decode(a).Some?
    ensures Decode(a + b) == Decode(a)
  {
    var c, n := a + b, a[6];
    assert c[8..8 + n] == a[8..8 + n];
    assert forall i :: 0 <= i < 8 ==> c[i] == a[i];
  }

  /** What follows a list of records carries on from it. */
  function Prepend(slots: seq<Slot>, rest: Option<seq<Slot>>): Option<seq<Slot>> {
    match rest case None => None case Some(r) => Some(slots + r)
  }

  lemma {:induction false} ChainStep(b: Bytes, s: Slot)
    requires Decode(b) == Some(s) && SlotOk(s)
    ensures Chain(b) == Prepend([s], Chain(b[s.recLen..]))
  {
  }

  lemma {:induction false} PrependTwice(x: seq<Slot>, y: seq<Slot>, rest: Option<seq<Slot>>)
    ensures Prepend(x, Prepend(y, rest)) == Prepend(x + y, rest)
  {
    if rest.Some? {
      assert x + (y + rest.value) == (x + y) + rest.value;
    }
  }

  lemma {:induction false} ChainConcat(a: Bytes, b: Bytes)
    requires Chain(a).Some?
    ensures Chain(a + b) == Prepend(Chain(a).value, Chain(b))
    decreases |a|
  {
    if a == [] {
      assert a + b == b;
      if Chain(b).Some? {
        assert [] + Chain(b).value == Chain(b).value;
      }
    } else {
      var s := Decode(a).value;
      ChainStep(a, s);
      ChainConcat(a[s.recLen..], b);
      ConcatStep(a, b, s);
    }
  }

  lemma {:induction false} ConcatStep(a: Bytes, b: Bytes, s: Slot)
    requires Decode(a) == Some(s) && SlotOk(s) && Chain(a[s.recLen..]).Some?
    requires Chain(a[s.recLen..] + b) == Prepend(Chain(a[s.recLen..]).value, Chain(b))
    ensures Chain(a + b) == Prepend([s] + Chain(a[s.recLen..]).value, Chain(b))
  {
    hide Chain, Decode;
    DecodePrefix(a, b);
    ChainStep(a + b, s);
    assert (a + b)[s.recLen..] == a[s.recLen..] + b;
    PrependTwice([s], Chain(a[s.recLen..]).value, Chain(b));
  }

  /** The bytes of one record, its name padded with zeroes to its length. */
  function Record(s: Slot): (b: Bytes)
    requires s.inode < U32_LIMIT && s.recLen < U16_LIMIT && |s.name| <= NAME_LEN_MAX
    requires ENTRY_HEADER_LEN + |s.name| <= s.recLen
    ensures |b| == s.recLen
  {
    Le32(s.inode) + Le16(s.recLen) + [|s.name|, s.fileType] + s.name + Zeros(s.recLen - ENTRY_HEADER_LEN - |s.name|)
  }

  lemma {:induction false} RecordChain(s: Slot)
    requires s.inode < U32_LIMIT && s.recLen < U16_LIMIT && |s.name| <= NAME_LEN_MAX && SlotOk(s)
    ensures Chain(Record(s)) == Some([s])
  {
    var r := Record(s);
    var ino, len := Le32(s.inode), Le16(s.recLen);
    assert r[0] == ino[0] && r[1] == ino[1] && r[2] == ino[2] && r[3] == ino[3];
    assert r[4] == len[0] && r[5] == len[1] && r[6] == |s.name| && r[7] == s.fileType;
    assert r[8..8 + |s.name|] == s.name;
    assert |r| == s.recLen;
    assert U32(r, 0) == s.inode;
    assert U16(r, 4) == s.recLen;
    assert Decode(r).Some?;
    assert Decode(r) == Some(s);
    ChainStep(r, s);
    assert r[s.recLen..] == [];
    assert [s] + [] == [s];
  }

  /** Changing only a record's length changes only where the next one starts. */
  lemma {:induction false} Relength(d: Bytes, c: Bytes, s: Slot, len: nat)
    requires Decode(d) == Some(s)
    requires len < U16_LIMIT && len % 4 == 0 && RecLen(|s.name|) <= len == |c|
    requires c[..4] == d[..4] && c[4..6] == Le16(len) && c[6..8 + |s.name|] == d[6..8 + |s.name|]
    ensures Chain(c) == Some([s.(recLen := len)])
  {
    var n := |s.name|;
    assert c[0] == c[..4][0] && c[1] == c[..4][1] && c[2] == c[..4][2] && c[3] == c[..4][3];
    assert d[0] == d[..4][0] && d[1] == d[..4][1] && d[2] == d[..4][2] && d[3] == d[..4][3];
    assert c[4] == c[4..6][0] && c[5] == c[4..6][1];
    assert c[6] == c[6..8 + n][0] && c[7] == c[6..8 + n][1];
    assert d[6] == d[6..8 + n][0] && d[7] == d[6..8 + n][1];
    assert c[8..8 + n] == c[6..8 + n][2..] == d[6..8 + n][2..] == d[8..8 + n];
    assert Decode(c) == Some(s.(recLen := len));
    ChainStep(c, s.(recLen := len));
    assert c[len..] == [];
    assert [s.(recLen := len)] + [] == [s.(recLen := len)];
  }

  // ---- the in-place editors ----

  lemma {:induction false} OverwriteTwice(b: Bytes, at: nat, x: Bytes, y: Bytes)
    requires at + |x| + |y| <= |b|
    ensures Overwrite(Overwrite(b, at, x), at + |x|, y) == Overwrite(b, at, x + y)
  {
  }

  lemma {:induction false} OverwriteTake(b: Bytes, limit: nat, at: nat, x: Bytes)
    requires at + |x| <= limit <= |b|
    ensures Overwrite(b, at, x)[..limit] == Overwrite(b[..limit], at, x)
    ensures Overwrite(b, at, x)[limit..] == b[limit..]
  {
  }

  function Limit(length: nat, withTail: bool): nat
    requires withTail ==> TAIL_LEN <= length
  {
    length - if withTail then TAIL_LEN else 0
  }

  /** Carry on writing at `at`, behind the bytes already put there. */
  method PutNext(buf: array<byte>, ghost was: Bytes, at: nat, ghost head: Bytes, skip: nat, data: Bytes)
    requires skip == |head| && at + skip + |data| <= buf.Length == |was|
    requires buf[..] == Overwrite(was, at, head)
    modifies buf
    ensures buf[..] == Overwrite(was, at, head + data)
  {
    PutBytes(buf, at + skip, data);
    OverwriteTwice(was, at, head, data);
  }

  method PutZeros(buf: array<byte>, ghost was: Bytes, at: nat, ghost head: Bytes, skip: nat, count: nat)
    requires skip == |head| && at + skip + count <= buf.Length == |was|
    requires buf[..] == Overwrite(was, at, head)
    modifies buf
    ensures buf[..] == Overwrite(was, at, head + Zeros(count))
  {
    assert head + [] == head;
    for i := 0 to count
      invariant buf[..] == Overwrite(was, at, head + Zeros(i))
    {
      PutNext(buf, was, at, head + Zeros(i), skip + i, [0]);
      assert head + Zeros(i) + [0] == head + Zeros(i + 1);
    }
  }

  /** Write one record at `at`, spanning `recLen` bytes. */
  method WriteEntry(buf: array<byte>, at: nat, inum: nat, name: Bytes, fileType: byte, recLen: nat)
    requires inum < U32_LIMIT && recLen < U16_LIMIT && |name| <= NAME_LEN_MAX
    requires ENTRY_HEADER_LEN + |name| <= recLen && at + recLen <= buf.Length
    modifies buf
    ensures buf[..] == Overwrite(old(buf[..]), at, Record(Slot(inum, recLen, name, fileType)))
  {
    ghost var b0 := buf[..];
    assert buf[..] == Overwrite(b0, at, []);
    hide Overwrite, Le32, Le16, Zeros, Record;
    PutNext(buf, b0, at, [], 0, Le32(inum));
    ghost var head := [] + Le32(inum);
    PutNext(buf, b0, at, head, 4, Le16(recLen));
    head := head + Le16(recLen);
    PutNext(buf, b0, at, head, 6, [|name|, fileType]);
    head := head + [|name|, fileType];
    PutNext(buf, b0, at, head, ENTRY_HEADER_LEN, name);
    head := head + name;
    PutZeros(buf, b0, at, head, ENTRY_HEADER_LEN + |name|, recLen - ENTRY_HEADER_LEN - |name|);
    RecordIs(inum, recLen, name, fileType);
  }

  lemma {:induction false} RecordIs(inum: nat, recLen: nat, name: Bytes, fileType: byte)
    requires inum < U32_LIMIT && recLen < U16_LIMIT && |name| <= NAME_LEN_MAX && ENTRY_HEADER_LEN + |name| <= recLen
    ensures Record(Slot(inum, recLen, name, fileType)) ==
              [] + Le32(inum) + Le16(recLen) + [|name|, fileType] + name + Zeros(recLen - ENTRY_HEADER_LEN - |name|)
  {
    hide Le32, Le16, Zeros;
    assert [] + Le32(inum) == Le32(inum);
  }

  /** A walk of chain b has passed the records pre and stands at byte `at`. */
  ghost predicate Passed(b: Bytes, at: nat, pre: seq<Slot>) {
    at <= |b| && Chain(b[..at]) == Some(pre) && Chain(b) == Prepend(pre, Chain(b[at..]))
  }

  lemma {:induction false} PassNone(b: Bytes)
    requires Chain(b).Some?
    ensures Passed(b, 0, [])
  {
    assert b[..0] == [] && b[0..] == b;
    assert [] + Chain(b).value == Chain(b).value;
  }

  lemma {:induction false} DecodeOne(d: Bytes, s: Slot)
    requires Decode(d) == Some(s) && ENTRY_HEADER_LEN + |s.name| <= s.recLen
    ensures Decode(d[..s.recLen]) == Some(s)
  {
    var one := d[..s.recLen];
    assert one[8..8 + |s.name|] == d[8..8 + |s.name|];
    assert forall i :: 0 <= i < 8 ==> one[i] == d[i];
  }

  lemma {:induction false} DecodeTake(d: Bytes, s: Slot)
    requires Decode(d) == Some(s) && SlotOk(s)
    ensures Chain(d[..s.recLen]) == Some([s])
  {
    var one := d[..s.recLen];
    DecodeOne(d, s);
    ChainStep(one, s);
    assert one[s.recLen..] == [];
    assert [s] + [] == [s];
  }

  lemma {:induction false} PassOne(b: Bytes, at: nat, pre: seq<Slot>, s: Slot)
    requires Passed(b, at, pre) && Chain(b).Some? && Decode(b[at..]) == Some(s)
    ensures SlotOk(s) && 0 < s.recLen && at + s.recLen <= |b|
    ensures Passed(b, at + s.recLen, pre + [s])
  {
    var one, d := b[at..at + s.recLen], b[at..];
    ChainStep(d, s);
    assert d[s.recLen..] == b[at + s.recLen..];
    assert one == d[..s.recLen];
    DecodeTake(d, s);
    assert b[..at + s.recLen] == b[..at] + one;
    ChainConcat(b[..at], one);
    PrependTwice(pre, [s], Chain(b[at + s.recLen..]));
  }

  /** A walk that stops has passed every record. */
  lemma {:induction false} PassAll(b: Bytes, at: nat, pre: seq<Slot>)
    requires Passed(b, at, pre) && Chain(b).Some?
    requires |b| < at + ENTRY_HEADER_LEN || (Decode(b[at..]).Some? && Decode(b[at..]).value.recLen == 0)
    ensures Chain(b) == Some(pre)
  {
    if at < |b| {
      ChainDecodes(b, at, pre);
    }
    assert b[at..] == [];
    assert pre + [] == pre;
  }

  lemma {:induction false} ChainDecodes(b: Bytes, at: nat, pre: seq<Slot>)
    requires Passed(b, at, pre) && Chain(b).Some? && at < |b|
    ensures Decode(b[at..]).Some?
    ensures Decode(b[at..]).value.recLen > 0
  {
    assert b[at..] != [];
  }

  /** The record at `at` was rewritten as the records `mid`, everything else left alone. */
  lemma {:induction false} Replaced(b0: Bytes, b1: Bytes, at: nat, pre: seq<Slot>, end: nat, mid: seq<Slot>, rest: seq<Slot>)
    requires at <= end <= |b0| == |b1| && b1[..at] == b0[..at] && b1[end..] == b0[end..]
    requires Chain(b0[..at]) == Some(pre) && Chain(b1[at..end]) == Some(mid) && Chain(b0[end..]) == Some(rest)
    ensures Chain(b1) == Some(pre + (mid + rest))
  {
    hide Chain;
    ChainConcat(b1[at..end], b0[end..]);
    ChainConcat(b0[..at], b1[at..end] + b0[end..]);
    assert b1 == b0[..at] + (b1[at..end] + b0[end..]);
  }

  /** The bytes an insertion of e leaves where the bytes d of record s were. */
  function Rewritten(d: Bytes, s: Slot, e: Entry): (r: Bytes)
    requires |d| == s.recLen < U16_LIMIT && Used(s) <= s.recLen && ENTRY_HEADER_LEN <= s.recLen
    requires Slack(s) >= RecLen(|e.name|) && e.inode < U32_LIMIT && |e.name| <= NAME_LEN_MAX
    ensures |r| == |d|
  {
    if Used(s) == 0 then Record(Slot(e.inode, s.recLen, e.name, e.fileType))
    else d[..4] + Le16(Used(s)) + d[6..Used(s)] + Record(Slot(e.inode, Slack(s), e.name, e.fileType))
  }

  /** Put e into the record s at `at`: over a dead one, or in the slack of a live one. */
  method Place(block: array<byte>, at: nat, s: Slot, e: Entry)
    requires at + s.recLen <= block.Length && s.recLen < U16_LIMIT && Used(s) <= s.recLen
    requires Slack(s) >= RecLen(|e.name|) && e.inode < U32_LIMIT && |e.name| <= NAME_LEN_MAX
    modifies block
    ensures block[..] == Overwrite(old(block[..]), at, Rewritten(old(block[at..at + s.recLen]), s, e))
  {
    hide Record, Le16, Overwrite;
    ghost var b0 := block[..];
    ghost var d := b0[at..at + s.recLen];
    assert d == block[at..at + s.recLen];
    var used := Used(s);
    if used == 0 {
      WriteEntry(block, at, e.inode, e.name, e.fileType, s.recLen);
    } else {
      PutBytes(block, at + 4, Le16(used));
      WriteEntry(block, at + used, e.inode, e.name, e.fileType, Slack(s));
      OverwriteAround(b0, at, used, Le16(used), Record(Slot(e.inode, Slack(s), e.name, e.fileType)), d);
    }
  }

  lemma {:induction false} OverwriteAround(b: Bytes, at: nat, u: nat, x: Bytes, y: Bytes, d: Bytes)
    requires |x| == 2 && 6 <= u && at + u + |y| <= |b| && d == b[at..at + u + |y|]
    ensures Overwrite(Overwrite(b, at + 4, x), at + u, y) == Overwrite(b, at, d[..4] + x + d[6..u] + y)
  {
    assert d[..4] == b[at..at + 4];
    assert forall i :: 0 <= i < u - 6 ==> d[6..u][i] == b[at + 6..at + u][i];
    assert Overwrite(b, at + 4, x)[..at + u] == b[..at] + d[..4] + x + d[6..u];
  }

  lemma {:induction false} SpliceParts(d: Bytes, x: Bytes, u: nat, m: nat)
    requires |x| == 2 && 6 <= m <= u <= |d|
    ensures var c := d[..4] + x + d[6..u];
            c[..4] == d[..4] && c[4..6] == x && c[6..m] == d[6..m]
  {
    var c := d[..4] + x + d[6..u];
    assert forall i :: 6 <= i < u ==> c[i] == d[i];
  }

  lemma {:induction false} SplitRecord(d: Bytes, s: Slot, e: Entry)
    requires Decode(d) == Some(s) && |d| == s.recLen < U16_LIMIT && SlotOk(s)
    requires Slack(s) >= RecLen(|e.name|) && e.inode < U32_LIMIT && |e.name| <= NAME_LEN_MAX
    ensures Chain(Rewritten(d, s, e)) == Some(Split(s, e))
  {
    if Used(s) == 0 {
      RecordChain(Slot(e.inode, s.recLen, e.name, e.fileType));
    } else {
      hide Chain, Record, Le16;
      var u, n := Used(s), |s.name|;
      var added := Slot(e.inode, Slack(s), e.name, e.fileType);
      var c := d[..4] + Le16(u) + d[6..u];
      SpliceParts(d, Le16(u), u, 8 + n);
      Relength(d, c, s, u);
      RecordChain(added);
      ChainConcat(c, Record(added));
      assert [s.(recLen := u)] + [added] == Split(s, e);
    }
  }

  /** Where a walk stopped for want of records, nothing had room. */
  lemma {:induction false} Exhausted(b: Bytes, at: nat, pre: seq<Slot>, e: Entry)
    requires Chain(b).Some? && Passed(b, at, pre)
    requires |b| < at + ENTRY_HEADER_LEN || (Decode(b[at..]).Some? && Decode(b[at..]).value.recLen == 0)
    requires forall i :: 0 <= i < |pre| ==> Slack(pre[i]) < RecLen(|e.name|)
    ensures Insert(Chain(b).value, e) == None
  {
    PassAll(b, at, pre);
  }

  /** Where a walk placed the entry is where the list of records takes it. */
  lemma {:induction false} Inserted(b: Bytes, at: nat, pre: seq<Slot>, s: Slot, e: Entry)
    requires |b| < U16_LIMIT && Chain(b).Some? && Passed(b, at, pre) && Decode(b[at..]) == Some(s)
    requires at + s.recLen <= |b|
    requires Used(s) <= s.recLen && Slack(s) >= RecLen(|e.name|) && e.inode < U32_LIMIT && |e.name| <= NAME_LEN_MAX
    requires forall i :: 0 <= i < |pre| ==> Slack(pre[i]) < RecLen(|e.name|)
    ensures Chain(Overwrite(b, at, Rewritten(b[at..at + s.recLen], s, e))) == Insert(Chain(b).value, e) != None
  {
    hide Chain;
    PassOne(b, at, pre, s);
    var end := at + s.recLen;
    var d := b[at..end];
    DecodeOne(b[at..], s);
    assert d == b[at..][..s.recLen];
    SplitRecord(d, s, e);
    var b1 := Overwrite(b, at, Rewritten(d, s, e));
    var rest := Chain(b[end..]).value;
    assert b1[..at] == b[..at] && b1[end..] == b[end..] && b1[at..end] == Rewritten(d, s, e);
    Replaced(b, b1, at, pre, end, Split(s, e), rest);
    InsertAt(pre, s, rest, e);
    assert pre + [s] + rest == Chain(b).value;
  }

  lemma {:induction false} InsertAt(pre: seq<Slot>, s: Slot, rest: seq<Slot>, e: Entry)
    requires forall i :: 0 <= i < |pre| ==> Slack(pre[i]) < RecLen(|e.name|)
    requires Slack(s) >= RecLen(|e.name|)
    ensures Insert(pre + [s] + rest, e) == Some(pre + (Split(s, e) + rest))
  {
    var all := pre + [s] + rest;
    assert all[|pre|] == s && all[..|pre|] == pre && all[|pre| + 1..] == rest;
    assert forall i :: 0 <= i < |pre| ==> all[i] == pre[i];
    assert FirstFit(all, RecLen(|e.name|)) == |pre|;
    assert pre + Split(s, e) + rest == pre + (Split(s, e) + rest);
  }

  datatype Found = Found(at: nat, slot: Slot)

  /** Walk the chain to the first record with room for e. */
  method FindRoom(block: array<byte>, limit: nat, e: Entry) returns (r: Result<Option<Found>>, ghost pre: seq<Slot>)
    requires limit <= block.Length
    ensures r.Ok? && r.value.Some? ==>
              var Found(at, s) := r.value.value;
              && at + s.recLen <= limit && Decode(block[..limit][at..]) == Some(s)
              && Slack(s) >= RecLen(|e.name|)
              && (forall i :: 0 <= i < |pre| ==> Slack(pre[i]) < RecLen(|e.name|))
              && (Chain(block[..limit]).Some? ==> Passed(block[..limit], at, pre))
    ensures Chain(block[..limit]).Some? ==> r.Ok?
    ensures r == Ok(None) && Chain(block[..limit]).Some? ==> Insert(Chain(block[..limit]).value, e) == None
  {
    hide Chain, Passed, Decode;
    ghost var b := block[..limit];
    pre := [];
    var at := 0;
    if Chain(b).Some? {
      PassNone(b);
    }
    while at + ENTRY_HEADER_LEN <= limit
      invariant 0 <= at <= limit
      invariant Chain(b).Some? ==> Passed(b, at, pre)
      invariant forall i :: 0 <= i < |pre| ==> Slack(pre[i]) < RecLen(|e.name|)
      decreases limit - at
    {
      assert block[at..limit] == b[at..];
      var d := Decode(block[at..limit]);
      if Chain(b).Some? {
        ChainDecodes(b, at, pre);
      }
      if d.None? {
        return Err(Fs), pre;
      }
      var s := d.value;
      if s.recLen == 0 {
        break;
      }
      if Slack(s) >= RecLen(|e.name|) {
        return Ok(Some(Found(at, s))), pre;
      }
      if Chain(b).Some? {
        PassOne(b, at, pre, s);
      }
      pre := pre + [s];
      at := at + s.recLen;
    }
    if Chain(b).Some? {
      Exhausted(b, at, pre, e);
    }
    return Ok(None), pre;
  }

  /** Place a new entry in the first record with room for it; false when none has. */
  method InsertIntoBlock(block: array<byte>, withTail: bool, inum: nat, name: Bytes, fileType: byte) returns (r: Result<bool>)
    requires block.Length < U16_LIMIT && (withTail ==> TAIL_LEN <= block.Length)
    requires 0 < inum < U32_LIMIT && |name| <= NAME_LEN_MAX
    modifies block
    ensures r != Ok(true) ==> block[..] == old(block[..])
    ensures var limit := Limit(block.Length, withTail);
            var before, e := Chain(old(block[..limit])), Entry(name, inum, fileType);
            && block[limit..] == old(block[limit..])
            && (before.Some? ==>
                && r == Ok(Insert(before.value, e).Some?)
                && Chain(block[..limit]) == if r.value then Insert(before.value, e) else before)
  {
    hide Chain, Insert, Passed, Rewritten, Overwrite, Decode;
    var limit := Limit(block.Length, withTail);
    var e := Entry(name, inum, fileType);
    var room, pre := FindRoom(block, limit, e);
    if room.Err? {
      return Err(room.error);
    }
    if room.value.None? {
      return Ok(false);
    }
    var Found(at, s) := room.value.value;
    ghost var b := block[..limit];
    assert block[at..at + s.recLen] == b[at..at + s.recLen];
    if Chain(b).Some? {
      Inserted(b, at, pre, s, e);
    }
    Place(block, at, s, e);
    OverwriteTake(old(block[..]), limit, at, Rewritten(b[at..at + s.recLen], s, e));
    return Ok(true);
  }

  lemma {:induction false} ShortHeader(b: Bytes, at: nat, len: nat, end: nat, n: nat)
    requires len < U16_LIMIT && at + 8 + n <= end <= |b|
    ensures var d, c := b[at..], Overwrite(b, at + 4, Le16(len))[at..end];
            c[..4] == d[..4] && c[4..6] == Le16(len) && c[6..8 + n] == d[6..8 + n]
    ensures var b1 := Overwrite(b, at + 4, Le16(len));
            b1[..at] == b[..at] && b1[end..] == b[end..]
  {
    var d, c := b[at..], Overwrite(b, at + 4, Le16(len))[at..end];
    assert forall i :: 0 <= i < 4 || 6 <= i < 8 + n ==> c[i] == b[at + i] && d[i] == b[at + i];
    assert c[4] == Le16(len)[0] && c[5] == Le16(len)[1];
  }

  /** The two records either side of a removed name, as one. */
  lemma {:induction false} Merged(b: Bytes, before: nat, at: nat, pre: seq<Slot>, p: Slot, s: Slot)
    requires |b| < U16_LIMIT && Chain(b).Some?
    requires Passed(b, before, pre) && before <= at && Passed(b, at, pre + [p])
    requires Decode(b[before..]) == Some(p) && at == before + p.recLen && Decode(b[at..]) == Some(s)
    ensures p.recLen + s.recLen < U16_LIMIT && before + 6 <= |b| && at + s.recLen <= |b|
    ensures Chain(b[at + s.recLen..]).Some?
    ensures Chain(Overwrite(b, before + 4, Le16(p.recLen + s.recLen)))
         == Some(pre + ([p.(recLen := p.recLen + s.recLen)] + Chain(b[at + s.recLen..]).value))
  {
    hide Chain, Decode, Le16, Slack, RecLen, Overwrite;
    PassOne(b, before, pre, p);
    PassOne(b, at, pre + [p], s);
    var end, len := at + s.recLen, p.recLen + s.recLen;
    var b1 := Overwrite(b, before + 4, Le16(len));
    ShortHeader(b, before, len, end, |p.name|);
    Relength(b[before..], b1[before..end], p, len);
    Replaced(b, b1, before, pre, end, [p.(recLen := len)], Chain(b[end..]).value);
  }

  lemma {:induction false} Zeroed(b: Bytes, s: Slot)
    requires Chain(b).Some? && Decode(b) == Some(s)
    ensures Chain(Overwrite(b, 0, Le32(0))) == Some([s.(inode := 0)] + Chain(b[s.recLen..]).value)
  {
    var b1, z := Overwrite(b, 0, Le32(0)), Le32(0);
    assert b1[0] == z[0] && b1[1] == z[1] && b1[2] == z[2] && b1[3] == z[3];
    assert forall i :: 4 <= i < |b| ==> b1[i] == b[i];
    assert b1[8..8 + |s.name|] == b[8..8 + |s.name|];
    assert Decode(b1) == Some(s.(inode := 0));
    assert b1[s.recLen..] == b[s.recLen..];
    ChainStep(b1, s.(inode := 0));
  }

  datatype Located = Located(at: nat, slot: Slot, previous: Option<Found>)

  /** Walk the chain to the record holding a name, keeping the one before it. */
  method FindName(block: array<byte>, limit: nat, name: Bytes) returns (r: Result<Option<Located>>, ghost pre: seq<Slot>)
    requires limit <= block.Length
    ensures r.Ok? && r.value.Some? ==>
              var Located(at, s, previous) := r.value.value;
              && at <= limit && Decode(block[..limit][at..]) == Some(s) && Names(s, name) && 0 < s.recLen
              && (forall i :: 0 <= i < |pre| ==> !Names(pre[i], name))
              && (previous == None <==> pre == []) && (previous == None ==> at == 0)
              && (previous.Some? ==>
                  && previous.value.at + previous.value.slot.recLen == at && pre[|pre| - 1] == previous.value.slot
                  && Decode(block[..limit][previous.value.at..]) == Some(previous.value.slot))
              && (Chain(block[..limit]).Some? ==>
                  && Passed(block[..limit], at, pre)
                  && (previous.Some? ==> Passed(block[..limit], previous.value.at, pre[..|pre| - 1])))
    ensures Chain(block[..limit]).Some? ==> r.Ok?
    ensures r == Ok(None) && Chain(block[..limit]).Some? ==>
              IndexOf(Chain(block[..limit]).value, name) == |Chain(block[..limit]).value|
  {
    hide Chain, Passed, Decode;
    ghost var b := block[..limit];
    pre := [];
    var at := 0;
    var previous: Option<Found> := None;
    if Chain(b).Some? {
      PassNone(b);
    }
    while at + ENTRY_HEADER_LEN <= limit
      invariant 0 <= at <= limit
      invariant Chain(b).Some? ==> Passed(b, at, pre)
      invariant forall i :: 0 <= i < |pre| ==> !Names(pre[i], name)
      invariant (previous == None <==> pre == []) && (previous == None ==> at == 0)
      invariant previous.Some? ==>
                  && previous.value.at + previous.value.slot.recLen == at && pre[|pre| - 1] == previous.value.slot
                  && Decode(b[previous.value.at..]) == Some(previous.value.slot)
                  && (Chain(b).Some? ==> Passed(b, previous.value.at, pre[..|pre| - 1]))
      decreases limit - at
    {
      assert block[at..limit] == b[at..];
      var d := Decode(block[at..limit]);
      if Chain(b).Some? {
        ChainDecodes(b, at, pre);
      }
      if d.None? {
        return Err(Fs), pre;
      }
      var s := d.value;
      if s.recLen == 0 {
        break;
      }
      if s.inode != 0 && s.name == name {
        return Ok(Some(Located(at, s, previous))), pre;
      }
      if Chain(b).Some? {
        PassOne(b, at, pre, s);
      }
      assert (pre + [s])[..|pre|] == pre;
      pre := pre + [s];
      previous := Some(Found(at, s));
      at := at + s.recLen;
    }
    if Chain(b).Some? {
      PassAll(b, at, pre);
    }
    return Ok(None), pre;
  }

  lemma {:induction false} RemovedAt(pre: seq<Slot>, s: Slot, rest: seq<Slot>, name: Bytes)
    requires forall i :: 0 <= i < |pre| ==> !Names(pre[i], name)
    requires Names(s, name)
    ensures var all := pre + [s] + rest;
            && IndexOf(all, name) == |pre|
            && Remove(all, name) == if pre == [] then [s.(inode := 0)] + rest
                                    else pre[..|pre| - 1] + ([pre[|pre| - 1].(recLen := pre[|pre| - 1].recLen + s.recLen)] + rest)
  {
    var all := pre + [s] + rest;
    assert all[|pre|] == s && all[..|pre|] == pre && all[|pre| + 1..] == rest;
    assert forall i :: 0 <= i < |pre| ==> all[i] == pre[i];
    assert IndexOf(all, name) == |pre|;
    if pre == [] {
      assert all[0 := s.(inode := 0)] == [s.(inode := 0)] + rest;
    } else {
      assert all[..|pre| - 1] == pre[..|pre| - 1];
    }
  }

  /** Remove a name, folding its record into the one before; returns its inode. */
  method RemoveFromBlock(block: array<byte>, withTail: bool, name: Bytes) returns (r: Result<Option<nat>>)
    requires block.Length < U16_LIMIT && (withTail ==> TAIL_LEN <= block.Length)
    modifies block
    ensures r.Err? || r.value.None? ==> block[..] == old(block[..])
    ensures var limit := Limit(block.Length, withTail);
            var before := Chain(old(block[..limit]));
            && block[limit..] == old(block[limit..])
            && (before.Some? ==>
                var k := IndexOf(before.value, name);
                if k == |before.value| then r == Ok(None)
                else r == Ok(Some(before.value[k].inode)) && Chain(block[..limit]) == Some(Remove(before.value, name)))
  {
    hide Chain, Remove, Passed, Decode, Le16, Le32, Overwrite;
    var limit := Limit(block.Length, withTail);
    var where, pre := FindName(block, limit, name);
    if where.Err? {
      return Err(where.error);
    }
    if where.value.None? {
      return Ok(None);
    }
    var Located(at, s, previous) := where.value.value;
    ghost var b := block[..limit];
    if Chain(b).Some? {
      RemovedWhere(b, at, pre, s, name);
    }
    match previous {
      case Some(Found(before, p)) =>
        if Chain(b).Some? {
          assert pre == pre[..|pre| - 1] + [p];
          Merged(b, before, at, pre[..|pre| - 1], p, s);
        }
        PutBytes(block, before + 4, Le16(p.recLen + s.recLen));
        OverwriteTake(old(block[..]), limit, before + 4, Le16(p.recLen + s.recLen));
      case None =>
        assert b[0..] == b;
        if Chain(b).Some? {
          Zeroed(b, s);
        }
        PutBytes(block, at, Le32(0));
        OverwriteTake(old(block[..]), limit, 0, Le32(0));
    }
    return Ok(Some(s.inode));
  }

  lemma {:induction false} RemovedWhere(b: Bytes, at: nat, pre: seq<Slot>, s: Slot, name: Bytes)
    requires Chain(b).Some? && Passed(b, at, pre) && Decode(b[at..]) == Some(s) && Names(s, name)
    requires forall i :: 0 <= i < |pre| ==> !Names(pre[i], name)
    ensures at + s.recLen <= |b| && Chain(b[at + s.recLen..]).Some?
    ensures var all, rest := Chain(b).value, Chain(b[at + s.recLen..]).value;
            && IndexOf(all, name) == |pre| < |all| && all[|pre|] == s
            && Remove(all, name) == if pre == [] then [s.(inode := 0)] + rest
                                    else pre[..|pre| - 1] + ([pre[|pre| - 1].(recLen := pre[|pre| - 1].recLen + s.recLen)] + rest)
  {
    hide Chain, Decode;
    PassOne(b, at, pre, s);
    RemovedAt(pre, s, Chain(b[at + s.recLen..]).value, name);
  }
}
