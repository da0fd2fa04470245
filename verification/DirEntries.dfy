/**
 What the directory-block editors do to the entries a reader sees (src/dir.rs):
 exactly one entry more or less, every other entry kept in place, the records
 still tiling the block, and room for a name where it has just been removed.
 */
module DirEntries {
  import opened Base
  import opened DirBlock

  lemma {:induction false} SpanConcat(a: seq<Slot>, b: seq<Slot>)
    ensures Span(a + b) == Span(a) + Span(b)
  {
    if a == [] {
      assert a + b == b;
    } else {
      assert (a + b)[1..] == a[1..] + b;
      SpanConcat(a[1..], b);
    }
  }

  lemma {:induction false} LiveConcat(a: seq<Slot>, b: seq<Slot>)
    ensures Live(a + b) == Live(a) + Live(b)
  {
    if a == [] {
      assert a + b == b;
    } else {
      assert (a + b)[1..] == a[1..] + b;
      LiveConcat(a[1..], b);
    }
  }

  function LiveOne(s: Slot): seq<Entry> {
    if s.inode == 0 then [] else [Entry(s.name, s.inode, s.fileType)]
  }

  lemma {:induction false} LiveAround(a: seq<Slot>, mid: seq<Slot>, b: seq<Slot>)
    ensures Live(a + mid + b) == Live(a) + Live(mid) + Live(b)
    ensures Span(a + mid + b) == Span(a) + Span(mid) + Span(b)
  {
    LiveConcat(a + mid, b);
    LiveConcat(a, mid);
    SpanConcat(a + mid, b);
    SpanConcat(a, mid);
  }

  lemma {:induction false} LiveSingle(s: Slot)
    ensures Live([s]) == LiveOne(s) && Span([s]) == s.recLen
  {
  }

  lemma {:induction false} LivePair(s: Slot, t: Slot)
    ensures Live([s, t]) == LiveOne(s) + LiveOne(t) && Span([s, t]) == s.recLen + t.recLen
  {
    LiveSingle(s);
    LiveSingle(t);
    LiveConcat([s], [t]);
    SpanConcat([s], [t]);
    assert [s, t] == [s] + [t];
  }

  lemma {:induction false} SplitAt(slots: seq<Slot>, k: nat)
    requires k < |slots|
    ensures slots == slots[..k] + [slots[k]] + slots[k + 1..]
  {
  }

  ghost predicate AddsOne(was: seq<Entry>, now: seq<Entry>, e: Entry) {
    exists i :: 0 <= i <= |was| && now == was[..i] + [e] + was[i..]
  }

  lemma {:induction false} SplitMeaning(s: Slot, e: Entry)
    requires SlotOk(s) && e.inode != 0 && Slack(s) >= RecLen(|e.name|)
    ensures Live(Split(s, e)) == LiveOne(s) + [e]
    ensures Span(Split(s, e)) == s.recLen
    ensures AllOk(Split(s, e))
  {
    if s.inode == 0 {
      LiveSingle(Split(s, e)[0]);
    } else {
      LivePair(Split(s, e)[0], Split(s, e)[1]);
    }
  }

  lemma {:induction false} AddsAt(x: seq<Entry>, y: seq<Entry>, e: Entry)
    ensures AddsOne(x + y, x + [e] + y, e)
  {
    assert (x + y)[..|x|] == x && (x + y)[|x|..] == y;
  }

  /** An insertion adds the one entry and leaves all others, and the tiling, alone. */
  lemma {:induction false} InsertAddsOne(slots: seq<Slot>, e: Entry)
    requires AllOk(slots) && e.inode != 0 && Insert(slots, e).Some?
    ensures AddsOne(Live(slots), Live(Insert(slots, e).value), e)
    ensures Span(Insert(slots, e).value) == Span(slots)
    ensures AllOk(Insert(slots, e).value)
  {
    hide Live, Span, Split, AddsOne, RecLen;
    var k := FirstFit(slots, RecLen(|e.name|));
    var a, s, b := slots[..k], slots[k], slots[k + 1..];
    SplitAt(slots, k);
    LiveAround(a, [s], b);
    LiveSingle(s);
    SplitMeaning(s, e);
    LiveAround(a, Split(s, e), b);
    AddsAt(Live(a) + LiveOne(s), Live(b), e);
    assert Live(a) + (LiveOne(s) + [e]) + Live(b) == Live(a) + LiveOne(s) + [e] + Live(b);
  }

  /** An insertion is refused exactly when no record has room for the name. */
  lemma {:induction false} InsertRefused(slots: seq<Slot>, e: Entry)
    ensures Insert(slots, e) == None <==> forall s :: s in slots ==> Slack(s) < RecLen(|e.name|)
  {
    var k := FirstFit(slots, RecLen(|e.name|));
    if k == |slots| {
      forall s | s in slots ensures Slack(s) < RecLen(|e.name|) {
        var i :| 0 <= i < |slots| && slots[i] == s;
      }
    } else {
      assert slots[k] in slots;
    }
  }

  lemma {:induction false} NothingLive()
    ensures Live([]) == [] && Span([]) == 0
  {
  }

  /** What a removal leaves of the records up to the named one. */
  function Folded(a: seq<Slot>, s: Slot): (r: seq<Slot>)
    ensures r != []
  {
    if a == [] then [s.(inode := 0)]
    else a[..|a| - 1] + [a[|a| - 1].(recLen := a[|a| - 1].recLen + s.recLen)]
  }

  lemma {:induction false} FoldedMeaning(a: seq<Slot>, s: Slot)
    requires AllOk(a) && SlotOk(s)
    ensures Live(Folded(a, s)) == Live(a) && Span(Folded(a, s)) == Span(a) + s.recLen
    ensures AllOk(Folded(a, s)) && Slack(Folded(a, s)[|Folded(a, s)| - 1]) >= s.recLen
  {
    hide Live, Span, RecLen;
    NothingLive();
    if a == [] {
      LiveSingle(s.(inode := 0));
    } else {
      var init, p := a[..|a| - 1], a[|a| - 1];
      var merged := p.(recLen := p.recLen + s.recLen);
      assert a == init + [p];
      LiveConcat(init, [p]);
      LiveConcat(init, [merged]);
      SpanConcat(init, [p]);
      SpanConcat(init, [merged]);
      LiveSingle(p);
      LiveSingle(merged);
    }
  }

  lemma {:induction false} RemoveShape(slots: seq<Slot>, name: Bytes)
    requires IndexOf(slots, name) < |slots|
    ensures var k := IndexOf(slots, name);
            Remove(slots, name) == Folded(slots[..k], slots[k]) + slots[k + 1..]
  {
    hide RecLen, IndexOf;
    var k := IndexOf(slots, name);
    if k == 0 {
      assert slots[0 := slots[0].(inode := 0)] == [slots[0].(inode := 0)] + slots[1..];
    } else {
      assert slots[..k][..k - 1] == slots[..k - 1];
    }
  }

  /** A removal drops the one entry found and leaves all others, and the tiling, alone. */
  lemma {:induction false} RemoveDropsOne(slots: seq<Slot>, name: Bytes)
    requires AllOk(slots) && IndexOf(slots, name) < |slots|
    ensures var s := slots[IndexOf(slots, name)];
            AddsOne(Live(Remove(slots, name)), Live(slots), Entry(name, s.inode, s.fileType))
    ensures Span(Remove(slots, name)) == Span(slots)
    ensures AllOk(Remove(slots, name))
  {
    hide Live, Span, AddsOne, RecLen, Remove;
    var k := IndexOf(slots, name);
    var a, s, b := slots[..k], slots[k], slots[k + 1..];
    SplitAt(slots, k);
    LiveAround(a, [s], b);
    LiveSingle(s);
    hide Folded;
    RemoveShape(slots, name);
    FoldedMeaning(a, s);
    LiveConcat(Folded(a, s), b);
    SpanConcat(Folded(a, s), b);
    AddsAt(Live(a), Live(b), Entry(name, s.inode, s.fileType));
  }

  lemma {:induction false} RecLenMonotone(m: nat, n: nat)
    requires m <= n
    ensures RecLen(m) <= RecLen(n)
  {
  }

  /** Where a name has just been removed, any name no longer than it fits. */
  lemma {:induction false} ReinsertFits(slots: seq<Slot>, name: Bytes, e: Entry)
    requires AllOk(slots) && IndexOf(slots, name) < |slots| && |e.name| <= |name|
    ensures Insert(Remove(slots, name), e).Some?
  {
    hide Live, Span, Remove, Insert, Slack, RecLen;
    var k := IndexOf(slots, name);
    InsertRefused(Remove(slots, name), e);
    hide Folded;
    RemoveShape(slots, name);
    FoldedMeaning(slots[..k], slots[k]);
    var a := Folded(slots[..k], slots[k]);
    assert a[|a| - 1] in Remove(slots, name);
    assert SlotOk(slots[k]);
    RecLenMonotone(|e.name|, |name|);
  }

  // ---- the entries as a set, for directories of many blocks ----

  ghost predicate DistinctNames(entries: seq<Entry>) {
    forall i, j :: 0 <= i < j < |entries| ==> entries[i].name != entries[j].name
  }

  lemma {:induction false} IndexOfLive(slots: seq<Slot>, name: Bytes)
    ensures IndexOf(slots, name) < |slots| <==> exists e :: e in Live(slots) && e.name == name
    ensures IndexOf(slots, name) < |slots| ==>
              var s := slots[IndexOf(slots, name)]; Entry(name, s.inode, s.fileType) in Live(slots)
  {
    if slots != [] {
      IndexOfLive(slots[1..], name);
      LiveConcat([slots[0]], slots[1..]);
      LiveSingle(slots[0]);
      assert slots == [slots[0]] + slots[1..];
      if Names(slots[0], name) {
        assert Entry(name, slots[0].inode, slots[0].fileType) in Live(slots);
      } else {
        assert IndexOf(slots, name) == 1 + IndexOf(slots[1..], name);
        if e :| e in Live(slots) && e.name == name {
          assert e in Live(slots[1..]);
        }
      }
    }
  }

  lemma {:induction false} AddsOneSet(was: seq<Entry>, now: seq<Entry>, e: Entry)
    requires AddsOne(was, now, e)
    ensures Elems(now) == Elems(was) + {e}
    ensures DistinctNames(now) <==> DistinctNames(was) && Unnamed(was, e)
  {
    var i :| 0 <= i <= |was| && now == was[..i] + [e] + was[i..];
    var x, y := was[..i], was[i..];
    hide AddsOne, Elems, DistinctNames, Unnamed;
    assert was == x + y;
    ElemsConcat(x, y);
    ElemsConcat(x + [e], y);
    ElemsConcat(x, [e]);
    ElemsOne(e);
    DistinctConcat(x, y);
    DistinctConcat(x + [e], y);
    DistinctConcat(x, [e]);
    UnnamedConcat(x, y, e);
  }

  /** No entry of the list has e's name. */
  ghost predicate Unnamed(entries: seq<Entry>, e: Entry) {
    forall i :: 0 <= i < |entries| ==> entries[i].name != e.name
  }

  ghost predicate Apart(x: seq<Entry>, y: seq<Entry>) {
    forall i, j :: 0 <= i < |x| && 0 <= j < |y| ==> x[i].name != y[j].name
  }

  lemma {:induction false} ElemsConcat<T>(x: seq<T>, y: seq<T>)
    ensures Elems(x + y) == Elems(x) + Elems(y)
  {
  }

  lemma {:induction false} ElemsOne<T>(e: T)
    ensures Elems([e]) == {e}
  {
  }

  lemma {:induction false} DistinctConcat(x: seq<Entry>, y: seq<Entry>)
    ensures DistinctNames(x + y) <==> DistinctNames(x) && DistinctNames(y) && Apart(x, y)
  {
    var z := x + y;
    if DistinctNames(z) {
      forall i, j | 0 <= i < j < |y| ensures y[i].name != y[j].name {
        assert y[i] == z[|x| + i] && y[j] == z[|x| + j];
      }
      forall i, j | 0 <= i < |x| && 0 <= j < |y| ensures x[i].name != y[j].name {
        assert x[i] == z[i] && y[j] == z[|x| + j];
      }
      assert forall i :: 0 <= i < |x| ==> x[i] == z[i];
    }
  }

  lemma {:induction false} UnnamedConcat(x: seq<Entry>, y: seq<Entry>, e: Entry)
    ensures Unnamed(x + y, e) <==> Apart(x, [e]) && Apart([e], y)
    ensures Apart(x + [e], y) <==> Apart(x, y) && Apart([e], y)
    ensures DistinctNames([e])
  {
    ApartConcat(x, [e], y);
    forall i | 0 <= i < |y| && Unnamed(x + y, e) ensures y[i].name != e.name {
      assert y[i] == (x + y)[|x| + i];
    }
    forall i | 0 <= i < |x| && Unnamed(x + y, e) ensures x[i].name != e.name {
      assert x[i] == (x + y)[i];
    }
    assert [e][0] == e;
  }

  lemma {:induction false} ApartConcat(x: seq<Entry>, m: seq<Entry>, y: seq<Entry>)
    ensures Apart(x + m, y) <==> Apart(x, y) && Apart(m, y)
  {
    var z := x + m;
    forall i, j | 0 <= i < |m| && 0 <= j < |y| && Apart(z, y) ensures m[i].name != y[j].name {
      assert m[i] == z[|x| + i];
    }
    forall i, j | 0 <= i < |x| && 0 <= j < |y| && Apart(z, y) ensures x[i].name != y[j].name {
      assert x[i] == z[i];
    }
  }

  // ---- fresh blocks ----

  function Need(entries: seq<Entry>): nat {
    if entries == [] then 0 else RecLen(|entries[0].name|) + Need(entries[1..])
  }

  /** The records of a block built from entries: each as short as it can be, the last to the end. */
  function Build(entries: seq<Entry>, limit: nat): seq<Slot>
    requires Need(entries) <= limit
  {
    if entries == [] then [Slot(0, limit, [], 0)]
    else
      var e := entries[0];
      if |entries| == 1 then [Slot(e.inode, limit, e.name, e.fileType)]
      else [Slot(e.inode, RecLen(|e.name|), e.name, e.fileType)] + Build(entries[1..], limit - RecLen(|e.name|))
  }

  lemma {:induction false} ConsMeaning(s: Slot, rest: seq<Slot>)
    ensures Live([s] + rest) == LiveOne(s) + Live(rest)
    ensures Span([s] + rest) == s.recLen + Span(rest)
    ensures SlotOk(s) && AllOk(rest) ==> AllOk([s] + rest)
  {
    LiveConcat([s], rest);
    SpanConcat([s], rest);
    LiveSingle(s);
  }

  /** A built block lists exactly its entries, and its records tile it. */
  lemma {:induction false} BuildLists(entries: seq<Entry>, limit: nat)
    requires Need(entries) <= limit && limit % 4 == 0 && (entries == [] ==> 8 <= limit)
    requires forall i :: 0 <= i < |entries| ==> entries[i].inode != 0
    ensures Live(Build(entries, limit)) == entries
    ensures Span(Build(entries, limit)) == limit
    ensures AllOk(Build(entries, limit))
  {
    hide Live, Span, RecLen;
    if entries == [] {
      LiveSingle(Slot(0, limit, [], 0));
      assert RecLen(0) == 8;
    } else {
      var e := entries[0];
      assert entries == [e] + entries[1..];
      if |entries| == 1 {
        LiveSingle(Slot(e.inode, limit, e.name, e.fileType));
      } else {
        BuildLists(entries[1..], limit - RecLen(|e.name|));
        ConsMeaning(Slot(e.inode, RecLen(|e.name|), e.name, e.fileType), Build(entries[1..], limit - RecLen(|e.name|)));
      }
    }
  }

  /** A fresh block holding nothing but room. */
  method EmptyBlock(blockSize: nat, withTail: bool) returns (buf: array<byte>)
    requires blockSize < U16_LIMIT && blockSize % 4 == 0 && 20 <= blockSize
    ensures fresh(buf) && buf.Length == blockSize
    ensures var limit := Limit(blockSize, withTail);
            Chain(buf[..limit]) == Some(Build([], limit))
  {
    hide Chain, Le32, Le16, Overwrite;
    buf := new byte[blockSize](_ => 0);
    assert buf[..] == Zeros(blockSize);
    var limit := Limit(blockSize, withTail);
    ghost var s := Slot(0, limit, [], 0);
    PutBytes(buf, 0, Le32(0));
    PutBytes(buf, 4, Le16(limit));
    EmptyRecord(blockSize, limit);
    RecordChain(s);
    if withTail {
      // inode 0, length 12, no name, and the type byte that marks a checksum tail
      PutBytes(buf, limit, Le32(0));
      PutBytes(buf, limit + 4, Le16(TAIL_LEN));
      PutBytes(buf, limit + 7, [0xDE]);
      TailOutside(Overwrite(Overwrite(Zeros(blockSize), 0, Le32(0)), 4, Le16(limit)), limit);
    }
  }

  lemma {:induction false} EmptyRecord(blockSize: nat, limit: nat)
    requires 8 <= limit <= blockSize && limit < U16_LIMIT && limit % 4 == 0
    ensures Overwrite(Overwrite(Zeros(blockSize), 0, Le32(0)), 4, Le16(limit))[..limit] == Record(Slot(0, limit, [], 0))
  {
    var b, r := Overwrite(Overwrite(Zeros(blockSize), 0, Le32(0)), 4, Le16(limit))[..limit], Record(Slot(0, limit, [], 0));
    hide Le32, Le16;
    assert b == Le32(0) + Le16(limit) + Zeros(limit - 6);
    assert Zeros(limit - 6) == [0, 0] + Zeros(limit - 8);
  }

  lemma {:induction false} TailOutside(b: Bytes, limit: nat)
    requires limit + TAIL_LEN == |b|
    ensures Overwrite(Overwrite(Overwrite(b, limit, Le32(0)), limit + 4, Le16(TAIL_LEN)), limit + 7, [0xDE])[..limit] == b[..limit]
  {
  }

  const DOT: Bytes := [46]
  const DOTDOT: Bytes := [46, 46]

  /** The entries every directory starts with. */
  function DotEntries(self: nat, parent: nat, dirType: byte): (r: seq<Entry>)
    ensures Need(r) == 24
  {
    var dots := [Entry(DOT, self, dirType), Entry(DOTDOT, parent, dirType)];
    assert Need(dots) == 12 + Need(dots[1..]) && Need(dots[1..]) == 12 + Need(dots[1..][1..]);
    dots
  }

  predicate IsEmpty(entries: seq<Entry>) {
    forall e :: e in entries ==> e.name == DOT || e.name == DOTDOT || e.inode == 0
  }

  /** A directory is empty exactly until a name other than its two dots is put in. */
  lemma {:induction false} EmptyUntilNamed(entries: seq<Entry>, self: nat, parent: nat, dirType: byte, e: Entry, limit: nat)
    requires 24 <= limit && limit % 4 == 0 && self != 0 && parent != 0 && e.inode != 0
    requires Insert(Build(DotEntries(self, parent, dirType), limit), e).Some?
    ensures var made := Build(DotEntries(self, parent, dirType), limit);
            && IsEmpty(Live(made))
            && (IsEmpty(Live(Insert(made, e).value)) <==> e.name == DOT || e.name == DOTDOT)
  {
    var dots := DotEntries(self, parent, dirType);
    BuildLists(dots, limit);
    InsertAddsOne(Build(dots, limit), e);
    AddsOneSet(dots, Live(Insert(Build(dots, limit), e).value), e);
    var now := Live(Insert(Build(dots, limit), e).value);
    assert e in Elems(now) && e in now;
    forall x | x in now ensures x in Elems(dots) || x == e {
      assert x in Elems(now);
    }
  }
}
