/** What is written to a tar stream is what is read from it. */
module TarRoundTrip {
  import opened Base
  import opened TarText
  import opened TarPax
  import opened TarHeader
  import opened TarDecode
  import opened TarStream
  import opened TarReader

  // ---- one header ----

  lemma {:induction false} Part(a: Bytes, b: Bytes)
    ensures (a + b)[..|a|] == a && (a + b)[|a|..] == b
    ensures forall i, j :: 0 <= i <= j <= |a| ==> (a + b)[i..j] == a[i..j]
  {
  }

  /** A written block is no zero block, and says its size and kind. */
  lemma {:induction false} BlockSays(h: Header, flag: byte, after: Bytes)
    requires Typed(h) && flag != 0
    ensures var rest := HeaderBlock(h, flag) + after;
            && rest[..BLOCK] == HeaderBlock(h, flag) && rest[BLOCK..] == after && rest[..BLOCK] != Zeros(BLOCK)
            && rest[156] == flag && ReadNumber(rest[124..136]) == Ok(SizeOf(h, flag) % Power(8, 11))
  {
    hide HeaderBlock, ReadNumber, Power, SizeOf, Typed;
    Part(HeaderBlock(h, flag), after);
    NumbersRead(h, flag);
    FlagThere(h, flag);
    assert (HeaderBlock(h, flag) + after)[124..136] == HeaderBlock(h, flag)[124..136];
  }

  lemma {:induction false} FlagThere(h: Header, flag: byte)
    ensures HeaderBlock(h, flag)[156] == flag
  {
    hide HeaderBlock;
    BlockSlices(h, flag);
  }

  /** An entry's own block, the records ahead of it read. */
  lemma {:induction false} ScanBlock(h: Header, after: Bytes)
    requires Typed(h) && NulFree(h.path) && NulFree(h.link)
    ensures Scan(HeaderBlock(h, TypeFlag(h.kind)) + after, Ahead(None, None, PaxFor(h), 0), []) ==
              Ok(Found(Some(Restored(h)), after, Restored(h).size, PadFor(Restored(h).size), false, []))
  {
    var flag := TypeFlag(h.kind);
    FlagOf(h.kind);
    hide Scan, HeaderBlock, Decode, Restored, ReadNumber, PaxFor, Power, SizeOf, PadFor, TypeFlag, KindOf, NumberOr, InForce;
    BlockSays(h, flag, after);
    ScanEntry(HeaderBlock(h, flag) + after, Ahead(None, None, PaxFor(h), 0), [], SizeOf(h, flag) % Power(8, 11), h.kind);
    DecodeWritten(h);
  }

  lemma {:induction false} FixedKeysOk(h: Header)
    requires forall i :: 0 <= i < |h.xattrs| ==> KeyOk(h.xattrs[i])
    ensures forall i :: 0 <= i < |RecordsFor(h)| ==> KeyOk(RecordsFor(h)[i])
  {
    hide Digits;
    var r := RecordsFor(h);
    forall i | 0 <= i < |r| ensures KeyOk(r[i]) {
      var k := i - (|r| - |h.xattrs|);
      if 0 <= k {
        assert r[i] == Named(h.xattrs)[k];
        assert KeyOk(h.xattrs[k]);
      } else {
        assert r[i].key == PATH || r[i].key == LINKPATH || r[i].key == UID || r[i].key == GID;
      }
    }
  }

  lemma {:induction false} ExtensionIs(h: Header)
    requires Typed(h) && RecordsFor(h) != []
    ensures var body := Body(RecordsFor(h));
            var pax := PaxHeader(h, |body|);
            && Extension(h) == HeaderBlock(pax, PAX_FLAG) + body + Zeros(PadFor(|body|))
            && Typed(pax) && SizeOf(pax, PAX_FLAG) == |body| && Padded(|body|) == |body| + PadFor(|body|)
  {
    hide HeaderBlock, RecordsFor, Body, PadFor;
  }

  lemma {:induction false} Regroup(a: Bytes, b: Bytes, c: Bytes, d: Bytes)
    ensures a + b + c + d == a + (b + c + d) && (b + c + d)[..|b|] == b && (b + c + d)[|b| + |c|..] == d
  {
  }

  /** An extension is taken in as the records it was made from. */
  lemma {:induction false} ScanExtended(h: Header, after: Bytes)
    requires Typed(h) && RecordsFor(h) != [] && |Body(RecordsFor(h))| < Power(8, 11)
    requires forall i :: 0 <= i < |h.xattrs| ==> KeyOk(h.xattrs[i])
    ensures Scan(Extension(h) + after, NOTHING, []) == Scan(after, Ahead(None, None, PaxFor(h), 0), [])
  {
    var body := Body(RecordsFor(h));
    var pax := PaxHeader(h, |body|);
    ExtensionIs(h);
    FixedKeysOk(h);
    hide Scan, HeaderBlock, ReadNumber, RecordsFor, Body, Power, PadFor, PaxHeader, Extension, SizeOf, ParseInto, InsertAll, Typed, KeyOk;
    var more := body + Zeros(PadFor(|body|)) + after;
    Regroup(HeaderBlock(pax, PAX_FLAG), body, Zeros(PadFor(|body|)), after);
    BlockSays(pax, PAX_FLAG, more);
    FitsOctal(|body|, 11);
    ScanExtension(HeaderBlock(pax, PAX_FLAG) + more, NOTHING, [], |body|);
    PaxRoundTrip(RecordsFor(h), []);
  }

  lemma {:induction false} NoExtension(h: Header)
    requires RecordsFor(h) == []
    ensures Extension(h) == [] && PaxFor(h) == []
  {
  }

  lemma {:induction false} ScanHead(h: Header, after: Bytes)
    requires Typed(h) && NulFree(h.path) && NulFree(h.link) && |Body(RecordsFor(h))| < Power(8, 11)
    requires forall i :: 0 <= i < |h.xattrs| ==> KeyOk(h.xattrs[i])
    ensures Scan(Head(h) + after, NOTHING, []) == Ok(Found(Some(Restored(h)), after, Restored(h).size, PadFor(Restored(h).size), false, []))
  {
    hide Scan, HeaderBlock, Restored, PaxFor, Extension, TypeFlag, RecordsFor, Body, Power, PadFor, KeyOk, Typed, NulFree;
    var block := HeaderBlock(h, TypeFlag(h.kind));
    ScanBlock(h, after);
    assert Extension(h) + block + after == Extension(h) + (block + after);
    if RecordsFor(h) == [] {
      NoExtension(h);
      assert [] + (block + after) == block + after;
    } else {
      ScanExtended(h, block + after);
    }
  }

  // ---- a whole stream ----

  /** The bytes behind an entry's header. */
  function Behind(entries: seq<Entry>): Bytes
    requires entries != []
  {
    entries[0].data + Zeros(PadFor(|entries[0].data|)) + (Stream(entries[1..]) + END)
  }

  /** What a reader standing at a header of a written stream comes to. */
  function Comes(entries: seq<Entry>): Found {
    if entries == [] then Found(None, [], 0, 0, true, [])
    else
      var size := |entries[0].data|;
      Found(Some(Restored(entries[0].header)), Behind(entries), size, PadFor(size), false, [])
  }

  lemma {:induction false} ScanMarker()
    ensures Scan(END, NOTHING, []) == Ok(Found(None, [], 0, 0, true, []))
  {
    hide Scan;
    assert END[..BLOCK] == Zeros(BLOCK) && END[BLOCK..] == Zeros(BLOCK);
    ScanZero(END, NOTHING, []);
    assert Zeros(BLOCK)[..BLOCK] == Zeros(BLOCK) && Zeros(BLOCK)[BLOCK..] == [];
    ScanZero(Zeros(BLOCK), NOTHING.(empties := 1), []);
  }

  lemma {:induction false} StreamIs(entries: seq<Entry>)
    requires entries != []
    ensures Stream(entries) + END == Head(entries[0].header) + Behind(entries)
  {
    hide Head, PadFor;
    var e := entries[0];
    var head, data, gap, more := Head(e.header), e.data, Zeros(PadFor(|e.data|)), Stream(entries[1..]);
    assert Stream(entries) == head + data + gap + more;
    hide Stream;
    assert head + data + gap + more + END == head + data + gap + (more + END);
    Regroup(head, data, gap, more + END);
  }

  lemma {:induction false} ScanStream(entries: seq<Entry>)
    requires forall i :: 0 <= i < |entries| ==> Readable(entries[i])
    ensures Scan(Stream(entries) + END, NOTHING, []) == Ok(Comes(entries))
  {
    if entries == [] {
      assert Stream(entries) + END == END;
      ScanMarker();
    } else {
      var e := entries[0];
      assert Readable(e);
      RestoredSize(e);
      hide Scan, Head, Restored, PadFor, Readable, Stream, Behind;
      StreamIs(entries);
      ScanReadable(e, Behind(entries));
    }
  }

  lemma {:induction false} ScanReadable(e: Entry, after: Bytes)
    requires Readable(e)
    ensures Scan(Head(e.header) + after, NOTHING, []) ==
              Ok(Found(Some(Restored(e.header)), after, Restored(e.header).size, PadFor(Restored(e.header).size), false, []))
  {
    hide Scan, Head, Restored, PadFor, Body, RecordsFor;
    ScanHead(e.header, after);
  }

  lemma {:induction false} RestoredSize(e: Entry)
    requires Readable(e)
    ensures Restored(e.header).size == |e.data|
  {
    hide Normalise, WithTail, NumberRead, InsertAll, Body, RecordsFor, Power;
    FitsOctal(e.header.size, 11);
  }

  /**
   Wherever its caller stopped reading the entry before, a reader comes to the next
   entry of a written stream: its header restored, its contents next.
   */
  lemma {:induction false} NextOfStream(unread: Bytes, pad: nat, entries: seq<Entry>)
    requires forall i :: 0 <= i < |entries| ==> Readable(entries[i])
    ensures Advance(unread + Zeros(pad) + (Stream(entries) + END), |unread|, pad, false, []) == Ok(Comes(entries))
  {
    hide Scan, Stream, Readable, Comes;
    var rest := unread + Zeros(pad) + (Stream(entries) + END);
    assert rest[|unread| + pad..] == Stream(entries) + END;
    ScanStream(entries);
  }

  /** Of an entry with some of its contents taken, the rest is next, in front of the entries after it. */
  lemma {:induction false} PartlyRead(entries: seq<Entry>, k: nat)
    requires entries != [] && k <= |entries[0].data|
    ensures Behind(entries)[..k] == entries[0].data[..k]
    ensures Behind(entries)[k..] == entries[0].data[k..] + Zeros(PadFor(|entries[0].data|)) + (Stream(entries[1..]) + END)
  {
    hide Stream;
  }

  function Back(entries: seq<Entry>): (r: seq<Entry>)
    ensures |r| == |entries|
  {
    seq(|entries|, i requires 0 <= i < |entries| => Entry(Restored(entries[i].header), entries[i].data))
  }

  lemma {:induction false} EntriesBack(unread: Bytes, pad: nat, entries: seq<Entry>)
    requires forall i :: 0 <= i < |entries| ==> Readable(entries[i])
    ensures Entries(unread + Zeros(pad) + (Stream(entries) + END), |unread|, pad, false, []) == Ok(Back(entries))
    decreases |entries|
  {
    hide Advance, Stream, Readable, Restored, PadFor, Entries;
    var rest := unread + Zeros(pad) + (Stream(entries) + END);
    NextOfStream(unread, pad, entries);
    EntriesStep(rest, |unread|, pad, false, []);
    if entries == [] {
      assert Back(entries) == [];
    } else {
      var data, tail := entries[0].data, entries[1..];
      PartlyRead(entries, |data|);
      assert data[|data|..] == [] && data[..|data|] == data;
      EntriesBack([], PadFor(|data|), tail);
      assert Back(entries) == [Entry(Restored(entries[0].header), data)] + Back(tail);
    }
  }

  /** What is read of a written stream is what was written to it, each header as it survives. */
  lemma {:induction false} ReadsBack(entries: seq<Entry>)
    requires forall i :: 0 <= i < |entries| ==> Readable(entries[i])
    ensures Entries(Stream(entries) + END, 0, 0, false, []) == Ok(Back(entries))
  {
    hide Entries, Stream, Readable, Back;
    EntriesBack([], 0, entries);
    assert [] + Zeros(0) + (Stream(entries) + END) == Stream(entries) + END;
  }

  /** Headers within the limits come back whole, but that attributes come in the order of their names. */
  lemma {:induction false} WholeBack(entries: seq<Entry>)
    requires forall i :: 0 <= i < |entries| ==> Readable(entries[i]) && Fits(entries[i].header)
    ensures Entries(Stream(entries) + END, 0, 0, false, []).Ok?
    ensures var back := Entries(Stream(entries) + END, 0, 0, false, []).value;
            |back| == |entries| && forall i :: 0 <= i < |entries| ==>
                back[i] == Entry(entries[i].header.(xattrs := InsertAll([], entries[i].header.xattrs)), entries[i].data)
  {
    hide Entries, Stream, Readable, Fits, Restored;
    ReadsBack(entries);
    forall i | 0 <= i < |entries|
      ensures Back(entries)[i] == Entry(entries[i].header.(xattrs := InsertAll([], entries[i].header.xattrs)), entries[i].data)
    {
      FitsSurvives(entries[i].header);
    }
  }
}
