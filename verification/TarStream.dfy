/**
 Tar streams written and read (src/tar.rs:46-140, 226-649), however few bytes at a
 time the stream hands over.
 */
module TarStream {
  import opened Base
  import opened TarText
  import opened TarPax
  import opened TarHeader
  import opened TarDecode

  // ---- what a stream holds ----

  /** "PaxHeaders/" */
  const PAX_DIR: Bytes := [80, 97, 120, 72, 101, 97, 100, 101, 114, 115, 47]

  function PaxHeader(h: Header, size: nat): Header {
    Header(PAX_DIR + BaseName(h.path), File, 420, 0, 0, h.mtime, size, [], 0, 0, [])
  }

  /** The extension ahead of an entry, if it needs one. */
  function Extension(h: Header): Bytes {
    if RecordsFor(h) == [] then []
    else
      var body := Body(RecordsFor(h));
      HeaderBlock(PaxHeader(h, |body|), PAX_FLAG) + body + Zeros(PadFor(|body|))
  }

  function Head(h: Header): Bytes {
    Extension(h) + HeaderBlock(h, TypeFlag(h.kind))
  }

  datatype Entry = Entry(header: Header, data: Bytes)

  function EntryText(e: Entry): Bytes {
    Head(e.header) + e.data + Zeros(PadFor(|e.data|))
  }

  function Stream(entries: seq<Entry>): Bytes {
    if entries == [] then [] else EntryText(entries[0]) + Stream(entries[1..])
  }

  const END: Bytes := Zeros(BLOCK) + Zeros(BLOCK)

  /** An entry as its writer makes it: a file's size is its contents', and nothing else has any. */
  function Settled(h: Header, data: Bytes): Entry {
    if h.kind == File then Entry(h.(size := |data|), data) else Entry(h, [])
  }

  /** An entry that can be read back. */
  ghost predicate Readable(e: Entry) {
    && Typed(e.header) && NulFree(e.header.path) && NulFree(e.header.link)
    && (forall i :: 0 <= i < |e.header.xattrs| ==> KeyOk(e.header.xattrs[i]))
    && |Body(RecordsFor(e.header))| < Power(8, 11)
    && (if e.header.kind == File then e.header.size == |e.data| < Power(8, 11) else e.data == [])
  }

  // ---- writing ----

  /** What does not fit an entry's header, as records: one mechanism covers it all. */
  method Collect(h: Header) returns (records: seq<Record>)
    ensures records == RecordsFor(h)
  {
    hide Digits;
    records := [];
    if |h.path| > 100 {
      records := records + [Record(PATH, h.path)];
    }
    if |h.link| > 100 {
      records := records + [Record(LINKPATH, h.link)];
    }
    if h.uid > SEVEN_OCTAL {
      records := records + [Record(UID, Digits(h.uid, 10))];
    }
    if h.gid > SEVEN_OCTAL {
      records := records + [Record(GID, Digits(h.gid, 10))];
    }
    for i := 0 to |h.xattrs|
      invariant records == Unfitting(h) + Named(h.xattrs)[..i]
    {
      records := records + [Record(XATTR + h.xattrs[i].key, h.xattrs[i].value)];
      assert Named(h.xattrs)[..i + 1] == Named(h.xattrs)[..i] + [Named(h.xattrs)[i]];
    }
    assert Named(h.xattrs)[..|h.xattrs|] == Named(h.xattrs);
  }

  class Writer {
    var out: Bytes
    /** How many bytes of contents are to come. */
    var left: nat
    /** How many of padding, after them. */
    var pad: nat

    constructor ()
      ensures out == [] && left == 0 && pad == 0
    {
      out, left, pad := [], 0, 0;
    }

    method Put(data: Bytes)
      modifies this`out
      ensures out == old(out) + data
    {
      out := out + data;
    }

    /** Write the padding, if no contents are to come. */
    method EndEntry() returns (r: Result<()>)
      modifies this
      ensures r.Ok? <==> old(left) == 0
      ensures r.Ok? ==> out == old(out) + Zeros(old(pad)) && left == 0 && pad == 0
      ensures r.Err? ==> out == old(out) && left == old(left) && pad == old(pad)
    {
      if left > 0 {
        return Err(InvalidPath);
      }
      var owed := pad;
      pad := 0;
      Put(Zeros(owed));
      r := Ok(());
    }

    /** Begin an entry: what does not fit its header goes in an extension ahead of it. */
    method Start(h: Header) returns (r: Result<()>)
      modifies this
      ensures r.Ok? <==> old(left) == 0
      ensures r.Ok? ==> out == old(out) + Zeros(old(pad)) + Head(h)
      ensures r.Ok? ==> left == (if h.kind == File then h.size else 0) && pad == PadFor(left)
    {
      hide HeaderBlock, Body, Digits, PadFor, RecordsFor, PaxHeader;
      r := EndEntry();
      if r.Err? {
        return;
      }
      ghost var was := out;
      var records := Collect(h);
      if records != [] {
        var body := BuildPax(records);
        var block := Encode(PaxHeader(h, |body|), PAX_FLAG);
        Put(block);
        Put(body);
        Put(Zeros(PadFor(|body|)));
        assert out == was + (HeaderBlock(PaxHeader(h, |body|), PAX_FLAG) + body + Zeros(PadFor(|body|)));
      } else {
        assert out == was + [];
      }
      var block := Encode(h, TypeFlag(h.kind));
      Put(block);
      assert was + Extension(h) + HeaderBlock(h, TypeFlag(h.kind)) == was + Head(h);
      left := if h.kind == File then h.size else 0;
      pad := PadFor(left);
    }

    /** Write some contents, if so many are to come. */
    method Write(data: Bytes) returns (r: Result<()>)
      modifies this
      ensures r.Ok? <==> |data| <= old(left)
      ensures r.Ok? ==> out == old(out) + data && left == old(left) - |data| && pad == old(pad)
    {
      if |data| > left {
        return Err(InvalidPath);
      }
      Put(data);
      left := left - |data|;
      r := Ok(());
    }

    /** Write a whole entry: metadata and contents together. */
    method Append(h: Header, data: Bytes) returns (r: Result<()>)
      modifies this
      ensures r.Ok? <==> old(left) == 0
      ensures r.Ok? ==> var e := Settled(h, data);
                        out == old(out) + Zeros(old(pad)) + Head(e.header) + e.data && left == 0 && pad == PadFor(|e.data|)
    {
      hide Head, PadFor;
      var header := if h.kind == File then h.(size := |data|) else h;
      r := Start(header);
      if r.Err? {
        return;
      }
      if header.kind == File {
        r := Write(data);
      } else {
        assert out == out + [];
      }
    }

    /** Write what pads the last entry, and two blocks of zeroes. */
    method Finish() returns (r: Result<()>)
      modifies this
      ensures r.Ok? <==> old(left) == 0
      ensures r.Ok? ==> out == old(out) + Zeros(old(pad)) + END
    {
      r := EndEntry();
      if r.Err? {
        return;
      }
      ghost var was := out;
      Put(Zeros(BLOCK));
      Put(Zeros(BLOCK));
      assert was + Zeros(BLOCK) + Zeros(BLOCK) == was + END;
    }
  }

  lemma {:induction false} StreamMore(entries: seq<Entry>, e: Entry)
    ensures Stream(entries + [e]) == Stream(entries) + EntryText(e)
  {
    hide EntryText;
    if entries == [] {
      assert [] + [e] == [e] && [e][1..] == [];
    } else {
      assert (entries + [e])[1..] == entries[1..] + [e];
      StreamMore(entries[1..], e);
    }
  }

  /** Write an archive of some entries. */
  method WriteArchive(entries: seq<Entry>) returns (out: Bytes, ghost written: seq<Entry>)
    ensures |written| == |entries| && forall i :: 0 <= i < |entries| ==> written[i] == Settled(entries[i].header, entries[i].data)
    ensures out == Stream(written) + END
  {
    hide Head, PadFor, Stream;
    var w := new Writer();
    written := [];
    NoStream();
    assert Zeros(0) == [];
    for i := 0 to |entries|
      invariant fresh(w) && |written| == i && forall k :: 0 <= k < i ==> written[k] == Settled(entries[k].header, entries[k].data)
      invariant w.out + Zeros(w.pad) == Stream(written) && w.left == 0
    {
      ghost var was := w.out + Zeros(w.pad);
      var r := w.Append(entries[i].header, entries[i].data);
      ghost var e := Settled(entries[i].header, entries[i].data);
      StreamMore(written, e);
      assert was + Head(e.header) + e.data + Zeros(PadFor(|e.data|)) == was + EntryText(e);
      written := written + [e];
    }
    var r := w.Finish();
    out := w.out;
  }

  lemma {:induction false} NoStream()
    ensures Stream([]) == []
  {
  }
}
