/**
 Whoever reads a written stream entry by entry, taking as much of each one's
 contents as it likes before going on (src/tar.rs:226-290 and 420-497).
 */
module TarConsumer {
  import opened Base
  import opened TarText
  import opened TarDecode
  import opened TarStream
  import opened TarReader
  import opened TarRoundTrip

  /** Take so much of the current entry's contents, or as much as there is. */
  method Take(reader: Reader, want: nat) returns (r: Result<Bytes>)
    requires reader.Valid()
    modifies reader.src, reader`left
    ensures reader.Valid()
    ensures var n := Min(want, old(reader.left));
            n <= |old(reader.src.Rest())| ==>
              && r == Ok(old(reader.src.Rest())[..n])
              && reader.src.pos == old(reader.src.pos) + n && reader.left == old(reader.left) - n
  {
    var out: Bytes := [];
    var n := Min(want, reader.left);
    ghost var rest, from, left := reader.src.Rest(), reader.src.pos, reader.left;
    assert reader.src.text[from..from] == [];
    while |out| < n
      invariant reader.Valid() && |out| <= n
      invariant reader.src.pos == from + |out| && reader.left == left - |out| && out == reader.src.text[from..reader.src.pos]
      decreases n - |out|
    {
      var more := reader.Read(n - |out|);
      if more.Err? || more.value == [] {
        return Err(InvalidPath);
      }
      out := out + more.value;
    }
    assert n <= |rest| ==> rest[..n] == reader.src.text[from..from + n];
    r := Ok(out);
  }

  /** What is taken of each entry. */
  function Taken(entries: seq<Entry>, wants: nat -> nat): (r: seq<Entry>)
    ensures |r| == |entries|
    ensures forall i :: 0 <= i < |r| ==>
              r[i] == Entry(Restored(entries[i].header), entries[i].data[..Min(wants(i), |entries[i].data|)])
  {
    seq(|entries|, i requires 0 <= i < |entries| =>
      Entry(Restored(entries[i].header), entries[i].data[..Min(wants(i), |entries[i].data|)]))
  }

  /** The reader stands behind entry i - 1, with this much of its contents not taken. */
  ghost predicate Before(rest: Bytes, left: nat, pad: nat, done: bool, global: seq<TarPax.Record>, entries: seq<Entry>, i: nat, unread: Bytes)
    requires i <= |entries|
  {
    rest == unread + Zeros(pad) + (Stream(entries[i..]) + END) && left == |unread| && !done && global == []
  }

  /** What is left in front of a reader that has taken n bytes of entry i. */
  lemma {:induction false} StandsBefore(entries: seq<Entry>, i: nat, n: nat)
    requires i < |entries| && n <= |entries[i].data|
    ensures n <= |Behind(entries[i..])| && Behind(entries[i..])[..n] == entries[i].data[..n]
    ensures Before(Behind(entries[i..])[n..], |entries[i].data| - n, PadFor(|entries[i].data|), false, [], entries, i + 1, entries[i].data[n..])
  {
    hide Stream, PadFor;
    PartlyRead(entries[i..], n);
    BehindLong(entries[i..], n);
    assert entries[i..][1..] == entries[i + 1..];
  }

  /** The next entry, and as much of it as is wanted. */
  method Sip(reader: Reader, want: nat, ghost entries: seq<Entry>, ghost i: nat, ghost unread: Bytes) returns (r: Option<Entry>, ghost now: Bytes)
    requires reader.Valid() && i <= |entries| && forall k :: 0 <= k < |entries| ==> Readable(entries[k])
    requires Before(reader.src.Rest(), reader.left, reader.pad, reader.done, reader.global, entries, i, unread)
    modifies reader, reader.src
    ensures reader.Valid() && (r.None? <==> i == |entries|)
    ensures r.Some? ==> r.value == Entry(Restored(entries[i].header), entries[i].data[..Min(want, |entries[i].data|)])
                        && Before(reader.src.Rest(), reader.left, reader.pad, reader.done, reader.global, entries, i + 1, now)
  {
    hide Advance, Stream, Readable, Comes, Restored, PadFor, Behind;
    now := [];
    NextOfStream(unread, reader.pad, entries[i..]);
    var header := reader.Next();
    ComesIs(entries, i);
    assert header.Ok?;
    if header.value.None? {
      return None, now;
    }
    ghost var n := Min(want, |entries[i].data|);
    StandsBefore(entries, i, n);
    hide Before;
    var data := Take(reader, want);
    assert reader.src.Rest() == Behind(entries[i..])[n..];
    now := entries[i].data[n..];
    r := Some(Entry(header.value.value, data.value));
  }

  /**
   However much is taken of each entry, and however the stream hands its bytes
   over: every entry comes in turn, its header restored and the start of its
   contents as they were written, and then the end.
   */
  method Consume(text: Bytes, wants: nat -> nat, ghost entries: seq<Entry>) returns (r: seq<Entry>)
    requires text == Stream(entries) + END && forall i :: 0 <= i < |entries| ==> Readable(entries[i])
    ensures r == Taken(entries, wants)
  {
    hide Stream, Readable, Restored;
    var src := new Source(text);
    var reader := new Reader(src);
    r := [];
    ghost var unread: Bytes := [];
    assert text[0..] == text && entries[0..] == entries;
    assert [] + Zeros(0) + (Stream(entries) + END) == text;
    ghost var all := Taken(entries, wants);
    while true
      invariant fresh(src) && fresh(reader) && reader.src == src && reader.Valid()
      invariant |r| <= |entries| && r == all[..|r|]
      invariant Before(src.Rest(), reader.left, reader.pad, reader.done, reader.global, entries, |r|, unread)
      decreases |entries| - |r|
    {
      hide Before;
      var next;
      next, unread := Sip(reader, wants(|r|), entries, |r|, unread);
      if next.None? {
        return;
      }
      assert all[..|r| + 1] == all[..|r|] + [all[|r|]];
      r := r + [next.value];
    }
  }

  /** What comes behind entry i - 1. */
  lemma {:induction false} ComesIs(entries: seq<Entry>, i: nat)
    requires i <= |entries|
    ensures i == |entries| ==> Comes(entries[i..]).header == None
    ensures i < |entries| ==>
              var size := |entries[i].data|;
              Comes(entries[i..]) == Found(Some(Restored(entries[i].header)), Behind(entries[i..]), size, PadFor(size), false, [])
  {
    hide Restored, Stream, PadFor;
  }

  lemma {:induction false} BehindLong(entries: seq<Entry>, n: nat)
    requires entries != [] && n <= |entries[0].data|
    ensures n <= |Behind(entries)|
  {
    hide Stream, PadFor;
  }
}
