/**
 Tar streams read back (src/tar.rs:226-519), however few bytes at a time the stream
 hands over and however much of each entry's contents its caller takes.
 */
module TarReader {
  import opened Base
  import opened TarText
  import opened TarPax
  import opened TarHeader
  import opened TarDecode
  import opened TarStream

  // ---- what a stream says ----

  const LONG_NAME: byte := 76
  const LONG_LINK: byte := 75

  /** What the headers before an entry's own say of it, and how many zero blocks came last. */
  datatype Ahead = Ahead(name: Option<Bytes>, link: Option<Bytes>, pax: seq<Record>, empties: nat)

  const NOTHING := Ahead(None, None, [], 0)

  /** How far a reader got: the entry it found, and the stream from that entry's contents on. */
  datatype Found = Found(header: Option<Header>, rest: Bytes, left: nat, pad: nat, done: bool, global: seq<Record>)

  predicate Extends(flag: byte) {
    flag == LONG_NAME || flag == LONG_LINK || flag == PAX_FLAG || flag == GLOBAL_FLAG
  }

  /** What an extension adds to what is known ahead of an entry, and to the records for every entry. */
  function Learn(flag: byte, body: Bytes, a: Ahead, global: seq<Record>): Result<(Ahead, seq<Record>)> {
    var a := a.(empties := 0);
    if flag == LONG_NAME then Ok((a.(name := Some(CStr(body))), global))
    else if flag == LONG_LINK then Ok((a.(link := Some(CStr(body))), global))
    else
      match ParseInto(body, [])
      case Err(e) => Err(e)
      case Ok(m) => if flag == PAX_FLAG then Ok((a.(pax := m), global)) else Ok((a, m))
  }

  /** Size and padding together. */
  function Padded(size: nat): (n: nat)
    ensures size <= n && n % BLOCK == 0
  {
    size + PadFor(size)
  }

  /** A stream with some bytes taken off its front; an error if there are not as many. */
  function Past(rest: Bytes, n: nat): Result<Bytes> {
    if n <= |rest| then Ok(rest[n..]) else Err(InvalidPath)
  }

  /** The next entry of a stream that stands at a header. */
  function Scan(rest: Bytes, a: Ahead, global: seq<Record>): Result<Found>
    decreases |rest|
  {
    if rest == [] then Ok(Found(None, [], 0, 0, true, global))
    else if |rest| < BLOCK then Err(InvalidPath)
    else
      var block, more := rest[..BLOCK], rest[BLOCK..];
      if block == Zeros(BLOCK) then
        if 1 <= a.empties then Ok(Found(None, more, 0, 0, true, global)) else Scan(more, a.(empties := 1), global)
      else
        match ReadNumber(block[124..136])
        case Err(e) => Err(e)
        case Ok(size) =>
          var flag := block[156];
          if Extends(flag) then
            if |more| < Padded(size) then Err(InvalidPath)
            else
              match Learn(flag, more[..size], a, global)
              case Err(e) => Err(e)
              case Ok(known) => Scan(more[Padded(size)..], known.0, known.1)
          else
            match KindOf(flag)
            case None => if |more| < Padded(size) then Err(InvalidPath) else Scan(more[Padded(size)..], a.(empties := 0), global)
            case Some(kind) =>
              match Decode(block, kind, a.pax, global, a.name, a.link)
              case Err(e) => Err(e)
              case Ok(h) => Ok(Found(Some(h), more, h.size, PadFor(h.size), false, global))
  }

  // ---- one block at a time ----

  lemma {:induction false} ScanEnd(rest: Bytes, a: Ahead, global: seq<Record>)
    requires |rest| < BLOCK
    ensures Scan(rest, a, global) == if rest == [] then Ok(Found(None, [], 0, 0, true, global)) else Err(InvalidPath)
  {
  }

  lemma {:induction false} ScanZero(rest: Bytes, a: Ahead, global: seq<Record>)
    requires BLOCK <= |rest| && rest[..BLOCK] == Zeros(BLOCK)
    ensures Scan(rest, a, global) ==
              if 1 <= a.empties then Ok(Found(None, rest[BLOCK..], 0, 0, true, global)) else Scan(rest[BLOCK..], a.(empties := 1), global)
  {
    hide ReadNumber, Decode, PadFor, Padded, Learn, KindOf;
  }

  /** A block that is no header. */
  lemma {:induction false} ScanBad(rest: Bytes, a: Ahead, global: seq<Record>)
    requires BLOCK <= |rest| && rest[..BLOCK] != Zeros(BLOCK) && ReadNumber(rest[124..136]).Err?
    ensures Scan(rest, a, global) == Err(ReadNumber(rest[124..136]).error)
  {
    assert rest[..BLOCK][124..136] == rest[124..136];
    hide ReadNumber, Decode, PadFor, Padded, Learn, KindOf;
  }

  lemma {:induction false} ScanExtension(rest: Bytes, a: Ahead, global: seq<Record>, size: nat)
    requires BLOCK <= |rest| && rest[..BLOCK] != Zeros(BLOCK) && ReadNumber(rest[124..136]) == Ok(size) && Extends(rest[156])
    ensures var more := rest[BLOCK..];
            Scan(rest, a, global) ==
            if |more| < Padded(size) then Err(InvalidPath)
            else match Learn(rest[156], more[..size], a, global)
              case Err(e) => Err(e)
              case Ok(known) => Scan(more[Padded(size)..], known.0, known.1)
  {
    assert rest[..BLOCK][124..136] == rest[124..136] && rest[..BLOCK][156] == rest[156];
    hide ReadNumber, Decode, PadFor, Padded, Learn, KindOf;
  }

  lemma {:induction false} ScanOver(rest: Bytes, a: Ahead, global: seq<Record>, size: nat)
    requires BLOCK <= |rest| && rest[..BLOCK] != Zeros(BLOCK) && ReadNumber(rest[124..136]) == Ok(size)
    requires !Extends(rest[156]) && KindOf(rest[156]) == None
    ensures var more := rest[BLOCK..];
            Scan(rest, a, global) == if |more| < Padded(size) then Err(InvalidPath) else Scan(more[Padded(size)..], a.(empties := 0), global)
  {
    assert rest[..BLOCK][124..136] == rest[124..136] && rest[..BLOCK][156] == rest[156];
    hide ReadNumber, Decode, PadFor, Padded, Learn, KindOf;
  }

  lemma {:induction false} DecodedSize(block: Bytes, kind: EntryKind, pax: seq<Record>, global: seq<Record>, longName: Option<Bytes>, longLink: Option<Bytes>)
    requires |block| == BLOCK
    ensures var h := Decode(block, kind, pax, global, longName, longLink);
            h.Ok? ==> ReadNumber(block[124..136]).Ok?
                      && h.value.size == if kind == File then NumberOr(InForce(pax, global, SIZE), ReadNumber(block[124..136]).value) else 0
  {
    hide ReadNumber, NumberOr, InForce, Joined, Normalise, Xattrs, CStr;
  }

  lemma {:induction false} ScanEntry(rest: Bytes, a: Ahead, global: seq<Record>, size: nat, kind: EntryKind)
    requires BLOCK <= |rest| && rest[..BLOCK] != Zeros(BLOCK) && ReadNumber(rest[124..136]) == Ok(size)
    requires !Extends(rest[156]) && KindOf(rest[156]) == Some(kind)
    ensures var h := Decode(rest[..BLOCK], kind, a.pax, global, a.name, a.link);
            && Scan(rest, a, global) == (match h case Err(e) => Err(e) case Ok(v) => Ok(Found(Some(v), rest[BLOCK..], v.size, PadFor(v.size), false, global)))
            && (h.Ok? ==> h.value.size == if kind == File then NumberOr(InForce(a.pax, global, SIZE), size) else 0)
  {
    assert rest[..BLOCK][124..136] == rest[124..136] && rest[..BLOCK][156] == rest[156];
    DecodedSize(rest[..BLOCK], kind, a.pax, global, a.name, a.link);
    hide ReadNumber, Decode, PadFor, Padded, Learn, KindOf, NumberOr, InForce;
  }

  /** The next entry of a stream, what is owed of the last one skipped first. */
  function Advance(rest: Bytes, left: nat, pad: nat, done: bool, global: seq<Record>): Result<Found> {
    if done then Ok(Found(None, rest, left, pad, true, global))
    else
      match Past(rest, left + pad)
      case Err(e) => Err(e)
      case Ok(at) => Scan(at, NOTHING, global)
  }

  lemma {:induction false} LearnResets(flag: byte, more: Bytes, size: nat, a: Ahead, global: seq<Record>)
    ensures size <= |more| ==> Learn(flag, more[..size], a.(empties := 0), global) == Learn(flag, more[..size], a, global)
  {
    hide ParseInto, CStr;
  }

  // ---- reading ----

  /** A stream of bytes that hands over what it likes, so long as it is something while there is something left. */
  class Source {
    const text: Bytes
    var pos: nat

    constructor (text: Bytes)
      ensures this.text == text && pos == 0
    {
      this.text := text;
      pos := 0;
    }

    ghost predicate Valid()
      reads this
    {
      pos <= |text|
    }

    ghost function Rest(): Bytes
      reads this
      requires Valid()
    {
      text[pos..]
    }

    method Read(want: nat) returns (data: Bytes)
      requires Valid()
      modifies this
      ensures Valid() && pos == old(pos) + |data| && data == text[old(pos)..pos]
      ensures |data| <= want && (data == [] <==> want == 0 || old(pos) == |text|)
    {
      var most := Min(want, |text| - pos);
      var n: nat :| n <= most && (n == 0 <==> most == 0);
      data := text[pos..pos + n];
      pos := pos + n;
    }
  }

  class Reader {
    const src: Source
    /** Bytes of the current entry's contents not yet handed over. */
    var left: nat
    /** What pads those contents. */
    var pad: nat
    /** Set once the end of the archive has been seen. */
    var done: bool
    /** Records that apply to every entry from here on. */
    var global: seq<Record>
    /** Where each header read so far began. */
    ghost var headers: seq<nat>

    /** Whatever the stream holds: headers begin at multiples of a block, and the next one will, unless the stream has ended. */
    ghost predicate Valid()
      reads this, src
    {
      && src.Valid()
      && ((src.pos + left + pad) % BLOCK == 0 || src.pos == |src.text|)
      && forall i :: 0 <= i < |headers| ==> headers[i] % BLOCK == 0
    }

    constructor (src: Source)
      requires src.Valid() && src.pos == 0
      ensures this.src == src && left == 0 && pad == 0 && !done && global == [] && headers == [] && Valid()
    {
      this.src := src;
      left, pad, done, global, headers := 0, 0, false, [], [];
    }

    /** Read until as much is there as is wanted or the stream ends. */
    method Fill(want: nat) returns (data: Bytes)
      requires src.Valid()
      modifies src
      ensures src.Valid() && data == old(src.Rest())[..Min(want, |old(src.Rest())|)] && src.pos == old(src.pos) + |data|
    {
      data := [];
      while |data| < want
        invariant src.Valid() && |data| <= want && src.pos == old(src.pos) + |data| && data == src.text[old(src.pos)..src.pos]
        decreases want - |data|
      {
        var some := src.Read(want - |data|);
        if some == [] {
          break;
        }
        data := data + some;
      }
    }

    /** Read exactly as much as is wanted, or fail at the end of the stream. */
    method Exact(want: nat) returns (r: Result<Bytes>)
      requires src.Valid()
      modifies src
      ensures src.Valid()
      ensures r.Ok? <==> want <= |old(src.Rest())|
      ensures r.Ok? ==> r.value == old(src.Rest())[..want] && src.pos == old(src.pos) + want
      ensures r.Err? ==> r.error == InvalidPath && src.pos == |src.text|
    {
      var data := Fill(want);
      r := if |data| < want then Err(InvalidPath) else Ok(data);
    }

    /** Read past the rest of an entry. */
    method SkipRest() returns (r: Result<()>)
      requires Valid()
      modifies src, this`left, this`pad
      ensures Valid() && (r.Ok? <==> old(left + pad) <= |old(src.Rest())|)
      ensures r.Ok? ==> left == 0 && pad == 0 && src.pos == old(src.pos + left + pad)
      ensures r.Err? ==> r.error == InvalidPath && src.pos == |src.text|
    {
      while left > 0
        invariant Valid() && src.pos + left == old(src.pos + left) && pad == old(pad)
        decreases left
      {
        var data := src.Read(Min(BLOCK, left));
        if data == [] {
          return Err(InvalidPath);
        }
        left := left - |data|;
      }
      var owed := pad;
      pad := 0;
      if owed > 0 {
        var gap := Exact(owed);
        if gap.Err? {
          return Err(InvalidPath);
        }
      }
      r := Ok(());
    }

    /** Read one header block; none if the stream ended cleanly first. */
    method ReadBlock() returns (r: Result<Option<Bytes>>)
      requires Valid() && left == 0 && pad == 0
      modifies src, this`headers
      ensures Valid()
      ensures r.Ok? <==> old(src.Rest()) == [] || BLOCK <= |old(src.Rest())|
      ensures r.Err? ==> r.error == InvalidPath
      ensures r.Ok? && r.value.None? ==> old(src.Rest()) == [] && src.pos == old(src.pos)
      ensures r.Ok? && r.value.Some? ==> old(src.Rest()) != [] && r.value.value == old(src.Rest())[..BLOCK] && src.pos == old(src.pos) + BLOCK
    {
      var data := Fill(BLOCK);
      if data == [] {
        return Ok(None);
      }
      if |data| < BLOCK {
        return Err(InvalidPath);
      }
      headers := headers + [src.pos - BLOCK];
      r := Ok(Some(data));
    }

    /** Read an extension's body, padding included. */
    method ReadBody(size: nat) returns (r: Result<Bytes>)
      requires Valid() && left == 0 && pad == 0 && src.pos % BLOCK == 0
      modifies src
      ensures Valid() && (r.Ok? <==> Padded(size) <= |old(src.Rest())|)
      ensures r.Ok? ==> r.value == old(src.Rest())[..size] && src.pos == old(src.pos) + Padded(size)
      ensures r.Err? ==> r.error == InvalidPath
    {
      var body := Exact(size);
      if body.Err? {
        return Err(InvalidPath);
      }
      var gap := PadFor(size);
      if gap > 0 {
        var padding := Exact(gap);
        if padding.Err? {
          return Err(InvalidPath);
        }
      }
      r := body;
    }

    /** Where a reader stands once it has found what it found. */
    ghost predicate Stands(f: Found)
      reads this, src
      requires src.Valid()
    {
      src.Rest() == f.rest && left == f.left && pad == f.pad && done == f.done && global == f.global
    }

    /** Take in an extension. */
    method Extend(flag: byte, size: nat, a: Ahead) returns (r: Result<Ahead>)
      requires Valid() && left == 0 && pad == 0 && src.pos % BLOCK == 0 && Extends(flag)
      modifies src, this`global
      ensures Valid()
      ensures var more := old(src.Rest());
              if |more| < Padded(size) then r == Err(InvalidPath)
              else
                var known := Learn(flag, more[..size], a, old(global));
                && (r.Ok? <==> known.Ok?) && (r.Err? ==> r.error == known.error)
                && (r.Ok? ==> r.value == known.value.0 && global == known.value.1 && src.Rest() == more[Padded(size)..])
    {
      hide CStr, ParseInto;
      var body := ReadBody(size);
      if body.Err? {
        return Err(body.error);
      }
      var a := a.(empties := 0);
      if flag == LONG_NAME {
        return Ok(a.(name := Some(CStr(body.value))));
      }
      if flag == LONG_LINK {
        return Ok(a.(link := Some(CStr(body.value))));
      }
      var records := ParsePax(body.value);
      if records.Err? {
        return Err(records.error);
      }
      if flag == PAX_FLAG {
        return Ok(a.(pax := records.value));
      }
      global := records.value;
      r := Ok(a);
    }

    /** The answer to give where the stream says what it says, and the place to give it at. */
    ghost predicate Answers(r: Result<Option<Header>>, f: Result<Found>)
      reads this, src
      requires src.Valid()
    {
      && (r.Ok? <==> f.Ok?) && (r.Err? ==> r.error == f.error)
      && (r.Ok? ==> r.value == f.value.header && Stands(f.value))
    }

    /** Skip an entry of a kind that is not known. */
    method SkipOver(size: nat) returns (r: Result<()>)
      requires Valid() && left == 0 && pad == 0 && src.pos % BLOCK == 0
      modifies src, this`left, this`pad
      ensures Valid() && (r.Ok? <==> Padded(size) <= |old(src.Rest())|)
      ensures r.Ok? ==> left == 0 && pad == 0 && src.Rest() == old(src.Rest())[Padded(size)..]
      ensures r.Err? ==> r.error == InvalidPath
    {
      hide PadFor;
      left := size;
      pad := PadFor(size);
      r := SkipRest();
    }

    /** Come to an entry: its header is what the block says with what was read ahead of it. */
    method Enter(block: Bytes, size: nat, kind: EntryKind, a: Ahead, ghost f: Result<Found>)
      returns (r: Result<Option<Header>>)
      requires Valid() && src.pos % BLOCK == 0 && !done && |block| == BLOCK
      requires var h := Decode(block, kind, a.pax, global, a.name, a.link);
               && f == (match h case Err(e) => Err(e) case Ok(v) => Ok(Found(Some(v), src.Rest(), v.size, PadFor(v.size), false, global)))
               && (h.Ok? ==> h.value.size == if kind == File then NumberOr(InForce(a.pax, global, SIZE), size) else 0)
      modifies this`left, this`pad
      ensures Valid() && Answers(r, f)
    {
      hide Decode, PadFor, NumberOr, InForce;
      left := if kind == File then NumberOr(InForce(a.pax, global, SIZE), size) else 0;
      pad := PadFor(left);
      var h := Decode(block, kind, a.pax, global, a.name, a.link);
      return match h case Ok(v) => Ok(Some(v)) case Err(e) => Err(e);
    }

    /** Come to the next entry from where its headers start. */
    method Seek() returns (r: Result<Option<Header>>)
      requires Valid() && left == 0 && pad == 0 && !done
      modifies this, src
      ensures Valid() && Answers(r, Scan(old(src.Rest()), NOTHING, old(global)))
    {
      hide Scan, ReadNumber, Decode, PadFor, Padded, Learn, KindOf, NumberOr, InForce, Extends;
      // Carried between headers by the extension mechanisms.
      var a := NOTHING;
      ghost var goal := Scan(src.Rest(), a, global);
      while true
        invariant Valid() && left == 0 && pad == 0 && !done
        invariant Scan(src.Rest(), a, global) == goal
        decreases |src.text| - src.pos
      {
        ghost var rest := src.Rest();
        if |rest| < BLOCK {
          ScanEnd(rest, a, global);
        }
        var read := ReadBlock();
        if read.Err? {
          return Err(read.error);
        }
        if read.value.None? {
          // A stream that simply stops is treated as ended.
          done := true;
          return Ok(None);
        }
        var block := read.value.value;
        assert src.Rest() == rest[BLOCK..];
        if block == Zeros(BLOCK) {
          ScanZero(rest, a, global);
          if a.empties + 1 >= 2 {
            done := true;
            return Ok(None);
          }
          a := a.(empties := a.empties + 1);
          continue;
        }
        ghost var known0 := a;
        a := a.(empties := 0);
        var size := ReadNumber(block[124..136]);
        assert block[124..136] == rest[124..136] && block[156] == rest[156];
        if size.Err? {
          ScanBad(rest, known0, global);
          return Err(size.error);
        }
        var flag := block[156];
        if Extends(flag) {
          ScanExtension(rest, known0, global, size.value);
          LearnResets(flag, rest[BLOCK..], size.value, known0, global);
          var known := Extend(flag, size.value, a);
          if known.Err? {
            return Err(known.error);
          }
          a := known.value;
          continue;
        }
        var kind := KindOf(flag);
        if kind.None? {
          // Anything else is skipped rather than guessed at.
          ScanOver(rest, known0, global, size.value);
          var over := SkipOver(size.value);
          if over.Err? {
            return Err(over.error);
          }
          continue;
        }
        ScanEntry(rest, known0, global, size.value, kind.value);
        r := Enter(block, size.value, kind.value, a, goal);
        return;
      }
    }

    /** Advance to the next entry, or none at the end of the archive. */
    method Next() returns (r: Result<Option<Header>>)
      requires Valid()
      modifies this, src
      ensures Valid()
      ensures var f := Advance(old(src.Rest()), old(left), old(pad), old(done), old(global));
              Answers(r, f)
    {
      hide Scan, ReadNumber, Decode, PadFor, Padded, Learn, KindOf, NumberOr, InForce, Extends;
      if done {
        return Ok(None);
      }
      var skipped := SkipRest();
      if skipped.Err? {
        return Err(skipped.error);
      }
      r := Seek();
    }

    /** Read part of the current entry's contents, nothing at its end. */
    method Read(want: nat) returns (r: Result<Bytes>)
      requires Valid()
      modifies src, this`left
      ensures Valid() && src.pos + left == old(src.pos + left)
      ensures r.Err? <==> old(left) > 0 && (want == 0 || old(src.Rest()) == [])
      ensures r.Err? ==> left == old(left)
      ensures r.Ok? ==> |r.value| <= want && src.pos == old(src.pos) + |r.value| && r.value == old(src.Rest())[..|r.value|]
      ensures r.Ok? && r.value == [] ==> old(left) == 0
    {
      if left == 0 {
        return Ok([]);
      }
      var data := src.Read(Min(want, left));
      if data == [] {
        return Err(InvalidPath);
      }
      left := left - |data|;
      r := Ok(data);
    }

    /** Read the rest of the current entry's contents. */
    method ReadToEnd() returns (r: Result<Bytes>)
      requires Valid()
      modifies src, this`left
      ensures Valid() && (r.Ok? <==> old(left) <= |old(src.Rest())|)
      ensures r.Ok? ==> left == 0 && r.value == old(src.Rest())[..old(left)] && src.Rest() == old(src.Rest())[old(left)..]
      ensures r.Err? ==> r.error == InvalidPath
    {
      var out: Bytes := [];
      ghost var from := src.pos;
      while left > 0
        invariant Valid() && src.pos + left == old(src.pos + left) && src.pos == from + |out| && out == src.text[from..src.pos]
        decreases left
      {
        var data := Read(left);
        if data.Err? {
          return Err(InvalidPath);
        }
        out := out + data.value;
      }
      r := Ok(out);
    }
  }

  // ---- whole archives ----

  lemma {:induction false} ScanShrinks(rest: Bytes, a: Ahead, global: seq<Record>)
    ensures var f := Scan(rest, a, global);
            f.Ok? && f.value.header.Some? ==> |f.value.rest| < |rest|
    decreases |rest|
  {
    if BLOCK <= |rest| {
      var more := rest[BLOCK..];
      assert rest[..BLOCK][124..136] == rest[124..136] && rest[..BLOCK][156] == rest[156];
      hide Scan, ReadNumber, Decode, PadFor, Padded, Learn, KindOf, NumberOr, InForce, Extends;
      var size := ReadNumber(rest[124..136]);
      if rest[..BLOCK] == Zeros(BLOCK) {
        ScanZero(rest, a, global);
        ScanShrinks(more, a.(empties := 1), global);
      } else if size.Err? {
        ScanBad(rest, a, global);
      } else if Extends(rest[156]) {
        ScanExtension(rest, a, global, size.value);
        if Padded(size.value) <= |more| {
          var known := Learn(rest[156], more[..size.value], a, global);
          if known.Ok? {
            ScanShrinks(more[Padded(size.value)..], known.value.0, known.value.1);
          }
        }
      } else {
        match KindOf(rest[156])
        case None =>
          ScanOver(rest, a, global, size.value);
          if Padded(size.value) <= |more| {
            ScanShrinks(more[Padded(size.value)..], a.(empties := 0), global);
          }
        case Some(kind) =>
          ScanEntry(rest, a, global, size.value, kind);
      }
    }
  }

  /** Every entry of a stream, from wherever its reader stands. */
  ghost function Entries(rest: Bytes, left: nat, pad: nat, done: bool, global: seq<Record>): Result<seq<Entry>>
    decreases |rest|
  {
    match Advance(rest, left, pad, done, global)
    case Err(e) => Err(e)
    case Ok(f) =>
      if f.header.None? then Ok([])
      else if |f.rest| < f.left then Err(InvalidPath)
      else
        ScanShrinks(rest[left + pad..], NOTHING, global);
        match Entries(f.rest[f.left..], 0, f.pad, f.done, f.global)
        case Err(e) => Err(e)
        case Ok(more) => Ok([Entry(f.header.value, f.rest[..f.left])] + more)
  }

  /** Read one entry whole, if there is one more. */
  method NextEntry(reader: Reader) returns (r: Result<Option<Entry>>)
    requires reader.Valid()
    modifies reader, reader.src
    ensures reader.Valid()
    ensures var was := old(Entries(reader.src.Rest(), reader.left, reader.pad, reader.done, reader.global));
            && (r.Err? ==> was == Err(r.error))
            && (r.Ok? && r.value.None? ==> was == Ok([]))
            && (r.Ok? && r.value.Some? ==>
                  && |reader.src.Rest()| < |old(reader.src.Rest())|
                  && Continues(was, [r.value.value], Entries(reader.src.Rest(), reader.left, reader.pad, reader.done, reader.global)))
  {
    hide Advance, Entries, Continues;
    ghost var rest, left, pad, done, global := reader.src.Rest(), reader.left, reader.pad, reader.done, reader.global;
    EntriesStep(rest, left, pad, done, global);
    var header := reader.Next();
    if header.Err? {
      return Err(header.error);
    }
    if header.value.None? {
      return Ok(None);
    }
    var data := reader.ReadToEnd();
    if data.Err? {
      return Err(data.error);
    }
    r := Ok(Some(Entry(header.value.value, data.value)));
  }

  /** What an archive's bytes say, read as fast or as slowly as may be. */
  method ReadArchive(text: Bytes) returns (r: Result<seq<Entry>>)
    ensures r == Entries(text, 0, 0, false, [])
  {
    hide Advance, Entries, Continues;
    NoneYet(Entries(text, 0, 0, false, []));
    assert text[0..] == text;
    var src := new Source(text);
    var reader := new Reader(src);
    var out: seq<Entry> := [];
    while true
      invariant fresh(src) && fresh(reader) && reader.src == src && reader.Valid()
      invariant Continues(Entries(text, 0, 0, false, []), out, Entries(src.Rest(), reader.left, reader.pad, reader.done, reader.global))
      decreases |text| - src.pos
    {
      ghost var rest, left, pad, done, global := src.Rest(), reader.left, reader.pad, reader.done, reader.global;
      var entry := NextEntry(reader);
      ghost var all, at := Entries(text, 0, 0, false, []), Entries(rest, left, pad, done, global);
      if entry.Err? {
        AllRead(all, out, at);
        return Err(entry.error);
      }
      if entry.value.None? {
        AllRead(all, out, at);
        return Ok(out);
      }
      OneMore(all, out, at, [entry.value.value], Entries(src.Rest(), reader.left, reader.pad, reader.done, reader.global));
      out := out + [entry.value.value];
    }
  }

  /** All of a result, some of it read already. */
  ghost predicate Continues(all: Result<seq<Entry>>, out: seq<Entry>, more: Result<seq<Entry>>) {
    all == match more case Err(e) => Err(e) case Ok(m) => Ok(out + m)
  }

  lemma {:induction false} NoneYet(all: Result<seq<Entry>>)
    ensures Continues(all, [], all)
  {
    assert all.Ok? ==> [] + all.value == all.value;
  }

  lemma {:induction false} AllRead(all: Result<seq<Entry>>, out: seq<Entry>, more: Result<seq<Entry>>)
    requires Continues(all, out, more)
    ensures more.Err? ==> all == Err(more.error)
    ensures more == Ok([]) ==> all == Ok(out)
  {
    assert out + [] == out;
  }

  lemma {:induction false} OneMore(all: Result<seq<Entry>>, out: seq<Entry>, rest: Result<seq<Entry>>, e: seq<Entry>, more: Result<seq<Entry>>)
    requires Continues(all, out, rest) && Continues(rest, e, more)
    ensures Continues(all, out + e, more)
  {
    if more.Ok? {
      assert out + (e + more.value) == out + e + more.value;
    }
  }

  lemma {:induction false} EntriesStep(rest: Bytes, left: nat, pad: nat, done: bool, global: seq<Record>)
    ensures var f := Advance(rest, left, pad, done, global);
            && (f.Err? ==> Entries(rest, left, pad, done, global) == Err(f.error))
            && (f.Ok? && f.value.header.None? ==> Entries(rest, left, pad, done, global) == Ok([]))
            && (f.Ok? && f.value.header.Some? ==>
                  && |f.value.rest| < |rest|
                  && (|f.value.rest| < f.value.left ==> Entries(rest, left, pad, done, global) == Err(InvalidPath))
                  && (f.value.left <= |f.value.rest| ==>
                        Continues(Entries(rest, left, pad, done, global), [Entry(f.value.header.value, f.value.rest[..f.value.left])],
                                  Entries(f.value.rest[f.value.left..], 0, f.value.pad, f.value.done, f.value.global))))
  {
    if !done && left + pad <= |rest| {
      ScanShrinks(rest[left + pad..], NOTHING, global);
    }
    hide Scan;
  }
}
