/**
 Reading a header back (src/tar.rs:291-420), and exactly what of it survives the
 round trip.
 */
module TarDecode {
  import opened Base
  import opened TarText
  import opened TarPath
  import opened TarPax
  import opened TarHeader

  function KindOf(flag: byte): Option<EntryKind> {
    if flag == 48 || flag == 0 || flag == 55 then Some(File)
    else if flag == 49 then Some(HardLink)
    else if flag == 50 then Some(Symlink)
    else if flag == 51 then Some(CharDevice)
    else if flag == 52 then Some(BlockDevice)
    else if flag == 53 then Some(Directory)
    else if flag == 54 then Some(Fifo)
    else None
  }

  const PATH: Bytes := [112, 97, 116, 104]
  const LINKPATH: Bytes := [108, 105, 110, 107, 112, 97, 116, 104]
  const UID: Bytes := [117, 105, 100]
  const GID: Bytes := [103, 105, 100]
  const SIZE: Bytes := [115, 105, 122, 101]
  const MTIME: Bytes := [109, 116, 105, 109, 101]
  /** "SCHILY.xattr." */
  const XATTR: Bytes := [83, 67, 72, 73, 76, 89, 46, 120, 97, 116, 116, 114, 46]

  predicate StartsWith(t: Bytes, p: Bytes) {
    |p| <= |t| && t[..|p|] == p
  }

  /** The attributes among some records, their names without the mark. */
  function Xattrs(m: seq<Record>): seq<Record> {
    if m == [] then []
    else (if StartsWith(m[0].key, XATTR) then [Record(m[0].key[|XATTR|..], m[0].value)] else []) + Xattrs(m[1..])
  }

  /** The records in force: those for this entry, before those for every entry. */
  function InForce(pax: seq<Record>, global: seq<Record>, key: Bytes): Option<Bytes> {
    match Get(pax, key) case Some(v) => Some(v) case None => Get(global, key)
  }

  /** A number from a record, where there is one and it is plainly written. */
  function NumberOr(found: Option<Bytes>, fallback: nat): nat {
    match found
    case None => fallback
    case Some(v) => match Parse(Trim(v), 10) case Some(n) => n case None => fallback
  }

  /** A name from its two fields. */
  function Joined(block: Bytes): Bytes
    requires |block| == BLOCK
  {
    var name, prefix := CStr(block[0..100]), CStr(block[345..500]);
    if prefix == [] then name else prefix + [SLASH] + name
  }

  function OrZero(r: Result<nat>): nat {
    match r case Ok(v) => v case Err(_) => 0
  }

  /** What a header's block says, with what came before it. */
  function Decode(block: Bytes, kind: EntryKind, pax: seq<Record>, global: seq<Record>,
                  longName: Option<Bytes>, longLink: Option<Bytes>): Result<Header>
    requires |block| == BLOCK
  {
    var size0 := ReadNumber(block[124..136]);
    var mode := ReadNumber(block[100..108]);
    var uid := ReadNumber(block[108..116]);
    var gid := ReadNumber(block[116..124]);
    var mtime := ReadNumber(block[136..148]);
    if size0.Err? then Err(size0.error)
    else if mode.Err? then Err(mode.error)
    else if uid.Err? then Err(uid.error)
    else if gid.Err? then Err(gid.error)
    else if mtime.Err? then Err(mtime.error)
    else
      var path := match InForce(pax, global, PATH)
                  case Some(v) => v
                  case None => match longName case Some(v) => v case None => Joined(block);
      var link := match InForce(pax, global, LINKPATH)
                  case Some(v) => v
                  case None => match longLink case Some(v) => v case None => CStr(block[157..257]);
      Ok(Header(
        Normalise(path), kind, mode.value % 4096,
        NumberOr(InForce(pax, global, UID), uid.value) % U32_LIMIT,
        NumberOr(InForce(pax, global, GID), gid.value) % U32_LIMIT,
        NumberOr(InForce(pax, global, MTIME), mtime.value) % U32_LIMIT,
        if kind == File then NumberOr(InForce(pax, global, SIZE), size0.value) else 0,
        link,
        OrZero(ReadNumber(block[329..337])) % U32_LIMIT,
        OrZero(ReadNumber(block[337..345])) % U32_LIMIT,
        Xattrs(pax) + Xattrs(global)))
  }

  // ---- the records an entry needs ----

  function Named(xattrs: seq<Record>): (r: seq<Record>)
    ensures |r| == |xattrs|
    ensures forall i :: 0 <= i < |r| ==> r[i] == Record(XATTR + xattrs[i].key, xattrs[i].value)
  {
    seq(|xattrs|, i requires 0 <= i < |xattrs| => Record(XATTR + xattrs[i].key, xattrs[i].value))
  }

  function OneIf(want: bool, key: Bytes, value: Bytes): seq<Record> {
    if want then [Record(key, value)] else []
  }

  /** What does not fit the fixed fields. */
  function Unfitting(h: Header): seq<Record> {
    OneIf(|h.path| > 100, PATH, h.path) + OneIf(|h.link| > 100, LINKPATH, h.link)
    + OneIf(h.uid > SEVEN_OCTAL, UID, Digits(h.uid, 10)) + OneIf(h.gid > SEVEN_OCTAL, GID, Digits(h.gid, 10))
  }

  /** What has no place in the fixed fields. */
  function RecordsFor(h: Header): seq<Record> {
    Unfitting(h) + Named(h.xattrs)
  }

  function PaxFor(h: Header): seq<Record> {
    InsertAll([], RecordsFor(h))
  }

  // ---- the fields of a written block ----

  lemma {:induction false} SliceOf(a: Bytes, b: Bytes, c: Bytes)
    ensures (a + b + c)[|a|..|a| + |b|] == b
  {
  }

  lemma {:induction false} FrontSlices(h: Header, flag: byte)
    ensures var f := Front(h, flag);
            && f[0..100] == Pad(SplitName(h.path).0, 100)
            && f[100..108] == Field(h.mode, 8) && f[108..116] == Field(Min(h.uid, SEVEN_OCTAL), 8) && f[116..124] == Field(Min(h.gid, SEVEN_OCTAL), 8)
            && f[124..136] == Field(SizeOf(h, flag), 12) && f[136..148] == Field(h.mtime, 12)
  {
    hide Pad, Field;
    var a, b, c, d, e, g := Pad(SplitName(h.path).0, 100), Field(h.mode, 8), Field(Min(h.uid, SEVEN_OCTAL), 8), Field(Min(h.gid, SEVEN_OCTAL), 8),
                            Field(SizeOf(h, flag), 12), Field(h.mtime, 12);
    SliceOf(a, b, c + d + e + g);
    assert a + b + (c + d + e + g) == Front(h, flag);
    SliceOf(a + b, c, d + e + g);
    assert a + b + c + (d + e + g) == Front(h, flag);
    SliceOf(a + b + c, d, e + g);
    assert a + b + c + d + (e + g) == Front(h, flag);
    SliceOf(a + b + c + d, e, g);
    assert Front(h, flag)[0..100] == a;
  }

  lemma {:induction false} BackSlices(h: Header, flag: byte)
    ensures var k, prefix := Back(h, flag), SplitName(h.path).1;
            && k[0] == flag && k[1..101] == LinkPart(h.link, 0, 100)
            && k[173..181] == Octal(h.major, 7) + LinkPart(h.link, 179, 1)
            && k[181..189] == Octal(h.minor, 7) + LinkPart(h.link, 187, 1)
            && k[189..344] == prefix + LinkPart(h.link, 188 + |prefix|, 155 - |prefix|)
  {
    hide LinkPart, Octal, SplitName;
    var prefix := SplitName(h.path).1;
    var a, b, c := [flag] + LinkPart(h.link, 0, 100) + MAGIC + LinkPart(h.link, 108, 64), Octal(h.major, 7) + LinkPart(h.link, 179, 1),
                   Octal(h.minor, 7) + LinkPart(h.link, 187, 1);
    var d, e := prefix + LinkPart(h.link, 188 + |prefix|, 155 - |prefix|), LinkPart(h.link, 343, 12);
    assert Back(h, flag) == a + b + c + d + e;
    SliceOf(a, b, c + d + e);
    assert a + b + (c + d + e) == a + b + c + d + e;
    SliceOf(a + b, c, d + e);
    assert a + b + c + (d + e) == a + b + c + d + e;
    SliceOf(a + b + c, d, e);
    assert a[0] == flag && a[1..101] == LinkPart(h.link, 0, 100);
  }

  /** Each field of a written block, as its reader finds it. */
  lemma {:induction false} BlockSlices(h: Header, flag: byte)
    ensures var b, prefix := HeaderBlock(h, flag), SplitName(h.path).1;
            && b[0..100] == Pad(SplitName(h.path).0, 100)
            && b[100..108] == Field(h.mode, 8) && b[108..116] == Field(Min(h.uid, SEVEN_OCTAL), 8) && b[116..124] == Field(Min(h.gid, SEVEN_OCTAL), 8)
            && b[124..136] == Field(SizeOf(h, flag), 12) && b[136..148] == Field(h.mtime, 12)
            && b[156] == flag && b[157..257] == LinkPart(h.link, 0, 100)
            && b[329..337] == Octal(h.major, 7) + LinkPart(h.link, 179, 1) && b[337..345] == Octal(h.minor, 7) + LinkPart(h.link, 187, 1)
            && b[345..500] == prefix + LinkPart(h.link, 188 + |prefix|, 155 - |prefix|)
  {
    hide Front, Back, Checksum, Field, Pad, LinkPart, Octal, SplitName;
    FrontSlices(h, flag);
    BackSlices(h, flag);
    var f, k, b := Front(h, flag), Back(h, flag), HeaderBlock(h, flag);
    InFront(f, Checksum(f, k), k, 0, 100);
    InFront(f, Checksum(f, k), k, 100, 108);
    InFront(f, Checksum(f, k), k, 108, 116);
    InFront(f, Checksum(f, k), k, 116, 124);
    InFront(f, Checksum(f, k), k, 124, 136);
    InFront(f, Checksum(f, k), k, 136, 148);
    InBack(f, Checksum(f, k), k, 1, 101);
    InBack(f, Checksum(f, k), k, 173, 181);
    InBack(f, Checksum(f, k), k, 181, 189);
    InBack(f, Checksum(f, k), k, 189, 344);
  }

  lemma {:induction false} InFront(f: Bytes, c: Bytes, k: Bytes, i: nat, j: nat)
    requires i <= j <= |f|
    ensures (f + c + k)[i..j] == f[i..j]
  {
  }

  lemma {:induction false} InBack(f: Bytes, c: Bytes, k: Bytes, i: nat, j: nat)
    requires i <= j <= |k|
    ensures (f + c + k)[|f| + |c| + i..|f| + |c| + j] == k[i..j]
  {
  }

  // ---- what the records say ----

  lemma {:induction false} LastConcat(a: seq<Record>, b: seq<Record>, key: Bytes)
    ensures LastOf(a + b, key) == match LastOf(b, key) case Some(v) => Some(v) case None => LastOf(a, key)
  {
    if b == [] {
      assert a + b == a;
    } else {
      assert (a + b)[..|a + b| - 1] == a + b[..|b| - 1];
      LastConcat(a, b[..|b| - 1], key);
    }
  }

  lemma {:induction false} LastOneIf(want: bool, key: Bytes, value: Bytes, asked: Bytes)
    ensures LastOf(OneIf(want, key, value), asked) == if want && asked == key then Some(value) else None
  {
  }

  lemma {:induction false} NoneNamed(xattrs: seq<Record>, key: Bytes)
    requires key == [] || key[0] != 83
    ensures LastOf(Named(xattrs), key) == None
  {
    if xattrs != [] {
      var n := |xattrs| - 1;
      assert Named(xattrs)[..n] == Named(xattrs[..n]);
      assert (XATTR + xattrs[n].key)[0] == 83;
      NoneNamed(xattrs[..n], key);
    }
  }

  /** Each field that did not fit is found under its own key, and no other key is. */
  lemma {:induction false} RecordsSay(h: Header, key: Bytes)
    requires key != [] && key[0] != 83
    ensures Get(PaxFor(h), key) ==
              if h.gid > SEVEN_OCTAL && key == GID then Some(Digits(h.gid, 10))
              else if h.uid > SEVEN_OCTAL && key == UID then Some(Digits(h.uid, 10))
              else if |h.link| > 100 && key == LINKPATH then Some(h.link)
              else if |h.path| > 100 && key == PATH then Some(h.path)
              else None
  {
    hide Digits, LastOf, InsertAll, Named, OneIf;
    InsertAllGets(RecordsFor(h), key);
    var a, b := OneIf(|h.path| > 100, PATH, h.path), OneIf(|h.link| > 100, LINKPATH, h.link);
    var c, d := OneIf(h.uid > SEVEN_OCTAL, UID, Digits(h.uid, 10)), OneIf(h.gid > SEVEN_OCTAL, GID, Digits(h.gid, 10));
    LastConcat(a + b + c + d, Named(h.xattrs), key);
    LastConcat(a + b + c, d, key);
    LastConcat(a + b, c, key);
    LastConcat(a, b, key);
    LastOneIf(|h.path| > 100, PATH, h.path, key);
    LastOneIf(|h.link| > 100, LINKPATH, h.link, key);
    LastOneIf(h.uid > SEVEN_OCTAL, UID, Digits(h.uid, 10), key);
    LastOneIf(h.gid > SEVEN_OCTAL, GID, Digits(h.gid, 10), key);
    NoneNamed(h.xattrs, key);
  }

  // ---- the attributes ----

  /** Below every key of the records. */
  ghost predicate Before(key: Bytes, m: seq<Record>) {
    forall i :: 0 <= i < |m| ==> NameLe(key, m[i].key) && key != m[i].key
  }

  lemma {:induction false} PrefixLe(p: Bytes, a: Bytes, b: Bytes)
    ensures NameLe(p + a, p + b) <==> NameLe(a, b)
    ensures p + a == p + b <==> a == b
  {
    if p == [] {
      assert p + a == a && p + b == b;
    } else {
      assert (p + a)[1..] == p[1..] + a && (p + b)[1..] == p[1..] + b;
      PrefixLe(p[1..], a, b);
      assert p + a == [p[0]] + (p[1..] + a) && p + b == [p[0]] + (p[1..] + b);
    }
  }

  lemma {:induction false} XattrsBefore(key: Bytes, m: seq<Record>)
    requires Before(XATTR + key, m)
    ensures Before(key, Xattrs(m))
  {
    if m != [] {
      XattrsBefore(key, m[1..]);
      if StartsWith(m[0].key, XATTR) {
        assert m[0].key == XATTR + m[0].key[|XATTR|..];
        PrefixLe(XATTR, key, m[0].key[|XATTR|..]);
      }
    }
  }

  lemma {:induction false} KeyedTail(m: seq<Record>)
    requires Keyed(m) && m != []
    ensures Keyed(m[1..]) && Before(m[0].key, m[1..])
  {
  }

  lemma {:induction false} InsertBefore(m: seq<Record>, r: Record)
    requires Before(r.key, m)
    ensures InsertRecord(m, r) == [r] + m
  {
  }

  lemma {:induction false} BeforeTrans(a: Bytes, b: Bytes, m: seq<Record>)
    requires NameLe(a, b) && a != b && Before(b, m)
    ensures Before(a, m)
  {
    forall i | 0 <= i < |m| ensures NameLe(a, m[i].key) && a != m[i].key {
      NameLeTrans(a, b, m[i].key);
      NameLeTotal(b, m[i].key);
      NameLeTotal(a, b);
    }
  }

  /** The attribute a record is, if it is one. */
  function XattrOf(r: Record): seq<Record> {
    if StartsWith(r.key, XATTR) then [Record(r.key[|XATTR|..], r.value)] else []
  }

  lemma {:induction false} XattrsCons(r: Record, rest: seq<Record>)
    ensures Xattrs([r] + rest) == XattrOf(r) + Xattrs(rest)
  {
    assert ([r] + rest)[1..] == rest;
  }

  /** Attributes with one put in among them. */
  function WithXattr(m: seq<Record>, r: Record): seq<Record> {
    if StartsWith(r.key, XATTR) then InsertRecord(m, Record(r.key[|XATTR|..], r.value)) else m
  }

  /** Putting a record in puts its attribute in, if it is one. */
  lemma {:induction false} XattrsInsert(m: seq<Record>, r: Record)
    requires Keyed(m)
    ensures Xattrs(InsertRecord(m, r)) == WithXattr(Xattrs(m), r)
  {
    if m == [] {
      XattrsCons(r, []);
      assert [r] + [] == [r];
    } else {
      var rest := m[1..];
      assert m == [m[0]] + rest;
      hide Keyed, Before, NameLe, Xattrs, WithXattr, XattrOf;
      KeyedTail(m);
      XattrsCons(m[0], rest);
      if m[0].key == r.key {
        XattrsCons(r, rest);
        XattrsReplace(m, r);
      } else if NameLe(r.key, m[0].key) {
        XattrsCons(r, m);
        BeforeTrans(r.key, m[0].key, rest);
        BeforeCons(r.key, m);
        XattrsFront(m, r);
      } else {
        XattrsCons(m[0], InsertRecord(rest, r));
        XattrsInsert(rest, r);
        XattrsPast(m, r);
      }
    }
  }

  lemma {:induction false} BeforeCons(key: Bytes, m: seq<Record>)
    requires m != [] && NameLe(key, m[0].key) && key != m[0].key && Before(key, m[1..])
    ensures Before(key, m)
  {
    forall i | 0 <= i < |m| ensures NameLe(key, m[i].key) && key != m[i].key {
      if i > 0 {
        assert m[i] == m[1..][i - 1];
      }
    }
  }

  lemma {:induction false} XattrsReplace(m: seq<Record>, r: Record)
    requires m != [] && m[0].key == r.key
    ensures WithXattr(XattrOf(m[0]) + Xattrs(m[1..]), r) == XattrOf(r) + Xattrs(m[1..])
  {
    hide NameLe, Xattrs;
    if StartsWith(r.key, XATTR) {
      assert (XattrOf(m[0]) + Xattrs(m[1..]))[1..] == Xattrs(m[1..]);
    }
  }

  lemma {:induction false} XattrsFront(m: seq<Record>, r: Record)
    requires Before(r.key, m)
    ensures WithXattr(Xattrs(m), r) == XattrOf(r) + Xattrs(m)
  {
    hide Before, NameLe, Xattrs;
    if StartsWith(r.key, XATTR) {
      var x := Record(r.key[|XATTR|..], r.value);
      assert r.key == XATTR + x.key;
      XattrsBefore(x.key, m);
      InsertBefore(Xattrs(m), x);
    }
  }

  lemma {:induction false} XattrsPast(m: seq<Record>, r: Record)
    requires m != [] && m[0].key != r.key && !NameLe(r.key, m[0].key)
    ensures WithXattr(XattrOf(m[0]) + Xattrs(m[1..]), r) == XattrOf(m[0]) + WithXattr(Xattrs(m[1..]), r)
  {
    hide NameLe, Xattrs;
    var rest := Xattrs(m[1..]);
    if StartsWith(r.key, XATTR) && StartsWith(m[0].key, XATTR) {
      var x, first := Record(r.key[|XATTR|..], r.value), Record(m[0].key[|XATTR|..], m[0].value);
      assert r.key == XATTR + x.key && m[0].key == XATTR + first.key;
      PrefixLe(XATTR, x.key, first.key);
      assert ([first] + rest)[1..] == rest;
    } else {
      assert [] + rest == rest;
    }
  }

  lemma {:induction false} XattrsOfAll(records: seq<Record>, xattrs: seq<Record>)
    requires forall i :: 0 <= i < |records| ==> !StartsWith(records[i].key, XATTR)
    ensures Xattrs(InsertAll([], records + Named(xattrs))) == InsertAll([], xattrs)
  {
    hide InsertRecord, StartsWith, Keyed, Named, WithXattr;
    if xattrs == [] {
      NoneNamedAtAll(records);
      if records != [] {
        var n := |records| - 1;
        XattrsOfAll(records[..n], []);
        NoneNamedAtAll(records[..n]);
        InsertAllGets(records[..n], []);
        XattrsInsert(InsertAll([], records[..n]), records[n]);
        NotAnXattr(Xattrs(InsertAll([], records[..n])), records[n]);
      }
    } else {
      var n := |xattrs| - 1;
      NamedLast(records, xattrs);
      XattrsOfAll(records, xattrs[..n]);
      InsertAllGets(records + Named(xattrs[..n]), []);
      XattrsInsert(InsertAll([], records + Named(xattrs[..n])), Record(XATTR + xattrs[n].key, xattrs[n].value));
      AnXattr(InsertAll([], xattrs[..n]), xattrs[n]);
    }
  }

  lemma {:induction false} NoneNamedAtAll(records: seq<Record>)
    ensures records + Named([]) == records
  {
  }

  lemma {:induction false} NamedLast(records: seq<Record>, xattrs: seq<Record>)
    requires xattrs != []
    ensures var n, all := |xattrs| - 1, records + Named(xattrs);
            |all| > 0 && all[..|all| - 1] == records + Named(xattrs[..n]) && all[|all| - 1] == Record(XATTR + xattrs[n].key, xattrs[n].value)
  {
  }

  lemma {:induction false} NotAnXattr(m: seq<Record>, r: Record)
    requires !StartsWith(r.key, XATTR)
    ensures WithXattr(m, r) == m
  {
  }

  lemma {:induction false} AnXattr(m: seq<Record>, x: Record)
    ensures WithXattr(m, Record(XATTR + x.key, x.value)) == InsertRecord(m, x)
  {
    NamedStarts(x.key);
  }

  lemma {:induction false} NamedStarts(name: Bytes)
    ensures StartsWith(XATTR + name, XATTR) && (XATTR + name)[|XATTR|..] == name
  {
  }

  /** An entry's attributes come back in the order of their names. */
  lemma {:induction false} XattrsBack(h: Header)
    ensures Xattrs(PaxFor(h)) == InsertAll([], h.xattrs)
  {
    var fixed := Unfitting(h);
    hide Digits;
    forall i | 0 <= i < |fixed| ensures !StartsWith(fixed[i].key, XATTR) {
      assert fixed[i].key == PATH || fixed[i].key == LINKPATH || fixed[i].key == UID || fixed[i].key == GID;
    }
    XattrsOfAll(fixed, h.xattrs);
  }

  // ---- the round trip ----

  /** A path as read behind what of a long link runs on under its prefix field. */
  function WithTail(link: Bytes, path: Bytes): Bytes {
    var tail := CStr(LinkPart(link, 188, 155));
    if tail == [] then path else tail + [SLASH] + path
  }

  /** A device number as read, behind it the byte of a long link that its field's last byte may hold. */
  function NumberRead(v: nat, link: Bytes, at: nat): nat {
    OrZero(ReadNumber(Octal(v, 7) + LinkPart(link, at, 1))) % U32_LIMIT
  }

  /** What comes back of a header. */
  function Restored(h: Header): Header {
    Header(
      Normalise(if |h.path| > 100 then h.path else WithTail(h.link, h.path)),
      h.kind, h.mode % 4096, h.uid, h.gid, h.mtime,
      if h.kind == File then h.size % Power(8, 11) else 0,
      h.link, NumberRead(h.major, h.link, 179), NumberRead(h.minor, h.link, 187), InsertAll([], h.xattrs))
  }

  lemma {:induction false} PowersOfEight()
    ensures Power(8, 7) == 2097152 && Power(8, 11) == 8589934592
  {
    assert Power(8, 1) == 8 && Power(8, 2) == 64 && Power(8, 3) == 512 && Power(8, 4) == 4096;
    assert Power(8, 5) == 32768 && Power(8, 6) == 262144 && Power(8, 7) == 2097152;
    assert Power(8, 8) == 16777216 && Power(8, 9) == 134217728 && Power(8, 10) == 1073741824;
  }

  lemma {:induction false} FieldReads(v: nat, w: nat)
    requires 1 < w
    ensures ReadNumber(Field(v, w)) == Ok(v % Power(8, w - 1))
  {
    ReadsOctal(v, w - 1, [0]);
  }

  lemma {:induction false} DecimalReads(v: nat)
    ensures NumberOr(Some(Digits(v, 10)), 0) == v && forall f :: NumberOr(Some(Digits(v, 10)), f) == v
  {
    DigitsSpell(v, 10);
    TrimDigits(Digits(v, 10), 10);
  }

  /** The numbers of a written block. */
  lemma {:induction false} NumbersRead(h: Header, flag: byte)
    requires Typed(h)
    ensures var b := HeaderBlock(h, flag);
            && ReadNumber(b[100..108]) == Ok(h.mode) && ReadNumber(b[136..148]) == Ok(h.mtime)
            && ReadNumber(b[108..116]) == Ok(Min(h.uid, SEVEN_OCTAL)) && ReadNumber(b[116..124]) == Ok(Min(h.gid, SEVEN_OCTAL))
            && ReadNumber(b[124..136]) == Ok(SizeOf(h, flag) % Power(8, 11))
            && OrZero(ReadNumber(b[329..337])) % U32_LIMIT == NumberRead(h.major, h.link, 179)
            && OrZero(ReadNumber(b[337..345])) % U32_LIMIT == NumberRead(h.minor, h.link, 187)
  {
    hide HeaderBlock, Field, ReadNumber, Power, LinkPart;
    BlockSlices(h, flag);
    PowersOfEight();
    FieldReads(h.mode, 8);
    FieldReads(h.mtime, 12);
    FieldReads(Min(h.uid, SEVEN_OCTAL), 8);
    FieldReads(Min(h.gid, SEVEN_OCTAL), 8);
    FieldReads(SizeOf(h, flag), 12);
  }

  /** The names of a written block. */
  lemma {:induction false} NamesRead(h: Header, flag: byte)
    requires NulFree(h.path) && NulFree(h.link)
    ensures var b := HeaderBlock(h, flag);
            && (|h.path| <= 100 ==> Joined(b) == WithTail(h.link, h.path))
            && (|h.link| <= 100 ==> CStr(b[157..257]) == h.link)
  {
    hide HeaderBlock;
    BlockSlices(h, flag);
    var b := HeaderBlock(h, flag);
    if |h.path| <= 100 {
      CStrOf(h.path, 100 - |h.path|);
      assert [] + LinkPart(h.link, 188, 155) == LinkPart(h.link, 188, 155);
    }
    if |h.link| <= 100 {
      CStrOf(h.link, 100 - |h.link|);
      assert LinkPart(h.link, 0, 100) == h.link + Zeros(100 - |h.link|);
    }
  }

  /** What is read of a written header, its records having been read before it. */
  lemma {:induction false} DecodeWritten(h: Header)
    requires Typed(h) && NulFree(h.path) && NulFree(h.link)
    ensures Decode(HeaderBlock(h, TypeFlag(h.kind)), h.kind, PaxFor(h), [], None, None) == Ok(Restored(h))
  {
    hide HeaderBlock, ReadNumber, Power, NumberRead, Joined, CStr, WithTail, Normalise, Xattrs, PaxFor, InsertAll, Digits, NumberOr;
    NumbersRead(h, TypeFlag(h.kind));
    NamesRead(h, TypeFlag(h.kind));
    RecordsSay(h, PATH);
    RecordsSay(h, LINKPATH);
    RecordsSay(h, UID);
    RecordsSay(h, GID);
    RecordsSay(h, MTIME);
    RecordsSay(h, SIZE);
    DecimalReads(h.uid);
    DecimalReads(h.gid);
    NumberNone();
    XattrsBack(h);
    NoXattrs();
    assert InsertAll([], h.xattrs) + [] == InsertAll([], h.xattrs);
    FlagOf(h.kind);
  }

  lemma {:induction false} NumberNone()
    ensures forall f :: NumberOr(None, f) == f
  {
  }

  lemma {:induction false} NoXattrs()
    ensures Xattrs([]) == []
  {
  }

  lemma {:induction false} FlagOf(k: EntryKind)
    ensures KindOf(TypeFlag(k)) == Some(k) && TypeFlag(k) != PAX_FLAG && TypeFlag(k) != GLOBAL_FLAG && TypeFlag(k) != 76 && TypeFlag(k) != 75 && TypeFlag(k) != 0
    ensures k == File <==> TypeFlag(k) == 48
  {
  }

  // ---- how much of a header survives ----

  /** A size survives exactly when eleven octal digits can say it. */
  lemma {:induction false} SizeSurvives(h: Header)
    requires h.kind == File
    ensures Restored(h).size == h.size <==> h.size < Power(8, 11)
  {
    hide Normalise, WithTail, NumberRead, InsertAll;
    FitsOctal(h.size, 11);
  }

  lemma {:induction false} NoLinkPart(link: Bytes, at: nat)
    requires |link| <= at
    ensures LinkPart(link, at, 1) == [0] && CStr(LinkPart(link, at, 155)) == []
  {
  }

  /** A device's numbers survive exactly when seven octal digits can say them, where the link leaves their fields alone. */
  lemma {:induction false} NumberSurvives(v: nat, link: Bytes, at: nat)
    requires v < U32_LIMIT && |link| <= at
    ensures NumberRead(v, link, at) == v <==> v < Power(8, 7)
  {
    hide LinkPart, ReadNumber;
    PowersOfEight();
    NoLinkPart(link, at);
    ReadsOctal(v, 7, [0]);
    FitsOctal(v, 7);
  }

  /** The tail of a long link that a short path is read behind. */
  lemma {:induction false} TailOf(link: Bytes)
    requires NulFree(link)
    ensures CStr(LinkPart(link, 188, 155)) == if |link| <= 188 then [] else link[188..Min(343, |link|)]
  {
    if |link| <= 188 {
      NoLinkPart(link, 188);
    } else {
      var t := link[188..Min(343, |link|)];
      assert LinkPart(link, 188, 155) == t + Zeros(155 - |t|);
      assert NulFree(t);
      CStrOf(t, 155 - |t|);
    }
  }

  /** The bytes of a link that run on under the prefix field, when its path has no record of its own. */
  function Spilled(h: Header): Bytes {
    if |h.path| > 100 || |h.link| <= 188 then [] else h.link[188..Min(343, |h.link|)]
  }

  /**
   A path survives exactly when nothing spills before it and it is normal, or
   what spills is dots and slashes that normalise away.
   */
  lemma {:induction false} PathSurvives(h: Header)
    requires NulFree(h.path) && NulFree(h.link)
    ensures var t := Spilled(h);
            Restored(h).path == h.path <==>
              if t == [] then Normal(h.path)
              else (DotTail(t) && Normal(h.path)) || (SlashTail(t) && Unslashed(h.path))
  {
    hide Normalise, LinkPart, CStr, NumberRead, InsertAll, Power, Normal, Unslashed, DotTail, SlashTail;
    TailOf(h.link);
    NormalExactly(h.path);
    VanishesExactly(Spilled(h), h.path);
  }

  /** Nothing spills before the path that a normal path does not shed again. */
  ghost predicate Unspoilt(h: Header) {
    var t := Spilled(h);
    t == [] || DotTail(t) || SlashTail(t)
  }

  /** A normal path survives exactly when what spills before it, if anything, is dots and slashes of these kinds. */
  lemma {:induction false} NormalSurvives(h: Header)
    requires NulFree(h.path) && NulFree(h.link) && Normalise(h.path) == h.path
    ensures Restored(h).path == h.path <==> Unspoilt(h)
  {
    hide Restored, Normalise, DotTail, SlashTail;
    NormalExactly(h.path);
    PathSurvives(h);
  }

  /** A symbolic link to 192 bytes, at a short path: the path comes back behind the last four of them. */
  lemma {:induction false} LongLinkSpoilsPath()
    ensures var h := Header([97], Symlink, 511, 0, 0, 0, 0, seq(192, i => 98), 0, 0, []);
            Typed(h) && NulFree(h.path) && NulFree(h.link) && Normalise(h.path) == h.path && Restored(h).path == [98, 98, 98, 98, SLASH, 97]
  {
    var h := Header([97], Symlink, 511, 0, 0, 0, 0, seq(192, i => 98), 0, 0, []);
    TailOf(h.link);
    assert h.link[188..192] == [98, 98, 98, 98];
    assert WithTail(h.link, h.path) == [98, 98, 98, 98, SLASH, 97];
  }

  /** What a header must keep to for all of it to come back. */
  ghost predicate Fits(h: Header) {
    && Typed(h) && NulFree(h.path) && NulFree(h.link) && Normalise(h.path) == h.path
    && h.mode < 4096 && h.major < Power(8, 7) && h.minor < Power(8, 7) && |h.link| <= 179
    && (if h.kind == File then h.size < Power(8, 11) else h.size == 0)
  }

  /** Within the limits, a header comes back whole, its attributes in the order of their names. */
  lemma {:induction false} FitsSurvives(h: Header)
    requires Fits(h)
    ensures Restored(h) == h.(xattrs := InsertAll([], h.xattrs))
  {
    hide Normalise, LinkPart, CStr, NumberRead, InsertAll, Power;
    TailOf(h.link);
    NumberSurvives(h.major, h.link, 179);
    NumberSurvives(h.minor, h.link, 187);
    FitsOctal(h.size, 11);
  }
}
