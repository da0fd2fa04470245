/**
 PAX extended headers (src/tar.rs:719-738 and 797-830): records that open with
 their own length, its digits counted in.
 */
module TarPax {
  import opened Base
  import opened TarText

  datatype Record = Record(key: Bytes, value: Bytes)

  const SPACE: byte := 32
  const EQUALS: byte := 61
  const NEWLINE: byte := 10

  // ---- the length of a record ----

  function DigitCount(n: nat): nat {
    |Digits(n, 10)|
  }

  /** A number's digits are at most one more than those of the number before. */
  lemma {:induction false} DigitsRise(n: nat)
    ensures DigitCount(n) <= DigitCount(n + 1) <= DigitCount(n) + 1
  {
    if 10 <= n {
      DigitsRise(n / 10);
      assert (n + 1) / 10 == n / 10 || (n + 1) / 10 == n / 10 + 1;
    }
  }

  lemma {:induction false} DigitsFew(n: nat)
    requires 0 < n
    ensures 2 * DigitCount(n) <= n + 1
  {
    if 10 <= n {
      DigitsFew(n / 10);
    }
  }

  /** A length that counts its own digits. */
  predicate Solves(len: nat, rest: nat) {
    DigitCount(len) + rest == len
  }

  /** The length found trying one after another. */
  function SolveFrom(rest: nat, len: nat): (r: nat)
    requires 0 < len && len <= DigitCount(len) + rest
    ensures Solves(r, rest) && len <= r
    ensures forall m: nat :: len <= m < r ==> !Solves(m, rest)
    decreases 2 * rest + 2 - len
  {
    if Solves(len, rest) then len
    else
      DigitsRise(len);
      DigitsFew(len);
      SolveFrom(rest, len + 1)
  }

  function RecordLength(rest: nat): nat {
    DigitsFew(rest + 1);
    SolveFrom(rest, rest + 1)
  }

  /** The length a record is given is the least that counts itself. */
  lemma {:induction false} LeastLength(rest: nat)
    ensures Solves(RecordLength(rest), rest) && forall m: nat :: m < RecordLength(rest) ==> !Solves(m, rest)
  {
    forall m: nat | m < rest + 1 ensures !Solves(m, rest) {
      assert 1 <= DigitCount(m);
    }
  }

  /** Find the length, one try after another. */
  method SolveLength(rest: nat) returns (len: nat)
    ensures len == RecordLength(rest)
  {
    DigitsFew(rest + 1);
    len := rest + 1;
    while |Digits(len, 10)| + rest != len
      invariant 0 < len <= DigitCount(len) + rest && SolveFrom(rest, len) == RecordLength(rest)
      decreases 2 * rest + 2 - len
    {
      DigitsRise(len);
      DigitsFew(len);
      len := len + 1;
    }
  }

  // ---- writing ----

  /** What a record holds besides its length: a space, the key, "=", the value and a newline. */
  function RestOf(r: Record): nat {
    |r.key| + 1 + |r.value| + 2
  }

  function RecordText(r: Record): Bytes {
    Digits(RecordLength(RestOf(r)), 10) + [SPACE] + r.key + [EQUALS] + r.value + [NEWLINE]
  }

  function Body(records: seq<Record>): Bytes {
    if records == [] then [] else RecordText(records[0]) + Body(records[1..])
  }

  lemma {:induction false} BodyMore(records: seq<Record>, r: Record)
    ensures Body(records + [r]) == Body(records) + RecordText(r)
  {
    hide RecordText;
    if records == [] {
      assert [] + [r] == [r] && [r][1..] == [];
    } else {
      assert (records + [r])[1..] == records[1..] + [r];
      BodyMore(records[1..], r);
    }
  }

  /** Put one record's text at the end. */
  method PutRecord(was: Bytes, r: Record) returns (out: Bytes)
    ensures out == was + RecordText(r)
  {
    var rest := |r.key| + 1 + |r.value| + 2;
    var len := SolveLength(rest);
    hide Digits, RecordLength;
    out := was + Digits(len, 10);
    out := out + [SPACE];
    out := out + r.key;
    out := out + [EQUALS];
    out := out + r.value;
    out := out + [NEWLINE];
  }

  /** The body of an extension: its records, one after another. */
  method BuildPax(records: seq<Record>) returns (out: Bytes)
    ensures out == Body(records)
  {
    hide RecordText;
    out := [];
    for i := 0 to |records|
      invariant out == Body(records[..i])
    {
      out := PutRecord(out, records[i]);
      assert records[..i + 1] == records[..i] + [records[i]];
      BodyMore(records[..i], records[i]);
    }
    assert records[..|records|] == records;
  }

  // ---- records by key ----

  /** Records in the order of their keys, each key once. */
  ghost predicate Keyed(m: seq<Record>) {
    forall i, j :: 0 <= i < j < |m| ==> NameLe(m[i].key, m[j].key) && m[i].key != m[j].key
  }

  function InsertRecord(m: seq<Record>, r: Record): seq<Record> {
    if m == [] then [r]
    else if m[0].key == r.key then [r] + m[1..]
    else if NameLe(r.key, m[0].key) then [r] + m
    else [m[0]] + InsertRecord(m[1..], r)
  }

  function Get(m: seq<Record>, key: Bytes): Option<Bytes> {
    if m == [] then None else if m[0].key == key then Some(m[0].value) else Get(m[1..], key)
  }

  /** The value the last record with a key gives it. */
  function LastOf(records: seq<Record>, key: Bytes): Option<Bytes> {
    if records == [] then None
    else if records[|records| - 1].key == key then Some(records[|records| - 1].value)
    else LastOf(records[..|records| - 1], key)
  }

  function InsertAll(m: seq<Record>, records: seq<Record>): seq<Record> {
    if records == [] then m else InsertRecord(InsertAll(m, records[..|records| - 1]), records[|records| - 1])
  }

  lemma {:induction false} InsertKeys(m: seq<Record>, r: Record, x: Record)
    requires x in InsertRecord(m, r)
    ensures x == r || x in m
  {
    if m != [] && m[0].key != r.key && !NameLe(r.key, m[0].key) && x != m[0] {
      InsertKeys(m[1..], r, x);
    }
  }

  lemma {:induction false} InsertKeyed(m: seq<Record>, r: Record)
    requires Keyed(m)
    ensures Keyed(InsertRecord(m, r))
  {
    if m == [] {
    } else if m[0].key == r.key {
      assert forall j :: 0 < j < |m| ==> NameLe(r.key, m[j].key) && m[j].key != r.key;
    } else if NameLe(r.key, m[0].key) {
      forall j | 0 <= j < |m| ensures NameLe(r.key, m[j].key) && m[j].key != r.key {
        if j > 0 {
          NameLeTrans(r.key, m[0].key, m[j].key);
          NameLeTotal(m[0].key, m[j].key);
          NameLeTotal(r.key, m[0].key);
        }
      }
    } else {
      InsertKeyed(m[1..], r);
      NameLeTotal(r.key, m[0].key);
      var rest := InsertRecord(m[1..], r);
      forall j | 0 <= j < |rest| ensures NameLe(m[0].key, rest[j].key) && m[0].key != rest[j].key {
        InsertKeys(m[1..], r, rest[j]);
        if rest[j] in m[1..] {
          var k :| 0 <= k < |m[1..]| && m[1..][k] == rest[j];
          assert m[k + 1] == rest[j];
        }
      }
    }
  }

  lemma {:induction false} InsertGet(m: seq<Record>, r: Record, key: Bytes)
    requires Keyed(m)
    ensures Get(InsertRecord(m, r), key) == if key == r.key then Some(r.value) else Get(m, key)
  {
    if m != [] && m[0].key != r.key && !NameLe(r.key, m[0].key) {
      InsertGet(m[1..], r, key);
    }
  }

  /** Records put in one after another are there by key, the last of each key standing. */
  lemma {:induction false} InsertAllGets(records: seq<Record>, key: Bytes)
    ensures Keyed(InsertAll([], records)) && Get(InsertAll([], records), key) == LastOf(records, key)
  {
    hide NameLe;
    if records != [] {
      var n := |records| - 1;
      InsertAllGets(records[..n], key);
      InsertKeyed(InsertAll([], records[..n]), records[n]);
      InsertGet(InsertAll([], records[..n]), records[n], key);
    }
  }

  // ---- reading ----

  function Find(b: Bytes, x: byte): (r: Option<nat>)
    ensures r.Some? ==> r.value < |b| && b[r.value] == x
  {
    if b == [] then None
    else if b[0] == x then Some(0)
    else match Find(b[1..], x) case None => None case Some(i) => Some(i + 1)
  }

  lemma {:induction false} FindPast(a: Bytes, x: byte, b: Bytes)
    requires forall i :: 0 <= i < |a| ==> a[i] != x
    ensures Find(a + [x] + b, x) == Some(|a|)
  {
    if a == [] {
      assert a + [x] + b == [x] + b;
    } else {
      assert (a + [x] + b)[1..] == a[1..] + [x] + b;
      FindPast(a[1..], x, b);
    }
  }

  /** What one record's text, past its length, adds. */
  function Take(m: seq<Record>, record: Bytes): seq<Record> {
    match Find(record, EQUALS)
    case None => m
    case Some(eq) =>
      var value := record[eq + 1..];
      InsertRecord(m, Record(record[..eq], if value != [] && value[|value| - 1] == NEWLINE then value[..|value| - 1] else value))
  }

  /** A length too short for the space after it is the end of a reader that indexes by it; here it is an error. */
  function ParseInto(body: Bytes, m: seq<Record>): Result<seq<Record>>
    decreases |body|
  {
    if body == [] then Ok(m)
    else
      match Find(body, SPACE)
      case None => Ok(m)
      case Some(space) =>
        match Parse(Trim(body[..space]), 10)
        case None => Err(InvalidPath)
        case Some(len) =>
          if len == 0 || |body| < len then Ok(m)
          else if len < space + 1 then Err(Fs)
          else ParseInto(body[len..], Take(m, body[space + 1..len]))
  }

  /** Add what one record's text holds; a text without "=" holds nothing. */
  method TakeRecord(m: seq<Record>, record: Bytes) returns (out: seq<Record>)
    ensures out == Take(m, record)
  {
    var eq := Find(record, EQUALS);
    if eq.None? {
      return m;
    }
    var key, value := record[..eq.value], record[eq.value + 1..];
    // The newline at the end is none of it.
    if value != [] && value[|value| - 1] == NEWLINE {
      value := value[..|value| - 1];
    }
    out := InsertRecord(m, Record(key, value));
  }

  /** Parse a PAX extended header: repeated records of length, key and value. */
  method ParsePax(body: Bytes) returns (r: Result<seq<Record>>)
    ensures r == ParseInto(body, [])
  {
    hide Find, Take, Parse, Trim;
    var out: seq<Record> := [];
    var at: nat := 0;
    assert body[0..] == body;
    while at < |body|
      invariant at <= |body|
      invariant ParseInto(body[at..], out) == ParseInto(body, [])
      decreases |body| - at
    {
      var left := body[at..];
      var space := Find(left, SPACE);
      if space.None? {
        break;
      }
      var len := Parse(Trim(left[..space.value]), 10);
      if len.None? {
        return Err(InvalidPath);
      }
      if len.value == 0 || at + len.value > |body| {
        break;
      }
      if len.value < space.value + 1 {
        return Err(Fs);
      }
      assert left[len.value..] == body[at + len.value..];
      out := TakeRecord(out, left[space.value + 1..len.value]);
      at := at + len.value;
    }
    r := Ok(out);
  }

  /** A record that can be read back: its key has no "=". */
  ghost predicate KeyOk(r: Record) {
    forall i :: 0 <= i < |r.key| ==> r.key[i] != EQUALS
  }

  lemma {:induction false} TakeText(m: seq<Record>, r: Record)
    requires KeyOk(r)
    ensures Take(m, r.key + [EQUALS] + r.value + [NEWLINE]) == InsertRecord(m, r)
  {
    var record := r.key + [EQUALS] + r.value + [NEWLINE];
    assert record == r.key + [EQUALS] + (r.value + [NEWLINE]);
    FindPast(r.key, EQUALS, r.value + [NEWLINE]);
    assert record[..|r.key|] == r.key && record[|r.key| + 1..] == r.value + [NEWLINE];
    assert (r.value + [NEWLINE])[..|r.value|] == r.value;
  }

  lemma {:induction false} NoSpaceInDigits(v: nat)
    ensures forall i :: 0 <= i < |Digits(v, 10)| ==> Digits(v, 10)[i] != SPACE
  {
    DigitsSpell(v, 10);
    forall i | 0 <= i < |Digits(v, 10)| ensures Digits(v, 10)[i] != SPACE {
      assert IsDigit(Digits(v, 10)[i], 10);
    }
  }

  /** One record reads back, and what follows it is read on. */
  lemma {:induction false} ParseOne(r: Record, rest: Bytes, m: seq<Record>)
    requires KeyOk(r)
    ensures ParseInto(RecordText(r) + rest, m) == ParseInto(rest, InsertRecord(m, r))
  {
    var len := RecordLength(RestOf(r));
    var digits, text := Digits(len, 10), r.key + [EQUALS] + r.value + [NEWLINE];
    var body := RecordText(r) + rest;
    hide Digits, RecordLength, Take, Find;
    LeastLength(RestOf(r));
    assert RecordText(r) == digits + [SPACE] + text;
    assert |RecordText(r)| == len;
    assert body == digits + [SPACE] + (text + rest);
    NoSpaceInDigits(len);
    FindPast(digits, SPACE, text + rest);
    assert body[..|digits|] == digits;
    DigitsSpell(len, 10);
    TrimDigits(digits, 10);
    assert body[|digits| + 1..len] == text && body[len..] == rest;
    TakeText(m, r);
  }

  /** What is built parses back to its records by key, whatever bytes their values hold. */
  lemma {:induction false} PaxRoundTrip(records: seq<Record>, m: seq<Record>)
    requires forall i :: 0 <= i < |records| ==> KeyOk(records[i])
    ensures ParseInto(Body(records), m) == Ok(InsertAll(m, records))
  {
    hide RecordText, InsertRecord;
    if records == [] {
    } else {
      var n := |records| - 1;
      ParseOne(records[0], Body(records[1..]), m);
      PaxRoundTrip(records[1..], InsertRecord(m, records[0]));
      InsertAllFirst(m, records);
    }
  }

  lemma {:induction false} InsertAllFirst(m: seq<Record>, records: seq<Record>)
    requires records != []
    ensures InsertAll(m, records) == InsertAll(InsertRecord(m, records[0]), records[1..])
  {
    hide InsertRecord;
    var n := |records| - 1;
    if n == 0 {
      assert records[..0] == [] && records[1..] == [];
    } else {
      InsertAllFirst(m, records[..n]);
      assert records[..n][1..] == records[1..][..n - 1];
    }
  }
}
