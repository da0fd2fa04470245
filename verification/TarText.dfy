/** The texts of a tar stream (src/tar.rs:700-795): numbers in octal and decimal, names cut and joined. */
module TarText {
  import opened Base

  const BLOCK := 512
  const ZERO: byte := 48

  // ---- digits ----

  /** v's digits in a base, as few as it has. */
  function Digits(v: nat, base: nat): (d: Bytes)
    requires 2 <= base <= 10
    ensures 1 <= |d|
  {
    if v < base then [ZERO + v] else Digits(v / base, base) + [ZERO + v % base]
  }

  predicate IsDigit(b: byte, base: nat) {
    ZERO as int <= b as int < ZERO as int + base
  }

  ghost predicate AllDigits(d: Bytes, base: nat) {
    forall i :: 0 <= i < |d| ==> IsDigit(d[i], base)
  }

  /** The number some digits spell; None when one of them is no digit. */
  function Spelled(d: Bytes, base: nat): Option<nat> {
    if d == [] then Some(0)
    else
      var b := d[|d| - 1];
      match Spelled(d[..|d| - 1], base)
      case None => None
      case Some(v) => if IsDigit(b, base) then Some(v * base + (b - ZERO)) else None
  }

  lemma {:induction false} SpelledMore(d: Bytes, b: byte, base: nat)
    ensures Spelled(d + [b], base) == match Spelled(d, base)
                                      case None => None
                                      case Some(v) => if IsDigit(b, base) then Some(v * base + (b - ZERO)) else None
  {
    assert (d + [b])[..|d|] == d;
  }

  /** A number's digits spell it. */
  lemma {:induction false} DigitsSpell(v: nat, base: nat)
    requires 2 <= base <= 10
    ensures AllDigits(Digits(v, base), base) && Spelled(Digits(v, base), base) == Some(v)
  {
    if v < base {
      SpelledMore([], ZERO + v, base);
      assert [] + [ZERO + v] == [ZERO + v];
    } else {
      var q, r := v / base, v % base;
      DivMod(v, base);
      DigitsSpell(q, base);
      DigitsMore(v, base, q, r);
      hide Digits, Spelled, AllDigits;
      SpellsOn(Digits(q, base), base, q, r);
    }
  }

  lemma {:induction false} DigitsMore(v: nat, base: nat, q: nat, r: nat)
    requires 2 <= base <= 10 && base <= v && q == v / base && r == v % base
    ensures Digits(v, base) == Digits(q, base) + [ZERO + r]
  {
  }

  /** One digit more. */
  lemma {:induction false} SpellsOn(d: Bytes, base: nat, q: nat, r: nat)
    requires AllDigits(d, base) && Spelled(d, base) == Some(q) && r < base <= 10
    ensures AllDigits(d + [ZERO + r], base) && Spelled(d + [ZERO + r], base) == Some(q * base + r)
  {
    hide Spelled;
    SpelledMore(d, ZERO + r, base);
  }

  lemma {:induction false} DivMod(v: nat, base: nat)
    requires 0 < base
    ensures v / base * base + v % base == v && v % base < base
  {
  }

  function Power(base: nat, w: nat): (p: nat)
    ensures 0 < base ==> 0 < p
  {
    if w == 0 then 1 else base * Power(base, w - 1)
  }

  /** The last w digits of v in octal. */
  function Octal(v: nat, w: nat): (d: Bytes)
    ensures |d| == w
  {
    if w == 0 then [] else Octal(v / 8, w - 1) + [ZERO + v % 8]
  }

  /** A field of w octal digits holds a number up to what w digits can say. */
  lemma {:induction false} OctalSpells(v: nat, w: nat)
    ensures AllDigits(Octal(v, w), 8) && Spelled(Octal(v, w), 8) == Some(v % Power(8, w))
  {
    if w > 0 {
      OctalSpells(v / 8, w - 1);
      SpelledMore(Octal(v / 8, w - 1), ZERO + v % 8, 8);
      ModStep(v, Power(8, w - 1));
    }
  }

  lemma {:induction false} ModStep(v: nat, p: nat)
    requires 0 < p
    ensures v / 8 % p * 8 + v % 8 == v % (8 * p)
  {
    var q := v / 8 / p;
    assert v / 8 == q * p + v / 8 % p;
    assert v == v / 8 * 8 + v % 8;
    var r := v / 8 % p * 8 + v % 8;
    assert v / 8 % p <= p - 1;
    assert v == q * (8 * p) + r by {
      assert q * p * 8 == q * (8 * p);
    }
    ModIs(v, 8 * p, q, r);
  }

  lemma {:induction false} ModIs(v: nat, m: nat, q: nat, r: nat)
    requires v == q * m + r && r < m
    ensures v % m == r
  {
    DivModUnique(v, q, r, m);
  }

  function Noughts(n: nat): (z: Bytes)
    ensures |z| == n && forall i :: 0 <= i < n ==> z[i] == ZERO
  {
    seq(n, i => ZERO)
  }

  /** Formatted to a width with zeroes in front, and cut to its last digits. */
  function Formatted(v: nat, w: nat): Bytes {
    var d := Digits(v, 8);
    var text := if |d| < w then Noughts(w - |d|) + d else d;
    text[|text| - w..]
  }

  lemma {:induction false} FormattedIsOctal(v: nat, w: nat)
    ensures Formatted(v, w) == Octal(v, w)
  {
    if w > 0 {
      if v < 8 {
        ZeroOctal(w - 1);
      } else {
        FormattedIsOctal(v / 8, w - 1);
        FormattedStep(v, w);
      }
    }
  }

  lemma {:induction false} FormattedStep(v: nat, w: nat)
    requires 0 < w && 8 <= v
    ensures Formatted(v, w) == Formatted(v / 8, w - 1) + [ZERO + v % 8]
  {
    var e, last := Digits(v / 8, 8), [ZERO + v % 8];
    assert Digits(v, 8) == e + last;
    hide Digits, Noughts;
    if |e| + 1 < w {
      assert Noughts(w - 1 - |e|) + (e + last) == Noughts(w - 1 - |e|) + e + last;
    }
  }

  lemma {:induction false} ZeroOctal(w: nat)
    ensures Octal(0, w) == Noughts(w)
  {
    if w > 0 {
      ZeroOctal(w - 1);
    }
  }

  // ---- reading a number ----

  predicate IsSpace(b: byte) {
    b == 32 || 9 <= b as int <= 13
  }

  function TrimLeft(t: Bytes): Bytes {
    if t != [] && IsSpace(t[0]) then TrimLeft(t[1..]) else t
  }

  function TrimRight(t: Bytes): Bytes {
    if t != [] && IsSpace(t[|t| - 1]) then TrimRight(t[..|t| - 1]) else t
  }

  function Trim(t: Bytes): Bytes {
    TrimRight(TrimLeft(t))
  }

  /** Parsed as a number is: digits, at least one, with a plus in front if it likes. */
  function Parse(t: Bytes, base: nat): Option<nat> {
    var d := if t != [] && t[0] == 43 then t[1..] else t;
    if d == [] then None else Spelled(d, base)
  }

  lemma {:induction false} TrimDigits(d: Bytes, base: nat)
    requires AllDigits(d, base) && d != [] && base <= 10
    ensures Trim(d) == d && Parse(d, base) == Spelled(d, base)
  {
    assert IsDigit(d[0], base) && IsDigit(d[|d| - 1], base);
  }

  /** The text of a field up to its first NUL or space. */
  function UpTo(field: Bytes, stop: byte -> bool): Bytes {
    if field == [] || stop(field[0]) then [] else [field[0]] + UpTo(field[1..], stop)
  }

  lemma {:induction false} UpToAll(text: Bytes, rest: Bytes, stop: byte -> bool)
    requires forall i :: 0 <= i < |text| ==> !stop(text[i])
    requires rest == [] || stop(rest[0])
    ensures UpTo(text + rest, stop) == text
  {
    if text == [] {
      assert text + rest == rest;
    } else {
      assert (text + rest)[1..] == text[1..] + rest;
      UpToAll(text[1..], rest, stop);
    }
  }

  function Binary(field: Bytes): nat {
    if field == [] then 0 else Binary(field[..|field| - 1]) * 256 + field[|field| - 1]
  }

  /** Read one of tar's number fields: octal, or GNU's binary when its top bit is set. */
  function ReadNumber(field: Bytes): Result<nat> {
    if field != [] && 0x80 <= field[0] then
      Ok(Binary(if |field| <= 8 then field else field[|field| - 8..]) % 0x8000_0000_0000_0000)
    else
      var text := Trim(UpTo(field, b => b == 0 || b == 32));
      if text == [] then Ok(0)
      else match Parse(text, 8) case Some(v) => Ok(v) case None => Err(InvalidPath)
  }

  /** A field of octal digits reads back as what they can say of the number. */
  lemma {:induction false} ReadsOctal(v: nat, w: nat, after: Bytes)
    requires 0 < w && (after == [] || after[0] == 0 || after[0] == 32)
    ensures ReadNumber(Octal(v, w) + after) == Ok(v % Power(8, w))
  {
    var d, field := Octal(v, w), Octal(v, w) + after;
    OctalSpells(v, w);
    assert IsDigit(d[0], 8) && field[0] == d[0];
    forall i | 0 <= i < |d| ensures d[i] != 0 && d[i] != 32 {
      assert IsDigit(d[i], 8);
    }
    UpToAll(d, after, b => b == 0 || b == 32);
    TrimDigits(d, 8);
  }

  lemma {:induction false} FitsOctal(v: nat, w: nat)
    ensures v < Power(8, w) ==> v % Power(8, w) == v
    ensures v % Power(8, w) == v <==> v < Power(8, w)
  {
    assert 0 < Power(8, w);
    if v < Power(8, w) {
      DivModUnique(v, 0, v, Power(8, w));
    }
  }

  // ---- names ----

  /** A NUL-padded field as a text. */
  function CStr(field: Bytes): Bytes {
    UpTo(field, b => b == 0)
  }

  ghost predicate NulFree(t: Bytes) {
    forall i :: 0 <= i < |t| ==> t[i] != 0
  }

  lemma {:induction false} CStrOf(text: Bytes, n: nat)
    requires NulFree(text)
    ensures CStr(text + Zeros(n)) == text
  {
    UpToAll(text, Zeros(n), b => b == 0);
  }

  function TrimSlashes(path: Bytes): Bytes {
    TrimEnd(TrimSlashLeft(path))
  }

  function TrimSlashLeft(path: Bytes): Bytes {
    if path != [] && path[0] == SLASH then TrimSlashLeft(path[1..]) else path
  }

  function StripDots(path: Bytes): Bytes {
    if 2 <= |path| && path[0] == 46 && path[1] == SLASH then StripDots(path[2..]) else path
  }

  /** A path without the "./" and slashes it may begin with and the slashes it may end with. */
  function Normalise(path: Bytes): Bytes {
    TrimSlashes(StripDots(path))
  }

  /** How many bytes short of a whole number of blocks. */
  function PadFor(size: nat): (p: nat)
    ensures p < BLOCK && (size + p) % BLOCK == 0
  {
    var rem := size % BLOCK;
    if rem == 0 then 0 else BLOCK - rem
  }

  /** Where the name of a path that is too long for its field may be split off: at a separator, both halves fitting. */
  predicate SplitsAt(path: Bytes, i: nat) {
    i < |path| && path[i] == SLASH && i <= 155 && |path| - i - 1 <= 100
  }

  function FirstSplit(path: Bytes, from: nat): (r: Option<nat>)
    requires from <= |path|
    ensures r.Some? ==> SplitsAt(path, r.value)
    decreases |path| - from
  {
    if from == |path| then None else if SplitsAt(path, from) then Some(from) else FirstSplit(path, from + 1)
  }

  /** Split a path into ustar's name and prefix fields. */
  function SplitName(path: Bytes): (r: (Bytes, Bytes))
    ensures |r.0| <= 100 && |r.1| <= 155
    ensures |path| <= 100 ==> r == (path, [])
  {
    if |path| <= 100 then (path, [])
    else
      match FirstSplit(path, 0)
      case Some(i) => (path[i + 1..], path[..i])
      case None => (path[|path| - 100..], [])
  }

  /** A split name joins up again to its path, whenever it can be split at all. */
  lemma {:induction false} SplitJoins(path: Bytes)
    requires 100 < |path|
    ensures (exists i :: SplitsAt(path, i)) ==> SplitName(path).1 + [SLASH] + SplitName(path).0 == path
  {
    if i :| SplitsAt(path, i) {
      SplitFound(path, 0, i);
      var k := FirstSplit(path, 0).value;
      assert path == path[..k] + [path[k]] + path[k + 1..];
    }
  }

  lemma {:induction false} SplitFound(path: Bytes, from: nat, i: nat)
    requires from <= i && SplitsAt(path, i)
    ensures FirstSplit(path, from).Some?
    decreases i - from
  {
    if from < i {
      SplitFound(path, from + 1, i);
    }
  }

  /** The last component of a path. */
  function BaseName(path: Bytes): Bytes {
    if path == [] || path[|path| - 1] == SLASH then [] else BaseName(path[..|path| - 1]) + [path[|path| - 1]]
  }
}
