/** Vocabulary shared by every layer: results, bytes and little-endian fields. */
module Base {

  datatype Option<+T> = None | Some(value: T)

  /** The error kinds of src/error.rs; the texts they carry are dropped. */
  datatype Error =
    | Fs
    | NotFound
    | NotADirectory
    | IsADirectory
    | AlreadyExists
    | NotEmpty
    | NoSpace
    | NoInodes
    | InvalidName
    | Unsupported
    | InvalidPath

  datatype Result<+T> = Ok(value: T) | Err(error: Error) {
    predicate IsFailure() {
      Err?
    }

    function PropagateFailure<U>(): Result<U>
      requires Err?
    {
      Err(error)
    }

    function Extract(): T
      requires Ok?
    {
      value
    }
  }

  type byte = x: int | 0 <= x < 256
  type Bytes = seq<byte>

  const U16_LIMIT := 0x1_0000
  const U32_LIMIT := 0x1_0000_0000

  function Min(a: int, b: int): int {
    if a < b then a else b
  }

  function Zeros(n: nat): (z: Bytes)
    ensures |z| == n
  {
    seq(n, i => 0)
  }

  /** Bytes filled out with zeroes. */
  function Pad(data: Bytes, n: nat): (r: Bytes)
    requires |data| <= n
    ensures |r| == n
  {
    data + Zeros(n - |data|)
  }

  const SLASH: byte := 47

  /** A path without the slashes at its end. */
  function TrimEnd(path: Bytes): Bytes {
    if path != [] && path[|path| - 1] == SLASH then TrimEnd(path[..|path| - 1]) else path
  }

  // ---- division ----

  lemma {:induction false} DivModUnique(a: nat, q: nat, r: nat, d: nat)
    requires 0 < d && r < d && a == q * d + r
    ensures a / d == q && a % d == r
  {
    MulMono(a / d + 1, q, d);
    MulMono(q + 1, a / d, d);
  }

  lemma {:induction false} MulMono(a: nat, b: nat, c: nat)
    ensures a <= b ==> a * c <= b * c
  {
  }

  // ---- little-endian fields ----

  function U16(b: Bytes, at: nat): nat
    requires at + 2 <= |b|
  {
    b[at] as int + 0x100 * (b[at + 1] as int)
  }

  function U32(b: Bytes, at: nat): nat
    requires at + 4 <= |b|
  {
    b[at] as int + 0x100 * (b[at + 1] as int) + 0x1_0000 * (b[at + 2] as int) + 0x100_0000 * (b[at + 3] as int)
  }

  function Le16(v: nat): (b: Bytes)
    requires v < U16_LIMIT
    ensures |b| == 2 && U16(b, 0) == v
  {
    [v % 0x100, v / 0x100]
  }

  function Le32(v: nat): (b: Bytes)
    requires v < U32_LIMIT
    ensures |b| == 4 && U32(b, 0) == v
  {
    var hi := v / 0x1_0000;
    Le16(v % 0x1_0000) + [hi % 0x100, hi / 0x100]
  }

  // ---- sequences ----

  ghost predicate NoDup<T>(s: seq<T>) {
    forall i, j :: 0 <= i < j < |s| ==> s[i] != s[j]
  }

  ghost function Elems<T>(s: seq<T>): set<T> {
    set x | x in s
  }

  lemma {:induction false} SubsetFewer<T>(a: set<T>, b: set<T>)
    requires a <= b
    ensures |a| <= |b|
  {
    assert b == a + (b - a);
  }

  /** Distinct numbers below n are at most n in number. */
  lemma {:induction false} Pigeonhole(s: seq<nat>, n: nat)
    requires NoDup(s) && forall i :: 0 <= i < |s| ==> s[i] < n
    ensures |s| <= n
  {
    if |s| == 0 {
      return;
    }
    assert s[0] < n;
    if k :| 0 <= k < |s| && s[k] == n - 1 {
      var rest := s[..k] + s[k + 1..];
      forall i, j | 0 <= i < j < |rest| ensures rest[i] != rest[j] {
        var i', j' := if i < k then i else i + 1, if j < k then j else j + 1;
        assert rest[i] == s[i'] && rest[j] == s[j'];
      }
      forall i | 0 <= i < |rest| ensures rest[i] < n - 1 {
        var i' := if i < k then i else i + 1;
        assert rest[i] == s[i'] && s[i'] != s[k];
      }
      Pigeonhole(rest, n - 1);
    } else {
      Pigeonhole(s, n - 1);
    }
  }

  // ---- bytes written over others ----

  function Overwrite(b: Bytes, at: nat, data: Bytes): (r: Bytes)
    requires at + |data| <= |b|
    ensures |r| == |b|
  {
    b[..at] + data + b[at + |data|..]
  }

  method PutBytes(buf: array<byte>, at: nat, data: Bytes)
    requires at + |data| <= buf.Length
    modifies buf
    ensures buf[..] == Overwrite(old(buf[..]), at, data)
  {
    for i := 0 to |data|
      invariant buf[..] == Overwrite(old(buf[..]), at, data[..i])
    {
      assert data[..i + 1] == data[..i] + [data[i]];
      buf[at + i] := data[i];
    }
    assert data[..|data|] == data;
  }

  // ---- the order of names ----

  /** Byte by byte, a shorter name before one it begins. */
  predicate NameLe(a: Bytes, b: Bytes) {
    a == [] || (b != [] && (a[0] < b[0] || (a[0] == b[0] && NameLe(a[1..], b[1..]))))
  }

  lemma {:induction false} NameLeTotal(a: Bytes, b: Bytes)
    ensures NameLe(a, b) || NameLe(b, a)
    ensures NameLe(a, b) && NameLe(b, a) ==> a == b
  {
    if a != [] && b != [] {
      NameLeTotal(a[1..], b[1..]);
      assert a == [a[0]] + a[1..] && b == [b[0]] + b[1..];
    }
  }

  lemma {:induction false} NameLeTrans(a: Bytes, b: Bytes, c: Bytes)
    requires NameLe(a, b) && NameLe(b, c)
    ensures NameLe(a, c)
  {
    if a != [] && a[0] == b[0] && b[0] == c[0] {
      NameLeTrans(a[1..], b[1..], c[1..]);
    }
  }
}
