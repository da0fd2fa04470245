/** Normal paths (src/tar.rs:746-759), and which texts before a path normalise away. */
module TarPath {
  import opened Base
  import opened TarText

  const DOT: byte := 46

  predicate Dotted(t: Bytes) {
    2 <= |t| && t[0] == DOT && t[1] == SLASH
  }

  predicate Unslashed(t: Bytes) {
    t != [] ==> t[0] != SLASH && t[|t| - 1] != SLASH
  }

  /** A path that begins with neither "./" nor a slash, and does not end with one. */
  predicate Normal(t: Bytes) {
    !Dotted(t) && Unslashed(t)
  }

  /** "./", so many times. */
  function Dots(n: nat): (r: Bytes)
    ensures |r| == 2 * n
  {
    if n == 0 then [] else [DOT, SLASH] + Dots(n - 1)
  }

  function Slashes(n: nat): (r: Bytes)
    ensures |r| == n
  {
    seq(n, _ => SLASH)
  }

  /** Any number of "./", and then one dot. */
  ghost predicate DotTail(t: Bytes) {
    exists n :: t == Dots(n) + [DOT]
  }

  /** Any number of "./", and then any number of slashes. */
  ghost predicate SlashTail(t: Bytes) {
    exists n, k :: t == Dots(n) + Slashes(k)
  }

  // ---- what stripping takes off ----

  lemma {:induction false} StripOver(n: nat, t: Bytes)
    ensures StripDots(Dots(n) + t) == StripDots(t)
  {
    if n == 0 {
      assert Dots(0) + t == t;
    } else {
      assert (Dots(n) + t)[2..] == Dots(n - 1) + t;
      StripOver(n - 1, t);
    }
  }

  lemma {:induction false} StripShape(t: Bytes) returns (n: nat)
    ensures t == Dots(n) + StripDots(t) && !Dotted(StripDots(t))
  {
    if Dotted(t) {
      n := StripShape(t[2..]);
      assert t == [DOT, SLASH] + t[2..];
      assert t == Dots(n + 1) + StripDots(t);
      n := n + 1;
    } else {
      n := 0;
      assert t == Dots(0) + t;
    }
  }

  lemma {:induction false} DotTailExactly(t: Bytes)
    ensures DotTail(t) <==> StripDots(t) == [DOT]
  {
    var n := StripShape(t);
    if DotTail(t) {
      var k :| t == Dots(k) + [DOT];
      StripOver(k, [DOT]);
    }
  }

  lemma {:induction false} SlashTailExactly(t: Bytes)
    ensures SlashTail(t) <==> StripDots(t) == Slashes(|StripDots(t)|)
  {
    var n := StripShape(t);
    if SlashTail(t) {
      var k, j :| t == Dots(k) + Slashes(j);
      StripOver(k, Slashes(j));
      assert !Dotted(Slashes(j));
    }
  }

  // ---- what trimming takes off ----

  lemma {:induction false} LeftShape(t: Bytes) returns (n: nat)
    ensures t == Slashes(n) + TrimSlashLeft(t)
    ensures TrimSlashLeft(t) != [] ==> TrimSlashLeft(t)[0] != SLASH
  {
    if t != [] && t[0] == SLASH {
      n := LeftShape(t[1..]);
      assert t == [SLASH] + t[1..] && Slashes(n + 1) == [SLASH] + Slashes(n);
      n := n + 1;
    } else {
      n := 0;
    }
  }

  lemma {:induction false} LeftOver(n: nat, t: Bytes)
    ensures TrimSlashLeft(Slashes(n) + t) == TrimSlashLeft(t)
  {
    if n == 0 {
      assert Slashes(0) + t == t;
    } else {
      assert (Slashes(n) + t)[1..] == Slashes(n - 1) + t;
      LeftOver(n - 1, t);
    }
  }

  lemma {:induction false} EndKeeps(t: Bytes)
    ensures |TrimEnd(t)| <= |t| && TrimEnd(t) == t[..|TrimEnd(t)|]
    ensures TrimEnd(t) != [] ==> TrimEnd(t)[|TrimEnd(t)| - 1] != SLASH
    ensures t != [] && t[0] != SLASH ==> TrimEnd(t) != []
  {
    if t != [] && t[|t| - 1] == SLASH {
      EndKeeps(t[..|t| - 1]);
      if |t| > 1 {
        assert t[..|t| - 1][0] == t[0];
      }
    }
  }

  /** Trimming leaves a text as it is exactly when it has slashes at neither end. */
  lemma {:induction false} TrimExactly(t: Bytes)
    ensures TrimSlashes(t) == t <==> Unslashed(t)
  {
    var n := LeftShape(t);
    var u := TrimSlashLeft(t);
    EndKeeps(u);
    if TrimSlashes(t) == t {
      assert |u| == |t|;
      assert n == 0 && u == t;
    }
  }

  /** A path is its own normal form exactly when it is normal. */
  lemma {:induction false} NormalExactly(t: Bytes)
    ensures Normalise(t) == t <==> Normal(t)
  {
    if Dotted(t) {
      var s := StripDots(t);
      var n := StripShape(t);
      var k := LeftShape(s);
      EndKeeps(TrimSlashLeft(s));
      StripShorter(t);
    } else {
      TrimExactly(t);
    }
  }

  lemma {:induction false} StripShorter(t: Bytes)
    requires Dotted(t)
    ensures |StripDots(t)| < |t|
  {
    var n := StripShape(t[2..]);
    assert |t[2..]| == 2 * n + |StripDots(t[2..])|;
  }

  /** Behind a text with more than slashes in it, trimming never comes down to the path alone. */
  lemma {:induction false} TrimBehind(t: Bytes, path: Bytes)
    requires t != Slashes(|t|)
    ensures TrimSlashes(t + [SLASH] + path) != path
  {
    var n := LeftShape(t);
    var u := TrimSlashLeft(t);
    assert u == [] ==> t == Slashes(n);
    var y := u + [SLASH] + path;
    assert t + [SLASH] + path == Slashes(n) + y;
    LeftOver(n, y);
    assert y[0] == u[0];
    EndKeeps(y);
    if path != [] && path[|path| - 1] != SLASH {
      assert y[|y| - 1] == path[|path| - 1];
    }
  }

  /** A text and a slash before a path normalise away exactly when the text is dots and slashes of these kinds. */
  lemma {:induction false} VanishesExactly(t: Bytes, path: Bytes)
    ensures Normalise(t + [SLASH] + path) == path <==> (DotTail(t) && Normal(path)) || (SlashTail(t) && Unslashed(path))
  {
    hide Normal, Unslashed, DotTail, SlashTail;
    var n := StripShape(t);
    var r := StripDots(t);
    DotTailExactly(t);
    SlashTailExactly(t);
    assert t + [SLASH] + path == Dots(n) + (r + [SLASH] + path);
    StripOver(n, r + [SLASH] + path);
    var x := r + [SLASH] + path;
    if r == [DOT] {
      assert x[2..] == path;
      NormalExactly(path);
      assert [DOT][0] != Slashes(1)[0];
    } else {
      NotDotted(r, path);
      if r == Slashes(|r|) {
        assert x == Slashes(|r| + 1) + path;
        LeftOver(|r| + 1, path);
        TrimExactly(path);
      } else {
        TrimBehind(r, path);
      }
    }
  }

  lemma {:induction false} NotDotted(r: Bytes, path: Bytes)
    requires !Dotted(r) && r != [DOT]
    ensures !Dotted(r + [SLASH] + path)
  {
    var x := r + [SLASH] + path;
    if r == [] {
      assert x[0] == SLASH;
    } else if |r| == 1 {
      assert r == [r[0]] && x[0] == r[0];
    } else {
      assert x[0] == r[0] && x[1] == r[1];
    }
  }
}
