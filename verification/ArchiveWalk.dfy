/**
 Walking a tree to pack it (src/volume.rs:1258-1378): an explicit stack of names
 still to come, instead of a recursion.
 */
module ArchiveWalk {
  import opened Base
  import opened Namespace
  import opened NameOps
  import opened Removal

  // ---- names in order ----

  /** Names in order, the last of all first, each once. */
  ghost predicate Falls(names: seq<Name>) {
    forall i, j :: 0 <= i < j < |names| ==> NameLe(names[j], names[i]) && names[j] != names[i]
  }

  ghost predicate Lists(names: seq<Name>, s: set<Name>) {
    forall n :: n in s <==> n in names
  }

  function InsertDown(names: seq<Name>, n: Name): seq<Name> {
    if names == [] || NameLe(names[0], n) then [n] + names else [names[0]] + InsertDown(names[1..], n)
  }

  lemma {:induction false} InsertFalls(names: seq<Name>, n: Name)
    requires Falls(names) && n !in names
    ensures Falls(InsertDown(names, n))
    ensures forall m :: m in InsertDown(names, n) <==> m == n || m in names
  {
    if names == [] {
    } else if NameLe(names[0], n) {
      forall j | 0 <= j < |names| ensures NameLe(names[j], n) && names[j] != n {
        if j > 0 {
          NameLeTrans(names[j], names[0], n);
        }
      }
      hide NameLe;
    } else {
      NameLeTotal(names[0], n);
      hide NameLe;
      assert forall m :: m in names <==> m == names[0] || m in names[1..];
      InsertFalls(names[1..], n);
      var rest := InsertDown(names[1..], n);
      hide InsertDown;
      assert InsertDown(names, n) == [names[0]] + rest by {
        InsertPast(names, n);
      }
      forall j | 0 <= j < |rest| ensures NameLe(rest[j], names[0]) && rest[j] != names[0] {
        assert rest[j] in rest;
        if rest[j] != n {
          var k :| 0 <= k < |names[1..]| && names[1..][k] == rest[j];
          assert names[k + 1] == rest[j];
        }
      }
    }
  }

  lemma {:induction false} InsertPast(names: seq<Name>, n: Name)
    requires names != [] && !NameLe(names[0], n)
    ensures InsertDown(names, n) == [names[0]] + InsertDown(names[1..], n)
  {
    hide NameLe;
  }

  lemma {:induction false} FirstIn(a: seq<Name>)
    ensures a == [] || a[0] in a
  {
  }

  /** There is one way to list names in order. */
  lemma {:induction false} OneFall(a: seq<Name>, b: seq<Name>)
    requires Falls(a) && Falls(b) && forall n :: n in a <==> n in b
    ensures a == b
  {
    hide NameLe;
    FirstIn(b);
    if a == [] {
    } else {
      assert a[0] in a && b != [];
      var i, j :| 0 <= i < |b| && b[i] == a[0] && 0 <= j < |a| && a[j] == b[0];
      NameLeTotal(a[0], b[0]);
      assert a[0] == b[0];
      forall n ensures n in a[1..] <==> n in b[1..] {
        TailHas(a, n);
        TailHas(b, n);
      }
      OneFall(a[1..], b[1..]);
      assert a == [a[0]] + a[1..] && b == [b[0]] + b[1..];
    }
  }

  lemma {:induction false} TailHas(a: seq<Name>, n: Name)
    requires Falls(a) && a != []
    ensures n in a[1..] <==> n in a && n != a[0]
  {
    hide NameLe;
    if n in a[1..] {
      var k :| 0 <= k < |a[1..]| && a[1..][k] == n;
      assert a[k + 1] == n;
    }
    if n in a && n != a[0] {
      var k :| 0 <= k < |a| && a[k] == n;
      assert a[1..][k - 1] == n;
    }
  }

  lemma {:induction false} AListing(s: set<Name>) returns (names: seq<Name>)
    ensures Falls(names) && Lists(names, s)
  {
    if s == {} {
      names := [];
    } else {
      var n :| n in s;
      var rest := AListing(s - {n});
      InsertFalls(rest, n);
      names := InsertDown(rest, n);
    }
  }

  lemma {:induction false} ListingExists(s: set<Name>)
    ensures exists names :: Falls(names) && Lists(names, s)
  {
    var names := AListing(s);
  }

  /** A directory's names in order, the last first. */
  ghost function Down(fs: Fs, d: nat): (names: seq<Name>)
    ensures Falls(names) && Lists(names, EntriesAt(fs, d).Keys)
  {
    ListingExists(EntriesAt(fs, d).Keys);
    var names :| Falls(names) && Lists(names, EntriesAt(fs, d).Keys);
    names
  }

  /** A directory's names, the last first, for a stack to give back in order. */
  method SortedChildren(fs: Fs, d: nat) returns (names: seq<Name>)
    ensures names == Down(fs, d)
  {
    hide NameLe, Down;
    var rest := EntriesAt(fs, d).Keys;
    names := [];
    ghost var all := rest;
    while rest != {}
      invariant rest <= all && Falls(names) && Lists(names, all - rest)
      decreases |rest|
    {
      var n :| n in rest;
      InsertFalls(names, n);
      names := InsertDown(names, n);
      rest := rest - {n};
    }
    OneFall(names, Down(fs, d));
  }

  // ---- the walk ----

  ghost predicate DirAt(fs: Fs, p: Path) {
    Resolve(fs, p).Some? && IsDir(fs, Resolve(fs, p).value)
  }

  ghost function NodeAt(fs: Fs, p: Path): nat {
    match Resolve(fs, p) case Some(i) => i case None => 0
  }

  /** A directory is no deeper than there are directories. */
  lemma {:induction false} DepthBounded(fs: Fs, p: Path)
    requires Tree(fs) && DirAt(fs, p)
    ensures |p| < |Dirs(fs)|
  {
    hide Tree, Resolve;
    var inodes := seq(|p| + 1, k requires 0 <= k < |p| + 1 => NodeAt(fs, p[..k]));
    forall k | 0 <= k <= |p| ensures DirAt(fs, p[..k]) {
      DirsAbove(fs, p, k);
    }
    forall j, k | 0 <= j < k < |inodes| ensures inodes[j] != inodes[k] {
      assert |p[..j]| == j && |p[..k]| == k;
      if inodes[j] == inodes[k] {
        OnePath(fs, p[..j], p[..k], inodes[j]);
      }
    }
    forall k | 0 <= k < |inodes| ensures inodes[k] in Dirs(fs) {
      assert DirAt(fs, p[..k]);
    }
    DistinctBounded(inodes, Dirs(fs));
  }

  lemma {:induction false} DirsAbove(fs: Fs, p: Path, k: nat)
    requires DirAt(fs, p) && k <= |p|
    ensures DirAt(fs, p[..k])
    decreases |p|
  {
    hide Resolve, Find;
    if k == |p| {
      assert p[..k] == p;
    } else {
      SplitLast(p);
      ResolveMore(fs, Init(p), Last(p));
      DirsAbove(fs, Init(p), k);
      assert Init(p)[..k] == p[..k];
    }
  }

  /** The names are among a directory's. */
  ghost predicate Among(fs: Fs, at: Path, rest: seq<Name>) {
    DirAt(fs, at) && forall i :: 0 <= i < |rest| ==> rest[i] in EntriesAt(fs, NodeAt(fs, at))
  }

  /** A directory's names one by one, behind each that is a directory everything in it: the last of the names first. */
  ghost function Walk(fs: Fs, at: Path, rest: seq<Name>): seq<Path>
    requires Tree(fs) && Among(fs, at, rest)
    decreases |Dirs(fs)| - |at|, |rest|
  {
    DepthBounded(fs, at);
    if rest == [] then []
    else
      var n := |rest| - 1;
      var p := at + [rest[n]];
      [p] + (if DirAt(fs, p) then Walk(fs, p, Down(fs, NodeAt(fs, p))) else []) + Walk(fs, at, rest[..n])
  }

  lemma {:induction false} DownWithin(fs: Fs, p: Path)
    ensures DirAt(fs, p) ==> Among(fs, p, Down(fs, NodeAt(fs, p)))
  {
    hide Down, Resolve, Falls;
  }

  // ---- what the walk comes to ----

  lemma {:induction false} PathMore(fs: Fs, at: Path, n: Name)
    requires DirAt(fs, at)
    ensures Resolve(fs, at + [n]).Some? <==> n in EntriesAt(fs, NodeAt(fs, at))
    ensures n in EntriesAt(fs, NodeAt(fs, at)) ==> NodeAt(fs, at + [n]) == EntriesAt(fs, NodeAt(fs, at))[n]
  {
    hide Find, Resolve;
    ResolveMore(fs, at, n);
  }

  /** What a path past another goes through first. */
  lemma {:induction false} NextName(p: Path, q: Path)
    requires Prefix(p, q) && p != q
    ensures |p| < |q| && Prefix(p + [q[|p|]], q)
  {
    assert q[..|p| + 1] == p + [q[|p|]];
  }

  /** A path past one that leads somewhere leads through one of its names. */
  lemma {:induction false} ThroughName(fs: Fs, p: Path, q: Path)
    requires Prefix(p, q) && p != q && Resolve(fs, q).Some?
    ensures |p| < |q| && Prefix(p + [q[|p|]], q) && DirAt(fs, p) && q[|p|] in EntriesAt(fs, NodeAt(fs, p))
  {
    hide Find, Resolve, EntriesAt;
    NextName(p, q);
    var next := p + [q[|p|]];
    if Resolve(fs, next) == None {
      NowherePast(fs, next, q);
    }
    ResolveMore(fs, p, q[|p|]);
    NamedIn(fs, Resolve(fs, p).value, q[|p|]);
  }

  /** Under one of the names. */
  ghost predicate Under(at: Path, rest: seq<Name>, q: Path) {
    exists i :: 0 <= i < |rest| && Prefix(at + [rest[i]], q)
  }

  lemma {:induction false} UnderLast(at: Path, rest: seq<Name>, q: Path)
    requires rest != []
    ensures Under(at, rest, q) <==> Prefix(at + [rest[|rest| - 1]], q) || Under(at, rest[..|rest| - 1], q)
  {
    hide Prefix;
    var n := |rest| - 1;
    if Under(at, rest[..n], q) {
      var i :| 0 <= i < n && Prefix(at + [rest[..n][i]], q);
      assert rest[i] == rest[..n][i];
    }
    if i :| 0 <= i < |rest| && Prefix(at + [rest[i]], q) {
      if i < n {
        assert rest[i] == rest[..n][i];
      }
    }
  }

  lemma {:induction false} UnderDown(fs: Fs, p: Path, q: Path)
    requires Resolve(fs, q).Some?
    ensures DirAt(fs, p) ==> (Under(p, Down(fs, NodeAt(fs, p)), q) <==> Prefix(p, q) && p != q)
    ensures !DirAt(fs, p) ==> (Prefix(p, q) ==> p == q)
  {
    hide Find, Resolve, EntriesAt, Down, Falls;
    if Prefix(p, q) && p != q {
      ThroughName(fs, p, q);
      if DirAt(fs, p) {
        assert q[|p|] in Down(fs, NodeAt(fs, p));
      }
    }
    if DirAt(fs, p) {
      var names := Down(fs, NodeAt(fs, p));
      if i :| 0 <= i < |names| && Prefix(p + [names[i]], q) {
        PrefixOf(p, [names[i]]);
        PrefixTrans(p, p + [names[i]], q);
      }
    }
  }

  /** The walk comes to every path under its names that leads somewhere, and to no other. */
  lemma {:induction false} WalkExact(fs: Fs, at: Path, rest: seq<Name>, q: Path)
    requires Tree(fs) && Among(fs, at, rest)
    ensures q in Walk(fs, at, rest) <==> Under(at, rest, q) && Resolve(fs, q).Some?
    decreases |Dirs(fs)| - |at|, |rest|
  {
    hide Tree, Find, Resolve, EntriesAt, Down, Dirs, Prefix;
    DepthBounded(fs, at);
    if rest != [] {
      var n := |rest| - 1;
      var p := at + [rest[n]];
      WalkExact(fs, at, rest[..n], q);
      UnderLast(at, rest, q);
      hide Under;
      PathMore(fs, at, rest[n]);
      if Resolve(fs, q).Some? {
        UnderDown(fs, p, q);
      }
      assert Prefix(p, p) by {
        PrefixOf(p, []);
        assert p + [] == p;
      }
      if DirAt(fs, p) {
        DownWithin(fs, p);
        WalkExact(fs, p, Down(fs, NodeAt(fs, p)), q);
      }
    }
  }

  // ---- the order of the walk ----

  ghost predicate NameLt(a: Name, b: Name) {
    NameLe(a, b) && a != b
  }

  /** Name by name; a path before what is under it. */
  ghost predicate PathLt(p: Path, q: Path) {
    q != [] && (p == [] || NameLt(p[0], q[0]) || (p[0] == q[0] && PathLt(p[1..], q[1..])))
  }

  ghost predicate Rises(paths: seq<Path>) {
    forall i, j :: 0 <= i < j < |paths| ==> PathLt(paths[i], paths[j])
  }

  lemma {:induction false} SharedLt(at: Path, p: Path, q: Path)
    requires PathLt(p, q)
    ensures PathLt(at + p, at + q)
  {
    hide NameLt;
    if at == [] {
      assert at + p == p && at + q == q;
    } else {
      assert (at + p)[1..] == at[1..] + p && (at + q)[1..] == at[1..] + q;
      SharedLt(at[1..], p, q);
    }
  }

  lemma {:induction false} PrefixLt(p: Path, q: Path)
    requires Prefix(p, q) && p != q
    ensures PathLt(p, q)
  {
    var s := q[|p|..];
    assert q == p + s && p + [] == p;
    assert s != [] && PathLt([], s);
    SharedLt(p, [], s);
  }

  /** Whatever is under one name comes before whatever is under a later one. */
  lemma {:induction false} ApartLt(at: Path, n: Name, m: Name, p: Path, q: Path)
    requires Prefix(at + [n], p) && Prefix(at + [m], q) && NameLt(n, m)
    ensures PathLt(p, q)
  {
    hide NameLt;
    var s, t := p[|at| + 1..], q[|at| + 1..];
    assert p == at + ([n] + s) && q == at + ([m] + t);
    assert PathLt([n] + s, [m] + t);
    SharedLt(at, [n] + s, [m] + t);
  }

  lemma {:induction false} RisesJoin(a: seq<Path>, b: seq<Path>)
    requires Rises(a) && Rises(b) && forall i, j :: 0 <= i < |a| && 0 <= j < |b| ==> PathLt(a[i], b[j])
    ensures Rises(a + b)
  {
    hide PathLt;
  }

  /** The walk comes to its paths in order, so to each once. */
  lemma {:induction false} WalkRises(fs: Fs, at: Path, rest: seq<Name>)
    requires Tree(fs) && Among(fs, at, rest) && Falls(rest)
    ensures Rises(Walk(fs, at, rest))
    decreases |Dirs(fs)| - |at|, |rest|
  {
    hide Tree, Find, Resolve, EntriesAt, Down, Dirs, Prefix, NameLe, PathLt, Walk, Rises;
    DepthBounded(fs, at);
    if rest == [] {
      NoWalk(fs, at);
    } else {
      var n := |rest| - 1;
      var p := at + [rest[n]];
      FewerWithin(fs, at, rest);
      WalkFirst(fs, at, rest);
      WalkRises(fs, at, rest[..n]);
      var inside: seq<Path> := [];
      if DirAt(fs, p) {
        inside := Walk(fs, p, Down(fs, NodeAt(fs, p)));
        WalkRises(fs, p, Down(fs, NodeAt(fs, p)));
      } else {
        NoneRise();
      }
      WalkJoins(fs, at, rest, inside);
    }
  }

  lemma {:induction false} NoWalk(fs: Fs, at: Path)
    requires Tree(fs) && Among(fs, at, [])
    ensures Walk(fs, at, []) == [] && Rises(Walk(fs, at, []))
  {
  }

  lemma {:induction false} NoneRise()
    ensures Rises([])
  {
  }

  /** A name, what is inside it, and what comes later. */
  lemma {:induction false} WalkJoins(fs: Fs, at: Path, rest: seq<Name>, inside: seq<Path>)
    requires Tree(fs) && Among(fs, at, rest) && Falls(rest) && rest != []
    requires Among(fs, at, rest[..|rest| - 1]) && Rises(Walk(fs, at, rest[..|rest| - 1])) && Rises(inside)
    requires var p := at + [rest[|rest| - 1]];
             if DirAt(fs, p) then Among(fs, p, Down(fs, NodeAt(fs, p))) && inside == Walk(fs, p, Down(fs, NodeAt(fs, p))) else inside == []
    ensures Rises([at + [rest[|rest| - 1]]] + inside + Walk(fs, at, rest[..|rest| - 1]))
  {
    hide Tree, Find, Resolve, EntriesAt, Down, Dirs, Prefix, NameLe, PathLt, Walk, Among;
    var n := |rest| - 1;
    var p, later := at + [rest[n]], Walk(fs, at, rest[..n]);
    forall i | 0 <= i < |inside| ensures Prefix(p, inside[i]) && PathLt(p, inside[i]) {
      assert inside[i] in inside;
      WalkExact(fs, p, Down(fs, NodeAt(fs, p)), inside[i]);
      UnderDown(fs, p, inside[i]);
      PrefixLt(p, inside[i]);
    }
    PrefixSelf(p);
    RisesJoin([p], inside);
    var front := [p] + inside;
    forall i, j | 0 <= i < |front| && 0 <= j < |later| ensures PathLt(front[i], later[j]) {
      assert later[j] in later;
      WalkExact(fs, at, rest[..n], later[j]);
      var k :| 0 <= k < n && Prefix(at + [rest[..n][k]], later[j]);
      ApartLt(at, rest[n], rest[k], front[i], later[j]);
    }
    RisesJoin(front, later);
  }

  lemma {:induction false} PrefixSelf(p: Path)
    ensures Prefix(p, p)
  {
    assert p[..|p|] == p;
  }

  // ---- the stack ----

  /** A directory being walked, and its names still to come. */
  datatype Level = Level(dir: Path, rest: seq<Name>)

  ghost predicate Stacked(fs: Fs, stack: seq<Level>) {
    forall i :: 0 <= i < |stack| ==> Among(fs, stack[i].dir, stack[i].rest)
  }

  /** What is still to come: of the top level first. */
  ghost function Pending(fs: Fs, stack: seq<Level>): seq<Path>
    requires Tree(fs) && Stacked(fs, stack)
  {
    if stack == [] then []
    else
      var top := stack[|stack| - 1];
      Walk(fs, top.dir, top.rest) + Pending(fs, stack[..|stack| - 1])
  }

  lemma {:induction false} PendingPush(fs: Fs, stack: seq<Level>, top: Level)
    requires Tree(fs) && Stacked(fs, stack) && Among(fs, top.dir, top.rest)
    ensures Stacked(fs, stack + [top]) && Pending(fs, stack + [top]) == Walk(fs, top.dir, top.rest) + Pending(fs, stack)
  {
    hide Tree, Among, Walk;
    assert (stack + [top])[..|stack|] == stack;
  }

  /** The top level with its next name popped. */
  function Popped(dir: Path, rest: seq<Name>): Level
    requires rest != []
  {
    Level(dir, rest[..|rest| - 1])
  }

  /** The next name is a directory, to be walked before what was to come. */
  lemma {:induction false} PopDir(fs: Fs, below: seq<Level>, dir: Path, rest: seq<Name>, p: Path)
    requires Tree(fs) && Stacked(fs, below) && Among(fs, dir, rest) && rest != [] && p == dir + [rest[|rest| - 1]] && DirAt(fs, p)
    ensures var now := below + [Popped(dir, rest)] + [Level(p, Down(fs, NodeAt(fs, p)))];
            && Stacked(fs, below + [Level(dir, rest)]) && Stacked(fs, now)
            && Pending(fs, below + [Level(dir, rest)]) == [p] + Pending(fs, now)
  {
    FewerWithin(fs, dir, rest);
    DownWithin(fs, p);
    hide Tree, Among, Down, Walk, Pending, Stacked, DirAt, NodeAt;
    var names := Down(fs, NodeAt(fs, p));
    PendingPush(fs, below, Level(dir, rest));
    PendingPush(fs, below, Popped(dir, rest));
    PendingPush(fs, below + [Popped(dir, rest)], Level(p, names));
    WalkFirst(fs, dir, rest);
    JoinThree([p], Walk(fs, p, names), Walk(fs, dir, rest[..|rest| - 1]), Pending(fs, below));
  }

  /** The next name is no directory. */
  lemma {:induction false} PopLeaf(fs: Fs, below: seq<Level>, dir: Path, rest: seq<Name>, p: Path)
    requires Tree(fs) && Stacked(fs, below) && Among(fs, dir, rest) && rest != [] && p == dir + [rest[|rest| - 1]] && !DirAt(fs, p)
    ensures var now := below + [Popped(dir, rest)];
            && Stacked(fs, below + [Level(dir, rest)]) && Stacked(fs, now)
            && Pending(fs, below + [Level(dir, rest)]) == [p] + Pending(fs, now)
  {
    FewerWithin(fs, dir, rest);
    hide Tree, Among, Down, Walk, Pending, Stacked, DirAt, NodeAt;
    PendingPush(fs, below, Level(dir, rest));
    PendingPush(fs, below, Popped(dir, rest));
    WalkFirst(fs, dir, rest);
    JoinThree([p], [], Walk(fs, dir, rest[..|rest| - 1]), Pending(fs, below));
  }

  lemma {:induction false} JoinThree(a: seq<Path>, b: seq<Path>, c: seq<Path>, d: seq<Path>)
    ensures a + b + c + d == a + (b + (c + d))
    ensures b == [] ==> b + (c + d) == c + d
  {
  }

  lemma {:induction false} FewerWithin(fs: Fs, at: Path, rest: seq<Name>)
    requires Among(fs, at, rest) && rest != []
    ensures Among(fs, at, rest[..|rest| - 1]) && DirAt(fs, at) && rest[|rest| - 1] in EntriesAt(fs, NodeAt(fs, at))
  {
    hide Resolve;
  }

  lemma {:induction false} WalkFirst(fs: Fs, at: Path, rest: seq<Name>)
    requires Tree(fs) && Among(fs, at, rest) && rest != [] && Among(fs, at, rest[..|rest| - 1])
    ensures var n, p := |rest| - 1, at + [rest[|rest| - 1]];
            && (DirAt(fs, p) ==> Among(fs, p, Down(fs, NodeAt(fs, p))))
            && Walk(fs, at, rest) == [p] + (if DirAt(fs, p) then Walk(fs, p, Down(fs, NodeAt(fs, p))) else []) + Walk(fs, at, rest[..n])
  {
    hide Tree, Resolve, Dirs, EntriesAt, Falls, Down;
    DownWithin(fs, at + [rest[|rest| - 1]]);
  }
}
