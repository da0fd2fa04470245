/**
 The tree of names (src/volume.rs:363-728): inodes, the directories that name
 them, and what keeps them a tree with correct link counts.
 */
module Namespace {
  import opened Base

  type Name = Bytes
  type Path = seq<Name>

  /** The root directory's inode number. */
  const ROOT: nat := 2

  datatype Attrs = Attrs(mode: nat, uid: nat, gid: nat)

  datatype Kind =
    | Regular(content: Bytes)
    | Symlink(target: Bytes)
    | CharDevice(major: nat, minor: nat)
    | BlockDevice(major: nat, minor: nat)
    | Fifo

  datatype Node =
    | Dir(entries: map<Name, nat>, parent: nat, links: nat, attrs: Attrs)
    | Leaf(kind: Kind, links: nat, attrs: Attrs)

  type Fs = map<nat, Node>

  // ---- looking at a tree ----

  predicate IsDir(fs: Fs, i: nat) {
    i in fs && fs[i].Dir?
  }

  function EntriesAt(fs: Fs, d: nat): map<Name, nat> {
    if IsDir(fs, d) then fs[d].entries else map[]
  }

  /** Walk down from an inode; a component under something not a directory is an error. */
  function Find(fs: Fs, at: nat, path: Path): Result<Option<nat>>
    decreases |path|
  {
    if path == [] then Ok(Some(at))
    else if !IsDir(fs, at) then Err(NotADirectory)
    else if path[0] !in fs[at].entries then Ok(None)
    else Find(fs, fs[at].entries[path[0]], path[1..])
  }

  /** The inode a path leads to, if it leads to one. */
  function Resolve(fs: Fs, path: Path): Option<nat> {
    match Find(fs, ROOT, path) case Ok(found) => found case Err(_) => None
  }

  function Lookup(fs: Fs, path: Path): Result<nat> {
    match Find(fs, ROOT, path)
    case Err(e) => Err(e)
    case Ok(None) => Err(NotFound)
    case Ok(Some(i)) => Ok(i)
  }

  /** The names that lead to an inode, each with the directory it is in. */
  ghost function NamesOf(fs: Fs, i: nat): set<(nat, Name)> {
    set d, n | d in fs && n in EntriesAt(fs, d) && EntriesAt(fs, d)[n] == i :: (d, n)
  }

  ghost function SubDirs(fs: Fs, d: nat): set<Name> {
    set n | n in EntriesAt(fs, d) && IsDir(fs, EntriesAt(fs, d)[n])
  }

  /** Following parents k times. */
  function Climb(fs: Fs, d: nat, k: nat): nat
    decreases k
  {
    if k == 0 || !IsDir(fs, d) then d else Climb(fs, fs[d].parent, k - 1)
  }

  ghost predicate Rooted(fs: Fs, d: nat) {
    exists k: nat :: Climb(fs, d, k) == ROOT
  }

  // ---- what makes it a tree ----

  ghost predicate ChildOk(fs: Fs, d: nat, n: Name)
    requires n in EntriesAt(fs, d)
  {
    var c := EntriesAt(fs, d)[n];
    c in fs && c != ROOT && (IsDir(fs, c) ==> fs[c].parent == d)
  }

  /** Every name leads to an inode, and every directory named says ".." truly. */
  ghost predicate Closed(fs: Fs) {
    && IsDir(fs, ROOT) && fs[ROOT].parent == ROOT
    && forall d, n :: d in fs && n in EntriesAt(fs, d) ==> ChildOk(fs, d, n)
  }

  /** A file has as many links as names; a directory one name, and two links and one for each directory in it. */
  ghost predicate CountOk(fs: Fs, i: nat)
    requires i in fs
  {
    if fs[i].Dir? then (i != ROOT ==> |NamesOf(fs, i)| == 1) && fs[i].links == 2 + |SubDirs(fs, i)|
    else 0 < fs[i].links == |NamesOf(fs, i)|
  }

  ghost predicate Tree(fs: Fs) {
    && Closed(fs)
    && (forall i :: i in fs ==> CountOk(fs, i))
    && (forall d :: IsDir(fs, d) ==> Rooted(fs, d))
  }

  // ---- putting a name in and taking one out ----

  /** One fewer, but not less than none. */
  function Less(n: nat): nat {
    if n == 0 then 0 else n - 1
  }

  function Put(fs: Fs, d: nat, n: Name, i: nat): Fs
    requires IsDir(fs, d)
  {
    fs[d := fs[d].(entries := fs[d].entries[n := i])]
  }

  function Cut(fs: Fs, d: nat, n: Name): Fs
    requires IsDir(fs, d)
  {
    fs[d := fs[d].(entries := fs[d].entries - {n})]
  }

  function WithLinks(fs: Fs, i: nat, links: nat): Fs
    requires i in fs
  {
    fs[i := fs[i].(links := links)]
  }

  /** The same kind of thing, with the same contents and attributes. */
  ghost predicate SameLook(a: Node, b: Node) {
    if a.Dir? then b.Dir? && a.attrs == b.attrs else b.Leaf? && a.kind == b.kind && a.attrs == b.attrs
  }

  /** Nothing is there that was not, and what is left looks as it did. */
  ghost predicate Remains(fs: Fs, now: Fs) {
    forall i :: i in now ==> i in fs && SameLook(fs[i], now[i])
  }

  ghost predicate SameEntries(a: Fs, b: Fs) {
    forall d :: EntriesAt(a, d) == EntriesAt(b, d)
  }

  ghost predicate SameDirs(a: Fs, b: Fs) {
    forall d :: IsDir(a, d) <==> IsDir(b, d)
  }

  lemma {:induction false} InNames(fs: Fs, i: nat, d: nat, n: Name)
    ensures (d, n) in NamesOf(fs, i) <==> n in EntriesAt(fs, d) && EntriesAt(fs, d)[n] == i
  {
  }

  lemma {:induction false} NamesSame(a: Fs, b: Fs, i: nat)
    requires SameEntries(a, b)
    ensures NamesOf(a, i) == NamesOf(b, i)
  {
    hide EntriesAt, NamesOf;
    forall p: (nat, Name) ensures p in NamesOf(a, i) <==> p in NamesOf(b, i) {
      InNames(a, i, p.0, p.1);
      InNames(b, i, p.0, p.1);
    }
  }

  lemma {:induction false} SubDirsSame(a: Fs, b: Fs, d: nat)
    requires EntriesAt(a, d) == EntriesAt(b, d)
    requires forall n :: n in EntriesAt(a, d) ==> (IsDir(a, EntriesAt(a, d)[n]) <==> IsDir(b, EntriesAt(a, d)[n]))
    ensures SubDirs(a, d) == SubDirs(b, d)
  {
  }

  /** b is a with name n in directory d, leading to i. */
  ghost predicate GainsName(a: Fs, b: Fs, d: nat, n: Name, i: nat) {
    && n !in EntriesAt(a, d) && EntriesAt(b, d) == EntriesAt(a, d)[n := i]
    && forall x :: x != d ==> EntriesAt(b, x) == EntriesAt(a, x)
  }

  lemma {:induction false} NamesGain(a: Fs, b: Fs, d: nat, n: Name, i: nat, x: nat)
    requires GainsName(a, b, d, n, i)
    ensures NamesOf(b, x) == if x == i then NamesOf(a, x) + {(d, n)} else NamesOf(a, x)
    ensures (d, n) !in NamesOf(a, x)
  {
    hide EntriesAt, NamesOf;
    InNames(a, x, d, n);
    forall p: (nat, Name) ensures p in NamesOf(b, x) <==> p in NamesOf(a, x) || (x == i && p == (d, n)) {
      InNames(a, x, p.0, p.1);
      InNames(b, x, p.0, p.1);
    }
  }

  /** The directory gains a directory under the name exactly when i is one; other directories gain nothing. */
  lemma {:induction false} SubDirsGain(a: Fs, b: Fs, d: nat, n: Name, i: nat, x: nat)
    requires GainsName(a, b, d, n, i)
    requires forall m :: m in EntriesAt(a, x) ==> (IsDir(a, EntriesAt(a, x)[m]) <==> IsDir(b, EntriesAt(a, x)[m]))
    ensures SubDirs(b, x) == if x == d && IsDir(b, i) then SubDirs(a, x) + {n} else SubDirs(a, x)
    ensures x == d ==> n !in SubDirs(a, x)
  {
    hide EntriesAt, IsDir;
  }

  lemma {:induction false} ChildThere(fs: Fs, d: nat, n: Name)
    requires Closed(fs) && n in EntriesAt(fs, d)
    ensures ChildOk(fs, d, n) && IsDir(fs, d)
  {
  }

  /** An inode that is not there has no names. */
  lemma {:induction false} NoNames(fs: Fs, i: nat)
    requires Closed(fs) && (i !in fs || i == ROOT)
    ensures NamesOf(fs, i) == {}
  {
    hide EntriesAt, IsDir;
    forall p | p in NamesOf(fs, i) ensures false {
      ChildThere(fs, p.0, p.1);
    }
  }

  // ---- reaching the root ----

  /** Every directory of a is one of b, with the same parent. */
  ghost predicate ParentsKept(a: Fs, b: Fs) {
    forall d :: IsDir(a, d) ==> IsDir(b, d) && b[d].parent == a[d].parent
  }

  lemma {:induction false} ClimbKept(a: Fs, b: Fs, d: nat, k: nat)
    requires ParentsKept(a, b) && Climb(a, d, k) == ROOT && IsDir(b, ROOT) && b[ROOT].parent == ROOT
    ensures Climb(b, d, k) == ROOT
    decreases k
  {
    if k == 0 {
    } else if !IsDir(a, d) {
      StayRoot(b, k);
    } else {
      ClimbKept(a, b, a[d].parent, k - 1);
    }
  }

  lemma {:induction false} StayRoot(fs: Fs, k: nat)
    requires IsDir(fs, ROOT) && fs[ROOT].parent == ROOT
    ensures Climb(fs, ROOT, k) == ROOT
    decreases k
  {
    if k > 0 {
      StayRoot(fs, k - 1);
    }
  }

  lemma {:induction false} RootedKept(a: Fs, b: Fs, d: nat)
    requires ParentsKept(a, b) && Rooted(a, d) && IsDir(b, ROOT) && b[ROOT].parent == ROOT
    ensures Rooted(b, d)
  {
    var k: nat :| Climb(a, d, k) == ROOT;
    ClimbKept(a, b, d, k);
  }

  lemma {:induction false} RootedUnder(fs: Fs, d: nat)
    requires IsDir(fs, d) && Rooted(fs, fs[d].parent)
    ensures Rooted(fs, d)
  {
    var k: nat :| Climb(fs, fs[d].parent, k) == ROOT;
    assert Climb(fs, d, k + 1) == ROOT;
  }

  // ---- each change keeps the tree ----

  /** A new file under a new name. */
  function AddLeaf(fs: Fs, d: nat, n: Name, i: nat, kind: Kind, attrs: Attrs): Fs
    requires IsDir(fs, d) && i !in fs
  {
    Put(fs[i := Leaf(kind, 1, attrs)], d, n, i)
  }

  /** The directories of b are those of a, with the same parents, but for i. */
  ghost predicate DirsBut(a: Fs, b: Fs, i: nat) {
    && a.Keys <= b.Keys && ParentsKept(a, b)
    && forall x :: IsDir(b, x) && x != i ==> IsDir(a, x)
  }

  lemma {:induction false} GainClosed(a: Fs, b: Fs, d: nat, n: Name, i: nat)
    requires Closed(a) && GainsName(a, b, d, n, i) && DirsBut(a, b, i) && i in b && i != ROOT
    requires IsDir(b, i) ==> b[i].parent == d && i !in a
    ensures Closed(b)
  {
    hide EntriesAt;
    forall x, m | x in b && m in EntriesAt(b, x) ensures ChildOk(b, x, m) {
      if x != d || m != n {
        assert m in EntriesAt(a, x);
        ChildThere(a, x, m);
      }
    }
  }

  lemma {:induction false} AllRooted(a: Fs, b: Fs, i: nat)
    requires Tree(a) && DirsBut(a, b, i) && Closed(b) && (IsDir(b, i) ==> IsDir(a, i) || (IsDir(a, b[i].parent) && b[i].parent != i))
    ensures forall d :: IsDir(b, d) ==> Rooted(b, d)
  {
    hide CountOk, ChildOk, Rooted;
    forall d | IsDir(b, d) ensures Rooted(b, d) {
      if IsDir(a, d) {
        RootedKept(a, b, d);
      } else {
        RootedKept(a, b, b[d].parent);
        RootedUnder(b, d);
      }
    }
  }

  /** The same kind of inode, with as many links. */
  predicate SameCounts(a: Node, b: Node) {
    (a.Dir? <==> b.Dir?) && a.links == b.links
  }

  lemma {:induction false} CountAt(fs: Fs, i: nat)
    requires Tree(fs) && i in fs
    ensures CountOk(fs, i)
    ensures fs[i].Leaf? ==> 0 < fs[i].links == |NamesOf(fs, i)|
    ensures fs[i].Dir? ==> (i != ROOT ==> |NamesOf(fs, i)| == 1) && fs[i].links == 2 + |SubDirs(fs, i)|
  {
  }

  /** With a file's new name goes one link more. */
  lemma {:induction false} LeafCounts(fs: Fs, now: Fs, d: nat, n: Name, i: nat, x: nat)
    requires GainsName(fs, now, d, n, i) && x in now && i in now
    requires forall y :: y in fs && y != i ==> (IsDir(fs, y) <==> IsDir(now, y))
    requires !IsDir(fs, i) && now[i].Leaf? && now[i].links == |NamesOf(fs, i)| + 1
    requires x != i ==> x in fs && CountOk(fs, x) && SameCounts(fs[x], now[x])
    requires Closed(fs)
    ensures CountOk(now, x)
  {
    hide NamesOf, SubDirs, EntriesAt, Closed;
    NamesGain(fs, now, d, n, i, x);
    forall m | m in EntriesAt(fs, x) ensures IsDir(fs, EntriesAt(fs, x)[m]) <==> IsDir(now, EntriesAt(fs, x)[m]) {
      ChildThere(fs, x, m);
    }
    SubDirsGain(fs, now, d, n, i, x);
    hide GainsName;
  }

  lemma {:induction false} AddLeafKeeps(fs: Fs, d: nat, n: Name, i: nat, kind: Kind, attrs: Attrs)
    requires Tree(fs) && IsDir(fs, d) && i !in fs && n !in fs[d].entries
    ensures Tree(AddLeaf(fs, d, n, i, kind, attrs))
  {
    hide CountOk, ChildOk, Rooted;
    var now := AddLeaf(fs, d, n, i, kind, attrs);
    assert GainsName(fs, now, d, n, i) && DirsBut(fs, now, i);
    GainClosed(fs, now, d, n, i);
    AllRooted(fs, now, i);
    NoNames(fs, i);
    hide NamesOf;
    forall x | x in now ensures CountOk(now, x) {
      LeafCounts(fs, now, d, n, i, x);
    }
  }

  /** Another name for a file. */
  function AddName(fs: Fs, d: nat, n: Name, i: nat): Fs
    requires IsDir(fs, d) && i in fs && !IsDir(fs, i)
  {
    var f := Put(fs, d, n, i);
    WithLinks(f, i, f[i].links + 1)
  }

  lemma {:induction false} AddNameKeeps(fs: Fs, d: nat, n: Name, i: nat)
    requires Tree(fs) && IsDir(fs, d) && i in fs && !IsDir(fs, i) && n !in fs[d].entries
    ensures Tree(AddName(fs, d, n, i))
  {
    hide CountOk, ChildOk, Rooted;
    CountAt(fs, i);
    var now := AddName(fs, d, n, i);
    assert GainsName(fs, now, d, n, i) && DirsBut(fs, now, i);
    GainClosed(fs, now, d, n, i);
    AllRooted(fs, now, i);
    hide NamesOf;
    forall x | x in now ensures CountOk(now, x) {
      LeafCounts(fs, now, d, n, i, x);
    }
  }

  /** A new directory, empty, whose ".." is another link to its parent. */
  function AddDir(fs: Fs, d: nat, n: Name, i: nat, attrs: Attrs): Fs
    requires IsDir(fs, d) && i !in fs
  {
    var f := Put(fs[i := Dir(map[], d, 2, attrs)], d, n, i);
    WithLinks(f, d, f[d].links + 1)
  }

  lemma {:induction false} DirCounts(fs: Fs, now: Fs, d: nat, n: Name, i: nat, x: nat)
    requires GainsName(fs, now, d, n, i) && x in now && IsDir(now, i) && d in fs && d in now && d != i
    requires forall y :: y in fs ==> (IsDir(fs, y) <==> IsDir(now, y))
    requires i !in fs && now[i].links == 2 && fs[d].Dir? && now[d].links == fs[d].links + 1
    requires x != i ==> x in fs && CountOk(fs, x) && (x != d ==> SameCounts(fs[x], now[x]))
    requires Closed(fs)
    ensures CountOk(now, x)
  {
    assert x == i ==> EntriesAt(fs, x) == map[];
    hide NamesOf, EntriesAt, Closed;
    assert x == i ==> SubDirs(fs, x) == {};
    hide SubDirs;
    NamesGain(fs, now, d, n, i, x);
    NoNames(fs, i);
    forall m | m in EntriesAt(fs, x) ensures IsDir(fs, EntriesAt(fs, x)[m]) <==> IsDir(now, EntriesAt(fs, x)[m]) {
      ChildThere(fs, x, m);
    }
    SubDirsGain(fs, now, d, n, i, x);
    hide GainsName;
  }

  lemma {:induction false} AddDirKeeps(fs: Fs, d: nat, n: Name, i: nat, attrs: Attrs)
    requires Tree(fs) && IsDir(fs, d) && i !in fs && n !in fs[d].entries
    ensures Tree(AddDir(fs, d, n, i, attrs))
  {
    hide CountOk, ChildOk, Rooted;
    var now := AddDir(fs, d, n, i, attrs);
    assert GainsName(fs, now, d, n, i) && DirsBut(fs, now, i);
    GainClosed(fs, now, d, n, i);
    AllRooted(fs, now, i);
    hide NamesOf;
    forall x | x in now ensures CountOk(now, x) {
      DirCounts(fs, now, d, n, i, x);
    }
  }

  // ---- taking names out ----

  /** A name taken from a file; with its last, the file goes. */
  function DropName(fs: Fs, d: nat, n: Name): Fs
    requires IsDir(fs, d) && n in fs[d].entries && fs[d].entries[n] in fs && !IsDir(fs, fs[d].entries[n])
  {
    var i := fs[d].entries[n];
    var f := Cut(fs, d, n);
    var links := Less(f[i].links);
    if links == 0 then f - {i} else WithLinks(f, i, links)
  }

  /** An empty directory removed, and with it its link to its parent. */
  function DropDir(fs: Fs, d: nat, n: Name): Fs
    requires IsDir(fs, d) && n in fs[d].entries && IsDir(fs, fs[d].entries[n]) && fs[d].entries[n] != d
  {
    var i := fs[d].entries[n];
    var f := Cut(fs, d, n) - {i};
    WithLinks(f, d, Less(f[d].links))
  }

  /** Taking a name out, in a tree, undoes putting it in. */
  lemma {:induction false} LosesClosed(a: Fs, b: Fs, d: nat, n: Name, i: nat)
    requires Closed(a) && GainsName(b, a, d, n, i) && IsDir(b, ROOT)
    requires forall x :: IsDir(b, x) ==> IsDir(a, x) && b[x].parent == a[x].parent
    requires forall x, m :: m in EntriesAt(b, x) ==> EntriesAt(b, x)[m] in b
    ensures Closed(b)
  {
    hide EntriesAt;
    forall x, m | x in b && m in EntriesAt(b, x) ensures ChildOk(b, x, m) {
      assert m in EntriesAt(a, x);
      ChildThere(a, x, m);
    }
  }

  lemma {:induction false} DropNameCounts(fs: Fs, now: Fs, d: nat, n: Name, i: nat, x: nat)
    requires GainsName(now, fs, d, n, i) && x in now
    requires forall y :: IsDir(fs, y) <==> IsDir(now, y)
    requires i in fs && !IsDir(fs, i) && CountOk(fs, i) && (i in now ==> now[i].links == fs[i].links - 1 && 0 < now[i].links)
    requires x != i ==> x in fs && CountOk(fs, x) && SameCounts(fs[x], now[x])
    ensures CountOk(now, x)
  {
    NamesGain(now, fs, d, n, i, x);
    SubDirsGain(now, fs, d, n, i, x);
    hide NamesOf, SubDirs, GainsName, EntriesAt;
  }

  /** The last name is the only name. */
  lemma {:induction false} LastName(fs: Fs, i: nat, d: nat, n: Name, x: nat, m: Name)
    requires |NamesOf(fs, i)| == 1 && n in EntriesAt(fs, d) && EntriesAt(fs, d)[n] == i && m in EntriesAt(fs, x) && EntriesAt(fs, x)[m] == i
    ensures d == x && n == m
  {
    hide NamesOf, EntriesAt;
    InNames(fs, i, d, n);
    InNames(fs, i, x, m);
    if (d, n) != (x, m) {
      OneOnly(NamesOf(fs, i), (d, n), (x, m));
    }
  }

  lemma {:induction false} OneOnly<T>(s: set<T>, a: T, b: T)
    requires a in s && b in s && |s| == 1
    ensures a == b
  {
    assert |s - {a}| == 0;
    assert b !in s - {a};
  }

  lemma {:induction false} DropNameKeeps(fs: Fs, d: nat, n: Name)
    requires Tree(fs) && IsDir(fs, d) && n in fs[d].entries && fs[d].entries[n] in fs && !IsDir(fs, fs[d].entries[n])
    ensures Tree(DropName(fs, d, n))
  {
    hide CountOk, ChildOk, Rooted;
    var i, now := fs[d].entries[n], DropName(fs, d, n);
    CountAt(fs, i);
    assert now.Keys <= fs.Keys && (fs[i].links == 1 <==> i !in now);
    assert GainsName(now, fs, d, n, i) && ParentsKept(fs, now) && ParentsKept(now, fs);
    forall x, m | m in EntriesAt(now, x) ensures EntriesAt(now, x)[m] in now {
      ChildThere(fs, x, m);
      if EntriesAt(now, x)[m] == i && i !in now {
        LastName(fs, i, d, n, x, m);
      }
    }
    hide NamesOf;
    LosesClosed(fs, now, d, n, i);
    forall x | IsDir(now, x) ensures Rooted(now, x) {
      RootedKept(fs, now, x);
    }
    forall x | x in now ensures CountOk(now, x) {
      DropNameCounts(fs, now, d, n, i, x);
    }
  }

  /** A directory's parent does hold it. */
  lemma {:induction false} ParentHolds(fs: Fs, x: nat) returns (m: Name)
    requires Tree(fs) && IsDir(fs, x) && x != ROOT
    ensures m in EntriesAt(fs, fs[x].parent) && EntriesAt(fs, fs[x].parent)[m] == x
  {
    hide ChildOk, Rooted, CountOk, EntriesAt;
    CountAt(fs, x);
    var p: (nat, Name) :| p in NamesOf(fs, x);
    hide NamesOf;
    InNames(fs, x, p.0, p.1);
    m := p.1;
    HeldBy(fs, p.0, p.1);
  }

  lemma {:induction false} HeldBy(fs: Fs, d: nat, n: Name)
    requires Closed(fs) && n in EntriesAt(fs, d)
    ensures var c := EntriesAt(fs, d)[n]; c in fs && c != ROOT && (IsDir(fs, c) ==> fs[c].parent == d)
  {
    ChildThere(fs, d, n);
  }

  /** Nothing climbs through a directory that is nobody's parent. */
  lemma {:induction false} ClimbAvoids(a: Fs, b: Fs, i: nat, d: nat, k: nat)
    requires forall x :: IsDir(a, x) && x != i ==> IsDir(b, x) && b[x].parent == a[x].parent && a[x].parent != i
    requires Climb(a, d, k) == ROOT && d != i && i != ROOT && IsDir(b, ROOT) && b[ROOT].parent == ROOT
    ensures Climb(b, d, k) == ROOT
    decreases k
  {
    if k == 0 {
    } else if !IsDir(a, d) {
      StayRoot(b, k);
    } else {
      ClimbAvoids(a, b, i, a[d].parent, k - 1);
    }
  }

  lemma {:induction false} DropDirCounts(fs: Fs, now: Fs, d: nat, n: Name, i: nat, x: nat)
    requires GainsName(now, fs, d, n, i) && x in now && x != i && x in fs && CountOk(fs, x) && IsDir(fs, i)
    requires forall y :: y != i ==> (IsDir(fs, y) <==> IsDir(now, y))
    requires forall y, m :: m in EntriesAt(now, y) ==> EntriesAt(now, y)[m] != i
    requires x != d ==> SameCounts(fs[x], now[x])
    requires d in fs && fs[d].Dir? && d in now && now[d].Dir? && now[d].links == Less(fs[d].links)
    ensures CountOk(now, x)
  {
    hide NamesOf, SubDirs, EntriesAt;
    NamesGain(now, fs, d, n, i, x);
    SubDirsGain(now, fs, d, n, i, x);
    hide GainsName;
  }

  lemma {:induction false} DropDirKeeps(fs: Fs, d: nat, n: Name)
    requires Tree(fs) && IsDir(fs, d) && n in fs[d].entries && IsDir(fs, fs[d].entries[n])
    requires fs[fs[d].entries[n]].entries == map[]
    ensures fs[d].entries[n] != d && Tree(DropDir(fs, d, n))
  {
    hide CountOk, ChildOk, Rooted;
    var i := fs[d].entries[n];
    HeldBy(fs, d, n);
    CountAt(fs, i);
    var now := DropDir(fs, d, n);
    assert GainsName(now, fs, d, n, i);
    forall x, m | m in EntriesAt(now, x) ensures EntriesAt(now, x)[m] in now && EntriesAt(now, x)[m] != i {
      HeldBy(fs, x, m);
      if EntriesAt(now, x)[m] == i {
        LastName(fs, i, d, n, x, m);
      }
    }
    hide NamesOf;
    LosesClosed(fs, now, d, n, i);
    NobodysParent(fs, i);
    forall x | IsDir(now, x) ensures Rooted(now, x) {
      RootedAvoids(fs, now, i, x);
    }
    forall x | x in now ensures CountOk(now, x) {
      DropDirCounts(fs, now, d, n, i, x);
    }
  }

  lemma {:induction false} NobodysParent(fs: Fs, i: nat)
    requires Tree(fs) && IsDir(fs, i) && fs[i].entries == map[] && i != ROOT
    ensures forall x :: IsDir(fs, x) ==> fs[x].parent != i
  {
    hide CountOk, ChildOk, Rooted;
    forall x | IsDir(fs, x) ensures fs[x].parent != i {
      if x != ROOT {
        var m := ParentHolds(fs, x);
      }
    }
  }

  lemma {:induction false} RootedAvoids(a: Fs, b: Fs, i: nat, x: nat)
    requires forall x :: IsDir(a, x) && x != i ==> IsDir(b, x) && b[x].parent == a[x].parent && a[x].parent != i
    requires x != i && i != ROOT && IsDir(b, ROOT) && b[ROOT].parent == ROOT && Rooted(a, x)
    ensures Rooted(b, x)
  {
    var k: nat :| Climb(a, x, k) == ROOT;
    ClimbAvoids(a, b, i, x, k);
  }

  // ---- moving ----

  /** a is d, or somewhere above it. */
  ghost predicate Above(fs: Fs, a: nat, d: nat) {
    exists k: nat :: Climb(fs, d, k) == a
  }

  lemma {:induction false} ClimbNext(fs: Fs, d: nat, k: nat)
    ensures var at := Climb(fs, d, k); Climb(fs, d, k + 1) == if IsDir(fs, at) then fs[at].parent else at
    decreases k
  {
    if k > 0 && IsDir(fs, d) {
      ClimbNext(fs, fs[d].parent, k - 1);
    }
  }

  lemma {:induction false} ClimbOn(fs: Fs, d: nat, j: nat, k: nat)
    ensures Climb(fs, d, j + k) == Climb(fs, Climb(fs, d, j), k)
    decreases j
  {
    if j == 0 {
    } else if !IsDir(fs, d) {
      ClimbStuck(fs, d, k);
    } else {
      ClimbOn(fs, fs[d].parent, j - 1, k);
    }
  }

  lemma {:induction false} ClimbStuck(fs: Fs, d: nat, k: nat)
    requires !IsDir(fs, d)
    ensures Climb(fs, d, k) == d
  {
  }

  lemma {:induction false} AboveUp(fs: Fs, a: nat, d: nat)
    requires IsDir(fs, d) && d != a
    ensures Above(fs, a, d) <==> Above(fs, a, fs[d].parent)
  {
    if k: nat :| Climb(fs, d, k) == a {
      assert Climb(fs, fs[d].parent, k - 1) == a;
    }
    if k: nat :| Climb(fs, fs[d].parent, k) == a {
      assert Climb(fs, d, k + 1) == a;
    }
  }

  /** The directories of b are those of a, with the same parents but for i's. */
  ghost predicate Reparented(a: Fs, b: Fs, i: nat, p: nat) {
    && (forall x :: IsDir(a, x) <==> IsDir(b, x))
    && (forall x :: IsDir(a, x) && x != i ==> b[x].parent == a[x].parent)
    && IsDir(b, i) && b[i].parent == p
  }

  lemma {:induction false} RootedOutside(a: Fs, b: Fs, i: nat, p: nat, x: nat, k: nat)
    requires Reparented(a, b, i, p) && i != ROOT && IsDir(a, ROOT) && a[ROOT].parent == ROOT
    requires Climb(a, x, k) == ROOT && !Above(a, i, x)
    ensures Rooted(b, x)
    decreases k
  {
    assert x != i by {
      assert Climb(a, x, 0) == x;
    }
    if k == 0 || !IsDir(a, x) {
      assert Climb(b, x, 0) == ROOT;
    } else {
      AboveUp(a, i, x);
      RootedOutside(a, b, i, p, a[x].parent, k - 1);
      RootedUnder(b, x);
    }
  }

  lemma {:induction false} RootedBelow(a: Fs, b: Fs, i: nat, p: nat, x: nat, k: nat)
    requires Reparented(a, b, i, p) && Rooted(b, p) && Climb(a, x, k) == i
    ensures Rooted(b, x)
    decreases k
  {
    if x == i {
      RootedUnder(b, x);
    } else {
      RootedBelow(a, b, i, p, a[x].parent, k - 1);
      RootedUnder(b, x);
    }
  }

  /** Moving a directory keeps every directory rooted when it is not moved inside itself. */
  lemma {:induction false} ReparentRooted(a: Fs, b: Fs, i: nat, p: nat)
    requires Reparented(a, b, i, p) && i != ROOT && IsDir(a, ROOT) && a[ROOT].parent == ROOT && IsDir(a, p)
    requires (forall x :: IsDir(a, x) ==> Rooted(a, x)) && !Above(a, i, p)
    ensures forall x :: IsDir(b, x) ==> Rooted(b, x)
  {
    hide Reparented, Above;
    forall x | IsDir(a, x) ensures Rooted(b, x) {
      ReparentOne(a, b, i, p, x);
    }
    assert forall x :: IsDir(b, x) ==> IsDir(a, x) by {
      SameReparented(a, b, i, p);
    }
  }

  lemma {:induction false} SameReparented(a: Fs, b: Fs, i: nat, p: nat)
    requires Reparented(a, b, i, p)
    ensures forall x :: IsDir(a, x) <==> IsDir(b, x)
  {
  }

  lemma {:induction false} ReparentOne(a: Fs, b: Fs, i: nat, p: nat, x: nat)
    requires Reparented(a, b, i, p) && i != ROOT && IsDir(a, ROOT) && a[ROOT].parent == ROOT && Rooted(a, p)
    requires Rooted(a, x) && !Above(a, i, p)
    ensures Rooted(b, x)
  {
    hide Reparented;
    var k: nat :| Climb(a, p, k) == ROOT;
    RootedOutside(a, b, i, p, p, k);
    if Above(a, i, x) {
      var j: nat :| Climb(a, x, j) == i;
      RootedBelow(a, b, i, p, x, j);
    } else {
      var j: nat :| Climb(a, x, j) == ROOT;
      RootedOutside(a, b, i, p, x, j);
    }
  }

  /** Moved inside itself, a directory is cut off from the root. */
  lemma {:induction false} ReparentCycle(a: Fs, b: Fs, i: nat, p: nat)
    requires Reparented(a, b, i, p) && i != ROOT && IsDir(a, ROOT) && a[ROOT].parent == ROOT && Above(a, i, p)
    ensures IsDir(b, p) && !Rooted(b, p)
  {
    var k: nat :| Climb(a, p, k) == i;
    assert Climb(a, p, 0) == p;
    OnCycle(a, b, i, p, k, 0);
    forall j: nat ensures Climb(b, p, j) != ROOT {
      RoundCycle(a, b, i, p, k, 0, j);
    }
  }

  /** The way from p up to i. */
  lemma {:induction false} OnCycle(a: Fs, b: Fs, i: nat, p: nat, k: nat, j: nat)
    requires Reparented(a, b, i, p) && i != ROOT && IsDir(a, ROOT) && a[ROOT].parent == ROOT
    requires Climb(a, p, k) == i && j <= k
    ensures var y := Climb(a, p, j); y != ROOT && IsDir(b, y)
  {
    var y := Climb(a, p, j);
    ClimbOn(a, p, j, k - j);
    if y == ROOT {
      StayRoot(a, k - j);
    } else if !IsDir(a, y) {
      ClimbStuck(a, y, k - j);
    }
  }

  lemma {:induction false} RoundCycle(a: Fs, b: Fs, i: nat, p: nat, k: nat, j: nat, n: nat)
    requires Reparented(a, b, i, p) && i != ROOT && IsDir(a, ROOT) && a[ROOT].parent == ROOT
    requires Climb(a, p, k) == i && j <= k
    ensures Climb(b, Climb(a, p, j), n) != ROOT
    decreases n
  {
    OnCycle(a, b, i, p, k, j);
    var y := Climb(a, p, j);
    if n > 0 {
      if y == i {
        assert Climb(a, p, 0) == p;
        RoundCycle(a, b, i, p, k, 0, n - 1);
      } else {
        ClimbNext(a, p, j);
        RoundCycle(a, b, i, p, k, j + 1, n - 1);
      }
    }
  }

  /** A name moved from one directory to another, or within one; a directory takes its link to its parent along. */
  function Move(fs: Fs, d1: nat, n1: Name, d2: nat, n2: Name): Fs
    requires IsDir(fs, d1) && n1 in fs[d1].entries && IsDir(fs, d2) && fs[d1].entries[n1] in fs
  {
    var i := fs[d1].entries[n1];
    var f := Cut(Put(fs, d2, n2, i), d1, n1);
    if IsDir(fs, i) && d1 != d2 then
      var g := f[i := f[i].(parent := d2)];
      var h := WithLinks(g, d1, Less(g[d1].links));
      WithLinks(h, d2, h[d2].links + 1)
    else f
  }

  lemma {:induction false} MoveNames(fs: Fs, mid: Fs, now: Fs, d1: nat, n1: Name, d2: nat, n2: Name, i: nat, x: nat)
    requires GainsName(mid, fs, d1, n1, i) && GainsName(mid, now, d2, n2, i)
    ensures |NamesOf(now, x)| == |NamesOf(fs, x)|
  {
    hide NamesOf, EntriesAt;
    NamesGain(mid, fs, d1, n1, i, x);
    NamesGain(mid, now, d2, n2, i, x);
    hide GainsName;
  }

  lemma {:induction false} MoveSubDirs(fs: Fs, mid: Fs, now: Fs, d1: nat, n1: Name, d2: nat, n2: Name, i: nat, x: nat)
    requires GainsName(mid, fs, d1, n1, i) && GainsName(mid, now, d2, n2, i)
    requires forall y :: (IsDir(fs, y) <==> IsDir(now, y)) && (IsDir(fs, y) <==> IsDir(mid, y))
    ensures |SubDirs(now, x)| == |SubDirs(fs, x)| + (if IsDir(fs, i) && x == d2 then 1 else 0) - (if IsDir(fs, i) && x == d1 then 1 else 0)
  {
    hide SubDirs, EntriesAt;
    SubDirsGain(mid, fs, d1, n1, i, x);
    SubDirsGain(mid, now, d2, n2, i, x);
    hide GainsName;
  }

  lemma {:induction false} MoveCounts(fs: Fs, mid: Fs, now: Fs, d1: nat, n1: Name, d2: nat, n2: Name, i: nat, x: nat)
    requires GainsName(mid, fs, d1, n1, i) && GainsName(mid, now, d2, n2, i) && x in fs && x in now
    requires forall y :: (IsDir(fs, y) <==> IsDir(now, y)) && (IsDir(fs, y) <==> IsDir(mid, y))
    requires CountOk(fs, x) && IsDir(fs, d1) && IsDir(fs, d2)
    requires now[x].links == fs[x].links + (if IsDir(fs, i) && x == d2 then 1 else 0) - (if IsDir(fs, i) && x == d1 then 1 else 0)
    ensures CountOk(now, x)
  {
    hide NamesOf, SubDirs;
    MoveNames(fs, mid, now, d1, n1, d2, n2, i, x);
    MoveSubDirs(fs, mid, now, d1, n1, d2, n2, i, x);
    hide GainsName;
    assert IsDir(fs, x) <==> IsDir(now, x);
  }

  /** A move of a name that may be made. */
  ghost predicate Movable(fs: Fs, d1: nat, n1: Name, d2: nat, n2: Name) {
    && IsDir(fs, d1) && n1 in fs[d1].entries && IsDir(fs, d2) && n2 !in fs[d2].entries && fs[d1].entries[n1] in fs
    && (IsDir(fs, fs[d1].entries[n1]) ==> d2 != fs[d1].entries[n1] && d1 != fs[d1].entries[n1] && (d1 == d2 || 0 < fs[d1].links))
  }

  /** A move takes the name out of one directory and puts it in another. */
  lemma {:induction false} MoveEntries(fs: Fs, d1: nat, n1: Name, d2: nat, n2: Name)
    requires Movable(fs, d1, n1, d2, n2)
    ensures var i, mid, now := fs[d1].entries[n1], Cut(fs, d1, n1), Move(fs, d1, n1, d2, n2);
            GainsName(mid, fs, d1, n1, i) && GainsName(mid, now, d2, n2, i)
  {
  }

  /** A move takes a directory's link to its parent along. */
  lemma {:induction false} MoveLinks(fs: Fs, d1: nat, n1: Name, d2: nat, n2: Name)
    requires Movable(fs, d1, n1, d2, n2)
    ensures var i, mid, now := fs[d1].entries[n1], Cut(fs, d1, n1), Move(fs, d1, n1, d2, n2);
            && now.Keys == fs.Keys
            && (forall y :: (IsDir(fs, y) <==> IsDir(now, y)) && (IsDir(fs, y) <==> IsDir(mid, y)))
            && (forall x :: x in fs ==>
                 now[x].links == fs[x].links + (if IsDir(fs, i) && x == d2 then 1 else 0) - (if IsDir(fs, i) && x == d1 then 1 else 0))
            && (forall x :: IsDir(fs, x) && x != i ==> now[x].parent == fs[x].parent)
            && (IsDir(fs, i) && d1 != d2 ==> now[i].parent == d2)
            && (IsDir(fs, i) && d1 == d2 ==> now[i].parent == fs[i].parent)
  {
  }

  lemma {:induction false} MoveClosed(fs: Fs, mid: Fs, now: Fs, d1: nat, n1: Name, d2: nat, n2: Name, i: nat)
    requires Closed(fs) && GainsName(mid, fs, d1, n1, i) && GainsName(mid, now, d2, n2, i) && now.Keys == fs.Keys
    requires forall y :: IsDir(fs, y) <==> IsDir(now, y)
    requires forall x :: IsDir(fs, x) && IsDir(now, x) && x != i ==> now[x].parent == fs[x].parent
    requires IsDir(fs, i) && IsDir(now, i) ==> now[i].parent == d2 && |NamesOf(fs, i)| == 1
    ensures Closed(now)
  {
    hide EntriesAt, NamesOf;
    HeldBy(fs, d1, n1);
    forall x, m | x in now && m in EntriesAt(now, x) ensures ChildOk(now, x, m) {
      if x != d2 || m != n2 {
        assert m in EntriesAt(mid, x) && EntriesAt(now, x)[m] == EntriesAt(mid, x)[m];
        assert m in EntriesAt(fs, x) && EntriesAt(fs, x)[m] == EntriesAt(mid, x)[m];
        HeldBy(fs, x, m);
        NotMoved(fs, mid, d1, n1, i, x, m);
      }
    }
  }

  /** No other name leads to a directory being moved. */
  lemma {:induction false} NotMoved(fs: Fs, mid: Fs, d1: nat, n1: Name, i: nat, x: nat, m: Name)
    requires GainsName(mid, fs, d1, n1, i) && m in EntriesAt(mid, x)
    ensures |NamesOf(fs, i)| == 1 ==> EntriesAt(mid, x)[m] != i
  {
    hide NamesOf, EntriesAt;
    if |NamesOf(fs, i)| == 1 && EntriesAt(mid, x)[m] == i {
      LastName(fs, i, d1, n1, x, m);
    }
  }

  /** A move leaves a tree exactly when it does not put a directory inside itself. */
  lemma {:induction false} MoveKeeps(fs: Fs, d1: nat, n1: Name, d2: nat, n2: Name)
    requires Tree(fs) && IsDir(fs, d1) && n1 in fs[d1].entries && IsDir(fs, d2) && n2 !in fs[d2].entries
    requires IsDir(fs, fs[d1].entries[n1]) ==> d2 != fs[d1].entries[n1]
    ensures fs[d1].entries[n1] in fs
    ensures var i := fs[d1].entries[n1]; Tree(Move(fs, d1, n1, d2, n2)) <==> !(IsDir(fs, i) && Above(fs, i, d2))
  {
    hide CountOk, ChildOk, Rooted, Above, NamesOf;
    var i, mid := fs[d1].entries[n1], Cut(fs, d1, n1);
    HeldBy(fs, d1, n1);
    CountAt(fs, i);
    CountAt(fs, d1);
    NotOwnChild(fs, d1, n1);
    MoveEntries(fs, d1, n1, d2, n2);
    MoveLinks(fs, d1, n1, d2, n2);
    var now := Move(fs, d1, n1, d2, n2);
    hide Move, Cut, GainsName, EntriesAt;
    MoveClosed(fs, mid, now, d1, n1, d2, n2, i);
    forall x | x in now ensures CountOk(now, x) {
      CountAt(fs, x);
      MoveCounts(fs, mid, now, d1, n1, d2, n2, i, x);
    }
    if IsDir(fs, i) {
      if Above(fs, i, d2) {
        ReparentCycle(fs, now, i, d2);
      } else {
        ReparentRooted(fs, now, i, d2);
      }
    } else {
      forall x | IsDir(now, x) ensures Rooted(now, x) {
        RootedKept(fs, now, x);
      }
    }
  }

  /** No directory is in itself. */
  lemma {:induction false} NotOwnChild(fs: Fs, d: nat, n: Name)
    requires Tree(fs) && IsDir(fs, d) && n in fs[d].entries
    ensures fs[d].entries[n] != d
  {
    hide CountOk, ChildOk;
    if fs[d].entries[n] == d {
      HeldBy(fs, d, n);
      var k: nat :| Climb(fs, d, k) == ROOT;
      OwnParent(fs, d, k);
    }
  }

  lemma {:induction false} OwnParent(fs: Fs, d: nat, k: nat)
    requires IsDir(fs, d) && fs[d].parent == d
    ensures Climb(fs, d, k) == d
    decreases k
  {
    if k > 0 {
      OwnParent(fs, d, k - 1);
    }
  }
}
