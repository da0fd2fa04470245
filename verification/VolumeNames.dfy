/**
 A volume's tree of names and the operations on it (src/volume.rs:363-728 and
 1114-1140), each a few changes to inodes made one after another.
 */
module VolumeNames {
  import opened Base
  import opened Namespace
  import opened NameOps

  // ---- what each operation keeps, and which paths it changes ----

  /** now resolves every path as fs does but one, which leads to r. */
  ghost predicate OnlyAt(fs: Fs, now: Fs, path: Path, r: Option<nat>) {
    forall q :: Resolve(now, q) == if q == path then r else Resolve(fs, q)
  }

  lemma {:induction false} VacantIs(fs: Fs, path: Path)
    requires Vacant(fs, path).Ok?
    ensures path == Init(path) + [Last(path)] && Resolve(fs, Init(path)) == Some(Vacant(fs, path).value)
    ensures Resolve(fs, path) == None
  {
    SplitLast(path);
    hide Find;
    ResolveMore(fs, Init(path), Last(path));
  }

  lemma {:induction false} CreateEffect(fs: Fs, path: Path, kind: Kind, attrs: Attrs, given: Result<nat>)
    requires Tree(fs) && Given(fs, given) && Create(fs, path, kind, attrs, given).Ok?
    ensures var now := Create(fs, path, kind, attrs, given).value;
            && Tree(now) && OnlyAt(fs, now, path, Some(given.value)) && Resolve(fs, path) == None
            && now[given.value] == Leaf(kind, 1, attrs)
  {
    hide CountOk, ChildOk, Rooted, Find, Resolve;
    var now, d, n, i := Create(fs, path, kind, attrs, given).value, Vacant(fs, path).value, Last(path), given.value;
    VacantIs(fs, path);
    AddLeafKeeps(fs, d, n, i, kind, attrs);
    assert GainsName(fs, now, d, n, i) && EntriesAt(fs, i) == map[] && IsDir(fs, d);
    hide Tree, EntriesAt, AddLeaf, GainsName;
    forall q ensures Resolve(now, q) == if q == path then Some(i) else Resolve(fs, q) {
      GainResolves(fs, now, Init(path), d, n, i, q);
    }
  }

  lemma {:induction false} MakeDirEffect(fs: Fs, path: Path, attrs: Attrs, given: Result<nat>)
    requires Tree(fs) && Given(fs, given) && MakeDir(fs, path, attrs, given).Ok?
    ensures var now := MakeDir(fs, path, attrs, given).value;
            && Tree(now) && OnlyAt(fs, now, path, Some(given.value)) && Resolve(fs, path) == None
            && now[given.value] == Dir(map[], Vacant(fs, path).value, 2, attrs)
  {
    hide CountOk, ChildOk, Rooted, Find, Resolve;
    var now, d, n, i := MakeDir(fs, path, attrs, given).value, Vacant(fs, path).value, Last(path), given.value;
    VacantIs(fs, path);
    AddDirKeeps(fs, d, n, i, attrs);
    assert GainsName(fs, now, d, n, i) && EntriesAt(fs, i) == map[] && IsDir(fs, d);
    hide Tree, EntriesAt, AddDir, GainsName;
    forall q ensures Resolve(now, q) == if q == path then Some(i) else Resolve(fs, q) {
      GainResolves(fs, now, Init(path), d, n, i, q);
    }
  }

  lemma {:induction false} LinkEffect(fs: Fs, existing: Path, path: Path)
    requires Tree(fs) && Link(fs, existing, path).Ok?
    ensures Tree(Link(fs, existing, path).value) && OnlyAt(fs, Link(fs, existing, path).value, path, Resolve(fs, existing))
    ensures Resolve(fs, path) == None && Resolve(fs, existing).Some?
  {
    hide CountOk, ChildOk, Rooted, Find;
    var now, d, n, i := Link(fs, existing, path).value, Vacant(fs, path).value, Last(path), Lookup(fs, existing).value;
    VacantIs(fs, path);
    hide Resolve;
    ResolvesIn(fs, existing, i);
    AddNameKeeps(fs, d, n, i);
    assert GainsName(fs, now, d, n, i) && EntriesAt(fs, i) == map[] && IsDir(fs, d);
    hide Tree, EntriesAt, AddName, GainsName;
    forall q ensures Resolve(now, q) == if q == path then Some(i) else Resolve(fs, q) {
      GainResolves(fs, now, Init(path), d, n, i, q);
    }
  }

  /** A name gone from one directory, and the others as they were. */
  ghost predicate Took(fs: Fs, now: Fs, path: Path) {
    && FindName(fs, path).Ok? && OnlyAt(fs, now, path, None)
    && GainsName(now, fs, FindName(fs, path).value.dir, FindName(fs, path).value.name, FindName(fs, path).value.inode)
  }

  ghost predicate DirsFewer(fs: Fs, now: Fs) {
    forall d :: IsDir(now, d) ==> IsDir(fs, d)
  }

  lemma {:induction false} UnlinkEffect(fs: Fs, path: Path)
    requires Tree(fs) && Unlink(fs, path).Ok?
    ensures Tree(Unlink(fs, path).value) && Took(fs, Unlink(fs, path).value, path) && ParentsKept(fs, Unlink(fs, path).value)
    ensures DirsFewer(fs, Unlink(fs, path).value)
  {
    hide CountOk, ChildOk, Rooted, Find, Resolve;
    var now, f := Unlink(fs, path).value, FindName(fs, path).value;
    FindNameIs(fs, path);
    SplitLast(path);
    HeldBy(fs, f.dir, f.name);
    DropNameKeeps(fs, f.dir, f.name);
    assert ParentsKept(fs, now) && DirsFewer(fs, now) && GainsName(now, fs, f.dir, f.name, f.inode) && EntriesAt(fs, f.inode) == map[];
    hide Tree, EntriesAt, DropName, GainsName;
    forall q ensures Resolve(now, q) == if q == path then None else Resolve(fs, q) {
      LossResolves(fs, now, Init(path), f.dir, f.name, f.inode, q);
    }
  }

  /** Every directory but i, with its parent as it was. */
  ghost predicate ParentsBut(fs: Fs, now: Fs, i: nat) {
    forall d :: IsDir(fs, d) && d != i ==> IsDir(now, d) && now[d].parent == fs[d].parent
  }

  lemma {:induction false} RemoveDirEffect(fs: Fs, path: Path)
    requires Tree(fs) && RemoveDir(fs, path).Ok?
    ensures Tree(RemoveDir(fs, path).value) && Took(fs, RemoveDir(fs, path).value, path)
    ensures ParentsBut(fs, RemoveDir(fs, path).value, FindName(fs, path).value.inode)
    ensures DirsFewer(fs, RemoveDir(fs, path).value)
  {
    hide CountOk, ChildOk, Rooted, Find, Resolve;
    var now, f := RemoveDir(fs, path).value, FindName(fs, path).value;
    FindNameIs(fs, path);
    SplitLast(path);
    DropDirKeeps(fs, f.dir, f.name);
    assert ParentsBut(fs, now, f.inode) && DirsFewer(fs, now) && GainsName(now, fs, f.dir, f.name, f.inode) && EntriesAt(fs, f.inode) == map[];
    hide Tree, EntriesAt, DropDir, GainsName;
    forall q ensures Resolve(now, q) == if q == path then None else Resolve(fs, q) {
      LossResolves(fs, now, Init(path), f.dir, f.name, f.inode, q);
    }
  }

  // ---- renaming ----

  /** The directory a path's parent leads to holds what the path leads to. */
  lemma {:induction false} HoldsIt(fs: Fs, path: Path, d: nat, i: nat)
    requires path != [] && Resolve(fs, Init(path)) == Some(d) && Resolve(fs, path) == Some(i)
    ensures IsDir(fs, d) && Last(path) in fs[d].entries && fs[d].entries[Last(path)] == i
  {
    SplitLast(path);
    hide Find, Resolve;
    ResolveMore(fs, Init(path), Last(path));
  }

  lemma {:induction false} VacantAfter(fs: Fs, to: Path, d: nat)
    requires to != [] && Resolve(fs, Init(to)) == Some(d) && Resolve(fs, to) == None && IsDir(fs, d)
    ensures Last(to) !in fs[d].entries
  {
    SplitLast(to);
    hide Find, Resolve;
    ResolveMore(fs, Init(to), Last(to));
  }

  /** Clearing a destination takes only what it leads to: a file, or an empty directory. */
  lemma {:induction false} ClearedKeeps(fs: Fs, to: Path, i: nat)
    requires Tree(fs) && Cleared(fs, to, i).Ok? && Cleared(fs, to, i).value.Some?
    ensures var f := Cleared(fs, to, i).value.value;
            && Tree(f) && OnlyAt(fs, f, to, None) && DirsFewer(fs, f)
            && (forall d :: IsDir(fs, d) && (fs[d].entries != map[] || d == i) ==> IsDir(f, d))
    ensures Resolve(fs, to) != Some(i)
    ensures Resolve(fs, to).Some? ==> EntriesAt(fs, Resolve(fs, to).value) == map[]
  {
    hide CountOk, ChildOk, Rooted, Tree;
    if Resolve(fs, to).Some? {
      if IsDir(fs, Resolve(fs, to).value) {
        RemoveDirEffect(fs, to);
      } else {
        UnlinkEffect(fs, to);
      }
    }
    hide Resolve, OnlyAt;
    if FindName(fs, to).Ok? {
      FindNameIs(fs, to);
    }
  }

  /** What a rename has to work with once its destination is clear. */
  lemma {:induction false} RenameReady(fs: Fs, from: Path, to: Path)
    requires Tree(fs) && RenameFrom(fs, from, to).Ok?
    requires var c := Cleared(fs, to, RenameFrom(fs, from, to).value.inode); c.Ok? && c.value.Some?
    ensures var r, f := RenameFrom(fs, from, to).value, Cleared(fs, to, RenameFrom(fs, from, to).value.inode).value.value;
            && from != [] && to != [] && Tree(f) && OnlyAt(fs, f, to, None)
            && Resolve(f, Init(from)) == Some(r.fromDir) && Resolve(f, Init(to)) == Some(r.toDir) && Resolve(f, from) == Some(r.inode)
            && IsDir(f, r.fromDir) && Last(from) in f[r.fromDir].entries && f[r.fromDir].entries[Last(from)] == r.inode && r.inode in f
            && IsDir(f, r.toDir) && Last(to) !in f[r.toDir].entries
            && (IsDir(f, r.inode) <==> IsDir(fs, r.inode))
            && Resolve(fs, from) == Some(r.inode) && Resolve(fs, Init(to)) == Some(r.toDir) && IsDir(fs, r.toDir)
  {
    var r := RenameFrom(fs, from, to).value;
    var f := Cleared(fs, to, r.inode).value.value;
    assert from != [] && to != [] && IsDir(fs, r.toDir);
    assert Resolve(fs, from) == Some(r.inode) && Resolve(fs, Init(from)) == Some(r.fromDir) && Resolve(fs, Init(to)) == Some(r.toDir);
    hide CountOk, ChildOk, Rooted, Tree, Resolve, Find, RenameFrom, Cleared;
    ClearedKeeps(fs, to, r.inode);
    HoldsIt(fs, from, r.fromDir, r.inode);
    assert Init(from) != to && from != to && Init(to) != to;
    HoldsIt(f, from, r.fromDir, r.inode);
    ResolvesIn(f, from, r.inode);
    if Resolve(fs, to).Some? {
      HoldsIt(fs, to, r.toDir, Resolve(fs, to).value);
    } else {
      ClearedNothing(fs, to, r.inode);
    }
    VacantAfter(f, to, r.toDir);
  }

  lemma {:induction false} ClearedNothing(fs: Fs, to: Path, i: nat)
    requires Tree(fs) && Resolve(fs, to) == None && Cleared(fs, to, i).Ok?
    ensures Cleared(fs, to, i) == Ok(Some(fs))
  {
  }

  /** Move or rename a file or directory, replacing a file or an empty directory. */
  function Rename(fs: Fs, from: Path, to: Path): Result<Fs>
    requires Tree(fs)
  {
    match RenameFrom(fs, from, to)
    case Err(e) => Err(e)
    case Ok(r) =>
      match Cleared(fs, to, r.inode)
      case Err(e) => Err(e)
      case Ok(None) => Ok(fs)
      case Ok(Some(f)) =>
        RenameReady(fs, from, to);
        if !NameOk(Last(to)) then Err(InvalidName) else Ok(Move(f, r.fromDir, Last(from), r.toDir, Last(to)))
  }

  lemma {:induction false} UnderClimbs(fs: Fs, f: Path, s: Path, i: nat, x: nat)
    requires Tree(fs) && Resolve(fs, f) == Some(i) && Resolve(fs, f + s) == Some(x) && IsDir(fs, x)
    ensures Climb(fs, x, |s|) == i
    decreases |s|
  {
    hide CountOk, ChildOk, Rooted, Find, Resolve, EntriesAt, Tree;
    if s == [] {
      assert f + s == f;
    } else {
      var s', m := Init(s), Last(s);
      assert f + s == f + s' + [m];
      ResolveMore(fs, f + s', m);
      var y := Resolve(fs, f + s').value;
      NamedIn(fs, y, m);
      UnderClimbs(fs, f, s', i, y);
      ParentIs(fs, y, m);
    }
  }

  /** What is above a directory, its path passes through. */
  lemma {:induction false} ClimbIsPrefix(fs: Fs, p: Path, d: nat, i: nat, k: nat) returns (f: Path)
    requires Tree(fs) && Resolve(fs, p) == Some(d) && IsDir(fs, d) && Climb(fs, d, k) == i
    ensures Prefix(f, p) && Resolve(fs, f) == Some(i)
    decreases k
  {
    hide CountOk, ChildOk, Rooted, Find, Resolve, EntriesAt, Tree;
    if k == 0 {
      f := p;
    } else if p == [] {
      ResolveMore(fs, [], []);
      RootUp(fs, k);
      f := p;
    } else {
      SplitLast(p);
      ResolveMore(fs, Init(p), Last(p));
      var y := Resolve(fs, Init(p)).value;
      NamedIn(fs, y, Last(p));
      ParentIs(fs, y, Last(p));
      f := ClimbIsPrefix(fs, Init(p), y, i, k - 1);
    }
  }

  lemma {:induction false} RootUp(fs: Fs, k: nat)
    requires Tree(fs)
    ensures Climb(fs, ROOT, k) == ROOT
  {
    hide CountOk, ChildOk, Rooted;
    StayRoot(fs, k);
  }

  lemma {:induction false} AboveIsPrefix(fs: Fs, from: Path, i: nat, p: Path, d: nat)
    requires Tree(fs) && Resolve(fs, from) == Some(i) && Resolve(fs, p) == Some(d) && IsDir(fs, d) && IsDir(fs, i)
    ensures Above(fs, i, d) <==> Prefix(from, p)
  {
    hide CountOk, ChildOk, Rooted, Find, Resolve, Tree;
    if Prefix(from, p) {
      assert p == from + p[|from|..];
      UnderClimbs(fs, from, p[|from|..], i, d);
    }
    if Above(fs, i, d) {
      var k: nat :| Climb(fs, d, k) == i;
      var f := ClimbIsPrefix(fs, p, d, i, k);
      OnePath(fs, f, from, i);
    }
  }

  /** Where paths lead once everything at and under `from` is at and under `to`. */
  ghost predicate Transplanted(fs: Fs, now: Fs, from: Path, to: Path) {
    && (forall q :: Prefix(from, q) ==> Resolve(now, q) == None)
    && (forall s :: Resolve(now, to + s) == Resolve(fs, from + s))
    && (forall q :: !Prefix(from, q) && !Prefix(to, q) ==> Resolve(now, q) == Resolve(fs, q))
  }

  /** Does the path lead to a directory, and is the other inside it? */
  ghost predicate IntoItself(fs: Fs, from: Path, to: Path)
    requires to != []
  {
    Resolve(fs, from).Some? && IsDir(fs, Resolve(fs, from).value) && Prefix(from, Init(to))
  }

  /**
   A rename that succeeds leaves a tree exactly when it does not move a directory
   inside itself, which its search for an ancestor lets through only from 4096
   levels down.
   */
  lemma {:induction false} RenameKeeps(fs: Fs, from: Path, to: Path)
    requires Tree(fs) && Rename(fs, from, to).Ok?
    ensures from != [] && to != []
    ensures Resolve(fs, from) == Resolve(fs, to) ==> Rename(fs, from, to).value == fs
    ensures Resolve(fs, from) != Resolve(fs, to) ==>
              var now := Rename(fs, from, to).value;
              && (Tree(now) <==> !IntoItself(fs, from, to))
              && (Tree(now) ==> Transplanted(fs, now, from, to))
    ensures IntoItself(fs, from, to) ==> |Init(to)| - |from| >= ANCESTOR_LIMIT
  {
    hide CountOk, ChildOk, Rooted, Find, Tree;
    var r := RenameFrom(fs, from, to).value;
    NotWithinSoon(fs, from, to);
    SameIsSame(fs, from, to);
    if Resolve(fs, from) != Resolve(fs, to) {
      RenameReady(fs, from, to);
      var f := Cleared(fs, to, r.inode).value.value;
      var now := Move(f, r.fromDir, Last(from), r.toDir, Last(to));
      assert Rename(fs, from, to) == Ok(now);
      NotInPlace(fs, from, to);
      hide Resolve, Rename, Cleared, RenameFrom, Move;
      MovedTree(f, from, to, r);
      if Tree(now) {
        MovedPaths(fs, f, from, to, r);
      }
    }
  }

  lemma {:induction false} SameIsSame(fs: Fs, from: Path, to: Path)
    requires Tree(fs) && Rename(fs, from, to).Ok?
    ensures RenameFrom(fs, from, to).Ok? && from != [] && to != []
    ensures Resolve(fs, from) == Some(RenameFrom(fs, from, to).value.inode)
    ensures Resolve(fs, from) == Resolve(fs, to) ==> Rename(fs, from, to).value == fs
    ensures Resolve(fs, from) != Resolve(fs, to) ==>
              var c := Cleared(fs, to, RenameFrom(fs, from, to).value.inode); c.Ok? && c.value.Some?
  {
    hide Tree;
  }

  /** A directory less than 4096 levels above its destination is found there. */
  lemma {:induction false} NotWithinSoon(fs: Fs, from: Path, to: Path)
    requires Tree(fs) && RenameFrom(fs, from, to).Ok?
    ensures from != [] && to != []
    ensures IntoItself(fs, from, to) ==> |Init(to)| - |from| >= ANCESTOR_LIMIT
  {
    hide CountOk, ChildOk, Rooted, Find, Tree, Resolve, RenameFrom, IsAncestor, Within;
    var r := RenameFrom(fs, from, to).value;
    RenameChecks(fs, from, to);
    if IntoItself(fs, from, to) {
      var s := Init(to)[|from|..];
      assert Init(to) == from + s;
      UnderClimbs(fs, from, s, r.inode, r.toDir);
      AncestorExactly(fs, r.inode, r.toDir, ANCESTOR_LIMIT);
      SoonWithin(fs, r.inode, r.toDir, |s|, ANCESTOR_LIMIT);
    }
  }

  lemma {:induction false} SoonWithin(fs: Fs, a: nat, d: nat, k: nat, limit: nat)
    requires Climb(fs, d, k) == a
    ensures k < limit ==> Within(fs, a, d, limit)
  {
  }

  lemma {:induction false} RenameChecks(fs: Fs, from: Path, to: Path)
    requires RenameFrom(fs, from, to).Ok?
    ensures var r := RenameFrom(fs, from, to).value;
            && from != [] && to != [] && IsDir(fs, r.toDir)
            && Resolve(fs, from) == Some(r.inode) && Resolve(fs, Init(to)) == Some(r.toDir)
            && (IsDir(fs, r.inode) ==> !IsAncestor(fs, r.inode, r.toDir, ANCESTOR_LIMIT))
  {
  }

  lemma {:induction false} MovedTree(f: Fs, from: Path, to: Path, r: Renaming)
    requires Tree(f) && from != [] && to != []
    requires Resolve(f, from) == Some(r.inode) && Resolve(f, Init(to)) == Some(r.toDir) && Resolve(f, Init(from)) == Some(r.fromDir)
    requires IsDir(f, r.fromDir) && Last(from) in f[r.fromDir].entries && f[r.fromDir].entries[Last(from)] == r.inode && r.inode in f
    requires IsDir(f, r.toDir) && Last(to) !in f[r.toDir].entries && (IsDir(f, r.inode) ==> r.inode != r.toDir)
    ensures var now := Move(f, r.fromDir, Last(from), r.toDir, Last(to));
            Tree(now) <==> !(IsDir(f, r.inode) && Prefix(from, Init(to)))
  {
    hide CountOk, ChildOk, Rooted, Find, Tree, Resolve, Move;
    MoveKeeps(f, r.fromDir, Last(from), r.toDir, Last(to));
    if IsDir(f, r.inode) {
      AboveIsPrefix(f, from, r.inode, Init(to), r.toDir);
    }
  }

  lemma {:induction false} NotInPlace(fs: Fs, from: Path, to: Path)
    requires RenameFrom(fs, from, to).Ok?
    ensures var r := RenameFrom(fs, from, to).value; IsDir(fs, r.inode) ==> r.inode != r.toDir
  {
  }

  lemma {:induction false} MovedPaths(fs: Fs, f: Fs, from: Path, to: Path, r: Renaming)
    requires Tree(f) && from != [] && to != [] && OnlyAt(fs, f, to, None)
    requires Resolve(f, from) == Some(r.inode) && Resolve(f, Init(to)) == Some(r.toDir) && Resolve(f, Init(from)) == Some(r.fromDir)
    requires IsDir(f, r.fromDir) && Last(from) in f[r.fromDir].entries && f[r.fromDir].entries[Last(from)] == r.inode && r.inode in f
    requires IsDir(f, r.toDir) && Last(to) !in f[r.toDir].entries && (IsDir(f, r.inode) ==> r.inode != r.toDir)
    requires !(IsDir(f, r.inode) && Prefix(from, Init(to)))
    ensures Transplanted(fs, Move(f, r.fromDir, Last(from), r.toDir, Last(to)), from, to)
  {
    hide CountOk, ChildOk, Rooted, Find, Resolve;
    var p1, d1, n1, p2, d2, n2, i := Init(from), r.fromDir, Last(from), Init(to), r.toDir, Last(to), r.inode;
    var mid, now := Cut(f, d1, n1), Move(f, d1, n1, d2, n2);
    CountAt(f, d1);
    NotOwnChild(f, d1, n1);
    CountsSubDir(f, d1, n1);
    MoveEntries(f, d1, n1, d2, n2);
    assert n2 !in EntriesAt(f, d2);
    if IsDir(f, i) {
      AboveIsPrefix(f, from, i, p2, d2);
    }
    assert Moved(f, mid, now, p1, d1, n1, p2, d2, n2, i);
    hide Tree, Move, Cut, Moved, EntriesAt;
    SplitLast(from);
    SplitLast(to);
    MovedApart(f, mid, now, p1, d1, n1, p2, d2, n2, i);
    forall q | Prefix(from, q) ensures Resolve(now, q) == None {
      MoveFrom(f, mid, now, p1, d1, n1, p2, d2, n2, i, q);
    }
    forall q | !Prefix(from, q) && !Prefix(to, q) ensures Resolve(now, q) == Resolve(fs, q) {
      MoveElsewhere(f, mid, now, p1, d1, n1, p2, d2, n2, i, q);
    }
    forall s: Path ensures Resolve(now, to + s) == Resolve(fs, from + s) {
      MoveTo(f, mid, now, p1, d1, n1, p2, d2, n2, i, s);
      NotTheSame(from, to, s);
    }
  }

  lemma {:induction false} NotTheSame(from: Path, to: Path, s: Path)
    requires to != [] && !Prefix(from, Init(to)) && from != to
    ensures from + s != to
  {
    if s != [] {
      assert Init(from + s) == from + Init(s);
      PrefixOf(from, Init(s));
    } else {
      assert from + s == from;
    }
  }

  lemma {:induction false} CountsSubDir(fs: Fs, d: nat, n: Name)
    requires Tree(fs) && IsDir(fs, d) && n in fs[d].entries
    ensures 0 < fs[d].links
  {
    hide ChildOk, Rooted;
    CountAt(fs, d);
  }
}
