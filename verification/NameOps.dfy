/**
 The operations on names (src/volume.rs:363-728): what each does to the tree, and
 to which paths lead where.
 */
module NameOps {
  import opened Base
  import opened Namespace

  const NAME_LEN_MAX := 255
  /** How far up a search for an ancestor goes. */
  const ANCESTOR_LIMIT := 4096

  predicate NameOk(name: Name) {
    name != [] && |name| <= NAME_LEN_MAX && 47 !in name
  }

  function Init(path: Path): Path
    requires path != []
  {
    path[..|path| - 1]
  }

  function Last(path: Path): Name
    requires path != []
  {
    path[|path| - 1]
  }

  // ---- where paths lead ----

  lemma {:induction false} FindConcat(fs: Fs, at: nat, p: Path, q: Path)
    ensures Find(fs, at, p + q) == match Find(fs, at, p)
                                   case Ok(Some(i)) => Find(fs, i, q)
                                   case Ok(None) => Ok(None)
                                   case Err(e) => Err(e)
    decreases |p|
  {
    if p == [] {
      assert p + q == q;
    } else {
      assert (p + q)[1..] == p[1..] + q;
      if IsDir(fs, at) && p[0] in fs[at].entries {
        FindConcat(fs, fs[at].entries[p[0]], p[1..], q);
      }
    }
  }

  /** A path leads on from where all but its last name leads. */
  lemma {:induction false} ResolveMore(fs: Fs, p: Path, n: Name)
    ensures Resolve(fs, p + [n]) == match Resolve(fs, p)
                                    case None => None
                                    case Some(x) => if n in EntriesAt(fs, x) then Some(EntriesAt(fs, x)[n]) else None
    ensures Resolve(fs, []) == Some(ROOT)
  {
    FindConcat(fs, ROOT, p, [n]);
    assert [n][1..] == [];
  }

  lemma {:induction false} SplitLast(path: Path)
    requires path != []
    ensures path == Init(path) + [Last(path)]
  {
  }

  /** Only one path leads to a directory. */
  lemma {:induction false} OnePath(fs: Fs, p: Path, q: Path, c: nat)
    requires Tree(fs) && Resolve(fs, p) == Some(c) == Resolve(fs, q) && IsDir(fs, c)
    ensures p == q
    decreases |p|
  {
    hide CountOk, ChildOk, Rooted, EntriesAt, Find, Resolve;
    ResolveMore(fs, [], []);
    if p == [] && q == [] {
    } else if p == [] {
      NotRoot(fs, q, c);
    } else if q == [] {
      NotRoot(fs, p, c);
    } else {
      SplitLast(p);
      SplitLast(q);
      ResolveMore(fs, Init(p), Last(p));
      ResolveMore(fs, Init(q), Last(q));
      var d, e := Resolve(fs, Init(p)).value, Resolve(fs, Init(q)).value;
      NotRoot(fs, p, c);
      CountAt(fs, c);
      LastName(fs, c, d, Last(p), e, Last(q));
      NamedIn(fs, d, Last(p));
      OnePath(fs, Init(p), Init(q), d);
    }
  }

  lemma {:induction false} NamedIn(fs: Fs, d: nat, n: Name)
    requires n in EntriesAt(fs, d)
    ensures IsDir(fs, d)
  {
  }

  lemma {:induction false} NotRoot(fs: Fs, p: Path, c: nat)
    requires Tree(fs) && p != [] && Resolve(fs, p) == Some(c)
    ensures c != ROOT
  {
    hide CountOk, ChildOk, Rooted, EntriesAt, Find, Resolve;
    SplitLast(p);
    ResolveMore(fs, Init(p), Last(p));
    HeldBy(fs, Resolve(fs, Init(p)).value, Last(p));
  }

  predicate Prefix(p: Path, q: Path) {
    |p| <= |q| && q[..|p|] == p
  }

  /** A name gained leads one more path somewhere, and every other where it led. */
  lemma {:induction false} GainResolves(fs: Fs, now: Fs, p: Path, d: nat, n: Name, i: nat, q: Path)
    requires Tree(fs) && Resolve(fs, p) == Some(d) && IsDir(fs, d) && GainsName(fs, now, d, n, i) && EntriesAt(fs, i) == map[] && i != d
    ensures Resolve(now, q) == if q == p + [n] then Some(i) else Resolve(fs, q)
    decreases |q|
  {
    hide CountOk, ChildOk, Rooted, Find, Resolve, EntriesAt;
    ResolveMore(fs, [], []);
    ResolveMore(now, [], []);
    if q != [] {
      SplitLast(q);
      var q', m := Init(q), Last(q);
      ResolveMore(fs, q', m);
      ResolveMore(now, q', m);
      GainResolves(fs, now, p, d, n, i, q');
      ResolveMore(fs, p, n);
      if Resolve(fs, q') == Some(d) {
        OnePath(fs, p, q', d);
      }
    }
  }

  /** A name lost leads its path nowhere, and every other where it led. */
  lemma {:induction false} LossResolves(fs: Fs, now: Fs, p: Path, d: nat, n: Name, i: nat, q: Path)
    requires Tree(fs) && Resolve(fs, p) == Some(d) && IsDir(fs, d) && GainsName(now, fs, d, n, i) && EntriesAt(fs, i) == map[] && i != d
    ensures Resolve(now, q) == if q == p + [n] then None else Resolve(fs, q)
    decreases |q|
  {
    hide CountOk, ChildOk, Rooted, Find, Resolve, EntriesAt;
    ResolveMore(fs, [], []);
    ResolveMore(now, [], []);
    if q != [] {
      SplitLast(q);
      var q', m := Init(q), Last(q);
      ResolveMore(fs, q', m);
      ResolveMore(now, q', m);
      LossResolves(fs, now, p, d, n, i, q');
      ResolveMore(fs, p, n);
      if Resolve(fs, q') == Some(d) {
        OnePath(fs, p, q', d);
      }
    }
  }

  /** What lies under a directory has it above. */
  lemma {:induction false} UnderIsBelow(fs: Fs, f: Path, s: Path, i: nat, x: nat)
    requires Tree(fs) && Resolve(fs, f) == Some(i) && Resolve(fs, f + s) == Some(x) && IsDir(fs, x)
    ensures Above(fs, i, x)
    decreases |s|
  {
    hide CountOk, ChildOk, Rooted, Find, Resolve, EntriesAt, Tree;
    if s == [] {
      assert f + s == f;
      assert Climb(fs, x, 0) == x;
    } else {
      var s', m := Init(s), Last(s);
      assert f + s == f + s' + [m];
      ResolveMore(fs, f + s', m);
      var y := Resolve(fs, f + s').value;
      NamedIn(fs, y, m);
      UnderIsBelow(fs, f, s', i, y);
      ParentIs(fs, y, m);
      AboveChild(fs, i, x);
    }
  }

  lemma {:induction false} ParentIs(fs: Fs, d: nat, n: Name)
    requires Tree(fs) && n in EntriesAt(fs, d)
    ensures EntriesAt(fs, d)[n] in fs && (IsDir(fs, EntriesAt(fs, d)[n]) ==> fs[EntriesAt(fs, d)[n]].parent == d)
  {
    hide CountOk, ChildOk, Rooted;
    HeldBy(fs, d, n);
  }

  lemma {:induction false} AboveChild(fs: Fs, a: nat, d: nat)
    requires IsDir(fs, d) && Above(fs, a, fs[d].parent)
    ensures Above(fs, a, d)
  {
    var k: nat :| Climb(fs, fs[d].parent, k) == a;
    assert Climb(fs, d, k + 1) == a;
  }

  /** A path past where one leads nowhere leads nowhere. */
  lemma {:induction false} NowherePast(fs: Fs, f: Path, q: Path)
    requires Resolve(fs, f) == None && Prefix(f, q)
    ensures Resolve(fs, q) == None
    decreases |q|
  {
    hide Find, Resolve, EntriesAt;
    if |q| > |f| {
      SplitLast(q);
      NowherePast(fs, f, Init(q));
      ResolveMore(fs, Init(q), Last(q));
    } else {
      assert q == f;
    }
  }

  /** A name moved: what the move is made of, and where the directories it is between lie. */
  ghost predicate Moved(fs: Fs, mid: Fs, now: Fs, p1: Path, d1: nat, n1: Name, p2: Path, d2: nat, n2: Name, i: nat) {
    && GainsName(mid, fs, d1, n1, i) && GainsName(mid, now, d2, n2, i) && n2 !in EntriesAt(fs, d2)
    && Resolve(fs, p1) == Some(d1) && Resolve(fs, p2) == Some(d2) && IsDir(fs, d1) && IsDir(fs, d2)
    && (IsDir(fs, i) ==> !Above(fs, i, d2))
  }

  lemma {:induction false} MovedApart(fs: Fs, mid: Fs, now: Fs, p1: Path, d1: nat, n1: Name, p2: Path, d2: nat, n2: Name, i: nat)
    requires Tree(fs) && Moved(fs, mid, now, p1, d1, n1, p2, d2, n2, i)
    ensures Resolve(fs, p1 + [n1]) == Some(i) && Resolve(fs, p2 + [n2]) == None
    ensures !Prefix(p1 + [n1], p2) && !Prefix(p2 + [n2], p1)
  {
    hide CountOk, ChildOk, Rooted, Find, Resolve, EntriesAt, Above;
    var from, to := p1 + [n1], p2 + [n2];
    ResolveMore(fs, p1, n1);
    ResolveMore(fs, p2, n2);
    if Prefix(to, p1) {
      NowherePast(fs, to, p1);
    }
    if Prefix(from, p2) {
      var s := p2[|from|..];
      assert p2 == from + s;
      UnderIsBelow(fs, from, s, i, d2);
      AboveIsDir(fs, i, d2);
    }
  }

  /** Only directories are above directories. */
  lemma {:induction false} AboveIsDir(fs: Fs, a: nat, d: nat)
    requires Tree(fs) && IsDir(fs, d) && Above(fs, a, d)
    ensures IsDir(fs, a)
  {
    hide CountOk, ChildOk, Rooted;
    var k: nat :| Climb(fs, d, k) == a;
    ClimbDirs(fs, d, k);
  }

  lemma {:induction false} ClimbDirs(fs: Fs, d: nat, k: nat)
    requires Tree(fs) && IsDir(fs, d)
    ensures IsDir(fs, Climb(fs, d, k))
    decreases k
  {
    hide CountOk, ChildOk, Rooted;
    if k > 0 {
      if d != ROOT {
        var m := ParentHolds(fs, d);
        NamedIn(fs, fs[d].parent, m);
      }
      ClimbDirs(fs, fs[d].parent, k - 1);
    }
  }

  /** Paths through neither the old name nor the new lead where they led. */
  lemma {:induction false} MoveElsewhere(fs: Fs, mid: Fs, now: Fs, p1: Path, d1: nat, n1: Name, p2: Path, d2: nat, n2: Name, i: nat, q: Path)
    requires Tree(fs) && Moved(fs, mid, now, p1, d1, n1, p2, d2, n2, i)
    requires !Prefix(p1 + [n1], q) && !Prefix(p2 + [n2], q)
    ensures Resolve(now, q) == Resolve(fs, q)
    decreases |q|
  {
    hide CountOk, ChildOk, Rooted, Find, Resolve, EntriesAt, Above;
    ResolveMore(fs, [], []);
    ResolveMore(now, [], []);
    if q != [] {
      SplitLast(q);
      var q', m := Init(q), Last(q);
      ResolveMore(fs, q', m);
      ResolveMore(now, q', m);
      MoveElsewhere(fs, mid, now, p1, d1, n1, p2, d2, n2, i, q');
      if Resolve(fs, q') == Some(d1) {
        OnePath(fs, p1, q', d1);
      }
      if Resolve(fs, q') == Some(d2) {
        OnePath(fs, p2, q', d2);
      }
    }
  }

  /** The old name leads nowhere. */
  lemma {:induction false} MoveFrom(fs: Fs, mid: Fs, now: Fs, p1: Path, d1: nat, n1: Name, p2: Path, d2: nat, n2: Name, i: nat, q: Path)
    requires Tree(fs) && Moved(fs, mid, now, p1, d1, n1, p2, d2, n2, i) && Prefix(p1 + [n1], q)
    ensures Resolve(now, q) == None
  {
    hide CountOk, ChildOk, Rooted, Find, Resolve, EntriesAt, Above;
    MovedApart(fs, mid, now, p1, d1, n1, p2, d2, n2, i);
    MoveElsewhere(fs, mid, now, p1, d1, n1, p2, d2, n2, i, p1);
    ResolveMore(now, p1, n1);
    ResolveMore(fs, p1, n1);
    NowherePast(now, p1 + [n1], q);
  }

  lemma {:induction false} PrefixOf(f: Path, s: Path)
    ensures Prefix(f, f + s) && (f + s)[|f|..] == s
  {
  }

  /** Everything under the old name is under the new. */
  lemma {:induction false} MoveTo(fs: Fs, mid: Fs, now: Fs, p1: Path, d1: nat, n1: Name, p2: Path, d2: nat, n2: Name, i: nat, s: Path)
    requires Tree(fs) && Moved(fs, mid, now, p1, d1, n1, p2, d2, n2, i)
    ensures Resolve(now, p2 + [n2] + s) == Resolve(fs, p1 + [n1] + s)
    decreases |s|
  {
    hide CountOk, ChildOk, Rooted, Find, Resolve, EntriesAt, Above;
    var from, to := p1 + [n1], p2 + [n2];
    MovedApart(fs, mid, now, p1, d1, n1, p2, d2, n2, i);
    if s == [] {
      assert to + s == to && from + s == from;
      MoveElsewhere(fs, mid, now, p1, d1, n1, p2, d2, n2, i, p2);
      ResolveMore(now, p2, n2);
    } else {
      var s', m := Init(s), Last(s);
      assert to + s == to + s' + [m] && from + s == from + s' + [m];
      MoveTo(fs, mid, now, p1, d1, n1, p2, d2, n2, i, s');
      ResolveMore(fs, from + s', m);
      ResolveMore(now, to + s', m);
      PrefixOf(from, s');
      if Resolve(fs, from + s') == Some(d1) {
        OnePath(fs, p1, from + s', d1);
      }
      if Resolve(fs, from + s') == Some(d2) {
        OnePath(fs, p2, from + s', d2);
      }
    }
  }

  // ---- what each operation answers, and what it makes of the tree ----

  /** The directory a path's last name is to be found in. */
  function ParentDir(fs: Fs, path: Path): Result<nat> {
    if path == [] then Err(InvalidPath) else Lookup(fs, Init(path))
  }

  /** The directory a name is to go in, which does not have it yet. */
  function Vacant(fs: Fs, path: Path): (r: Result<nat>)
    ensures r.Ok? ==> path != [] && IsDir(fs, r.value) && Last(path) !in fs[r.value].entries
  {
    match ParentDir(fs, path)
    case Err(e) => Err(e)
    case Ok(d) =>
      if !IsDir(fs, d) then Err(NotADirectory)
      else if Last(path) in fs[d].entries then Err(AlreadyExists)
      else Ok(d)
  }

  /** What the allocator answers when asked for an inode: a free one that is not reserved, or an error. */
  ghost predicate Given(fs: Fs, given: Result<nat>) {
    given.Ok? ==> given.value !in fs && given.value != ROOT
  }

  /** A new file, symbolic link, device node or FIFO. */
  function Create(fs: Fs, path: Path, kind: Kind, attrs: Attrs, given: Result<nat>): Result<Fs>
    requires given.Ok? ==> given.value !in fs
  {
    match Vacant(fs, path)
    case Err(e) => Err(e)
    case Ok(d) =>
      if given.Err? then Err(given.error)
      else if !NameOk(Last(path)) then Err(InvalidName)
      else Ok(AddLeaf(fs, d, Last(path), given.value, kind, attrs))
  }

  function MakeDir(fs: Fs, path: Path, attrs: Attrs, given: Result<nat>): Result<Fs>
    requires given.Ok? ==> given.value !in fs
  {
    match Vacant(fs, path)
    case Err(e) => Err(e)
    case Ok(d) =>
      if given.Err? then Err(given.error)
      else if !NameOk(Last(path)) then Err(InvalidName)
      else Ok(AddDir(fs, d, Last(path), given.value, attrs))
  }

  /** The name a path ends with, where it leads, and the directory it is in. */
  datatype Named = Named(dir: nat, name: Name, inode: nat)

  function FindName(fs: Fs, path: Path): Result<Named> {
    match ParentDir(fs, path)
    case Err(e) => Err(e)
    case Ok(d) =>
      match Lookup(fs, path)
      case Err(e) => Err(e)
      case Ok(i) => Ok(Named(d, Last(path), i))
  }

  lemma {:induction false} FindNameIs(fs: Fs, path: Path)
    requires FindName(fs, path).Ok?
    ensures var f := FindName(fs, path).value;
            && path != [] && f.name == Last(path) && IsDir(fs, f.dir) && f.name in fs[f.dir].entries && fs[f.dir].entries[f.name] == f.inode
            && Resolve(fs, Init(path)) == Some(f.dir) && Resolve(fs, path) == Some(f.inode)
  {
    SplitLast(path);
    FindConcat(fs, ROOT, Init(path), [Last(path)]);
    assert [Last(path)][1..] == [];
  }

  function Unlink(fs: Fs, path: Path): Result<Fs>
    requires Tree(fs)
  {
    match FindName(fs, path)
    case Err(e) => Err(e)
    case Ok(f) =>
      FindNameIs(fs, path);
      HeldBy(fs, f.dir, f.name);
      if IsDir(fs, f.inode) then Err(IsADirectory) else Ok(DropName(fs, f.dir, f.name))
  }

  function RemoveDir(fs: Fs, path: Path): Result<Fs>
    requires Tree(fs)
  {
    match FindName(fs, path)
    case Err(e) => Err(e)
    case Ok(f) =>
      FindNameIs(fs, path);
      NotOwnChild(fs, f.dir, f.name);
      if f.inode == ROOT then Err(InvalidPath)
      else if !IsDir(fs, f.inode) then Err(NotADirectory)
      else if fs[f.inode].entries != map[] then Err(NotEmpty)
      else Ok(DropDir(fs, f.dir, f.name))
  }

  function Link(fs: Fs, existing: Path, path: Path): Result<Fs>
    requires Tree(fs)
  {
    match Lookup(fs, existing)
    case Err(e) => Err(e)
    case Ok(i) =>
      ResolvesIn(fs, existing, i);
      if IsDir(fs, i) then Err(IsADirectory)
      else
        match Vacant(fs, path)
        case Err(e) => Err(e)
        case Ok(d) => if !NameOk(Last(path)) then Err(InvalidName) else Ok(AddName(fs, d, Last(path), i))
  }

  lemma {:induction false} ResolvesIn(fs: Fs, path: Path, i: nat)
    requires Tree(fs) && Resolve(fs, path) == Some(i)
    ensures i in fs
  {
    hide CountOk, ChildOk, Rooted, Find, Resolve;
    if path != [] {
      SplitLast(path);
      ResolveMore(fs, Init(path), Last(path));
      HeldBy(fs, Resolve(fs, Init(path)).value, Last(path));
    } else {
      ResolveMore(fs, [], []);
    }
  }

  /** Whether an inode is at or above another, as far up as the search goes. */
  predicate IsAncestor(fs: Fs, ancestor: nat, of: nat, limit: nat)
    decreases limit
  {
    limit > 0 &&
    (of == ancestor || (of != ROOT && IsDir(fs, of) && fs[of].parent != of && IsAncestor(fs, ancestor, fs[of].parent, limit - 1)))
  }

  /** The ancestor is less than `limit` steps up. */
  ghost predicate Within(fs: Fs, ancestor: nat, of: nat, limit: nat) {
    exists k: nat :: k < limit && Climb(fs, of, k) == ancestor
  }

  lemma {:induction false} WithinUp(fs: Fs, ancestor: nat, of: nat, limit: nat)
    requires IsDir(fs, of) && 0 < limit
    ensures of == ancestor ==> Within(fs, ancestor, of, limit)
    ensures of != ancestor ==> (Within(fs, ancestor, of, limit) <==> Within(fs, ancestor, fs[of].parent, limit - 1))
  {
    var p, here: nat := fs[of].parent, 0;
    assert Climb(fs, of, here) == of;
    if k: nat :| k < limit - 1 && Climb(fs, p, k) == ancestor {
      var up: nat := k + 1;
      assert up < limit && Climb(fs, of, up) == ancestor;
    }
    if of != ancestor && Within(fs, ancestor, of, limit) {
      var k: nat :| k < limit && Climb(fs, of, k) == ancestor;
      var up: nat := k - 1;
      assert up < limit - 1 && Climb(fs, p, up) == ancestor;
    }
  }

  lemma {:induction false} RootWithin(fs: Fs, ancestor: nat, limit: nat)
    requires IsDir(fs, ROOT) && fs[ROOT].parent == ROOT && ancestor != ROOT
    ensures !Within(fs, ancestor, ROOT, limit)
  {
    forall k: nat ensures Climb(fs, ROOT, k) != ancestor {
      StayRoot(fs, k);
    }
  }

  /** The search finds an ancestor exactly when it is nearer than its limit. */
  lemma {:induction false} AncestorExactly(fs: Fs, ancestor: nat, of: nat, limit: nat)
    requires Tree(fs) && IsDir(fs, of)
    ensures IsAncestor(fs, ancestor, of, limit) <==> Within(fs, ancestor, of, limit)
    decreases limit
  {
    hide CountOk, ChildOk, Rooted, Within;
    if limit == 0 {
      NotWithin(fs, ancestor, of);
    } else {
      WithinUp(fs, ancestor, of, limit);
      if of == ROOT && of != ancestor {
        RootWithin(fs, ancestor, limit);
      } else if of != ancestor {
        var p := fs[of].parent;
        var m := ParentHolds(fs, of);
        NamedIn(fs, p, m);
        NotOwnChild(fs, p, m);
        AncestorExactly(fs, ancestor, p, limit - 1);
      }
    }
  }

  lemma {:induction false} NotWithin(fs: Fs, ancestor: nat, of: nat)
    ensures !Within(fs, ancestor, of, 0)
  {
  }

  /** The destination of a rename cleared: a file or an empty directory there goes. */
  function Cleared(fs: Fs, to: Path, i: nat): Result<Option<Fs>>
    requires Tree(fs)
  {
    match Find(fs, ROOT, to)
    case Err(e) => Err(e)
    case Ok(None) => Ok(Some(fs))
    case Ok(Some(existing)) =>
      if existing == i then Ok(None)
      else if IsDir(fs, existing) then
        if fs[existing].entries != map[] then Err(NotEmpty)
        else match RemoveDir(fs, to) case Err(e) => Err(e) case Ok(f) => Ok(Some(f))
      else match Unlink(fs, to) case Err(e) => Err(e) case Ok(f) => Ok(Some(f))
  }

  /** What a rename moves, and between which directories. */
  datatype Renaming = Renaming(inode: nat, fromDir: nat, toDir: nat)

  /** The checks a rename makes before it changes anything. */
  function RenameFrom(fs: Fs, from: Path, to: Path): Result<Renaming> {
    match Lookup(fs, from)
    case Err(e) => Err(e)
    case Ok(i) =>
      if from == [] || to == [] then Err(InvalidPath)
      else
        match Lookup(fs, Init(from))
        case Err(e) => Err(e)
        case Ok(d1) =>
          match Lookup(fs, Init(to))
          case Err(e) => Err(e)
          case Ok(d2) =>
            if !IsDir(fs, d2) then Err(NotADirectory)
            else if IsDir(fs, i) && IsAncestor(fs, i, d2, ANCESTOR_LIMIT) then Err(InvalidPath)
            else Ok(Renaming(i, d1, d2))
  }
}
