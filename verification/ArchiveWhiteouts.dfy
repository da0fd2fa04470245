/** What a layer's markers take away (src/volume.rs:1082-1111). */
module ArchiveWhiteouts {
  import opened Base
  import opened Namespace
  import opened NameOps
  import opened NameVolume
  import opened DiskAnswers
  import opened Removal
  import opened ArchiveWalk

  /** ".wh." */
  const MARK: Name := [46, 119, 104, 46]
  /** ".wh..wh." */
  const AUFS: Name := MARK + MARK
  /** ".wh..wh..opq" */
  const OPAQUE: Name := AUFS + [46, 111, 112, 113]

  predicate Begins(name: Name, with: Name) {
    |with| <= |name| && name[..|with|] == with
  }

  /** Nothing at all is left inside a directory. */
  ghost predicate NothingIn(fs: Fs, dir: Path) {
    forall q :: Prefix(dir, q) && q != dir ==> Resolve(fs, q) == None
  }

  /** Nothing but what is inside a directory has changed. */
  ghost predicate InsideOnly(fs: Fs, now: Fs, dir: Path) {
    forall q :: !Prefix(dir, q) || q == dir ==> Resolve(now, q) == Resolve(fs, q)
  }

  /** The names still to be removed are those that lead somewhere. */
  ghost predicate LeftNames(fs: Fs, dir: Path, rest: set<Name>) {
    forall m: Name :: Resolve(fs, dir + [m]).Some? <==> m in rest
  }

  lemma {:induction false} AllLeft(fs: Fs, dir: Path)
    requires DirAt(fs, dir)
    ensures LeftNames(fs, dir, EntriesAt(fs, NodeAt(fs, dir)).Keys)
  {
    hide Resolve;
    forall m: Name ensures Resolve(fs, dir + [m]).Some? <==> m in EntriesAt(fs, NodeAt(fs, dir)).Keys {
      PathMore(fs, dir, m);
    }
  }

  /** One name and all under it gone. */
  lemma {:induction false} OneGone(start: Fs, fs: Fs, now: Fs, dir: Path, rest: set<Name>, n: Name)
    requires InsideOnly(start, fs, dir) && LeftNames(fs, dir, rest) && n in rest
    requires OutsideKept(fs, now, dir + [n]) && forall q :: Prefix(dir + [n], q) ==> Resolve(now, q) == None
    ensures InsideOnly(start, now, dir) && LeftNames(now, dir, rest - {n})
  {
    hide Resolve;
    PrefixOf(dir, [n]);
    PrefixSelf(dir + [n]);
    forall q | !Prefix(dir, q) || q == dir ensures Resolve(now, q) == Resolve(start, q) {
      if Prefix(dir + [n], q) {
        PrefixTrans(dir, dir + [n], q);
      }
    }
    forall m: Name ensures Resolve(now, dir + [m]).Some? <==> m in rest - {n} {
      assert (dir + [m])[|dir|] == m && (dir + [n])[|dir|] == n;
      if m != n {
        assert !Prefix(dir + [n], dir + [m]) by {
          assert |dir + [n]| == |dir + [m]| && dir + [n] != dir + [m] && (dir + [m])[..|dir + [n]|] == dir + [m];
        }
      }
    }
  }

  lemma {:induction false} NoneLeft(fs: Fs, dir: Path)
    requires LeftNames(fs, dir, {})
    ensures NothingIn(fs, dir)
  {
    hide Resolve;
    forall q | Prefix(dir, q) && q != dir ensures Resolve(fs, q) == None {
      NextName(dir, q);
      NowherePast(fs, dir + [q[|dir|]], q);
    }
  }

  /** No name inside the directory is hidden. */
  ghost predicate FoundInside(fs: Fs, hides: Hides, dir: Path) {
    forall q :: Prefix(dir, q) && q != dir ==> !HiddenAt(fs, hides, q)
  }

  /**
   Empty a directory of everything in it, whoever put it there. It succeeds
   exactly where no index hides a name of it or of what is in it.
   */
  method EmptyOut(v: Volume, dir: Path) returns (r: Result<nat>)
    requires Tree(v.nodes) && DirAt(v.nodes, dir)
    modifies v`nodes
    ensures r.Ok? <==> FoundInside(old(v.nodes), v.hides, dir)
    ensures Tree(v.nodes) && InsideOnly(old(v.nodes), v.nodes, dir) && Remains(old(v.nodes), v.nodes)
    ensures r.Ok? ==> NothingIn(v.nodes, dir) && r.value == |EntriesAt(old(v.nodes), NodeAt(old(v.nodes), dir))|
  {
    hide Tree, Resolve, Find, LeftNames, InsideOnly, NothingIn, OutsideKept, Prefix, Cleanly, HiddenAt, NothingHidden, FoundInside, Remains;
    ghost var start := v.nodes;
    AllLeft(start, dir);
    SameInside(start, dir);
    PartWayNone(start, v.hides, dir);
    var d := Lookup(v.nodes, dir).value;
    var names := EntriesAt(v.nodes, d).Keys;
    var rest, removed: nat := names, 0;
    while rest != {}
      invariant Tree(v.nodes) && InsideOnly(start, v.nodes, dir) && LeftNames(v.nodes, dir, rest) && removed + |rest| == |names|
      invariant Cleanly(start, v.nodes, v.hides)
      decreases |rest|
    {
      var n :| n in rest;
      ghost var fs := v.nodes;
      LeftLeads(fs, dir, rest, n);
      var gone := RemoveAll(v, dir + [n]);
      OneInside(start, fs, v.nodes, dir, n);
      CleanTrans(start, fs, v.nodes, v.hides);
      if gone.Err? {
        StopsInside(start, fs, v.hides, dir, n);
        CleanRemains(start, v.nodes, v.hides);
        return Err(gone.error);
      }
      OneGone(start, fs, v.nodes, dir, rest, n);
      rest := rest - {n};
      removed := removed + 1;
    }
    NoneLeft(v.nodes, dir);
    AllFound(start, v.nodes, v.hides, dir);
    CleanRemains(start, v.nodes, v.hides);
    r := Ok(removed);
  }

  lemma {:induction false} OneInside(start: Fs, fs: Fs, now: Fs, dir: Path, n: Name)
    requires InsideOnly(start, fs, dir) && OutsideKept(fs, now, dir + [n])
    ensures InsideOnly(start, now, dir)
  {
    hide Resolve;
    PrefixOf(dir, [n]);
    forall q | !Prefix(dir, q) || q == dir ensures Resolve(now, q) == Resolve(start, q) {
      if Prefix(dir + [n], q) {
        PrefixTrans(dir, dir + [n], q);
      }
    }
  }

  lemma {:induction false} StopsInside(start: Fs, fs: Fs, hides: Hides, dir: Path, n: Name)
    requires Cleanly(start, fs, hides) && !NothingHidden(fs, hides, dir + [n])
    ensures !FoundInside(start, hides, dir)
  {
    hide Resolve, HiddenAt, Cleanly;
    var q :| Prefix(dir + [n], q) && HiddenAt(fs, hides, q);
    PrefixOf(dir, [n]);
    PrefixTrans(dir, dir + [n], q);
    HiddenBefore(start, fs, hides, q);
  }

  lemma {:induction false} AllFound(start: Fs, now: Fs, hides: Hides, dir: Path)
    requires Cleanly(start, now, hides) && NothingIn(now, dir)
    ensures FoundInside(start, hides, dir)
  {
    hide Resolve;
    forall q | Prefix(dir, q) && q != dir ensures !HiddenAt(start, hides, q) {
      assert Resolve(now, q) == None;
    }
  }

  lemma {:induction false} LeftLeads(fs: Fs, dir: Path, rest: set<Name>, n: Name)
    requires LeftNames(fs, dir, rest) && n in rest
    ensures Resolve(fs, dir + [n]).Some?
  {
  }

  lemma {:induction false} SameInside(fs: Fs, dir: Path)
    ensures InsideOnly(fs, fs, dir) && (DirAt(fs, dir) ==> Lookup(fs, dir) == Ok(NodeAt(fs, dir)))
  {
  }

  /** What a marker with a name names; with none, the directory it is in. */
  function Victim(dir: Path, name: Name): Path
    requires Begins(name, MARK)
  {
    if name == MARK then dir else dir + [name[4..]]
  }

  /**
   Act on a marker: an opaque one empties its directory, one with a name removes
   that name, and any other is dropped. Says how many names went; a name an index
   hides stops it, and even then it is still a tree.
   */
  method ApplyWhiteout(v: Volume, dir: Path, name: Name) returns (r: Result<nat>)
    requires Tree(v.nodes) && Begins(name, MARK)
    modifies v`nodes
    ensures Tree(v.nodes) && Remains(old(v.nodes), v.nodes)
    ensures name == OPAQUE && DirAt(old(v.nodes), dir) ==> (r.Ok? <==> FoundInside(old(v.nodes), v.hides, dir))
    ensures name == OPAQUE ==> InsideOnly(old(v.nodes), v.nodes, dir) && (r.Ok? ==> NothingIn(v.nodes, dir))
    ensures name != OPAQUE && Begins(name, AUFS) ==> r == Ok(0) && v.nodes == old(v.nodes)
    ensures !Begins(name, AUFS) ==>
              var victim := Victim(dir, name);
              && OutsideKept(old(v.nodes), v.nodes, victim)
              && (Resolve(old(v.nodes), victim).Some? ==> (r.Ok? <==> victim != [] && NothingHidden(old(v.nodes), v.hides, victim)))
              && (r.Ok? ==> && (forall q :: Prefix(victim, q) ==> Resolve(v.nodes, q) == None)
                            && r.value == if Resolve(old(v.nodes), victim).Some? then 1 else 0)
  {
    hide Tree, Resolve, Find, InsideOnly, NothingIn, OutsideKept, Cleanly, HiddenAt, NothingHidden, FoundInside, Remains;
    ghost var start := v.nodes;
    AllRemains(start);
    if name == OPAQUE {
      var there := Find(v.nodes, ROOT, dir);
      FoundHere(start, dir);
      if there.Err? {
        return Err(there.error);
      }
      if there.value.None? {
        return Ok(0);
      }
      SameInside(start, dir);
      if !IsDir(v.nodes, there.value.value) {
        return Err(NotADirectory);
      }
      r := EmptyOut(v, dir);
      return;
    }
    if Begins(name, AUFS) {
      return Ok(0);
    }
    var victim := Victim(dir, name);
    var found := Find(v.nodes, ROOT, victim);
    FoundHere(start, victim);
    NothingOutside(start, victim);
    if found.Err? {
      return Err(found.error);
    }
    if found.value.None? {
      GoneAlready(start, victim);
      return Ok(0);
    }
    var gone := RemoveAll(v, victim);
    CleanRemains(start, v.nodes, v.hides);
    r := if gone.Ok? then Ok(1) else Err(gone.error);
  }

  lemma {:induction false} AllRemains(fs: Fs)
    ensures Remains(fs, fs)
  {
  }

  lemma {:induction false} NothingOutside(fs: Fs, p: Path)
    ensures OutsideKept(fs, fs, p)
  {
  }

  lemma {:induction false} FoundHere(fs: Fs, p: Path)
    ensures Find(fs, ROOT, p).Ok? ==> Resolve(fs, p) == Find(fs, ROOT, p).value
    ensures Find(fs, ROOT, p).Err? ==> Resolve(fs, p) == None
    ensures Resolve(fs, p) == None ==> InsideOnly(fs, fs, p) && NothingIn(fs, p)
  {
    if Resolve(fs, p) == None {
      GoneAlready(fs, p);
    }
  }

  lemma {:induction false} GoneAlready(fs: Fs, p: Path)
    requires Resolve(fs, p) == None
    ensures OutsideKept(fs, fs, p) && forall q :: Prefix(p, q) ==> Resolve(fs, q) == None
  {
    hide Resolve;
    forall q | Prefix(p, q) ensures Resolve(fs, q) == None {
      NowherePast(fs, p, q);
    }
  }
}
