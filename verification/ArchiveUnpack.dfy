/**
 Unpacking an archive's entries (src/volume.rs:573-588, 934-1080 and 1225-1231),
 one after another, over whatever is there.
 */
module ArchiveUnpack {
  import opened Base
  import opened Namespace
  import opened NameOps
  import opened VolumeNames
  import opened DiskAnswers
  import opened NameVolume
  import opened Removal
  import opened ArchiveWalk
  import opened ArchivePack
  import opened ArchiveNeeds

  /** A directory made because something has to go in it: 0755. */
  const DIR_ATTRS := Attrs(493, 0, 0)
  /** A symbolic link's: 0777. */
  const LINK_ATTRS := Attrs(511, 0, 0)

  // ---- the way to an entry ----

  lemma {:induction false} FindSome(fs: Fs, p: Path, k: nat)
    requires Resolve(fs, p).Some? && k <= |p|
    ensures Resolve(fs, p[..k]).Some? && Find(fs, ROOT, p[..k]) == Ok(Resolve(fs, p[..k]))
  {
    FindConcat(fs, ROOT, p[..k], p[k..]);
    assert p == p[..k] + p[k..];
    hide Find;
  }

  /** An empty directory. */
  ghost predicate EmptyAt(fs: Fs, dest: Path) {
    DirAt(fs, dest) && EntriesAt(fs, NodeAt(fs, dest)) == map[] && NodeAt(fs, dest) in fs
  }

  /**
   The way to a path laid: it leads somewhere, to an empty directory if it led
   nowhere before; every other path leads where it did, but for new directories
   on the way; and nothing that was there looks different.
   */
  ghost predicate Laid(was: Fs, now: Fs, path: Path) {
    && Tree(now) && Resolve(now, path).Some? && (Resolve(was, path) == None ==> EmptyAt(now, path))
    && (forall q :: Resolve(was, q).Some? ==> Resolve(now, q) == Resolve(was, q))
    && (forall q :: Resolve(was, q) == None && Resolve(now, q).Some? ==> Prefix(q, path) && NodeAt(now, q) !in was && DirAt(now, q))
    && (forall i :: i in was ==> i in now && SameLook(was[i], now[i]))
  }

  /** The first m names of the path lead to a directory, and no more of them anywhere; the rest are names. */
  ghost predicate LaidUpTo(fs: Fs, path: Path, m: nat) {
    && m <= |path| && DirAt(fs, path[..m]) && (m < |path| ==> Resolve(fs, path[..m + 1]) == None)
    && forall j :: m <= j < |path| ==> NameOk(path[j])
  }

  /** Nothing stands in the way of the directories missing along the path. */
  ghost predicate Layable(fs: Fs, path: Path) {
    exists m: nat :: LaidUpTo(fs, path, m)
  }

  lemma {:induction false} NothingLaid(fs: Fs, path: Path)
    requires Tree(fs) && Resolve(fs, path).Some?
    ensures Laid(fs, fs, path)
  {
    hide Tree, Resolve, DirAt;
  }

  lemma {:induction false} LaidAlready(was: Fs, now: Fs, p: Path)
    requires p != [] && Laid(was, now, Init(p)) && Resolve(now, p).Some?
    ensures Laid(was, now, p)
  {
    hide Tree, Resolve, DirAt, EmptyAt, SameLook;
    forall q | Prefix(q, Init(p)) ensures Prefix(q, p) {
    }
    assert !Prefix(p, Init(p));
  }

  lemma {:induction false} LaidMore(was: Fs, mid: Fs, p: Path, attrs: Attrs, given: Result<nat>)
    requires Tree(mid) && p != [] && Laid(was, mid, Init(p)) && Given(mid, given) && MakeDir(mid, p, attrs, given).Ok?
    ensures Laid(was, MakeDir(mid, p, attrs, given).value, p)
  {
    hide Tree, Resolve, SameLook;
    var now := MakeDir(mid, p, attrs, given).value;
    MakeDirEffect(mid, p, attrs, given);
    MadeKept(mid, p, attrs, given);
    LooksSame(was, mid, now);
    hide MakeDir, OnlyAt;
    forall q | Prefix(q, Init(p)) ensures Prefix(q, p) {
    }
    assert forall q :: Resolve(now, q) == if q == p then Some(given.value) else Resolve(mid, q) by {
      assert OnlyAt(mid, now, p, Some(given.value));
    }
    forall q | Resolve(was, q) == None && Resolve(now, q).Some? ensures Prefix(q, p) && NodeAt(now, q) !in was && DirAt(now, q) {
      if q != p {
        assert Resolve(mid, q).Some? && DirAt(mid, q);
      }
    }
  }

  lemma {:induction false} LooksSame(was: Fs, mid: Fs, now: Fs)
    requires forall i :: i in was ==> i in mid && SameLook(was[i], mid[i])
    requires forall i :: i in mid ==> i in now && SameLook(mid[i], now[i])
    ensures forall i :: i in was ==> i in now && SameLook(was[i], now[i])
  {
  }

  lemma {:induction false} MadeKept(fs: Fs, p: Path, attrs: Attrs, given: Result<nat>)
    requires Given(fs, given) && MakeDir(fs, p, attrs, given).Ok?
    ensures var now := MakeDir(fs, p, attrs, given).value;
            && given.Ok? && given.value !in fs && (forall i :: i in fs ==> i in now && SameLook(fs[i], now[i]))
            && given.value in now && forall i :: IsDir(fs, i) ==> IsDir(now, i)
  {
    hide Find;
  }

  /** While the way is laid, the next name is there already or has room to be made. */
  lemma {:induction false} NextOnWay(was: Fs, now: Fs, path: Path, m: nat, k: nat)
    requires Tree(was) && k < |path| && Laid(was, now, path[..k]) && LaidUpTo(was, path, m)
    ensures k < m ==> Resolve(now, path[..k + 1]).Some?
    ensures m <= k ==> Room(now, path[..k + 1])
  {
    hide Tree, Resolve, NameOk, EntriesAt;
    var p := path[..k + 1];
    if k < m {
      FindSome(was, path[..m], k + 1);
      assert path[..m][..k + 1] == p;
    } else {
      assert Init(p) == path[..k] && Last(p) == path[k];
      assert Prefix(path[..m + 1], p);
      NowherePast(was, path[..m + 1], p);
      assert !Prefix(p, path[..k]);
      if m < k {
        NowherePast(was, path[..m + 1], path[..k]);
      } else {
        StillDir(was, now, path[..m]);
      }
    }
  }

  lemma {:induction false} StillDir(was: Fs, now: Fs, p: Path)
    requires Laid(was, now, p) && DirAt(was, p)
    ensures DirAt(now, p)
  {
    hide Tree, Resolve;
  }

  /** The way laid as far as k names, with enough left for the rest of them. */
  ghost predicate OnTheWay(layout: Layout, s: Standing, t: Standing, path: Path, k: nat, span: nat) {
    && WayAffords(layout, s, path, span) && k <= |path|
    && s.inodes <= t.inodes + k && s.blocks <= t.blocks + k * StepCost(layout, span)
    && if Resolve(s.nodes, path[..k]).Some? then t.nodes == s.nodes && t.spans == s.spans
       else EmptyAt(t.nodes, path[..k]) && NodeAt(t.nodes, path[..k]) in t.spans && t.spans[NodeAt(t.nodes, path[..k])] == 1
  }

  lemma {:induction false} StepLeft(whole: nat, k: nat, cost: nat, had: nat, left: nat)
    requires k < whole && whole * cost <= had <= left + k * cost
    ensures cost <= left
  {
    MulMono(k + 1, whole, cost);
    assert (k + 1) * cost == k * cost + cost;
  }

  lemma {:induction false} StepAffords(layout: Layout, s: Standing, t: Standing, path: Path, k: nat, span: nat)
    requires OnTheWay(layout, s, t, path, k, span) && k < |path| && Room(t.nodes, path[..k + 1])
    ensures Affords(layout, t, path[..k + 1], 1, 1)
  {
    hide Resolve, Find, NameOk;
    var p := path[..k + 1];
    assert Init(p) == path[..k];
    RoomIs(t.nodes, p);
    StepLeft(|path|, k, StepCost(layout, span), s.blocks, t.blocks);
    var d := NodeAt(t.nodes, path[..k]);
    if Resolve(s.nodes, path[..k]).Some? {
      assert Prefix(path[..k], path);
      assert DirAt(s.nodes, path[..k]);
    } else {
      assert Names(t.nodes, d) == 0;
    }
  }

  lemma {:induction false} StepTaken(layout: Layout, s: Standing, t: Standing, u: Standing, path: Path, k: nat, span: nat, made: nat)
    requires OnTheWay(layout, s, t, path, k, span) && k < |path| && Room(t.nodes, path[..k + 1]) && Laid(s.nodes, t.nodes, path[..k])
    requires Afforded(layout, t, path[..k + 1], 1, 1, Some(made), u)
    requires Resolve(u.nodes, path[..k + 1]) == Some(made) && made in u.nodes && u.nodes[made].Dir? && u.nodes[made].entries == map[]
    ensures OnTheWay(layout, s, u, path, k + 1, span)
  {
    hide Resolve, Find, NameOk, Tree;
    var p := path[..k + 1];
    assert Init(p) == path[..k];
    RoomIs(t.nodes, p);
    assert Resolve(s.nodes, p) == None;
    var d := NodeAt(t.nodes, path[..k]);
    assert (k + 1) * StepCost(layout, span) == k * StepCost(layout, span) + StepCost(layout, span);
    if Resolve(s.nodes, path[..k]).Some? {
      assert Prefix(path[..k], path);
      assert DirAt(s.nodes, path[..k]);
    } else {
      assert Names(t.nodes, d) == 0;
    }
  }

  lemma {:induction false} StepThere(layout: Layout, s: Standing, t: Standing, path: Path, k: nat, span: nat)
    requires OnTheWay(layout, s, t, path, k, span) && k < |path| && Laid(s.nodes, t.nodes, path[..k])
    requires Resolve(t.nodes, path[..k + 1]).Some?
    ensures OnTheWay(layout, s, t, path, k + 1, span)
  {
    hide Find, Tree, EmptyAt, StepCost;
    var p := path[..k + 1];
    assert !Prefix(p, path[..k]);
    if Resolve(s.nodes, p).Some? {
      FindSome(s.nodes, p, k);
      assert p[..k] == path[..k];
      assert (k + 1) * StepCost(layout, span) == k * StepCost(layout, span) + StepCost(layout, span);
    }
  }

  /** Create every missing directory along a path. */
  method MkdirAll(v: Volume, path: Path, ghost span: nat) returns (r: Result<()>)
    requires Tree(v.nodes)
    modifies v
    ensures r.Ok? ==> Laid(old(v.nodes), v.nodes, path) && Tree(v.nodes) && Resolve(v.nodes, path).Some?
    ensures Resolve(old(v.nodes), path).Some? ==> r.Ok? && v.Now() == old(v.Now())
    ensures r.Err? && Layable(old(v.nodes), path) ==> Shortage(r.error)
    ensures Layable(old(v.nodes), path) && WayAffords(v.layout, old(v.Now()), path, span) ==>
              r.Ok? && OnTheWay(v.layout, old(v.Now()), v.Now(), path, |path|, span)
  {
    hide Tree, Find, Resolve, MakeDir, Laid, LaidUpTo, Room, OnTheWay, WayAffords, HasRoom, Affords, Afforded;
    ghost var start, there, s := v.nodes, Resolve(v.nodes, path).Some?, v.Now();
    ghost var funded := Layable(start, path) && WayAffords(v.layout, s, path, span);
    ResolveMore(v.nodes, [], []);
    assert path[..0] == [];
    NothingLaid(v.nodes, []);
    if funded {
      WayStart(v.layout, s, path, span);
    }
    for k := 0 to |path|
      invariant Tree(v.nodes) && Laid(start, v.nodes, path[..k])
      invariant there ==> v.Now() == s
      invariant funded ==> OnTheWay(v.layout, s, v.Now(), path, k, span)
    {
      var soFar := path[..k + 1];
      assert Init(soFar) == path[..k];
      if there {
        FindSome(v.nodes, path, k + 1);
      }
      if Layable(start, path) {
        OnWay(start, v.nodes, path, k);
      }
      var found := Find(v.nodes, ROOT, soFar);
      FoundThere(v.nodes, soFar);
      if found.Err? {
        return Err(found.error);
      }
      ghost var t := v.Now();
      if found.value.None? {
        if funded {
          StepAffords(v.layout, s, t, path, k, span);
        }
        var made := MakeOne(v, soFar, DIR_ATTRS);
        if made.Err? {
          return Err(made.error);
        }
        MakeDirEffect(t.nodes, soFar, DIR_ATTRS, made);
        LaidMore(start, t.nodes, soFar, DIR_ATTRS, made);
        MadeKept(t.nodes, soFar, DIR_ATTRS, made);
        assert Resolve(v.nodes, soFar) == Some(made.value);
        if funded {
          StepTaken(v.layout, s, t, v.Now(), path, k, span, made.value);
        }
      } else {
        LaidAlready(start, v.nodes, soFar);
        if funded {
          StepThere(v.layout, s, t, path, k, span);
        }
      }
    }
    assert path[..|path|] == path;
    LaidIs(start, v.nodes, path);
    r := Ok(());
  }

  lemma {:induction false} WayStart(layout: Layout, s: Standing, path: Path, span: nat)
    requires WayAffords(layout, s, path, span)
    ensures OnTheWay(layout, s, s, path, 0, span)
  {
    hide Find, Resolve, WayAffords;
    ResolveMore(s.nodes, [], []);
    assert path[..0] == [];
  }

  /** Ask for what one directory takes, and make it. */
  method MakeOne(v: Volume, path: Path, attrs: Attrs) returns (r: Result<nat>)
    requires Tree(v.nodes)
    modifies v
    ensures Given(old(v.nodes), r)
    ensures r.Ok? ==> MakeDir(old(v.nodes), path, attrs, r) == Ok(v.nodes)
    ensures r.Err? && Room(old(v.nodes), path) ==> Shortage(r.error)
    ensures Room(old(v.nodes), path) && Affords(v.layout, old(v.Now()), path, 1, 1) ==>
              r.Ok? && Afforded(v.layout, old(v.Now()), path, 1, 1, Some(r.value), v.Now())
  {
    hide Tree, Find, Resolve, HasRoom, Room, CanTake, MakeDir, Create, PutAt;
    ghost var s := v.Now();
    var given := v.AskNode(1);
    if Affords(v.layout, s, path, 1, 1) {
      AffordsRoom(v.layout, s, v.Now(), path, 1, 1);
    }
    RoomMakes(s.nodes, path, Fifo, attrs, given);
    var room := v.AskRoom(path);
    r := v.MkDir(path, attrs, given, room);
  }

  lemma {:induction false} LaidIs(was: Fs, now: Fs, path: Path)
    requires Laid(was, now, path)
    ensures Resolve(now, path).Some? && Tree(now) && (Resolve(was, path) == None ==> EmptyAt(now, path))
  {
    hide Tree, Resolve, EmptyAt;
  }

  lemma {:induction false} OnWay(was: Fs, now: Fs, path: Path, k: nat)
    requires Tree(was) && k < |path| && Laid(was, now, path[..k]) && Layable(was, path)
    ensures Resolve(now, path[..k + 1]).Some? || Room(now, path[..k + 1])
    ensures Find(now, ROOT, path[..k + 1]).Ok?
  {
    hide Tree, Resolve, Laid, LaidUpTo, Room, Find;
    var m: nat :| LaidUpTo(was, path, m);
    NextOnWay(was, now, path, m, k);
    if Room(now, path[..k + 1]) {
      RoomIs(now, path[..k + 1]);
    } else {
      FindSome(now, path[..k + 1], k + 1);
      assert path[..k + 1][..k + 1] == path[..k + 1];
    }
  }

  lemma {:induction false} FoundThere(fs: Fs, p: Path)
    ensures Find(fs, ROOT, p).Ok? ==> Resolve(fs, p) == Find(fs, ROOT, p).value
    ensures Find(fs, ROOT, p).Err? ==> Resolve(fs, p) == None
  {
  }

  /** A name not there in a directory that is, is found not to be. */
  lemma {:induction false} FindNone(fs: Fs, p: Path)
    requires p != [] && DirAt(fs, Init(p)) && Resolve(fs, p) == None
    ensures Find(fs, ROOT, p) == Ok(None) && Vacant(fs, p) == Ok(NodeAt(fs, Init(p)))
  {
    SplitLast(p);
    FindConcat(fs, ROOT, Init(p), [Last(p)]);
    assert [Last(p)][1..] == [];
  }

  /** Nothing has changed but that something at a path or under it may be gone. */
  ghost predicate SweptAt(fs: Fs, now: Fs, path: Path) {
    Tree(now) && OutsideKept(fs, now, path) && Remains(fs, now)
  }

  lemma {:induction false} NothingSwept(fs: Fs, path: Path)
    requires Tree(fs)
    ensures SweptAt(fs, fs, path)
  {
    hide Tree, Resolve;
  }

  /** Clear the way for an entry that replaces an existing name: it goes, unless an index hides it or a name under it. */
  method Replace(v: Volume, path: Path) returns (r: Result<()>)
    requires Tree(v.nodes)
    modifies v`nodes
    ensures SweptAt(old(v.nodes), v.nodes, path)
    ensures r.Ok? ==> Resolve(v.nodes, path) == None
    ensures Find(old(v.nodes), ROOT, path) == Ok(None) ==> r.Ok? && v.nodes == old(v.nodes)
    ensures Resolve(old(v.nodes), path).Some? ==> (r.Ok? <==> path != [] && NothingHidden(old(v.nodes), v.hides, path))
  {
    hide Tree, Find, Resolve, NothingHidden, HiddenAt, Cleanly, Remains;
    NothingSwept(v.nodes, path);
    ghost var fs := v.nodes;
    var found := Find(v.nodes, ROOT, path);
    FoundThere(v.nodes, path);
    if found.Err? {
      return Err(found.error);
    }
    if found.value.Some? {
      r := RemoveAll(v, path);
      CleanRemains(fs, v.nodes, v.hides);
      PrefixSelf(path);
      return;
    }
    r := Ok(());
  }

  // ---- one entry ----

  /** Nothing looks different, and but for a directory's names and an inode's links nothing is. */
  ghost predicate Kept(fs: Fs, now: Fs, d: nat, i: nat) {
    forall x :: x in fs ==> x in now && SameLook(fs[x], now[x]) && (x != d && x != i ==> now[x] == fs[x])
  }

  function AttrsFor(item: Item): Attrs {
    if item.what.Content? && item.what.kind.Symlink? then LINK_ATTRS else item.attrs
  }

  /** What a path leads to is what the entry stands for. */
  ghost predicate Stands(fs: Fs, now: Fs, i: nat, dest: Path, item: Item) {
    i in now &&
    match item.what
    case Again(target) => Resolve(fs, dest + target) == Some(i)
    case Folder => i !in fs && now[i].Dir? && now[i].attrs == item.attrs
    case Content(kind) => i !in fs && now[i].Leaf? && now[i].kind == kind && now[i].attrs == AttrsFor(item)
  }

  /** One path leads somewhere new, and nothing else has changed. */
  ghost predicate PutAt(fs: Fs, now: Fs, path: Path, i: nat) {
    && path != [] && Tree(now) && OnlyAt(fs, now, path, Some(i)) && Kept(fs, now, NodeAt(fs, Init(path)), i)
    && EntriesAt(now, NodeAt(fs, Init(path))) == EntriesAt(fs, NodeAt(fs, Init(path)))[Last(path) := i]
  }

  /** A place for a name: its directory is there, and the name is free. */
  ghost predicate Room(fs: Fs, path: Path) {
    path != [] && DirAt(fs, Init(path)) && Resolve(fs, path) == None && NameOk(Last(path))
  }

  lemma {:induction false} RoomIs(fs: Fs, path: Path)
    requires Room(fs, path)
    ensures Vacant(fs, path) == Ok(NodeAt(fs, Init(path))) && Find(fs, ROOT, path) == Ok(None) && Resolve(fs, Init(path)).Some?
    ensures ParentDir(fs, path) == Ok(NodeAt(fs, Init(path))) && IsDir(fs, NodeAt(fs, Init(path))) && Last(path) !in fs[NodeAt(fs, Init(path))].entries
  {
    hide NameOk;
    FindNone(fs, path);
  }

  lemma {:induction false} CreatePuts(fs: Fs, path: Path, kind: Kind, attrs: Attrs, given: Result<nat>)
    requires Tree(fs) && Given(fs, given) && Room(fs, path) && given.Ok?
    ensures Create(fs, path, kind, attrs, given).Ok?
    ensures var now := Create(fs, path, kind, attrs, given).value;
            PutAt(fs, now, path, given.value) && given.value in now && now[given.value] == Leaf(kind, 1, attrs)
  {
    hide Tree, Resolve, Find, NameOk, OnlyAt, NodeAt, DirAt;
    RoomIs(fs, path);
    CreateEffect(fs, path, kind, attrs, given);
  }

  lemma {:induction false} WritePuts(fs: Fs, path: Path, data: Bytes, attrs: Attrs, given: Result<nat>, spoilt: Kind)
    requires Tree(fs) && Given(fs, given) && Room(fs, path)
    ensures Write(fs, path, data, attrs, given, spoilt) == Create(fs, path, Regular(data), attrs, given)
  {
    hide Tree, Resolve, Find, NameOk, NodeAt, DirAt;
    RoomIs(fs, path);
  }

  lemma {:induction false} MakeDirPuts(fs: Fs, path: Path, attrs: Attrs, given: Result<nat>)
    requires Tree(fs) && Given(fs, given) && Room(fs, path) && given.Ok?
    ensures MakeDir(fs, path, attrs, given).Ok?
    ensures var now := MakeDir(fs, path, attrs, given).value;
            PutAt(fs, now, path, given.value) && given.value in now && now[given.value].Dir? && now[given.value].attrs == attrs
  {
    hide Tree, Resolve, Find, NameOk, OnlyAt, NodeAt, DirAt;
    RoomIs(fs, path);
    MakeDirEffect(fs, path, attrs, given);
  }

  lemma {:induction false} LinkPuts(fs: Fs, existing: Path, path: Path)
    requires Tree(fs) && Room(fs, path) && Resolve(fs, existing).Some? && !DirAt(fs, existing)
    ensures Link(fs, existing, path).Ok?
    ensures var now, i := Link(fs, existing, path).value, Resolve(fs, existing).value;
            PutAt(fs, now, path, i) && i in now
  {
    RoomIs(fs, path);
    var i := Resolve(fs, existing).value;
    LookupIs(fs, existing, i);
    assert !IsDir(fs, i);
    hide Tree, Resolve, Find, NameOk, OnlyAt, NodeAt, DirAt, Lookup;
    ResolvesIn(fs, existing, i);
    LinkIs(fs, existing, path, NodeAt(fs, Init(path)), i);
    LinkEffect(fs, existing, path);
    var now := AddName(fs, NodeAt(fs, Init(path)), Last(path), i);
    hide Link, Room;
    LinkKept(fs, NodeAt(fs, Init(path)), Last(path), i);
  }

  lemma {:induction false} LinkKept(fs: Fs, d: nat, n: Name, i: nat)
    requires IsDir(fs, d) && i in fs && !IsDir(fs, i)
    ensures Kept(fs, AddName(fs, d, n, i), d, i) && i in AddName(fs, d, n, i)
    ensures EntriesAt(AddName(fs, d, n, i), d) == EntriesAt(fs, d)[n := i]
  {
  }

  /** What is made at a path that led nowhere had a place there. */
  lemma {:induction false} MadeInRoom(fs: Fs, path: Path, kind: Kind, data: Bytes, attrs: Attrs, given: Result<nat>, spoilt: Kind, existing: Path)
    requires Tree(fs) && Given(fs, given) && Resolve(fs, path) == None
    ensures Create(fs, path, kind, attrs, given).Ok? ==> Room(fs, path)
    ensures MakeDir(fs, path, attrs, given).Ok? ==> Room(fs, path)
    ensures Write(fs, path, data, attrs, given, spoilt).Ok? ==> Room(fs, path)
    ensures Link(fs, existing, path).Ok? ==> Room(fs, path) && Resolve(fs, existing).Some? && !DirAt(fs, existing)
  {
    if ParentDir(fs, path).Ok? && IsDir(fs, ParentDir(fs, path).value) {
      TakenLeads(fs, path);
      LookupLeads(fs, Init(path));
      assert DirAt(fs, Init(path));
    }
    LookupLeads(fs, existing);
    hide Tree, Find, Resolve, Lookup;
  }

  lemma {:induction false} LookupLeads(fs: Fs, p: Path)
    ensures Lookup(fs, p).Ok? ==> Resolve(fs, p) == Some(Lookup(fs, p).value)
  {
  }

  /** A directory's entry: one there already stays, and anything else there goes. */
  method PutFolder(v: Volume, path: Path, attrs: Attrs) returns (r: Result<()>, ghost i: nat, ghost clear: Fs)
    requires Tree(v.nodes)
    modifies v
    ensures r.Ok? ==> Tree(v.nodes)
    ensures r.Ok? && !DirAt(old(v.nodes), path) ==>
              && SweptAt(old(v.nodes), clear, path) && Room(clear, path) && PutAt(clear, v.nodes, path, i)
              && i !in clear && i in v.nodes && v.nodes[i].Dir? && v.nodes[i].attrs == attrs
    ensures r.Ok? && DirAt(old(v.nodes), path) ==> v.nodes == old(v.nodes)
    ensures Room(old(v.nodes), path) ==>
              && (r.Err? ==> Shortage(r.error))
              && (r.Ok? ==> PutAt(old(v.nodes), v.nodes, path, i) && i !in old(v.nodes) && i in v.nodes && v.nodes[i].Dir? && v.nodes[i].attrs == attrs)
    ensures Room(old(v.nodes), path) && Affords(v.layout, old(v.Now()), path, 1, 1) ==>
              r.Ok? && Afforded(v.layout, old(v.Now()), path, 1, 1, Some(i), v.Now())
  {
    hide Tree, Find, Resolve, MakeDir, Room, OutsideKept, PutAt, Vacant, Affords, Afforded, Remains, Cleanly, NothingHidden;
    ghost var s := v.Now();
    if Room(s.nodes, path) {
      RoomIs(s.nodes, path);
    }
    i, clear := 0, v.nodes;
    NothingSwept(v.nodes, path);
    FoundThere(v.nodes, path);
    var found := Find(v.nodes, ROOT, path);
    if found.Err? {
      return Err(found.error), 0, clear;
    }
    if found.value.Some? && !IsDir(v.nodes, found.value.value) {
      // A directory does not go where something else is.
      var gone := RemoveAll(v, path);
      if gone.Err? {
        return gone, 0, clear;
      }
      CleanRemains(s.nodes, v.nodes, v.hides);
    }
    FoundThere(v.nodes, path);
    var now := Find(v.nodes, ROOT, path);
    if now.Err? {
      return Err(now.error), 0, clear;
    }
    if now.value.None? {
      clear := v.nodes;
      var made := MakeOne(v, path, attrs);
      if made.Err? {
        return Err(made.error), 0, clear;
      }
      MadeInRoom(clear, path, Fifo, [], attrs, made, Fifo, []);
      MakeDirPuts(clear, path, attrs, made);
      MakeDirEffect(clear, path, attrs, made);
      i := made.value;
    }
    r := Ok(());
  }

  /** A file's, symbolic link's or device's entry: always a new inode. */
  method PutContent(v: Volume, path: Path, kind: Kind, attrs: Attrs) returns (r: Result<()>, ghost i: nat, ghost clear: Fs)
    requires Tree(v.nodes) && 0 < v.layout.blockSize
    modifies v
    ensures r.Ok? ==> Tree(v.nodes)
    ensures r.Ok? ==> && SweptAt(old(v.nodes), clear, path) && Room(clear, path) && PutAt(clear, v.nodes, path, i)
                      && i !in clear && i in v.nodes && v.nodes[i] == Leaf(kind, 1, attrs)
    ensures Room(old(v.nodes), path) ==>
              && (r.Err? ==> Shortage(r.error))
              && (r.Ok? ==> PutAt(old(v.nodes), v.nodes, path, i) && i !in old(v.nodes) && i in v.nodes && v.nodes[i] == Leaf(kind, 1, attrs))
    ensures Room(old(v.nodes), path) && Affords(v.layout, old(v.Now()), path, KindBlocks(v.layout, kind), 1) ==>
              r.Ok? && Afforded(v.layout, old(v.Now()), path, KindBlocks(v.layout, kind), 1, None, v.Now())
  {
    hide Tree, Find, Resolve, Room, SweptAt, PutAt, Vacant, Affords, Afforded, NothingHidden;
    ghost var s := v.Now();
    if Room(s.nodes, path) {
      RoomIs(s.nodes, path);
    }
    i := 0;
    var cleared := Replace(v, path);
    clear := v.nodes;
    SweptTree(s.nodes, clear, path);
    if cleared.Err? {
      return cleared, 0, clear;
    }
    var made;
    if kind.Regular? {
      made := PutFile(v, path, kind.content, attrs);
    } else {
      made := PutNode(v, path, kind, attrs);
    }
    if made.Err? {
      return Err(made.error), 0, clear;
    }
    i := made.value;
    r := Ok(());
  }

  lemma {:induction false} SweptTree(fs: Fs, now: Fs, path: Path)
    requires SweptAt(fs, now, path)
    ensures Tree(now)
  {
    hide Tree;
  }

  /** Ask for what a file takes, and write it; its contents' blocks come last. */
  method PutFile(v: Volume, path: Path, data: Bytes, attrs: Attrs) returns (r: Result<nat>)
    requires Tree(v.nodes) && 0 < v.layout.blockSize && Resolve(v.nodes, path) == None
    modifies v
    ensures r.Ok? ==> Tree(v.nodes) && Room(old(v.nodes), path)
    ensures Room(old(v.nodes), path) ==>
              && (r.Err? ==> Shortage(r.error))
              && (r.Ok? ==> PutAt(old(v.nodes), v.nodes, path, r.value) && r.value !in old(v.nodes) && r.value in v.nodes
                            && v.nodes[r.value] == Leaf(Regular(data), 1, attrs))
    ensures Room(old(v.nodes), path) && Affords(v.layout, old(v.Now()), path, v.layout.BlocksOf(|data|), 1) ==>
              r.Ok? && Afforded(v.layout, old(v.Now()), path, v.layout.BlocksOf(|data|), 1, None, v.Now())
  {
    hide Tree, Find, Resolve, Create, Write, Room, PutAt, Vacant, HasRoom, CanTake;
    ghost var s, n := v.Now(), v.layout.BlocksOf(|data|);
    var given := v.AskInode();
    if Affords(v.layout, s, path, n, 1) {
      AffordsRoom(v.layout, s, v.Now(), path, n, 1);
    }
    var room := v.AskRoom(path);
    if Affords(v.layout, s, path, n, 1) {
      RoomAffords(v.layout, s, v.blocks, path, n, 1);
    }
    var put := v.AskBlocks(v.layout.BlocksOf(|data|));
    RoomMakes(s.nodes, path, Regular(data), attrs, given);
    if Room(s.nodes, path) {
      WritePuts(s.nodes, path, data, attrs, given, Fifo);
    }
    var made := v.WriteFile(path, data, attrs, given, Fifo, room, put);
    if made.Err? {
      return made;
    }
    WriteEffect(s.nodes, path, data, attrs, given, Fifo);
    MadeInRoom(s.nodes, path, Fifo, data, attrs, given, Fifo, []);
    r := given;
  }

  /** Ask for what a symbolic link, a device or a FIFO takes, and make it. */
  method PutNode(v: Volume, path: Path, kind: Kind, attrs: Attrs) returns (r: Result<nat>)
    requires Tree(v.nodes) && 0 < v.layout.blockSize && Resolve(v.nodes, path) == None && !kind.Regular?
    modifies v
    ensures r.Ok? ==> Tree(v.nodes) && Room(old(v.nodes), path)
    ensures Room(old(v.nodes), path) ==>
              && (r.Err? ==> Shortage(r.error))
              && (r.Ok? ==> PutAt(old(v.nodes), v.nodes, path, r.value) && r.value !in old(v.nodes) && r.value in v.nodes
                            && v.nodes[r.value] == Leaf(kind, 1, attrs))
    ensures Room(old(v.nodes), path) && Affords(v.layout, old(v.Now()), path, KindBlocks(v.layout, kind), 1) ==>
              r.Ok? && Afforded(v.layout, old(v.Now()), path, KindBlocks(v.layout, kind), 1, None, v.Now())
  {
    hide Tree, Find, Resolve, Create, Write, Room, PutAt, Vacant, HasRoom, CanTake;
    ghost var s, n := v.Now(), KindBlocks(v.layout, kind);
    var given := v.AskNode(KindBlocks(v.layout, kind));
    if Affords(v.layout, s, path, n, 1) {
      AffordsRoom(v.layout, s, v.Now(), path, n, 1);
    }
    var room := v.AskRoom(path);
    RoomMakes(s.nodes, path, kind, attrs, given);
    r := v.CreateNode(path, kind, attrs, given, room);
    if r.Ok? {
      CreateEffect(s.nodes, path, kind, attrs, given);
      MadeInRoom(s.nodes, path, kind, [], attrs, given, Fifo, []);
    }
  }

  lemma {:induction false} RoomMakes(fs: Fs, path: Path, kind: Kind, attrs: Attrs, given: Result<nat>)
    requires Tree(fs) && Given(fs, given)
    ensures Room(fs, path) && given.Err? ==> Create(fs, path, kind, attrs, given) == Err(given.error) && MakeDir(fs, path, attrs, given) == Err(given.error)
    ensures Room(fs, path) && given.Ok? ==> Create(fs, path, kind, attrs, given).Ok? && MakeDir(fs, path, attrs, given).Ok?
    ensures Create(fs, path, kind, attrs, given).Ok? && Room(fs, path) ==>
              var now := Create(fs, path, kind, attrs, given).value;
              PutAt(fs, now, path, given.value) && given.value in now && now[given.value] == Leaf(kind, 1, attrs)
  {
    hide Tree, Resolve, Find, NameOk, PutAt, Vacant, Room;
    if Room(fs, path) {
      RoomIs(fs, path);
      if given.Ok? {
        CreatePuts(fs, path, kind, attrs, given);
        MakeDirPuts(fs, path, attrs, given);
      }
    }
  }

  /** A hard link's entry: another name for what an entry before it left. */
  method PutAgain(v: Volume, target: Path, path: Path) returns (r: Result<()>, ghost i: nat, ghost clear: Fs)
    requires Tree(v.nodes)
    modifies v
    ensures r.Ok? ==> Tree(v.nodes)
    ensures r.Ok? ==> && SweptAt(old(v.nodes), clear, path) && Room(clear, path) && PutAt(clear, v.nodes, path, i)
                      && Resolve(clear, target) == Some(i) && i in v.nodes && !DirAt(clear, target)
    ensures Room(old(v.nodes), path) && Resolve(old(v.nodes), target).Some? && !DirAt(old(v.nodes), target) ==>
              && (r.Err? ==> Shortage(r.error))
              && (r.Ok? ==> Resolve(old(v.nodes), target) == Some(i) && PutAt(old(v.nodes), v.nodes, path, i) && i in v.nodes)
              && (Affords(v.layout, old(v.Now()), path, 0, 0) ==> r.Ok? && Afforded(v.layout, old(v.Now()), path, 0, 0, None, v.Now()))
  {
    hide Tree, Find, Resolve, Link, Room, SweptAt, PutAt, Vacant, DirAt, HasRoom, NothingHidden;
    ghost var s := v.Now();
    if Room(s.nodes, path) {
      RoomIs(s.nodes, path);
      if Resolve(s.nodes, target).Some? && !DirAt(s.nodes, target) {
        LinkPuts(s.nodes, target, path);
      }
    }
    i := 0;
    var cleared := Replace(v, path);
    clear := v.nodes;
    SweptTree(s.nodes, clear, path);
    if cleared.Err? {
      return cleared, 0, clear;
    }
    if Room(s.nodes, path) && Affords(v.layout, s, path, 0, 0) {
      AffordsRoom(v.layout, s, v.Now(), path, 0, 0);
    }
    var room := v.AskRoom(path);
    var linked := v.HardLink(target, path, room);
    if linked.Err? {
      return Err(linked.error), 0, clear;
    }
    MadeInRoom(clear, path, Fifo, [], LINK_ATTRS, Err(NotFound), Fifo, target);
    LinkPuts(clear, target, path);
    LinkEffect(clear, target, path);
    i := Resolve(clear, target).value;
    r := Ok(());
  }

  lemma {:induction false} InitOf(dest: Path, rel: Path)
    requires rel != []
    ensures dest + rel != [] && Init(dest + rel) == dest + Init(rel) && Last(dest + rel) == Last(rel)
  {
  }

  /** Everything is in place for an entry: its directory, and what it links to; its own name is free. */
  ghost predicate Ready(fs: Fs, dest: Path, item: Item) {
    && item.path != [] && Room(fs, dest + item.path)
    && (item.what.Again? ==> Resolve(fs, dest + item.what.target).Some? && !DirAt(fs, dest + item.what.target))
  }

  /** What an entry takes is there for it. */
  predicate ItemAffords(layout: Layout, s: Standing, dest: Path, item: Item)
    requires 0 < layout.blockSize
  {
    Affords(layout, s, dest + item.path, ItemBlocks(layout, item), ItemInodes(item))
  }

  predicate ItemAfforded(layout: Layout, s: Standing, dest: Path, item: Item, i: nat, t: Standing)
    requires 0 < layout.blockSize
  {
    Afforded(layout, s, dest + item.path, ItemBlocks(layout, item), ItemInodes(item), if item.what.Folder? then Some(i) else None, t)
  }

  /**
   What one entry does: the way to it is laid, what was at its path goes, and it is
   put there; only a directory's entry leaves a directory that is there as it is.
   */
  ghost predicate Unpacked(fs: Fs, laid: Fs, clear: Fs, now: Fs, dest: Path, item: Item, i: nat) {
    var path := dest + item.path;
    && item.path != [] && (if |item.path| > 1 then Laid(fs, laid, dest + Init(item.path)) else laid == fs)
    && if item.what.Folder? && DirAt(laid, path) then now == laid
       else && SweptAt(laid, clear, path) && Room(clear, path) && PutAt(clear, now, path, i) && Stands(clear, now, i, dest, item)
            && (item.what.Again? ==> !DirAt(clear, dest + item.what.target))
  }

  /**
   Unpack one entry. Where its place is ready it is put there and nothing else
   changes, unless the disk runs short; and it does not where what the entry
   takes is there.
   */
  method UnpackOne(v: Volume, dest: Path, item: Item) returns (r: Result<()>, ghost i: nat, ghost laid: Fs, ghost clear: Fs)
    requires Tree(v.nodes) && 0 < v.layout.blockSize
    modifies v
    ensures r.Ok? ==> Tree(v.nodes)
    ensures item.path == [] ==> r.Ok? && v.nodes == old(v.nodes)
    ensures r.Ok? && item.path != [] ==> Unpacked(old(v.nodes), laid, clear, v.nodes, dest, item, i)
    ensures Ready(old(v.nodes), dest, item) ==>
              && (r.Err? ==> Shortage(r.error))
              && (r.Ok? ==> PutAt(old(v.nodes), v.nodes, dest + item.path, i) && Stands(old(v.nodes), v.nodes, i, dest, item))
    ensures Ready(old(v.nodes), dest, item) && ItemAffords(v.layout, old(v.Now()), dest, item) ==>
              r.Ok? && ItemAfforded(v.layout, old(v.Now()), dest, item, i, v.Now())
  {
    hide Tree, Find, Resolve, Room, PutAt, DirAt, Affords, Afforded, Layout.BlocksOf, SweptAt, Laid;
    laid, clear := v.nodes, v.nodes;
    if item.path == [] {
      return Ok(()), 0, laid, clear;
    }
    ghost var start := v.nodes;
    if Room(start, dest + item.path) {
      RoomIs(start, dest + item.path);
    }
    InitOf(dest, item.path);
    if |item.path| > 1 {
      // The directory it is to be in comes first.
      var made := MkdirAll(v, dest + Init(item.path), 0);
      if made.Err? {
        return made, 0, laid, clear;
      }
      laid := v.nodes;
    }
    match item.what {
      case Folder => r, i, clear := PutFolder(v, dest + item.path, item.attrs);
      case Content(kind) => r, i, clear := PutContent(v, dest + item.path, kind, AttrsFor(item));
      case Again(target) => r, i, clear := PutAgain(v, dest + target, dest + item.path);
    }
  }

  // ---- directories' attributes, set last ----

  /** Put an entry before the first that is no deeper. */
  function InsertDeep(item: Item, items: seq<Item>): seq<Item> {
    if items == [] || |items[0].path| <= |item.path| then [item] + items else [items[0]] + InsertDeep(item, items[1..])
  }

  /** Deepest first; those as deep as each other in the order they came. */
  function DeepFirst(items: seq<Item>): seq<Item> {
    if items == [] then [] else InsertDeep(items[0], DeepFirst(items[1..]))
  }

  lemma {:induction false} InsertDeepHas(item: Item, items: seq<Item>, x: Item)
    requires x in InsertDeep(item, items)
    ensures x == item || x in items
  {
    if items != [] && |item.path| < |items[0].path| && x != items[0] {
      InsertDeepHas(item, items[1..], x);
    }
  }

  lemma {:induction false} DeepFirstHas(items: seq<Item>, x: Item)
    requires x in DeepFirst(items)
    ensures x in items
  {
    if items != [] {
      InsertDeepHas(items[0], DeepFirst(items[1..]), x);
      if x != items[0] {
        DeepFirstHas(items[1..], x);
      }
    }
  }

  ghost predicate AttrsSet(fs: Fs, dest: Path, item: Item) {
    Resolve(fs, dest + item.path).Some? && NodeAt(fs, dest + item.path) in fs && fs[NodeAt(fs, dest + item.path)].attrs == item.attrs
  }

  /** Nothing has changed but attributes. */
  ghost predicate Reattributed(fs: Fs, now: Fs) {
    now.Keys == fs.Keys && forall i :: i in fs ==> now[i] == fs[i].(attrs := now[i].attrs)
  }

  lemma {:induction false} OtherAttrs(fs: Fs, i: nat, attrs: Attrs)
    requires Tree(fs) && i in fs
    ensures Tree(fs[i := fs[i].(attrs := attrs)])
  {
    hide CountOk, ChildOk, Rooted, NamesOf, SubDirs;
    SameShape(fs, fs[i := fs[i].(attrs := attrs)]);
  }

  /** Set the mode and owner of each directory unpacked, deepest first. */
  method ApplyAttrs(v: Volume, dest: Path, deferred: seq<Item>) returns (r: Result<()>)
    requires Tree(v.nodes)
    modifies v
    ensures r.Ok? ==> Tree(v.nodes)
    ensures r.Ok? ==> Reattributed(old(v.nodes), v.nodes)
    ensures (forall e :: e in deferred ==> AttrsSet(old(v.nodes), dest, e)) ==> r.Ok? && v.nodes == old(v.nodes)
  {
    hide Tree, Find, Resolve, AttrsSet;
    var order := DeepFirst(deferred);
    ghost var same := forall e :: e in deferred ==> AttrsSet(v.nodes, dest, e);
    for k := 0 to |order|
      invariant Tree(v.nodes) && (same ==> v.nodes == old(v.nodes)) && Reattributed(old(v.nodes), v.nodes)
    {
      var e := order[k];
      DeepFirstHas(deferred, e);
      if same {
        AlreadySet(v.nodes, dest, e);
      }
      var inum :- Lookup(v.nodes, dest + e.path);
      LookedUp(v.nodes, dest + e.path, inum);
      ghost var fs := v.nodes;
      v.nodes := v.nodes[inum := v.nodes[inum].(attrs := v.nodes[inum].attrs.(mode := e.attrs.mode))];
      v.nodes := v.nodes[inum := v.nodes[inum].(attrs := v.nodes[inum].attrs.(uid := e.attrs.uid, gid := e.attrs.gid))];
      assert v.nodes == fs[inum := fs[inum].(attrs := e.attrs)];
      OtherAttrs(fs, inum, e.attrs);
    }
    r := Ok(());
  }

  lemma {:induction false} LookedUp(fs: Fs, p: Path, i: nat)
    requires Tree(fs) && Lookup(fs, p) == Ok(i)
    ensures i in fs
  {
    hide Tree, Find;
    ResolvesIn(fs, p, i);
  }

  lemma {:induction false} AlreadySet(fs: Fs, dest: Path, e: Item)
    requires AttrsSet(fs, dest, e)
    ensures Lookup(fs, dest + e.path).Ok? && Lookup(fs, dest + e.path).value in fs
    ensures var i := Lookup(fs, dest + e.path).value; fs[i := fs[i].(attrs := e.attrs)] == fs
  {
    hide Find;
  }
}
