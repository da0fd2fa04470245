/**
 What an archive leaves to be seen, whatever was there before (src/volume.rs:900-1111):
 each entry changes what is at some paths, the next changes that, and so on.
 */
module ArchiveLayers {
  import opened Base
  import opened Namespace
  import opened NameOps
  import opened NameVolume
  import opened Removal
  import opened ArchiveWalk
  import opened ArchivePack
  import opened ArchiveWhiteouts
  import opened ArchiveUnpack

  /** What is at a path. */
  datatype Look = ADir | AFile(kind: Kind)

  type View = Path -> Option<Look>

  function LookOf(n: Node): Look {
    match n case Dir(_, _, _, _) => ADir case Leaf(kind, _, _) => AFile(kind)
  }

  function LookAt(fs: Fs, q: Path): Option<Look> {
    match Resolve(fs, q)
    case None => None
    case Some(i) => if i in fs then Some(LookOf(fs[i])) else None
  }

  function ViewOf(fs: Fs): View {
    (q: Path) => LookAt(fs, q)
  }

  ghost predicate Shows(fs: Fs, view: View) {
    forall q :: LookAt(fs, q) == view(q)
  }

  // ---- what an entry does to what is seen ----

  /** Directories where the way to a path was missing. */
  function Way(view: View, path: Path): View {
    (q: Path) => if Prefix(q, path) && view(q) == None then Some(ADir) else view(q)
  }

  function Gone(view: View, path: Path): View {
    (q: Path) => if Prefix(path, q) then None else view(q)
  }

  function Hollow(view: View, dir: Path): View {
    (q: Path) => if Prefix(dir, q) && q != dir then None else view(q)
  }

  function With(view: View, path: Path, look: Option<Look>): View {
    (q: Path) => if q == path then look else view(q)
  }

  /** A marker takes away; it is not itself there. */
  function Marked(view: View, dir: Path, name: Name): View
    requires Begins(name, MARK)
  {
    if name == OPAQUE then Hollow(view, dir)
    else if Begins(name, AUFS) then view
    else Gone(view, Victim(dir, name))
  }

  /** Any other entry is there, in place of what was; a directory's leaves a directory as it is. */
  function Entered(view: View, dest: Path, item: Item): View
    requires item.path != []
  {
    var path := dest + item.path;
    var laid := if |item.path| > 1 then Way(view, dest + Init(item.path)) else view;
    match item.what
    case Folder => if laid(path) == Some(ADir) then laid else With(Gone(laid, path), path, Some(ADir))
    case Content(kind) => With(Gone(laid, path), path, Some(AFile(kind)))
    case Again(target) => With(Gone(laid, path), path, Gone(laid, path)(dest + target))
  }

  predicate IsMarker(item: Item, layer: bool) {
    layer && item.path != [] && Begins(Last(item.path), MARK)
  }

  function Obeyed(view: View, dest: Path, item: Item, layer: bool): View {
    if item.path == [] then view
    else if IsMarker(item, layer) then Marked(view, dest + Init(item.path), Last(item.path))
    else Entered(view, dest, item)
  }

  /** One entry after another. */
  function Layered(view: View, dest: Path, items: seq<Item>, layer: bool): View {
    if items == [] then view
    else Obeyed(Layered(view, dest, items[..|items| - 1], layer), dest, items[|items| - 1], layer)
  }

  // ---- what is unpacked is what is seen ----

  lemma {:induction false} NodeThere(fs: Fs, q: Path)
    requires Tree(fs) && Resolve(fs, q).Some?
    ensures Resolve(fs, q).value in fs
  {
    LookupSome(fs, q);
    ResolvesIn(fs, q, Resolve(fs, q).value);
  }

  lemma {:induction false} LookupSome(fs: Fs, q: Path)
    ensures Resolve(fs, q).Some? ==> Lookup(fs, q) == Ok(Resolve(fs, q).value)
  {
  }

  lemma {:induction false} WayShows(fs: Fs, now: Fs, path: Path, view: View)
    requires Tree(fs) && Laid(fs, now, path) && Shows(fs, view)
    ensures Shows(now, Way(view, path))
  {
    hide Tree, Resolve, EmptyAt;
    forall q ensures LookAt(now, q) == Way(view, path)(q) {
      assert view(q) == LookAt(fs, q);
      if Resolve(fs, q).Some? {
        NodeThere(fs, q);
      } else if Resolve(now, q).Some? {
        NodeThere(now, q);
      } else if Prefix(q, path) {
        FindSome(now, path, |q|);
        assert path[..|q|] == q;
      }
    }
  }

  lemma {:induction false} GoneShows(fs: Fs, now: Fs, path: Path, view: View)
    requires Tree(fs) && Tree(now) && OutsideKept(fs, now, path) && Remains(fs, now) && Shows(fs, view)
    requires forall q :: Prefix(path, q) ==> Resolve(now, q) == None
    ensures Shows(now, Gone(view, path))
  {
    hide Tree, Resolve;
    forall q ensures LookAt(now, q) == Gone(view, path)(q) {
      assert view(q) == LookAt(fs, q);
      if !Prefix(path, q) && Resolve(fs, q).Some? {
        NodeThere(fs, q);
        NodeThere(now, q);
      }
    }
  }

  lemma {:induction false} HollowShows(fs: Fs, now: Fs, dir: Path, view: View)
    requires Tree(fs) && Tree(now) && InsideOnly(fs, now, dir) && NothingIn(now, dir) && Remains(fs, now) && Shows(fs, view)
    ensures Shows(now, Hollow(view, dir))
  {
    hide Tree, Resolve;
    forall q ensures LookAt(now, q) == Hollow(view, dir)(q) {
      assert view(q) == LookAt(fs, q);
      if (!Prefix(dir, q) || q == dir) && Resolve(fs, q).Some? {
        NodeThere(fs, q);
        NodeThere(now, q);
      }
    }
  }

  lemma {:induction false} PutShows(fs: Fs, now: Fs, path: Path, i: nat, view: View)
    requires Tree(fs) && PutAt(fs, now, path, i) && i in now && Shows(fs, view)
    ensures Shows(now, With(view, path, Some(LookOf(now[i]))))
  {
    hide Tree, Resolve;
    forall q ensures LookAt(now, q) == With(view, path, Some(LookOf(now[i])))(q) {
      assert view(q) == LookAt(fs, q);
      if q != path && Resolve(fs, q).Some? {
        NodeThere(fs, q);
      }
    }
  }

  lemma {:induction false} SweptShows(fs: Fs, clear: Fs, path: Path, view: View)
    requires Tree(fs) && SweptAt(fs, clear, path) && Room(clear, path) && Shows(fs, view)
    ensures Tree(clear) && Shows(clear, Gone(view, path))
  {
    hide Tree, Resolve;
    forall q | Prefix(path, q) ensures Resolve(clear, q) == None {
      NowherePast(clear, path, q);
    }
    GoneShows(fs, clear, path, view);
  }

  /** An entry put where it goes. */
  lemma {:induction false} EntryShows(fs: Fs, laid: Fs, clear: Fs, now: Fs, dest: Path, item: Item, i: nat, view: View)
    requires Tree(fs) && Unpacked(fs, laid, clear, now, dest, item, i) && Shows(fs, view)
    ensures Shows(now, Entered(view, dest, item))
  {
    hide Tree, Resolve, Laid, SweptAt, Room, PutAt, Shows, Way, Gone, With;
    var path := dest + item.path;
    var seen := if |item.path| > 1 then Way(view, dest + Init(item.path)) else view;
    if |item.path| > 1 {
      WayShows(fs, laid, dest + Init(item.path), view);
      LaidIs(fs, laid, dest + Init(item.path));
    }
    assert Shows(laid, seen);
    ShowsAt(laid, seen, path);
    if item.what.Folder? && DirAt(laid, path) {
      return;
    }
    SweptShows(laid, clear, path, seen);
    PutShows(clear, now, path, i, Gone(seen, path));
    match item.what {
      case Folder =>
      case Content(_) =>
      case Again(target) =>
        ShowsAt(clear, Gone(seen, path), dest + target);
        PutLooks(clear, now, path, i, dest + target);
    }
  }

  lemma {:induction false} ShowsAt(fs: Fs, view: View, q: Path)
    requires Shows(fs, view) && Tree(fs)
    ensures view(q) == LookAt(fs, q) && (view(q) == Some(ADir) <==> DirAt(fs, q))
  {
    if Resolve(fs, q).Some? {
      NodeThere(fs, q);
    }
  }

  /** What a hard link names looks as it did. */
  lemma {:induction false} PutLooks(fs: Fs, now: Fs, path: Path, i: nat, target: Path)
    requires Tree(fs) && PutAt(fs, now, path, i) && Resolve(fs, target) == Some(i) && i in now
    ensures LookAt(fs, target) == Some(LookOf(now[i]))
  {
    NodeThere(fs, target);
  }

  /** A marker obeyed. */
  lemma {:induction false} MarkShows(fs: Fs, now: Fs, dir: Path, name: Name, view: View)
    requires Tree(fs) && Tree(now) && Begins(name, MARK) && Remains(fs, now) && Shows(fs, view)
    requires name == OPAQUE ==> InsideOnly(fs, now, dir) && NothingIn(now, dir)
    requires name != OPAQUE && Begins(name, AUFS) ==> now == fs
    requires !Begins(name, AUFS) ==> OutsideKept(fs, now, Victim(dir, name)) && forall q :: Prefix(Victim(dir, name), q) ==> Resolve(now, q) == None
    ensures Shows(now, Marked(view, dir, name))
  {
    hide Tree, Resolve, Shows, Remains, InsideOnly, NothingIn, OutsideKept;
    if name == OPAQUE {
      HollowShows(fs, now, dir, view);
    } else if !Begins(name, AUFS) {
      GoneShows(fs, now, Victim(dir, name), view);
    }
  }

  lemma {:induction false} AttrsShow(fs: Fs, now: Fs, view: View)
    requires Reattributed(fs, now) && Shows(fs, view)
    ensures Shows(now, view)
  {
    assert SameEntries(fs, now);
    hide Resolve;
    forall q ensures LookAt(now, q) == view(q) {
      SameEntriesResolve(fs, now, q);
      assert view(q) == LookAt(fs, q);
    }
  }

  // ---- what comes of it ----

  /** An entry that may change what is at a path that leads somewhere. */
  predicate Reaches(dest: Path, item: Item, layer: bool, q: Path) {
    item.path != [] &&
    if IsMarker(item, layer) then
      var dir, name := dest + Init(item.path), Last(item.path);
      if name == OPAQUE then Prefix(dir, q) && q != dir else !Begins(name, AUFS) && Prefix(Victim(dir, name), q)
    else Prefix(dest + item.path, q)
  }

  /** An entry that may make a path lead somewhere. */
  predicate Makes(dest: Path, item: Item, layer: bool, q: Path) {
    item.path != [] && !IsMarker(item, layer) && Prefix(q, dest + item.path)
  }

  lemma {:induction false} LayeredMore(view: View, dest: Path, a: seq<Item>, b: seq<Item>, layer: bool)
    ensures Layered(view, dest, a + b, layer) == Layered(Layered(view, dest, a, layer), dest, b, layer)
  {
    hide Obeyed;
    if b == [] {
      assert a + b == a;
    } else {
      var n := |b| - 1;
      assert (a + b)[..|a + b| - 1] == a + b[..n] && (a + b)[|a + b| - 1] == b[n];
      LayeredMore(view, dest, a, b[..n], layer);
    }
  }

  lemma {:induction false} LeftAlone(view: View, dest: Path, item: Item, layer: bool, q: Path)
    requires view(q).Some? && !Reaches(dest, item, layer, q)
    ensures Obeyed(view, dest, item, layer)(q) == view(q)
  {
  }

  lemma {:induction false} StaysNowhere(view: View, dest: Path, item: Item, layer: bool, q: Path)
    requires view(q) == None && !Makes(dest, item, layer, q)
    ensures Obeyed(view, dest, item, layer)(q) == None
  {
    if item.path != [] && !IsMarker(item, layer) {
      var path := dest + item.path;
      assert dest + Init(item.path) == path[..|path| - 1];
      assert Prefix(q, dest + Init(item.path)) ==> Prefix(q, path);
      assert q != path by {
        assert path[..|path|] == path;
      }
    }
  }

  /** What no entry reaches stays as it was. */
  lemma {:induction false} Untouched(view: View, dest: Path, items: seq<Item>, layer: bool, q: Path)
    requires view(q).Some? && forall k :: 0 <= k < |items| ==> !Reaches(dest, items[k], layer, q)
    ensures Layered(view, dest, items, layer)(q) == view(q)
  {
    hide Obeyed, Reaches;
    if items != [] {
      var n := |items| - 1;
      Untouched(view, dest, items[..n], layer, q);
      LeftAlone(Layered(view, dest, items[..n], layer), dest, items[n], layer, q);
    }
  }

  /** And where no entry makes anything there stays nothing. */
  lemma {:induction false} NothingMade(view: View, dest: Path, items: seq<Item>, layer: bool, q: Path)
    requires view(q) == None && forall k :: 0 <= k < |items| ==> !Makes(dest, items[k], layer, q)
    ensures Layered(view, dest, items, layer)(q) == None
  {
    hide Obeyed, Makes;
    if items != [] {
      var n := |items| - 1;
      NothingMade(view, dest, items[..n], layer, q);
      StaysNowhere(Layered(view, dest, items[..n], layer), dest, items[n], layer, q);
    }
  }

  /** The last entry to reach a path decides what is there: contents it brings, or nothing where it is a marker and none after makes anything. */
  lemma {:induction false} LastWins(view: View, dest: Path, before: seq<Item>, item: Item, after: seq<Item>, layer: bool, q: Path)
    requires item.path != []
    ensures !IsMarker(item, layer) && item.what.Content? && q == dest + item.path && (forall k :: 0 <= k < |after| ==> !Reaches(dest, after[k], layer, q)) ==>
              Layered(view, dest, before + [item] + after, layer)(q) == Some(AFile(item.what.kind))
    ensures IsMarker(item, layer) && Reaches(dest, item, layer, q) && (forall k :: 0 <= k < |after| ==> !Makes(dest, after[k], layer, q)) ==>
              Layered(view, dest, before + [item] + after, layer)(q) == None
  {
    LayeredMore(view, dest, before + [item], after, layer);
    LayeredMore(view, dest, before, [item], layer);
    var seen := Layered(view, dest, before, layer);
    var then_ := Obeyed(seen, dest, item, layer);
    assert [item][..0] == [];
    assert Layered(seen, dest, [item], layer) == then_;
    if !IsMarker(item, layer) && item.what.Content? && q == dest + item.path && forall k :: 0 <= k < |after| ==> !Reaches(dest, after[k], layer, q) {
      Untouched(then_, dest, after, layer, q);
    }
    if IsMarker(item, layer) && Reaches(dest, item, layer, q) && forall k :: 0 <= k < |after| ==> !Makes(dest, after[k], layer, q) {
      NothingMade(then_, dest, after, layer, q);
    }
  }
}
