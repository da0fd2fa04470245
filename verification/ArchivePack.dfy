/**
 Packing a tree into an archive's entries (src/volume.rs:1258-1362): every name in
 order, a file's contents with its first name and a hard link for each other.
 */
module ArchivePack {
  import opened Base
  import opened Namespace
  import opened NameOps
  import opened Removal
  import opened ArchiveWalk

  /** What an entry stands for: a directory, a file with its contents, or another name of an entry before it. */
  datatype What = Folder | Content(kind: Kind) | Again(target: Path)

  /** An entry of an archive; its path is from the top of what is packed. */
  datatype Item = Item(path: Path, what: What, attrs: Attrs)

  function Rel(root: Path, p: Path): Path {
    if |root| <= |p| then p[|root|..] else []
  }

  /** Everything under the root, in order. */
  ghost function Paths(fs: Fs, root: Path): seq<Path>
    requires Tree(fs) && DirAt(fs, root)
  {
    DownWithin(fs, root);
    Walk(fs, root, Down(fs, NodeAt(fs, root)))
  }

  /** The paths packed are those under the root that lead somewhere. */
  lemma {:induction false} PathsExact(fs: Fs, root: Path, q: Path)
    requires Tree(fs) && DirAt(fs, root)
    ensures q in Paths(fs, root) <==> Prefix(root, q) && q != root && Resolve(fs, q).Some?
  {
    hide Tree, Find, Resolve, Down, Dirs, Walk, Under;
    DownWithin(fs, root);
    WalkExact(fs, root, Down(fs, NodeAt(fs, root)), q);
    if Resolve(fs, q).Some? {
      UnderDown(fs, root, q);
    }
  }

  /** They are packed in order. */
  lemma {:induction false} PathsRise(fs: Fs, root: Path)
    requires Tree(fs) && DirAt(fs, root)
    ensures Rises(Paths(fs, root))
  {
    hide Tree, Resolve, Dirs, Walk, PathLt;
    DownWithin(fs, root);
    WalkRises(fs, root, Down(fs, NodeAt(fs, root)));
  }

  lemma {:induction false} NotBeforeItself(p: Path)
    ensures !PathLt(p, p)
  {
    hide NameLe;
    if p != [] {
      NotBeforeItself(p[1..]);
    }
  }

  /** Where a path packed leads. */
  lemma {:induction false} PathAt(fs: Fs, root: Path, k: nat)
    requires Tree(fs) && DirAt(fs, root) && k < |Paths(fs, root)|
    ensures var p := Paths(fs, root)[k];
            && Prefix(root, p) && p != root && p != [] && Resolve(fs, p) == Some(NodeAt(fs, p)) && NodeAt(fs, p) in fs && p == root + Rel(root, p)
  {
    hide Tree, Find, Resolve, Paths;
    var p := Paths(fs, root)[k];
    assert p in Paths(fs, root);
    PathsExact(fs, root, p);
    ResolvesIn(fs, p, NodeAt(fs, p));
  }

  /** No path is packed twice. */
  lemma {:induction false} PathsDiffer(fs: Fs, root: Path, j: nat, k: nat)
    requires Tree(fs) && DirAt(fs, root) && j < k < |Paths(fs, root)|
    ensures Paths(fs, root)[j] != Paths(fs, root)[k]
  {
    hide Tree, Paths, PathLt;
    PathsRise(fs, root);
    NotBeforeItself(Paths(fs, root)[k]);
  }

  // ---- entries ----

  /** The first of k paths to lead to an inode. */
  ghost function Earlier(fs: Fs, paths: seq<Path>, i: nat, k: nat): (r: Option<nat>)
    requires k <= |paths|
    ensures r.Some? ==> r.value < k && NodeAt(fs, paths[r.value]) == i && forall l :: 0 <= l < r.value ==> NodeAt(fs, paths[l]) != i
    ensures r.None? ==> forall l :: 0 <= l < k ==> NodeAt(fs, paths[l]) != i
  {
    if k == 0 then None
    else
      match Earlier(fs, paths, i, k - 1)
      case Some(j) => Some(j)
      case None => if NodeAt(fs, paths[k - 1]) == i then Some(k - 1) else None
  }

  /** The entry for the k-th path. */
  ghost function ItemAt(fs: Fs, root: Path, paths: seq<Path>, k: nat): Item
    requires k < |paths| && NodeAt(fs, paths[k]) in fs
  {
    var i, path := NodeAt(fs, paths[k]), Rel(root, paths[k]);
    match fs[i]
    case Dir(_, _, _, attrs) => Item(path, Folder, attrs)
    case Leaf(kind, _, attrs) =>
      match Earlier(fs, paths, i, k)
      case Some(j) => Item(path, Again(Rel(root, paths[j])), attrs)
      case None => Item(path, Content(kind), attrs)
  }

  /** A file with two names has two links. */
  lemma {:induction false} TwoNames(fs: Fs, p: Path, q: Path, i: nat)
    requires Tree(fs) && p != q && p != [] && q != [] && Resolve(fs, p) == Some(i) == Resolve(fs, q) && i in fs && fs[i].Leaf?
    ensures 1 < fs[i].links
  {
    hide CountOk, ChildOk, Rooted, Find, Resolve, EntriesAt;
    SplitLast(p);
    SplitLast(q);
    ResolveMore(fs, Init(p), Last(p));
    ResolveMore(fs, Init(q), Last(q));
    var d, e := Resolve(fs, Init(p)).value, Resolve(fs, Init(q)).value;
    CountAt(fs, i);
    InNames(fs, i, d, Last(p));
    InNames(fs, i, e, Last(q));
    NamedIn(fs, d, Last(p));
    NamedIn(fs, e, Last(q));
    hide NamesOf;
    if (d, Last(p)) == (e, Last(q)) {
      OnePath(fs, Init(p), Init(q), d);
    } else {
      TwoIn(NamesOf(fs, i), (d, Last(p)), (e, Last(q)));
    }
  }

  lemma {:induction false} TwoIn<T>(s: set<T>, a: T, b: T)
    requires a in s && b in s && a != b
    ensures 1 < |s|
  {
    var t := s - {a};
    assert b in t && |t| == |s| - 1;
    assert |t - {b}| == |t| - 1;
  }

  /** What the walk has seen: for every file with more links than one, the first name it had. */
  ghost predicate SeenOk(fs: Fs, root: Path, paths: seq<Path>, k: nat, seen: map<nat, Path>)
    requires k <= |paths|
  {
    forall i :: (i in seen <==> i in fs && fs[i].Leaf? && 1 < fs[i].links && Earlier(fs, paths, i, k).Some?)
           && (i in seen ==> seen[i] == Rel(root, paths[Earlier(fs, paths, i, k).value]))
  }

  /** A file met again has been seen. */
  lemma {:induction false} MetAgain(fs: Fs, root: Path, k: nat, seen: map<nat, Path>)
    requires Tree(fs) && DirAt(fs, root) && k < |Paths(fs, root)| && SeenOk(fs, root, Paths(fs, root), k, seen)
    ensures var i := NodeAt(fs, Paths(fs, root)[k]);
            i in fs && (i in seen <==> fs[i].Leaf? && Earlier(fs, Paths(fs, root), i, k).Some?)
                    && (i in seen ==> seen[i] == Rel(root, Paths(fs, root)[Earlier(fs, Paths(fs, root), i, k).value]))
  {
    hide Tree, Resolve, Paths;
    var i := NodeAt(fs, Paths(fs, root)[k]);
    PathAt(fs, root, k);
    if fs[i].Leaf? && Earlier(fs, Paths(fs, root), i, k).Some? {
      var j := Earlier(fs, Paths(fs, root), i, k).value;
      PathAt(fs, root, j);
      PathsDiffer(fs, root, j, k);
      TwoNames(fs, Paths(fs, root)[j], Paths(fs, root)[k], i);
      assert i in seen;
    }
  }

  /** One path more, noted if it is the first of a file with others. */
  function Note(seen: map<nat, Path>, i: nat, node: Node, path: Path): map<nat, Path> {
    if i !in seen && node.Leaf? && 1 < node.links then seen[i := path] else seen
  }

  lemma {:induction false} SeenMore(fs: Fs, root: Path, paths: seq<Path>, k: nat, seen: map<nat, Path>)
    requires k < |paths| && SeenOk(fs, root, paths, k, seen) && NodeAt(fs, paths[k]) in fs
    ensures SeenOk(fs, root, paths, k + 1, Note(seen, NodeAt(fs, paths[k]), fs[NodeAt(fs, paths[k])], Rel(root, paths[k])))
  {
    hide NodeAt, Rel;
  }

  ghost predicate PackedSoFar(fs: Fs, root: Path, paths: seq<Path>, out: seq<Item>) {
    |out| <= |paths| && forall k :: 0 <= k < |out| ==> NodeAt(fs, paths[k]) in fs && out[k] == ItemAt(fs, root, paths, k)
  }

  /** The entry for one path, its inode found. */
  method MakeItem(fs: Fs, root: Path, p: Path, inum: nat, seen: map<nat, Path>, ghost k: nat) returns (item: Item)
    requires Tree(fs) && DirAt(fs, root) && k < |Paths(fs, root)| && p == Paths(fs, root)[k] && inum == NodeAt(fs, p) && inum in fs
    requires SeenOk(fs, root, Paths(fs, root), k, seen)
    ensures item == ItemAt(fs, root, Paths(fs, root), k)
    ensures (item.what.Folder? <==> fs[inum].Dir?) && item.path == Rel(root, p)
  {
    hide Tree, Paths, NodeAt, DirAt, SeenOk, Earlier;
    MetAgain(fs, root, k, seen);
    var node := fs[inum];
    if inum in seen {
      return Item(Rel(root, p), Again(seen[inum]), node.attrs);
    }
    match node {
      case Dir(_, _, _, attrs) => item := Item(Rel(root, p), Folder, attrs);
      case Leaf(kind, _, attrs) => item := Item(Rel(root, p), Content(kind), attrs);
    }
  }

  /** Where the packing stands. */
  ghost predicate Packing(fs: Fs, root: Path, stack: seq<Level>, out: seq<Item>, seen: map<nat, Path>) {
    && Tree(fs) && DirAt(fs, root) && Stacked(fs, stack) && PackedSoFar(fs, root, Paths(fs, root), out)
    && Pending(fs, stack) == Paths(fs, root)[|out|..] && SeenOk(fs, root, Paths(fs, root), |out|, seen)
  }

  lemma {:induction false} PackStart(fs: Fs, root: Path)
    requires Tree(fs) && DirAt(fs, root)
    ensures Packing(fs, root, [Level(root, Down(fs, NodeAt(fs, root)))], [], map[])
  {
    hide Tree, DirAt, NodeAt, Down, Walk, Among, Paths, Pending, Stacked, PackedSoFar, SeenOk, Resolve;
    var top := Level(root, Down(fs, NodeAt(fs, root)));
    PathsIs(fs, root);
    PackNone(fs, root);
    PendingPush(fs, [], top);
    assert [] + [top] == [top];
    assert Paths(fs, root) + [] == Paths(fs, root)[0..];
    Packed(fs, root, [top], [], map[]);
  }

  lemma {:induction false} PathsIs(fs: Fs, root: Path)
    requires Tree(fs) && DirAt(fs, root)
    ensures Among(fs, root, Down(fs, NodeAt(fs, root))) && Paths(fs, root) == Walk(fs, root, Down(fs, NodeAt(fs, root)))
  {
    hide Tree, DirAt, NodeAt, Down, Walk, Among;
    DownWithin(fs, root);
  }

  lemma {:induction false} PackNone(fs: Fs, root: Path)
    requires Tree(fs) && DirAt(fs, root)
    ensures Stacked(fs, []) && Pending(fs, []) == [] && PackedSoFar(fs, root, Paths(fs, root), []) && SeenOk(fs, root, Paths(fs, root), 0, map[])
  {
    hide Tree, DirAt, NodeAt, Paths, Walk;
  }

  lemma {:induction false} PackUp(fs: Fs, root: Path, stack: seq<Level>, out: seq<Item>, seen: map<nat, Path>)
    requires Packing(fs, root, stack, out, seen) && stack != [] && stack[|stack| - 1].rest == []
    ensures Packing(fs, root, stack[..|stack| - 1], out, seen)
  {
    hide Tree, DirAt, NodeAt, Paths, PackedSoFar, SeenOk, Among;
  }

  /** The next path to pack. */
  lemma {:induction false} PackNext(fs: Fs, root: Path, stack: seq<Level>, out: seq<Item>, seen: map<nat, Path>)
    requires Packing(fs, root, stack, out, seen) && stack != [] && stack[|stack| - 1].rest != []
    ensures var top := stack[|stack| - 1];
            var p := top.dir + [top.rest[|top.rest| - 1]];
            && |out| < |Paths(fs, root)| && p == Paths(fs, root)[|out|] && Lookup(fs, p) == Ok(NodeAt(fs, p)) && NodeAt(fs, p) in fs
            && (DirAt(fs, p) <==> fs[NodeAt(fs, p)].Dir?)
            && var now := stack[..|stack| - 1] + [Popped(top.dir, top.rest)]
                          + (if DirAt(fs, p) then [Level(p, Down(fs, NodeAt(fs, p)))] else []);
               Stacked(fs, now) && Pending(fs, now) == Paths(fs, root)[|out| + 1..]
  {
    hide Tree, Resolve, Find, Lookup, DirAt, NodeAt, Paths, PackedSoFar, SeenOk, Among, Walk, Down, Stacked, Pending;
    var top := stack[|stack| - 1];
    var p := top.dir + [top.rest[|top.rest| - 1]];
    var below, k := stack[..|stack| - 1], |out|;
    PackingIs(fs, root, stack, out, seen);
    TopOf(fs, stack);
    var short := below + [Popped(top.dir, top.rest)];
    if DirAt(fs, p) {
      PopDir(fs, below, top.dir, top.rest, p);
      NextOf(Paths(fs, root), k, p, Pending(fs, short + [Level(p, Down(fs, NodeAt(fs, p)))]));
    } else {
      PopLeaf(fs, below, top.dir, top.rest, p);
      assert short + [] == short;
      NextOf(Paths(fs, root), k, p, Pending(fs, short));
    }
    hide Popped, Packing;
    PathAt(fs, root, k);
    LookupIs(fs, p, NodeAt(fs, p));
    DirAtIs(fs, p);
  }

  lemma {:induction false} TopOf(fs: Fs, stack: seq<Level>)
    requires Stacked(fs, stack) && stack != []
    ensures var top, below := stack[|stack| - 1], stack[..|stack| - 1];
            Among(fs, top.dir, top.rest) && Stacked(fs, below) && stack == below + [Level(top.dir, top.rest)]
  {
    hide Among;
  }

  lemma {:induction false} NextOf(paths: seq<Path>, k: nat, p: Path, more: seq<Path>)
    requires k <= |paths| && paths[k..] == [p] + more
    ensures k < |paths| && paths[k] == p && paths[k + 1..] == more
  {
    assert paths[k..][0] == p;
    assert paths[k..][1..] == paths[k + 1..];
  }

  lemma {:induction false} DirAtIs(fs: Fs, p: Path)
    requires Resolve(fs, p) == Some(NodeAt(fs, p))
    ensures DirAt(fs, p) <==> IsDir(fs, NodeAt(fs, p))
  {
    hide Resolve;
  }

  lemma {:induction false} PackingIs(fs: Fs, root: Path, stack: seq<Level>, out: seq<Item>, seen: map<nat, Path>)
    requires Packing(fs, root, stack, out, seen)
    ensures Tree(fs) && DirAt(fs, root) && |out| <= |Paths(fs, root)| && PackedSoFar(fs, root, Paths(fs, root), out)
    ensures SeenOk(fs, root, Paths(fs, root), |out|, seen)
    ensures stack == [] ==> |out| == |Paths(fs, root)|
  {
    hide Tree, DirAt, Paths, SeenOk, Stacked;
  }

  /** One entry more. */
  lemma {:induction false} PackedMore(fs: Fs, root: Path, paths: seq<Path>, out: seq<Item>, seen: map<nat, Path>)
    requires PackedSoFar(fs, root, paths, out) && |out| < |paths| && NodeAt(fs, paths[|out|]) in fs && SeenOk(fs, root, paths, |out|, seen)
    ensures var k := |out|;
            var i := NodeAt(fs, paths[k]);
            && PackedSoFar(fs, root, paths, out + [ItemAt(fs, root, paths, k)])
            && SeenOk(fs, root, paths, k + 1, Note(seen, i, fs[i], ItemAt(fs, root, paths, k).path))
  {
    SeenMore(fs, root, paths, |out|, seen);
    hide NodeAt, Rel, Earlier, Note, SeenOk;
  }

  lemma {:induction false} Packed(fs: Fs, root: Path, stack: seq<Level>, out: seq<Item>, seen: map<nat, Path>)
    requires Tree(fs) && DirAt(fs, root) && Stacked(fs, stack) && PackedSoFar(fs, root, Paths(fs, root), out) && |out| <= |Paths(fs, root)|
    requires Pending(fs, stack) == Paths(fs, root)[|out|..] && SeenOk(fs, root, Paths(fs, root), |out|, seen)
    ensures Packing(fs, root, stack, out, seen)
  {
    hide Tree, DirAt, Paths, SeenOk, Stacked, Pending, PackedSoFar;
  }

  /** The next path packed: where that leaves the stack. */
  ghost function Onward(fs: Fs, stack: seq<Level>): seq<Level>
    requires stack != [] && stack[|stack| - 1].rest != []
  {
    var top := stack[|stack| - 1];
    var p := top.dir + [top.rest[|top.rest| - 1]];
    stack[..|stack| - 1] + [Popped(top.dir, top.rest)] + (if DirAt(fs, p) then [Level(p, Down(fs, NodeAt(fs, p)))] else [])
  }

  lemma {:induction false} PackStep(fs: Fs, root: Path, stack: seq<Level>, out: seq<Item>, seen: map<nat, Path>)
    requires Packing(fs, root, stack, out, seen) && stack != [] && stack[|stack| - 1].rest != []
    ensures |out| < |Paths(fs, root)| && NodeAt(fs, Paths(fs, root)[|out|]) in fs
    ensures var i, item := NodeAt(fs, Paths(fs, root)[|out|]), ItemAt(fs, root, Paths(fs, root), |out|);
            Packing(fs, root, Onward(fs, stack), out + [item], Note(seen, i, fs[i], item.path))
  {
    hide Tree, DirAt, NodeAt, Down, Note, ItemAt, Paths, Stacked, Pending, PackedSoFar, SeenOk, Resolve, Packing;
    PackNext(fs, root, stack, out, seen);
    PackingIs(fs, root, stack, out, seen);
    PackedMore(fs, root, Paths(fs, root), out, seen);
    var i, item := NodeAt(fs, Paths(fs, root)[|out|]), ItemAt(fs, root, Paths(fs, root), |out|);
    Packed(fs, root, Onward(fs, stack), out + [item], Note(seen, i, fs[i], item.path));
  }

  /** Pack everything under a directory, without recursion. */
  method PackInto(fs: Fs, root: Path) returns (r: Result<seq<Item>>)
    requires Tree(fs)
    ensures r.Ok? <==> DirAt(fs, root)
    ensures r.Ok? ==> |r.value| == |Paths(fs, root)| && PackedSoFar(fs, root, Paths(fs, root), r.value)
  {
    var at :- Lookup(fs, root);
    if !IsDir(fs, at) {
      return Err(NotADirectory);
    }
    assert DirAt(fs, root) && NodeAt(fs, root) == at;
    hide Tree, Find, Lookup, DirAt, NodeAt, ItemAt, Down, Among, Walk, Dirs, Packing, Paths, Stacked, Pending, PackedSoFar, SeenOk, Resolve;
    ghost var paths := Paths(fs, root);
    PackStart(fs, root);
    var names := SortedChildren(fs, at);
    var stack: seq<Level>, seen: map<nat, Path> := [Level(root, names)], map[];
    var out: seq<Item> := [];
    while stack != []
      invariant Packing(fs, root, stack, out, seen)
      decreases |paths| - |out|, |stack|
    {
      var top := |stack| - 1;
      var dir, rest := stack[top].dir, stack[top].rest;
      if rest == [] {
        // Nothing is left of this directory.
        PackUp(fs, root, stack, out, seen);
        stack := stack[..top];
        continue;
      }
      var p := dir + [rest[|rest| - 1]];
      PackNext(fs, root, stack, out, seen);
      PackingIs(fs, root, stack, out, seen);
      PackStep(fs, root, stack, out, seen);
      stack := stack[..top] + [Popped(dir, rest)];
      var inum := Lookup(fs, p).value;
      var item := MakeItem(fs, root, p, inum, seen, |out|);
      seen := Note(seen, inum, fs[inum], item.path);
      out := out + [item];
      if item.what.Folder? {
        var inside := SortedChildren(fs, inum);
        stack := stack + [Level(p, inside)];
      } else {
        assert stack + [] == stack;
      }
    }
    PackingIs(fs, root, stack, out, seen);
    r := Ok(out);
  }
}
