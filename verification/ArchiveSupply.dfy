/**
 What is enough for a packed tree to be unpacked (src/volume.rs:934-1080), and
 that it stays enough entry by entry.
 */
module ArchiveSupply {
  import opened Base
  import opened Namespace
  import opened NameOps
  import opened DiskAnswers
  import opened Removal
  import opened ArchiveWalk
  import opened ArchivePack
  import opened ArchiveNeeds
  import opened ArchiveUnpack
  import opened ArchiveCopy

  /** The inodes some entries take. */
  function InodesFor(items: seq<Item>): nat {
    if items == [] then 0 else ItemInodes(items[0]) + InodesFor(items[1..])
  }

  /** The blocks some entries take, if each of them may cost its directory so many. */
  function BlocksFor(layout: Layout, items: seq<Item>, span: nat): nat
    requires 0 < layout.blockSize
  {
    if items == [] then 0
    else layout.takes(span) + layout.takes(ItemBlocks(layout, items[0])) + BlocksFor(layout, items[1..], span)
  }

  /** The most blocks a directory of the copy comes to have: one of so many to begin with, and of so many names. */
  function Widest(span: nat, most: nat): nat {
    span + 2 * most
  }

  /** An entry the volume can hold: its contents are not too long, and a link's target is no longer than a block. */
  predicate ItemFits(layout: Layout, item: Item)
    requires 0 < layout.blockSize
  {
    && ItemBlocks(layout, item) <= layout.mostBlocks
    && (item.what.Content? && item.what.kind.Symlink? ==> |item.what.kind.target| <= layout.blockSize)
  }

  /** Every file and every directory of what is packed is one the volume can hold. */
  ghost predicate Holds(layout: Layout, src: Fs, items: seq<Item>, span: nat, most: nat) {
    && layout.Valid() && 1 <= span && Widest(span, most) <= layout.mostBlocks && most <= layout.mostNames
    && (forall d :: Names(src, d) <= most) && (forall k :: 0 <= k < |items| ==> ItemFits(layout, items[k]))
  }

  /** The copy's directories are known to have few enough blocks, and enough is free for the entries from k on. */
  ghost predicate Provided(layout: Layout, src: Fs, dest: Path, items: seq<Item>, s: Standing, k: nat, span: nat, most: nat) {
    && Holds(layout, src, items, span, most) && k <= |items|
    && (forall q: Path :: DirAt(s.nodes, dest + q) ==> SpanOk(s, NodeAt(s.nodes, dest + q), span))
    && InodesFor(items[k..]) <= s.inodes && BlocksFor(layout, items[k..], Widest(span, most)) <= s.blocks
  }

  predicate SpanOk(s: Standing, d: nat, span: nat) {
    d in s.spans && s.spans[d] <= Widest(span, Names(s.nodes, d))
  }

  /**
   Enough is free: an inode for each entry that needs one and each directory on
   the way; blocks for all contents, for each directory, and for each name put in
   one; and no directory, file or index larger than can be held. The directory
   unpacked to, if it is there, has at most `span` blocks, and none of those
   packed has more than `most` names.
   */
  ghost predicate Supplied(layout: Layout, src: Fs, dest: Path, items: seq<Item>, s: Standing, span: nat, most: nat) {
    && Holds(layout, src, items, span, most)
    && InodesFor(items) + |dest| <= s.inodes
    && BlocksFor(layout, items, Widest(span, most)) + |dest| * StepCost(layout, Widest(span, most)) <= s.blocks
    && if EmptyAt(s.nodes, dest) then NodeAt(s.nodes, dest) in s.spans && s.spans[NodeAt(s.nodes, dest)] <= span
       else 3 <= Widest(span, most) && 1 <= layout.mostNames && Roomy(layout, s, dest, Widest(span, most))
  }

  ghost predicate Enough(layout: Layout, src: Fs, dest: Path, items: seq<Item>, s: Standing) {
    exists span: nat, most: nat :: Supplied(layout, src, dest, items, s, span, most)
  }

  /** In the copy a directory never has more names than the one it is a copy of; before its next name, fewer. */
  lemma {:induction false} FewerNames(src: Fs, root: Path, start: Fs, fs: Fs, dest: Path, k: nat)
    requires Copied(src, root, start, fs, dest, k) && k < |Paths(src, root)|
    ensures var rel := RelAt(src, root, k);
            rel != [] && Names(fs, NodeAt(fs, Init(dest + rel))) + 1 <= Names(src, NodeAt(src, Init(Paths(src, root)[k])))
  {
    hide Tree, Find, Resolve, Paths, Shared, Alike, Apart, EntriesAt, DirAt;
    var rel, p := RelAt(src, root, k), Paths(src, root)[k];
    DirReady(src, root, start, fs, dest, k);
    ParentBefore(src, root, k);
    NameFree(src, root, start, fs, dest, k);
    InitOf(dest, rel);
    InitOf(root, rel);
    var d, e := NodeAt(fs, Init(dest + rel)), NodeAt(src, Init(p));
    DirHas(fs, Init(dest + rel));
    DirHas(src, Init(p));
    forall n | n in EntriesAt(fs, d) ensures n in EntriesAt(src, e) {
      CopiedName(src, root, start, fs, dest, k, Init(rel), n);
    }
    PathAt(src, root, k);
    ResolveMore(src, Init(p), Last(p));
    ResolveMore(fs, Init(dest + rel), Last(rel));
    SplitLast(dest + rel);
    SplitLast(p);
    assert EntriesAt(fs, d).Keys + {Last(rel)} <= EntriesAt(src, e).Keys;
    SubsetFewer(EntriesAt(fs, d).Keys + {Last(rel)}, EntriesAt(src, e).Keys);
  }

  lemma {:induction false} DirHas(fs: Fs, p: Path)
    requires DirAt(fs, p)
    ensures Resolve(fs, p) == Some(NodeAt(fs, p))
  {
    hide Resolve;
  }

  lemma {:induction false} CopiedName(src: Fs, root: Path, start: Fs, fs: Fs, dest: Path, k: nat, at: Path, n: Name)
    requires Copied(src, root, start, fs, dest, k) && DirAt(fs, dest + at) && DirAt(src, root + at)
    requires n in EntriesAt(fs, NodeAt(fs, dest + at))
    ensures n in EntriesAt(src, NodeAt(src, root + at))
  {
    hide Tree, Find, Resolve, Paths, Shared, Alike, Apart, EntriesAt, DirAt;
    DirHas(fs, dest + at);
    DirHas(src, root + at);
    ResolveMore(fs, dest + at, n);
    assert dest + at + [n] == dest + (at + [n]) && root + at + [n] == root + (at + [n]);
    var j :| 0 <= j < k && RelAt(src, root, j) == at + [n];
    PathAt(src, root, j);
    CopyAt(src, root, start, fs, dest, k, j);
    ResolveMore(src, root + at, n);
  }

  lemma {:induction false} SpreadsTo(span: nat, had: nat, names: nat, most: nat)
    requires 1 <= span && had <= Widest(span, names) && names + 1 <= most
    ensures Spread(had, names) <= Widest(span, names + 1) <= Widest(span, most)
  {
  }

  lemma {:induction false} NextCosts(layout: Layout, items: seq<Item>, k: nat, span: nat)
    requires k < |items| && 0 < layout.blockSize
    ensures InodesFor(items[k..]) == ItemInodes(items[k]) + InodesFor(items[k + 1..])
    ensures BlocksFor(layout, items[k..], span) == layout.takes(span) + layout.takes(ItemBlocks(layout, items[k])) + BlocksFor(layout, items[k + 1..], span)
  {
    assert items[k..][1..] == items[k + 1..];
  }

  /** What the next entry takes is there. */
  lemma {:induction false} NextAffords(layout: Layout, src: Fs, root: Path, start: Fs, dest: Path, items: seq<Item>, s: Standing, k: nat, span: nat, most: nat)
    requires PackOf(src, root, items) && k < |items| && Copied(src, root, start, s.nodes, dest, k)
    requires Provided(layout, src, dest, items, s, k, span, most)
    ensures ItemAffords(layout, s, dest, items[k])
  {
    hide Tree, Find, Resolve, Paths, Copied, DirAt, EntriesAt, Layout.BlocksOf, ItemBlocks;
    var rel := RelAt(src, root, k);
    DirReady(src, root, start, s.nodes, dest, k);
    FewerNames(src, root, start, s.nodes, dest, k);
    NextPath(src, root, start, s.nodes, dest, items, k);
    InitOf(dest, rel);
    var d := NodeAt(s.nodes, Init(dest + rel));
    DirHas(s.nodes, Init(dest + rel));
    LookupIs(s.nodes, Init(dest + rel), d);
    assert SpanOk(s, d, span);
    SpreadsTo(span, s.spans[d], Names(s.nodes, d), most);
    NextCosts(layout, items, k, Widest(span, most));
  }

  lemma {:induction false} NextPath(src: Fs, root: Path, start: Fs, fs: Fs, dest: Path, items: seq<Item>, k: nat)
    requires PackOf(src, root, items) && k < |items| && Copied(src, root, start, fs, dest, k)
    ensures k < |Paths(src, root)| && items[k].path == RelAt(src, root, k)
  {
    hide Tree, Find, Resolve, Paths, Copied, DirAt, NamesOk;
    PathAt(src, root, k);
    ItemRel(src, root, k);
  }

  /** A directory of the copy after an entry is put there: one made by it, or one there before, which has one name more if it went in it. */
  lemma {:induction false} DirsAfter(fs: Fs, now: Fs, dest: Path, item: Item, i: nat, q: Path)
    requires Tree(fs) && PutAt(fs, now, dest + item.path, i) && Stands(fs, now, i, dest, item) && Ready(fs, dest, item) && DirAt(now, dest + q)
    ensures var d, x := NodeAt(fs, Init(dest + item.path)), NodeAt(now, dest + q);
            if dest + q == dest + item.path then item.what.Folder? && x == i && Names(now, x) >= 0 && i != d
            else DirAt(fs, dest + q) && NodeAt(fs, dest + q) == x && x != i && Names(now, x) == Names(fs, x) + if x == d then 1 else 0
  {
    hide Tree, Find, Resolve;
    var path := dest + item.path;
    var d, x := NodeAt(fs, Init(path)), NodeAt(now, dest + q);
    RoomIs(fs, path);
    if dest + q == path {
      if item.what.Again? {
        ResolvesIn(fs, dest + item.what.target, i);
      }
    } else {
      assert Resolve(now, dest + q) == Resolve(fs, dest + q);
      ResolvesIn(fs, dest + q, x);
      if x == d {
        assert Last(path) !in EntriesAt(fs, d);
        OneMoreName(EntriesAt(fs, d), Last(path), i);
      }
    }
  }

  lemma {:induction false} OneMoreName(m: map<Name, nat>, n: Name, i: nat)
    requires n !in m
    ensures |m[n := i]| == |m| + 1
  {
    assert m[n := i].Keys == m.Keys + {n};
  }

  /** Directories of the copy keep to their bounds. */
  lemma {:induction false} SpansAfter(layout: Layout, dest: Path, item: Item, s: Standing, t: Standing, i: nat, span: nat)
    requires Tree(s.nodes) && PutAt(s.nodes, t.nodes, dest + item.path, i) && Stands(s.nodes, t.nodes, i, dest, item) && Ready(s.nodes, dest, item)
    requires dest + item.path != [] && 1 <= span && 0 < layout.blockSize && ItemAfforded(layout, s, dest, item, i, t)
    requires forall q: Path :: DirAt(s.nodes, dest + q) ==> SpanOk(s, NodeAt(s.nodes, dest + q), span)
    requires SpanOk(s, NodeAt(s.nodes, Init(dest + item.path)), span)
    ensures forall q: Path :: DirAt(t.nodes, dest + q) ==> SpanOk(t, NodeAt(t.nodes, dest + q), span)
  {
    hide Tree, Find, Resolve, DirAt, EntriesAt, Layout.BlocksOf, ItemBlocks, PutAt, Stands, Ready, Names, ItemAfforded, NodeAt;
    var path := dest + item.path;
    var d := NodeAt(s.nodes, Init(path));
    DirOf(layout, dest, item, s, t, i);
    forall q: Path | DirAt(t.nodes, dest + q) ensures SpanOk(t, NodeAt(t.nodes, dest + q), span) {
      DirsAfter(s.nodes, t.nodes, dest, item, i, q);
      if dest + q != path {
        assert SpanOk(s, NodeAt(s.nodes, dest + q), span);
      }
    }
  }

  /** Which bounds change: the directory the entry went in may be wider, and one made is of one block. */
  lemma {:induction false} DirOf(layout: Layout, dest: Path, item: Item, s: Standing, t: Standing, i: nat)
    requires dest + item.path != [] && Ready(s.nodes, dest, item) && 0 < layout.blockSize && ItemAfforded(layout, s, dest, item, i, t)
    ensures var d := NodeAt(s.nodes, Init(dest + item.path));
            && d in s.spans && d in t.spans && (i != d ==> t.spans[d] == Spread(s.spans[d], Names(s.nodes, d)))
            && (forall x :: x != d && x != i && x in s.spans ==> x in t.spans && t.spans[x] == s.spans[x])
            && (item.what.Folder? ==> i in t.spans && t.spans[i] == 1)
  {
    hide Find, Resolve, Names, Spread, NodeAt;
    RoomIs(s.nodes, dest + item.path);
  }

  /** And it is enough for those after it. */
  lemma {:induction false} ProvidedNext(layout: Layout, src: Fs, root: Path, start: Fs, dest: Path, items: seq<Item>, s: Standing, t: Standing, k: nat, i: nat, span: nat, most: nat)
    requires PackOf(src, root, items) && k < |items| && Copied(src, root, start, s.nodes, dest, k)
    requires Provided(layout, src, dest, items, s, k, span, most) && Ready(s.nodes, dest, items[k])
    requires PutAt(s.nodes, t.nodes, dest + items[k].path, i) && Stands(s.nodes, t.nodes, i, dest, items[k])
    requires ItemAfforded(layout, s, dest, items[k], i, t)
    ensures Provided(layout, src, dest, items, t, k + 1, span, most)
  {
    hide Tree, Find, Resolve, Paths, Copied, DirAt, EntriesAt, Layout.BlocksOf, ItemBlocks, PutAt, Stands, PackOf, Ready, NodeAt, SpanOk;
    CopiedTree(src, root, start, s.nodes, dest, k);
    NextPath(src, root, start, s.nodes, dest, items, k);
    var rel := RelAt(src, root, k);
    DirReady(src, root, start, s.nodes, dest, k);
    FewerNames(src, root, start, s.nodes, dest, k);
    InitOf(dest, rel);
    var d := NodeAt(s.nodes, Init(dest + rel));
    assert SpanOk(s, d, span);
    SpansAfter(layout, dest, items[k], s, t, i, span);
    Leaves(layout, dest, items[k], s, t, i, span, most);
    NextCosts(layout, items, k, Widest(span, most));
  }

  lemma {:induction false} Leaves(layout: Layout, dest: Path, item: Item, s: Standing, t: Standing, i: nat, span: nat, most: nat)
    requires dest + item.path != [] && Ready(s.nodes, dest, item) && layout.Valid() && ItemAfforded(layout, s, dest, item, i, t) && 1 <= span
    requires var d := NodeAt(s.nodes, Init(dest + item.path)); SpanOk(s, d, span) && Names(s.nodes, d) + 1 <= most
    ensures s.inodes <= t.inodes + ItemInodes(item)
    ensures s.blocks <= t.blocks + layout.takes(Widest(span, most)) + layout.takes(ItemBlocks(layout, item))
  {
    hide Find, Resolve, Names, NodeAt, ItemBlocks, Layout.BlocksOf;
    RoomIs(s.nodes, dest + item.path);
    var d := NodeAt(s.nodes, Init(dest + item.path));
    SpreadsTo(span, s.spans[d], Names(s.nodes, d), most);
  }

  lemma {:induction false} CopiedTree(src: Fs, root: Path, start: Fs, now: Fs, dest: Path, k: nat)
    requires Copied(src, root, start, now, dest, k)
    ensures Tree(now) && Tree(src) && DirAt(src, root) && k <= |Paths(src, root)|
  {
    hide Tree, DirAt, Paths, Reached, Alike, Shared, Apart;
  }

  /** Enough before the way is laid leaves enough for the entries. */
  lemma {:induction false} ProvidedStart(layout: Layout, src: Fs, root: Path, dest: Path, items: seq<Item>, s: Standing, t: Standing, span: nat, most: nat)
    requires PackOf(src, root, items) && Tree(t.nodes) && EmptyAt(t.nodes, dest) && Supplied(layout, src, dest, items, s, span, most)
    requires if EmptyAt(s.nodes, dest) then t == s
             else Resolve(s.nodes, dest) == None && OnTheWay(layout, s, t, dest, |dest|, Widest(span, most))
    ensures Provided(layout, src, dest, items, t, 0, span, most)
  {
    hide Tree, Find, Resolve, PackOf, BlocksFor, InodesFor, StepCost, ItemBlocks;
    assert items[0..] == items && dest[..|dest|] == dest;
    assert DirAt(t.nodes, dest);
    forall q: Path | DirAt(t.nodes, dest + q) ensures SpanOk(t, NodeAt(t.nodes, dest + q), span) {
      if q != [] {
        PrefixOf(dest, q);
        ThroughName(t.nodes, dest, dest + q);
      } else {
        assert dest + q == dest;
      }
    }
  }
}
