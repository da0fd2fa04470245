/** What a copy made by packing and unpacking comes to (src/volume.rs:1258-1275): its names, its inodes, and what packing it again gives. */
module ArchiveMirror {
  import opened Base
  import opened Namespace
  import opened NameOps
  import opened ArchiveWalk
  import opened ArchivePack
  import opened ArchiveCopy

  // ---- what an archive holds ----

  /** A hard link's entry names an earlier entry, one with the contents of the same inode. */
  lemma {:induction false} LinksNameContents(fs: Fs, root: Path, k: nat)
    requires Tree(fs) && DirAt(fs, root) && k < |Paths(fs, root)|
    ensures From(fs, root, k) in fs
    ensures var item := ItemAt(fs, root, Paths(fs, root), k);
            item.what.Again? ==> exists j :: 0 <= j < k && From(fs, root, j) == From(fs, root, k) && From(fs, root, j) in fs
                                   && ItemAt(fs, root, Paths(fs, root), j).path == item.what.target
                                   && ItemAt(fs, root, Paths(fs, root), j).what.Content?
  {
    hide Tree, Find, Resolve, Paths;
    PathAt(fs, root, k);
    var a, paths := From(fs, root, k), Paths(fs, root);
    if ItemAt(fs, root, paths, k).what.Again? {
      var j := Earlier(fs, paths, a, k).value;
      NoneEarlier(fs, paths, a, k);
      PathAt(fs, root, j);
      assert From(fs, root, j) == a && ItemAt(fs, root, paths, j).what.Content?;
    }
  }

  lemma {:induction false} NoneEarlier(fs: Fs, paths: seq<Path>, i: nat, k: nat)
    requires k <= |paths|
    ensures var e := Earlier(fs, paths, i, k); e.Some? ==> Earlier(fs, paths, i, e.value) == None
  {
    hide NodeAt;
  }

  /** The contents of an inode are in the archive once. */
  lemma {:induction false} ContentsOnce(fs: Fs, root: Path, j: nat, k: nat)
    requires Tree(fs) && DirAt(fs, root) && j < k < |Paths(fs, root)| && From(fs, root, j) == From(fs, root, k) && From(fs, root, k) in fs
    ensures !ItemAt(fs, root, Paths(fs, root), k).what.Content?
  {
    hide Tree, Paths;
  }

  // ---- the copy ----

  /** Every path under one root and the other leads somewhere, or neither does; to a copy; and two to one inode, or neither two. */
  ghost predicate Mirrors(src: Fs, root: Path, now: Fs, dest: Path) {
    && (forall q: Path :: Resolve(now, dest + q).Some? <==> Resolve(src, root + q).Some?)
    && (forall q: Path :: q != [] && Resolve(src, root + q).Some? ==>
          NodeAt(src, root + q) in src && NodeAt(now, dest + q) in now && CopyOf(src[NodeAt(src, root + q)], now[NodeAt(now, dest + q)]))
    && (forall p: Path, q: Path :: p != [] && q != [] && Resolve(src, root + p).Some? && Resolve(src, root + q).Some? ==>
          (NodeAt(src, root + p) == NodeAt(src, root + q) <==> NodeAt(now, dest + p) == NodeAt(now, dest + q)))
  }

  /** A path under the root, packed. */
  lemma {:induction false} PackedAs(src: Fs, root: Path, q: Path) returns (j: nat)
    requires Tree(src) && DirAt(src, root) && q != [] && Resolve(src, root + q).Some?
    ensures j < |Paths(src, root)| && RelAt(src, root, j) == q && Paths(src, root)[j] == root + q
  {
    hide Tree, Find, Resolve, Paths;
    PrefixOf(root, q);
    assert root + q != root by {
      assert |root + q| > |root|;
    }
    PathsExact(src, root, root + q);
    j :| 0 <= j < |Paths(src, root)| && Paths(src, root)[j] == root + q;
    PathAt(src, root, j);
    SameRel(root, q, RelAt(src, root, j));
  }

  lemma {:induction false} SameNames(src: Fs, root: Path, start: Fs, now: Fs, dest: Path, q: Path)
    requires Tree(src) && DirAt(src, root) && Copied(src, root, start, now, dest, |Paths(src, root)|)
    ensures Resolve(now, dest + q).Some? <==> Resolve(src, root + q).Some?
  {
    hide Tree, Find, Resolve, Paths, Alike, Shared, RelAt;
    if q == [] {
      assert dest + q == dest && root + q == root;
    } else {
      if Resolve(src, root + q).Some? {
        var j := PackedAs(src, root, q);
      }
      if Resolve(now, dest + q).Some? {
        var j :| 0 <= j < |Paths(src, root)| && RelAt(src, root, j) == q;
        CopyAt(src, root, start, now, dest, |Paths(src, root)|, j);
        PathAt(src, root, j);
      }
    }
  }

  /** Once every entry is unpacked the copy mirrors what was packed. */
  lemma {:induction false} CopyMirrors(src: Fs, root: Path, start: Fs, now: Fs, dest: Path)
    requires Tree(src) && DirAt(src, root) && Copied(src, root, start, now, dest, |Paths(src, root)|)
    ensures Mirrors(src, root, now, dest)
  {
    hide Tree, Find, Resolve, Paths, Copied, NodeAt, DirAt, CopyOf;
    var n := |Paths(src, root)|;
    forall q: Path ensures Resolve(now, dest + q).Some? <==> Resolve(src, root + q).Some? {
      SameNames(src, root, start, now, dest, q);
    }
    forall q: Path | q != [] && Resolve(src, root + q).Some?
      ensures NodeAt(src, root + q) in src && NodeAt(now, dest + q) in now && CopyOf(src[NodeAt(src, root + q)], now[NodeAt(now, dest + q)])
    {
      var j := PackedAs(src, root, q);
      CopyAt(src, root, start, now, dest, n, j);
    }
    forall p: Path, q: Path | p != [] && q != [] && Resolve(src, root + p).Some? && Resolve(src, root + q).Some?
      ensures NodeAt(src, root + p) == NodeAt(src, root + q) <==> NodeAt(now, dest + p) == NodeAt(now, dest + q)
    {
      var i := PackedAs(src, root, p);
      var j := PackedAs(src, root, q);
      SharedAt(src, root, start, now, dest, n, i, j);
    }
  }

  // ---- packing the copy ----

  /** There is one way to put paths in order. */
  lemma {:induction false} OneRise(a: seq<Path>, b: seq<Path>)
    requires Rises(a) && Rises(b) && forall p :: p in a <==> p in b
    ensures a == b
  {
    hide PathLt;
    HeadIn(a);
    HeadIn(b);
    if a == [] {
    } else {
      var i, j :| 0 <= i < |b| && b[i] == a[0] && 0 <= j < |a| && a[j] == b[0];
      if i > 0 && j > 0 {
        PathLtOneWay(a[0], b[0]);
      }
      assert a[0] == b[0];
      forall p ensures p in a[1..] <==> p in b[1..] {
        RestHas(a, p);
        RestHas(b, p);
      }
      OneRise(a[1..], b[1..]);
      assert a == [a[0]] + a[1..] && b == [b[0]] + b[1..];
    }
  }

  lemma {:induction false} HeadIn(a: seq<Path>)
    ensures a == [] || a[0] in a
  {
  }

  lemma {:induction false} RestHas(a: seq<Path>, p: Path)
    requires Rises(a) && a != []
    ensures p in a[1..] <==> p in a && p != a[0]
  {
    hide PathLt;
    if p in a[1..] {
      var k :| 0 <= k < |a[1..]| && a[1..][k] == p;
      assert a[k + 1] == p;
      NotBeforeItself(p);
    }
    if p in a && p != a[0] {
      var k :| 0 <= k < |a| && a[k] == p;
      assert a[1..][k - 1] == p;
    }
  }

  /** The paths packed, from the top. */
  ghost function Rels(fs: Fs, root: Path): seq<Path>
    requires Tree(fs) && DirAt(fs, root)
  {
    seq(|Paths(fs, root)|, j requires 0 <= j < |Paths(fs, root)| => RelAt(fs, root, j))
  }

  lemma {:induction false} RelLt(root: Path, p: Path, q: Path)
    requires PathLt(root + p, root + q)
    ensures PathLt(p, q)
  {
    hide NameLe;
    if root == [] {
      assert root + p == p && root + q == q;
    } else {
      assert (root + p)[1..] == root[1..] + p && (root + q)[1..] == root[1..] + q;
      RelLt(root[1..], p, q);
    }
  }

  lemma {:induction false} RelsAre(fs: Fs, root: Path)
    requires Tree(fs) && DirAt(fs, root)
    ensures Rises(Rels(fs, root)) && forall q :: q in Rels(fs, root) <==> q != [] && Resolve(fs, root + q).Some?
  {
    hide Tree, Find, Resolve, Paths, PathLt, DirAt;
    PathsRise(fs, root);
    var rels := Rels(fs, root);
    forall i, j | 0 <= i < j < |rels| ensures PathLt(rels[i], rels[j]) {
      PathAt(fs, root, i);
      PathAt(fs, root, j);
      RelLt(root, rels[i], rels[j]);
    }
    forall q ensures q in rels <==> q != [] && Resolve(fs, root + q).Some? {
      if q in rels {
        var j :| 0 <= j < |rels| && rels[j] == q;
        PathAt(fs, root, j);
        assert root + [] == root;
      }
      if q != [] && Resolve(fs, root + q).Some? {
        var j := PackedAs(fs, root, q);
        assert rels[j] == q;
      }
    }
  }

  lemma {:induction false} SameRels(src: Fs, root: Path, now: Fs, dest: Path)
    requires Tree(src) && DirAt(src, root) && Tree(now) && DirAt(now, dest) && Mirrors(src, root, now, dest)
    ensures |Paths(now, dest)| == |Paths(src, root)|
    ensures forall k :: 0 <= k < |Paths(src, root)| ==> RelAt(now, dest, k) == RelAt(src, root, k)
  {
    hide Tree, Find, Resolve, Paths, Rises, DirAt, RelAt;
    RelsAre(src, root);
    RelsAre(now, dest);
    OneRise(Rels(now, dest), Rels(src, root));
    forall k | 0 <= k < |Paths(src, root)| ensures RelAt(now, dest, k) == RelAt(src, root, k) {
      assert Rels(now, dest)[k] == Rels(src, root)[k];
    }
  }

  /** The k-th path of a mirror leads to a copy of what the k-th path leads to, and to one inode with another when they do. */
  lemma {:induction false} MirrorAt(src: Fs, root: Path, now: Fs, dest: Path, k: nat, j: nat)
    requires Tree(src) && DirAt(src, root) && Tree(now) && DirAt(now, dest) && Mirrors(src, root, now, dest)
    requires k < |Paths(src, root)| == |Paths(now, dest)| && j < |Paths(src, root)|
    ensures From(src, root, k) in src && From(now, dest, k) in now && CopyOf(src[From(src, root, k)], now[From(now, dest, k)])
    ensures From(src, root, j) == From(src, root, k) <==> From(now, dest, j) == From(now, dest, k)
  {
    hide Tree, Find, Resolve, Paths, CopyOf, DirAt, NodeAt;
    SameRels(src, root, now, dest);
    PathAt(src, root, k);
    PathAt(src, root, j);
    PathAt(now, dest, k);
    PathAt(now, dest, j);
    assert root + [] == root;
    var p, q := RelAt(src, root, k), RelAt(src, root, j);
    assert p != [] && q != [] && Resolve(src, root + p).Some? && Resolve(src, root + q).Some?;
    assert Paths(now, dest)[k] == dest + p && Paths(now, dest)[j] == dest + q;
    assert Paths(src, root)[k] == root + p && Paths(src, root)[j] == root + q;
  }

  lemma {:induction false} SameEarlier(src: Fs, root: Path, now: Fs, dest: Path, k: nat)
    requires Tree(src) && DirAt(src, root) && Tree(now) && DirAt(now, dest) && Mirrors(src, root, now, dest)
    requires k < |Paths(src, root)| == |Paths(now, dest)|
    ensures Earlier(now, Paths(now, dest), From(now, dest, k), k) == Earlier(src, Paths(src, root), From(src, root, k), k)
  {
    hide Tree, Find, Resolve, Paths, CopyOf, DirAt, NodeAt, Mirrors, Earlier;
    var a, b := Earlier(src, Paths(src, root), From(src, root, k), k), Earlier(now, Paths(now, dest), From(now, dest, k), k);
    if a.Some? {
      MirrorAt(src, root, now, dest, k, a.value);
      assert From(now, dest, a.value) == From(now, dest, k);
    }
    if b.Some? {
      MirrorAt(src, root, now, dest, k, b.value);
      assert From(src, root, b.value) == From(src, root, k);
    }
  }

  /** Packed again, a copy gives the archive it was made from; only symbolic links' attributes may be others. */
  lemma {:induction false} PackedAgain(src: Fs, root: Path, now: Fs, dest: Path, k: nat)
    requires Tree(src) && DirAt(src, root) && Tree(now) && DirAt(now, dest) && Mirrors(src, root, now, dest)
    ensures |Paths(now, dest)| == |Paths(src, root)|
    ensures k < |Paths(src, root)| ==> From(src, root, k) in src && From(now, dest, k) in now
    ensures k < |Paths(src, root)| ==>
              var item, again := ItemAt(src, root, Paths(src, root), k), ItemAt(now, dest, Paths(now, dest), k);
              again.path == item.path && again.what == item.what
              && (again.attrs == item.attrs || (src[From(src, root, k)].Leaf? && src[From(src, root, k)].kind.Symlink?))
  {
    hide Tree, Find, Resolve, Paths, DirAt, NodeAt, Mirrors, Earlier;
    SameRels(src, root, now, dest);
    if k < |Paths(src, root)| {
      MirrorAt(src, root, now, dest, k, k);
      SameEarlier(src, root, now, dest, k);
      var e := Earlier(src, Paths(src, root), From(src, root, k), k);
      assert e.Some? ==> RelAt(now, dest, e.value) == RelAt(src, root, e.value);
      assert RelAt(now, dest, k) == RelAt(src, root, k);
    }
  }
}
