/**
 Packing a tree and unpacking it somewhere empty (src/volume.rs:934-1080 and
 1258-1362): the copy has the same names, kinds, contents and hard links.
 */
module ArchiveCopy {
  import opened Base
  import opened Namespace
  import opened NameOps
  import opened VolumeNames
  import opened ArchiveWalk
  import opened ArchivePack
  import opened ArchiveUnpack

  // ---- the order of packing ----

  lemma {:induction false} PathLtOneWay(p: Path, q: Path)
    requires PathLt(p, q) && PathLt(q, p)
    ensures false
  {
    hide NameLe;
    if p != [] {
      NameLeTotal(p[0], q[0]);
      if p[0] == q[0] {
        PathLtOneWay(p[1..], q[1..]);
      }
    }
  }

  /** A path's directory is packed before it, unless it is the root. */
  lemma {:induction false} ParentBefore(src: Fs, root: Path, k: nat)
    requires Tree(src) && DirAt(src, root) && k < |Paths(src, root)|
    ensures var p := Paths(src, root)[k];
            p != [] && DirAt(src, Init(p)) && Prefix(root, Init(p))
            && (Init(p) != root ==> exists j :: 0 <= j < k && Paths(src, root)[j] == Init(p))
  {
    hide Tree, Find, Resolve, Paths, PathLt, EntriesAt;
    var paths := Paths(src, root);
    var p := paths[k];
    PathAt(src, root, k);
    SplitLast(p);
    ResolveMore(src, Init(p), Last(p));
    NamedIn(src, Resolve(src, Init(p)).value, Last(p));
    InitUnder(root, p);
    if Init(p) != root {
      PathsExact(src, root, Init(p));
      var j :| 0 <= j < |paths| && paths[j] == Init(p);
      PrefixLt(Init(p), p);
      PathsRise(src, root);
      NotAfter(paths, j, k);
    }
  }

  lemma {:induction false} NotAfter(paths: seq<Path>, j: nat, k: nat)
    requires Rises(paths) && j < |paths| && k < |paths| && PathLt(paths[j], paths[k])
    ensures j < k
  {
    hide PathLt;
    if j == k {
      NotBeforeItself(paths[k]);
    } else if k < j {
      PathLtOneWay(paths[j], paths[k]);
    }
  }

  lemma {:induction false} InitUnder(root: Path, p: Path)
    requires Prefix(root, p) && p != root && p != []
    ensures Prefix(root, Init(p)) && Prefix(Init(p), p) && Init(p) != p
  {
    assert Init(p)[..|root|] == p[..|root|];
  }

  // ---- what is copied so far ----

  /** The name the k-th path packed has from the top. */
  ghost function RelAt(src: Fs, root: Path, k: nat): Path
    requires Tree(src) && DirAt(src, root) && k < |Paths(src, root)|
  {
    Rel(root, Paths(src, root)[k])
  }

  ghost function From(src: Fs, root: Path, k: nat): nat
    requires Tree(src) && DirAt(src, root) && k < |Paths(src, root)|
  {
    NodeAt(src, Paths(src, root)[k])
  }

  /** A copy of a node: all of it but its place in the tree; a symbolic link's attributes are the usual ones. */
  ghost predicate CopyOf(a: Node, b: Node) {
    if a.Dir? then b.Dir? && b.attrs == a.attrs
    else b.Leaf? && b.kind == a.kind && b.attrs == if a.kind.Symlink? then LINK_ATTRS else a.attrs
  }

  /** The names copied are the first k. */
  ghost predicate Reached(src: Fs, root: Path, now: Fs, dest: Path, k: nat)
    requires Tree(src) && DirAt(src, root) && k <= |Paths(src, root)|
  {
    forall q: Path :: q != [] ==> (Resolve(now, dest + q).Some? <==> exists j :: 0 <= j < k && RelAt(src, root, j) == q)
  }

  /** Each is a copy of what it is named after, in an inode of its own. */
  ghost predicate Alike(src: Fs, root: Path, start: Fs, now: Fs, dest: Path, k: nat)
    requires Tree(src) && DirAt(src, root) && k <= |Paths(src, root)|
  {
    forall j :: 0 <= j < k ==>
      var a, b := From(src, root, j), NodeAt(now, dest + RelAt(src, root, j));
      a in src && b in now && b !in start && CopyOf(src[a], now[b])
  }

  /** Two names lead to one inode when they do in what is copied. */
  ghost predicate Shared(src: Fs, root: Path, now: Fs, dest: Path, k: nat)
    requires Tree(src) && DirAt(src, root) && k <= |Paths(src, root)|
  {
    forall i, j :: 0 <= i < k && 0 <= j < k ==>
      (From(src, root, i) == From(src, root, j) <==> NodeAt(now, dest + RelAt(src, root, i)) == NodeAt(now, dest + RelAt(src, root, j)))
  }

  /** Outside the destination nothing has changed. */
  ghost predicate Apart(start: Fs, now: Fs, dest: Path) {
    && DirAt(start, dest) && DirAt(now, dest) && NodeAt(now, dest) == NodeAt(start, dest) && NodeAt(start, dest) in now
    && (forall x :: x in start && x != NodeAt(start, dest) ==> x in now && now[x] == start[x])
    && (forall q :: !Prefix(dest, q) ==> Resolve(now, q) == Resolve(start, q))
  }

  ghost predicate Copied(src: Fs, root: Path, start: Fs, now: Fs, dest: Path, k: nat) {
    && Tree(src) && DirAt(src, root) && k <= |Paths(src, root)| && Tree(now)
    && Reached(src, root, now, dest, k) && Alike(src, root, start, now, dest, k) && Shared(src, root, now, dest, k) && Apart(start, now, dest)
  }

  lemma {:induction false} CopyStart(src: Fs, root: Path, start: Fs, dest: Path)
    requires Tree(src) && DirAt(src, root) && Tree(start) && EmptyAt(start, dest)
    ensures Copied(src, root, start, start, dest, 0)
  {
    hide Tree, Find, Resolve, Paths;
    forall q: Path | q != [] ensures Resolve(start, dest + q) == None {
      PrefixOf(dest, q);
      if Resolve(start, dest + q).Some? {
        assert dest + q != dest by {
          assert |dest + q| > |dest|;
        }
        ThroughName(start, dest, dest + q);
      }
    }
  }

  /** What one of the first k paths leads to in the copy. */
  lemma {:induction false} CopyAt(src: Fs, root: Path, start: Fs, now: Fs, dest: Path, k: nat, j: nat)
    requires Copied(src, root, start, now, dest, k) && j < k
    ensures var rel := RelAt(src, root, j);
            && rel != [] && Paths(src, root)[j] == root + rel && From(src, root, j) in src
            && Resolve(now, dest + rel) == Some(NodeAt(now, dest + rel)) && NodeAt(now, dest + rel) in now && NodeAt(now, dest + rel) !in start
            && CopyOf(src[From(src, root, j)], now[NodeAt(now, dest + rel)])
            && (DirAt(now, dest + rel) <==> src[From(src, root, j)].Dir?)
  {
    hide Tree, Find, Resolve, Paths, Shared, Apart;
    PathAt(src, root, j);
    var rel := RelAt(src, root, j);
    assert rel != [] by {
      assert root + [] == root;
    }
    assert Resolve(now, dest + rel).Some?;
  }

  // ---- the next entry ----

  /** Every name is one that can be given. */
  ghost predicate NamesOk(fs: Fs) {
    forall d, n :: n in EntriesAt(fs, d) ==> NameOk(n)
  }

  lemma {:induction false} LastNameOk(fs: Fs, p: Path)
    requires NamesOk(fs) && p != [] && Resolve(fs, p).Some?
    ensures NameOk(Last(p))
  {
    hide Find, Resolve, NameOk, EntriesAt;
    SplitLast(p);
    ResolveMore(fs, Init(p), Last(p));
  }

  /** The directory of the next entry is there. */
  lemma {:induction false} DirReady(src: Fs, root: Path, start: Fs, now: Fs, dest: Path, k: nat)
    requires Copied(src, root, start, now, dest, k) && k < |Paths(src, root)|
    ensures var rel := RelAt(src, root, k);
            && rel != [] && Paths(src, root)[k] == root + rel && DirAt(now, Init(dest + rel))
            && (NodeAt(now, Init(dest + rel)) == NodeAt(start, dest) || NodeAt(now, Init(dest + rel)) !in start)
  {
    hide Tree, Find, Resolve, Paths, Shared, Alike, Reached, DirAt, NodeAt;
    ApartIs(start, now, dest);
    PathAt(src, root, k);
    ParentBefore(src, root, k);
    var p, rel := Paths(src, root)[k], RelAt(src, root, k);
    assert root + [] == root && dest + [] == dest;
    InitOf(root, rel);
    InitOf(dest, rel);
    if Init(p) != root {
      var j :| 0 <= j < k && Paths(src, root)[j] == Init(p);
      CopyAt(src, root, start, now, dest, k, j);
      SameRel(root, Init(rel), RelAt(src, root, j));
      IsDirFrom(src, Init(p));
    } else {
      SameRel(root, Init(rel), []);
    }
  }

  lemma {:induction false} ApartIs(start: Fs, now: Fs, dest: Path)
    requires Apart(start, now, dest)
    ensures DirAt(now, dest) && NodeAt(now, dest) == NodeAt(start, dest)
  {
  }

  lemma {:induction false} SameRel(root: Path, a: Path, b: Path)
    requires root + a == root + b
    ensures a == b
  {
    assert (root + a)[|root|..] == a && (root + b)[|root|..] == b;
  }

  lemma {:induction false} IsDirFrom(fs: Fs, p: Path)
    requires DirAt(fs, p)
    ensures NodeAt(fs, p) in fs && fs[NodeAt(fs, p)].Dir?
  {
  }

  /** The next entry's name is free. */
  lemma {:induction false} NameFree(src: Fs, root: Path, start: Fs, now: Fs, dest: Path, k: nat)
    requires Copied(src, root, start, now, dest, k) && k < |Paths(src, root)| && RelAt(src, root, k) != []
    requires Paths(src, root)[k] == root + RelAt(src, root, k)
    ensures Resolve(now, dest + RelAt(src, root, k)) == None
    ensures forall j :: 0 <= j < k ==> RelAt(src, root, j) != RelAt(src, root, k)
  {
    hide Tree, Find, Resolve, Paths, Shared, Alike, Apart;
    forall j | 0 <= j < k ensures RelAt(src, root, j) != RelAt(src, root, k) {
      PathsDiffer(src, root, j, k);
      PathAt(src, root, j);
    }
    hide RelAt;
  }

  /** Everything is in place for the next entry. */
  lemma {:induction false} CopyReady(src: Fs, root: Path, start: Fs, now: Fs, dest: Path, k: nat)
    requires Copied(src, root, start, now, dest, k) && k < |Paths(src, root)| && NamesOk(src)
    ensures From(src, root, k) in src
    ensures Ready(now, dest, ItemAt(src, root, Paths(src, root), k))
  {
    hide Tree, Find, Resolve, Paths, Shared, Alike, Apart, Reached, DirAt, NodeAt, NameOk, NamesOk, Copied;
    assert Tree(src) && DirAt(src, root) by {
      CopiedIs(src, root, start, now, dest, k);
    }
    DirReady(src, root, start, now, dest, k);
    NameFree(src, root, start, now, dest, k);
    PathAt(src, root, k);
    var p, rel, item := Paths(src, root)[k], RelAt(src, root, k), ItemAt(src, root, Paths(src, root), k);
    LastNameOk(src, p);
    InitOf(root, rel);
    InitOf(dest, rel);
    if item.what.Again? {
      var j := Earlier(src, Paths(src, root), NodeAt(src, p), k).value;
      CopyAt(src, root, start, now, dest, k, j);
    }
  }

  lemma {:induction false} CopiedIs(src: Fs, root: Path, start: Fs, now: Fs, dest: Path, k: nat)
    requires Copied(src, root, start, now, dest, k)
    ensures Tree(src) && DirAt(src, root) && Tree(now) && k <= |Paths(src, root)| && Apart(start, now, dest)
  {
    hide Tree, DirAt, Apart, Paths;
  }

  // ---- one entry more ----

  /** What the entry put at the k-th path is, and what it is not. */
  ghost predicate Next(src: Fs, root: Path, start: Fs, fs: Fs, now: Fs, dest: Path, k: nat, i: nat) {
    && Copied(src, root, start, fs, dest, k) && k < |Paths(src, root)| && From(src, root, k) in src
    && PutAt(fs, now, dest + RelAt(src, root, k), i)
    && Stands(fs, now, i, dest, ItemAt(src, root, Paths(src, root), k))
  }

  /** The paths copied before lead where they led, and nothing they lead to looks different. */
  lemma {:induction false} StillAt(src: Fs, root: Path, start: Fs, fs: Fs, now: Fs, dest: Path, k: nat, i: nat, j: nat)
    requires Next(src, root, start, fs, now, dest, k, i) && j < k
    ensures NodeAt(now, dest + RelAt(src, root, j)) == NodeAt(fs, dest + RelAt(src, root, j))
    ensures var b := NodeAt(fs, dest + RelAt(src, root, j)); b in fs && b in now && SameLook(fs[b], now[b]) && b !in start
    ensures CopyOf(src[From(src, root, j)], fs[NodeAt(fs, dest + RelAt(src, root, j))])
    ensures NodeAt(now, dest + RelAt(src, root, k)) == i
  {
    hide Tree, Find, Resolve, Paths, Stands, DirAt, Copied, CopyOf;
    CopiedIs(src, root, start, fs, dest, k);
    DirReady(src, root, start, fs, dest, k);
    NameFree(src, root, start, fs, dest, k);
    CopyAt(src, root, start, fs, dest, k, j);
    if dest + RelAt(src, root, j) == dest + RelAt(src, root, k) {
      SameRel(dest, RelAt(src, root, j), RelAt(src, root, k));
    }
  }

  lemma {:induction false} NextReached(src: Fs, root: Path, start: Fs, fs: Fs, now: Fs, dest: Path, k: nat, i: nat)
    requires Next(src, root, start, fs, now, dest, k, i)
    ensures Reached(src, root, now, dest, k + 1)
  {
    hide Tree, Find, Resolve, Paths, Stands, DirAt, Shared, Alike, Apart, RelAt, Kept;
    var rel := RelAt(src, root, k);
    forall q: Path | q != [] ensures Resolve(now, dest + q).Some? <==> exists j :: 0 <= j < k + 1 && RelAt(src, root, j) == q {
      if dest + q == dest + rel {
        SameRel(dest, q, rel);
      }
    }
  }

  /** What the k-th path leads to in what is copied: the same as an earlier path does, exactly when the entry is a hard link. */
  lemma {:induction false} SourceOf(src: Fs, root: Path, start: Fs, fs: Fs, now: Fs, dest: Path, k: nat, i: nat)
    requires Next(src, root, start, fs, now, dest, k, i)
    ensures var item := ItemAt(src, root, Paths(src, root), k);
            && (item.what.Again? ==> exists j :: 0 <= j < k && From(src, root, j) == From(src, root, k) && item.what.target == RelAt(src, root, j))
            && (!item.what.Again? ==> forall j :: 0 <= j < k ==> From(src, root, j) != From(src, root, k))
  {
    hide Tree, Find, Resolve, Paths, Stands, Copied, PutAt;
    CopiedIs(src, root, start, fs, dest, k);
    var a := From(src, root, k);
    var item := ItemAt(src, root, Paths(src, root), k);
    if item.what.Again? {
      var j := Earlier(src, Paths(src, root), a, k).value;
      assert From(src, root, j) == a && item.what.target == RelAt(src, root, j);
    } else if src[a].Dir? {
      forall j | 0 <= j < k ensures From(src, root, j) != a {
        PathAt(src, root, j);
        PathAt(src, root, k);
        PathsDiffer(src, root, j, k);
        if From(src, root, j) == a {
          OnePath(src, Paths(src, root)[j], Paths(src, root)[k], a);
        }
      }
    }
  }

  /** The inode an entry is given: one of its own, or for a hard link that of the entry it names. */
  lemma {:induction false} InodeOf(src: Fs, root: Path, start: Fs, fs: Fs, now: Fs, dest: Path, k: nat, i: nat, j: nat)
    requires Next(src, root, start, fs, now, dest, k, i) && j < k
    ensures From(src, root, j) == From(src, root, k) <==> NodeAt(now, dest + RelAt(src, root, j)) == i
  {
    hide Tree, Find, Resolve, Paths, Copied, PutAt, CopyOf, DirAt, ItemAt;
    NextIs(src, root, start, fs, now, dest, k, i);
    SourceOf(src, root, start, fs, now, dest, k, i);
    StillAt(src, root, start, fs, now, dest, k, i, j);
    var item := ItemAt(src, root, Paths(src, root), k);
    if item.what.Again? {
      var t :| 0 <= t < k && From(src, root, t) == From(src, root, k) && item.what.target == RelAt(src, root, t);
      SharedAt(src, root, start, fs, dest, k, t, j);
    }
  }

  lemma {:induction false} SharedAt(src: Fs, root: Path, start: Fs, now: Fs, dest: Path, k: nat, i: nat, j: nat)
    requires Copied(src, root, start, now, dest, k) && i < k && j < k
    ensures From(src, root, i) == From(src, root, j) <==> NodeAt(now, dest + RelAt(src, root, i)) == NodeAt(now, dest + RelAt(src, root, j))
  {
    hide Tree, DirAt, Paths, From, RelAt, NodeAt, Reached, Alike, Apart;
  }

  lemma {:induction false} NextShared(src: Fs, root: Path, start: Fs, fs: Fs, now: Fs, dest: Path, k: nat, i: nat)
    requires Next(src, root, start, fs, now, dest, k, i)
    ensures Shared(src, root, now, dest, k + 1)
  {
    hide Tree, Find, Resolve, Paths, Stands, DirAt, Copied, RelAt, From, NodeAt, PutAt, Next, ItemAt;
    NextIs(src, root, start, fs, now, dest, k, i);
    forall x, y | 0 <= x < k + 1 && 0 <= y < k + 1
      ensures From(src, root, x) == From(src, root, y) <==> NodeAt(now, dest + RelAt(src, root, x)) == NodeAt(now, dest + RelAt(src, root, y))
    {
      if x < k && y < k {
        StillAt(src, root, start, fs, now, dest, k, i, x);
        StillAt(src, root, start, fs, now, dest, k, i, y);
        SharedAt(src, root, start, fs, dest, k, x, y);
      } else if x < k {
        InodeOf(src, root, start, fs, now, dest, k, i, x);
        StillAt(src, root, start, fs, now, dest, k, i, x);
      } else if y < k {
        InodeOf(src, root, start, fs, now, dest, k, i, y);
        StillAt(src, root, start, fs, now, dest, k, i, y);
      }
    }
  }

  lemma {:induction false} NextIs(src: Fs, root: Path, start: Fs, fs: Fs, now: Fs, dest: Path, k: nat, i: nat)
    requires Next(src, root, start, fs, now, dest, k, i)
    ensures Tree(src) && DirAt(src, root) && Tree(fs) && Tree(now) && k < |Paths(src, root)| && From(src, root, k) in src
    ensures Copied(src, root, start, fs, dest, k) && PutAt(fs, now, dest + RelAt(src, root, k), i)
    ensures NodeAt(now, dest + RelAt(src, root, k)) == i && i in now
  {
    hide Tree, DirAt, Reached, Alike, Apart, Shared, Paths, Resolve, Kept;
  }

  /** The entry is a copy, in an inode that was not there at the start. */
  lemma {:induction false} NextCopies(src: Fs, root: Path, start: Fs, fs: Fs, now: Fs, dest: Path, k: nat, i: nat)
    requires Next(src, root, start, fs, now, dest, k, i) && start.Keys <= fs.Keys
    ensures i !in start && CopyOf(src[From(src, root, k)], now[i])
    ensures i in fs ==> i !in start
  {
    hide Tree, Find, Resolve, Paths, Copied, PutAt, DirAt, OnlyAt;
    NextIs(src, root, start, fs, now, dest, k, i);
    SourceOf(src, root, start, fs, now, dest, k, i);
    var item := ItemAt(src, root, Paths(src, root), k);
    if item.what.Again? {
      var t :| 0 <= t < k && From(src, root, t) == From(src, root, k) && item.what.target == RelAt(src, root, t);
      StillAt(src, root, start, fs, now, dest, k, i, t);
    }
  }

  lemma {:induction false} NextAlike(src: Fs, root: Path, start: Fs, fs: Fs, now: Fs, dest: Path, k: nat, i: nat)
    requires Next(src, root, start, fs, now, dest, k, i) && start.Keys <= fs.Keys
    ensures Alike(src, root, start, now, dest, k + 1)
  {
    hide Tree, Find, Resolve, Paths, Stands, DirAt, RelAt, From, NodeAt, PutAt, Next, ItemAt, Copied;
    NextIs(src, root, start, fs, now, dest, k, i);
    forall j | 0 <= j < k + 1
      ensures var a, b := From(src, root, j), NodeAt(now, dest + RelAt(src, root, j)); a in src && b in now && b !in start && CopyOf(src[a], now[b])
    {
      if j < k {
        StillAt(src, root, start, fs, now, dest, k, i, j);
        CopyAt(src, root, start, fs, dest, k, j);
      } else {
        NextCopies(src, root, start, fs, now, dest, k, i);
      }
    }
  }

  lemma {:induction false} NextApart(src: Fs, root: Path, start: Fs, fs: Fs, now: Fs, dest: Path, k: nat, i: nat)
    requires Next(src, root, start, fs, now, dest, k, i) && start.Keys <= fs.Keys
    ensures Apart(start, now, dest)
  {
    hide Tree, Find, Resolve, Paths, Stands, RelAt, From, Next, ItemAt, Copied;
    NextIs(src, root, start, fs, now, dest, k, i);
    CopiedIs(src, root, start, fs, dest, k);
    DirReady(src, root, start, fs, dest, k);
    NextCopies(src, root, start, fs, now, dest, k, i);
    var path := dest + RelAt(src, root, k);
    PrefixOf(dest, RelAt(src, root, k));
    assert path != dest by {
      assert |path| > |dest|;
    }
    assert Resolve(now, dest) == Resolve(fs, dest);
  }

  lemma {:induction false} StartKept(src: Fs, root: Path, start: Fs, now: Fs, dest: Path, k: nat)
    requires Copied(src, root, start, now, dest, k)
    ensures start.Keys <= now.Keys
  {
    hide Tree, DirAt, Paths, Reached, Alike, Shared;
  }

  /** One entry more is copied. */
  lemma {:induction false} CopyMore(src: Fs, root: Path, start: Fs, fs: Fs, now: Fs, dest: Path, k: nat, i: nat)
    requires Next(src, root, start, fs, now, dest, k, i)
    ensures Copied(src, root, start, now, dest, k + 1)
  {
    hide Tree, DirAt, Paths, Reached, Alike, Shared, Apart, Next, Copied, PutAt;
    NextIs(src, root, start, fs, now, dest, k, i);
    StartKept(src, root, start, fs, dest, k);
    NextReached(src, root, start, fs, now, dest, k, i);
    NextAlike(src, root, start, fs, now, dest, k, i);
    NextShared(src, root, start, fs, now, dest, k, i);
    NextApart(src, root, start, fs, now, dest, k, i);
    CopiedFrom(src, root, start, now, dest, k + 1);
  }

  lemma {:induction false} CopiedFrom(src: Fs, root: Path, start: Fs, now: Fs, dest: Path, k: nat)
    requires Tree(src) && DirAt(src, root) && k <= |Paths(src, root)| && Tree(now)
    requires Reached(src, root, now, dest, k) && Alike(src, root, start, now, dest, k) && Shared(src, root, now, dest, k) && Apart(start, now, dest)
    ensures Copied(src, root, start, now, dest, k)
  {
    hide Tree, DirAt, Paths, Reached, Alike, Shared, Apart;
  }

  // ---- unpacking ----

  /** The entries are those of a packed tree, to be unpacked somewhere empty. */
  ghost predicate PackOf(src: Fs, root: Path, items: seq<Item>) {
    && Tree(src) && NamesOk(src) && DirAt(src, root) && |items| == |Paths(src, root)| && PackedSoFar(src, root, Paths(src, root), items)
  }

  /** The directories among the first entries have their attributes already. */
  ghost predicate DirsSet(fs: Fs, dest: Path, deferred: seq<Item>) {
    forall e :: e in deferred ==> AttrsSet(fs, dest, e)
  }

  lemma {:induction false} DirsStaySet(fs: Fs, now: Fs, dest: Path, item: Item, deferred: seq<Item>, i: nat)
    requires DirsSet(fs, dest, deferred) && PutAt(fs, now, dest + item.path, i) && Stands(fs, now, i, dest, item)
    requires Resolve(fs, dest + item.path) == None
    ensures DirsSet(now, dest, if item.what.Folder? then deferred + [item] else deferred)
  {
    hide Tree, Find, Resolve;
    forall e | e in deferred ensures AttrsSet(now, dest, e) {
      assert AttrsSet(fs, dest, e);
    }
  }

  lemma {:induction false} NextFrom(src: Fs, root: Path, start: Fs, fs: Fs, now: Fs, dest: Path, items: seq<Item>, k: nat, i: nat)
    requires PackOf(src, root, items) && k < |items| && Copied(src, root, start, fs, dest, k)
    requires PutAt(fs, now, dest + items[k].path, i) && Stands(fs, now, i, dest, items[k])
    ensures Copied(src, root, start, now, dest, k + 1)
  {
    hide Tree, Find, Resolve, Paths, PutAt, Stands, Copied, DirAt, NodeAt, NamesOk;
    ItemRel(src, root, k);
    CopyMore(src, root, start, fs, now, dest, k, i);
  }

  lemma {:induction false} ItemRel(src: Fs, root: Path, k: nat)
    requires Tree(src) && DirAt(src, root) && k < |Paths(src, root)| && From(src, root, k) in src
    ensures ItemAt(src, root, Paths(src, root), k).path == RelAt(src, root, k)
  {
    hide Tree, Paths, Earlier;
  }

  lemma {:induction false} ReadyFrom(src: Fs, root: Path, start: Fs, fs: Fs, dest: Path, items: seq<Item>, k: nat)
    requires PackOf(src, root, items) && k < |items| && Copied(src, root, start, fs, dest, k)
    ensures Ready(fs, dest, items[k])
  {
    hide Tree, Find, Resolve, Paths, Copied, DirAt, NodeAt, NamesOk, Ready;
    CopyReady(src, root, start, fs, dest, k);
  }
}
