/**
 Removing a name and everything under it (src/volume.rs:1114-1140): directories
 gathered deepest last, then removed in reverse, each found empty.
 */
module Removal {
  import opened Base
  import opened Namespace
  import opened NameOps
  import opened VolumeNames
  import opened DiskAnswers
  import opened NameVolume

  ghost predicate NoRepeats(order: seq<Path>) {
    forall j, k :: 0 <= j < k < |order| ==> order[j] != order[k]
  }

  /** Every directory in the order is one, somewhere under the path. */
  ghost predicate Gathered(fs: Fs, path: Path, order: seq<Path>) {
    && order != [] && order[0] == path && NoRepeats(order)
    && forall j :: 0 <= j < |order| ==> Prefix(path, order[j]) && Resolve(fs, order[j]).Some? && IsDir(fs, Resolve(fs, order[j]).value)
  }

  /** Directory j holds nothing but directories that come later in the order. */
  ghost predicate Emptied(fs: Fs, order: seq<Path>, j: nat)
    requires j < |order|
  {
    Resolve(fs, order[j]).Some? &&
    forall n :: n in EntriesAt(fs, Resolve(fs, order[j]).value) ==> exists l :: j < l < |order| && order[l] == order[j] + [n]
  }

  /** Nothing outside the path has changed. */
  ghost predicate OutsideKept(fs: Fs, now: Fs, path: Path) {
    forall q :: !Prefix(path, q) ==> Resolve(now, q) == Resolve(fs, q)
  }

  lemma {:induction false} DistinctBounded<T>(xs: seq<T>, s: set<T>)
    requires NoDup(xs) && forall i :: 0 <= i < |xs| ==> xs[i] in s
    ensures |xs| <= |s|
  {
    if xs != [] {
      var n := |xs| - 1;
      forall i | 0 <= i < n ensures xs[..n][i] in s - {xs[n]} {
      }
      DistinctBounded(xs[..n], s - {xs[n]});
    }
  }

  ghost function Dirs(fs: Fs): set<nat> {
    set i | i in fs && fs[i].Dir?
  }

  /** No more directories can be gathered than there are. */
  lemma {:induction false} GatheredBounded(fs: Fs, path: Path, order: seq<Path>)
    requires Tree(fs) && Gathered(fs, path, order)
    ensures |order| <= |Dirs(fs)|
  {
    hide Tree, Resolve;
    var inodes := seq(|order|, j requires 0 <= j < |order| => Resolve(fs, order[j]).value);
    forall j, k | 0 <= j < k < |inodes| ensures inodes[j] != inodes[k] {
      if inodes[j] == inodes[k] {
        OnePath(fs, order[j], order[k], inodes[j]);
      }
    }
    DistinctBounded(inodes, Dirs(fs));
  }

  lemma {:induction false} LookupIs(fs: Fs, p: Path, i: nat)
    requires Resolve(fs, p) == Some(i)
    ensures Lookup(fs, p) == Ok(i)
  {
  }

  /** A child of a directory, by its path. */
  lemma {:induction false} ChildPath(fs: Fs, p: Path, d: nat, n: Name)
    requires Resolve(fs, p) == Some(d) && n in EntriesAt(fs, d)
    ensures Resolve(fs, p + [n]) == Some(EntriesAt(fs, d)[n])
    ensures Init(p + [n]) == p && Last(p + [n]) == n
    ensures ParentDir(fs, p + [n]) == Ok(d)
  {
    hide Find, EntriesAt, Resolve;
    ResolveMore(fs, p, n);
    assert Init(p + [n]) == p;
    LookupIs(fs, p, d);
  }

  /** A file in a directory can be unlinked. */
  lemma {:induction false} UnlinkWorks(fs: Fs, p: Path, d: nat, n: Name)
    requires Tree(fs) && Resolve(fs, p) == Some(d) && n in EntriesAt(fs, d) && !IsDir(fs, EntriesAt(fs, d)[n])
    ensures Unlink(fs, p + [n]).Ok?
    ensures FindName(fs, p + [n]) == Ok(Named(d, n, EntriesAt(fs, d)[n]))
  {
    hide Find, Resolve, EntriesAt, Tree;
    ChildPath(fs, p, d, n);
    LookupIs(fs, p + [n], EntriesAt(fs, d)[n]);
    UnlinkIs(fs, p + [n], d, EntriesAt(fs, d)[n]);
  }

  /** Where a sweep of one directory stands: its files gone but for those still to come, its directories gathered. */
  ghost predicate Sweeping(fs: Fs, order: seq<Path>, at: nat, d: nat, was: map<Name, nat>, rest: set<Name>) {
    && at < |order| && Resolve(fs, order[at]) == Some(d) && IsDir(fs, d)
    && (forall n :: n in EntriesAt(fs, d) ==> n in was && EntriesAt(fs, d)[n] == was[n])
    && (forall n :: n in was && n in rest ==> n in EntriesAt(fs, d))
    && (forall n :: n in EntriesAt(fs, d) && n !in rest ==> exists l :: at < l < |order| && order[l] == order[at] + [n])
    && (forall l, n :: 0 <= l < |order| && n in rest ==> order[l] != order[at] + [n])
  }

  /** Every directory gathered after the first was found in one swept, or being swept. */
  ghost predicate Found(path: Path, order: seq<Path>, at: nat) {
    forall k :: 0 < k < |order| ==> order[k] != [] && exists j :: 0 <= j < at && j < |order| && Init(order[k]) == order[j]
  }

  ghost predicate Swept(fs: Fs, order: seq<Path>, at: nat) {
    at <= |order| && forall j :: 0 <= j < at ==> Emptied(fs, order, j)
  }

  /** What is so throughout the gathering. */
  ghost predicate Gathering(start: Fs, fs: Fs, path: Path, order: seq<Path>, at: nat) {
    && Tree(fs) && Gathered(fs, path, order) && Swept(fs, order, at) && OutsideKept(start, fs, path) && Dirs(fs) == Dirs(start)
  }

  /** One more file gone. */
  lemma {:induction false} SweepFile(start: Fs, fs: Fs, path: Path, order: seq<Path>, at: nat, d: nat, was: map<Name, nat>, rest: set<Name>, n: Name)
    requires Gathering(start, fs, path, order, at) && Sweeping(fs, order, at, d, was, rest) && n in rest && n in was && !IsDir(fs, was[n])
    ensures Unlink(fs, order[at] + [n]).Ok?
    ensures var now := Unlink(fs, order[at] + [n]).value;
            Gathering(start, now, path, order, at) && Sweeping(now, order, at, d, was, rest - {n})
  {
    hide Find, Resolve, EntriesAt, Tree, Unlink;
    UnlinkWorks(fs, order[at], d, n);
    var child, now := order[at] + [n], Unlink(fs, order[at] + [n]).value;
    UnlinkEffect(fs, child);
    ChildPath(fs, order[at], d, n);
    DirsStay(fs, now);
    forall j | 0 <= j < |order| ensures order[j] != child {
      assert IsDir(fs, Resolve(fs, order[j]).value);
    }
    forall q | !Prefix(path, q) ensures q != child {
      PrefixOf(order[at], [n]);
      PrefixTrans(path, order[at], child);
    }
    SweptStays(fs, now, order, at, d);
    hide Emptied, GainsName, OnlyAt;
    GatheredStays(fs, now, path, order, child);
    OutsideStays(start, fs, now, path, child);
    SweepingStays(fs, now, order, at, d, was, rest, n);
  }

  lemma {:induction false} PrefixTrans(p: Path, q: Path, r: Path)
    requires Prefix(p, q) && Prefix(q, r)
    ensures Prefix(p, r)
  {
    assert r[..|p|] == r[..|q|][..|p|];
  }

  lemma {:induction false} DirsStay(fs: Fs, now: Fs)
    requires ParentsKept(fs, now) && DirsFewer(fs, now)
    ensures Dirs(now) == Dirs(fs) && SameDirs(fs, now)
  {
    assert forall i :: i in Dirs(fs) ==> IsDir(fs, i);
    assert forall i :: i in Dirs(now) ==> IsDir(now, i);
  }

  lemma {:induction false} GatheredStays(fs: Fs, now: Fs, path: Path, order: seq<Path>, child: Path)
    requires Gathered(fs, path, order) && OnlyAt(fs, now, child, None) && SameDirs(fs, now)
    requires forall j :: 0 <= j < |order| ==> order[j] != child
    ensures Gathered(now, path, order)
  {
    hide Resolve, IsDir;
  }

  lemma {:induction false} OutsideStays(start: Fs, fs: Fs, now: Fs, path: Path, child: Path)
    requires OutsideKept(start, fs, path) && OnlyAt(fs, now, child, None) && Prefix(path, child)
    ensures OutsideKept(start, now, path)
  {
    hide Resolve;
  }

  /** Directories swept already are as they were. */
  lemma {:induction false} SweptStays(fs: Fs, now: Fs, order: seq<Path>, at: nat, d: nat)
    requires Tree(fs) && at < |order| && NoRepeats(order) && Swept(fs, order, at) && Resolve(fs, order[at]) == Some(d) && IsDir(fs, d)
    requires forall j :: 0 <= j < |order| ==> Resolve(now, order[j]) == Resolve(fs, order[j])
    requires forall x :: x != d ==> EntriesAt(now, x) == EntriesAt(fs, x)
    ensures Swept(now, order, at)
  {
    hide Find, Resolve, EntriesAt, Tree;
    forall j | 0 <= j < at ensures Emptied(now, order, j) {
      assert Emptied(fs, order, j);
      if Resolve(fs, order[j]) == Some(d) {
        OnePath(fs, order[j], order[at], d);
      }
    }
  }

  lemma {:induction false} SweepingStays(fs: Fs, now: Fs, order: seq<Path>, at: nat, d: nat, was: map<Name, nat>, rest: set<Name>, n: Name)
    requires Sweeping(fs, order, at, d, was, rest) && n in rest && n in was && IsDir(now, d)
    requires Resolve(now, order[at]) == Resolve(fs, order[at]) && GainsName(now, fs, d, n, was[n])
    ensures Sweeping(now, order, at, d, was, rest - {n})
  {
    hide Resolve, IsDir, EntriesAt;
  }

  /** One more directory gathered. */
  lemma {:induction false} SweepDir(start: Fs, fs: Fs, path: Path, order: seq<Path>, at: nat, d: nat, was: map<Name, nat>, rest: set<Name>, n: Name)
    requires Gathering(start, fs, path, order, at) && Sweeping(fs, order, at, d, was, rest) && n in rest && n in was && IsDir(fs, was[n])
    ensures Gathering(start, fs, path, order + [order[at] + [n]], at)
    ensures Sweeping(fs, order + [order[at] + [n]], at, d, was, rest - {n})
  {
    hide Find, Resolve, EntriesAt, Tree, IsDir;
    var more := order + [order[at] + [n]];
    ChildPath(fs, order[at], d, n);
    PrefixOf(order[at], [n]);
    PrefixTrans(path, order[at], order[at] + [n]);
    forall j | 0 <= j < at ensures Emptied(fs, more, j) {
      assert Emptied(fs, order, j);
      forall m | m in EntriesAt(fs, Resolve(fs, order[j]).value) ensures exists l :: j < l < |more| && more[l] == more[j] + [m] {
        var l :| j < l < |order| && order[l] == order[j] + [m];
        assert more[l] == more[j] + [m];
      }
    }
    hide Emptied;
    forall m | m in EntriesAt(fs, d) && m !in rest - {n} ensures exists l :: at < l < |more| && more[l] == more[at] + [m] {
      if m == n {
        assert more[|order|] == more[at] + [n];
      } else {
        var l :| at < l < |order| && order[l] == order[at] + [m];
        assert more[l] == more[at] + [m];
      }
    }
    forall l, m | 0 <= l < |more| && m in rest - {n} ensures more[l] != more[at] + [m] {
      if l == |order| {
        assert Last(order[at] + [n]) == n && Last(order[at] + [m]) == m;
      }
    }
  }

  lemma {:induction false} SweepStart(start: Fs, fs: Fs, path: Path, order: seq<Path>, at: nat, d: nat)
    requires Gathering(start, fs, path, order, at) && Found(path, order, at) && at < |order| && Resolve(fs, order[at]) == Some(d)
    ensures IsDir(fs, d) && Sweeping(fs, order, at, d, EntriesAt(fs, d), EntriesAt(fs, d).Keys)
  {
    hide Find, Resolve, EntriesAt, Tree, Emptied;
    assert IsDir(fs, Resolve(fs, order[at]).value);
    forall l, n | 0 <= l < |order| ensures order[l] != order[at] + [n] {
      NotFoundYet(path, order, at, l, n);
    }
  }

  lemma {:induction false} NotFoundYet(path: Path, order: seq<Path>, at: nat, l: nat, n: Name)
    requires order != [] && order[0] == path && NoRepeats(order) && Found(path, order, at) && at < |order| && l < |order|
    requires Prefix(path, order[at])
    ensures order[l] != order[at] + [n]
  {
    assert Init(order[at] + [n]) == order[at];
    if l > 0 {
      var j :| 0 <= j < at && j < |order| && Init(order[l]) == order[j];
    }
  }

  /** Swept through, a directory holds only directories gathered after it. */
  lemma {:induction false} SweepEnd(start: Fs, fs: Fs, path: Path, order: seq<Path>, at: nat, d: nat, was: map<Name, nat>)
    requires Gathering(start, fs, path, order, at) && Sweeping(fs, order, at, d, was, {})
    ensures Gathering(start, fs, path, order, at + 1)
  {
    hide Find, Resolve, EntriesAt, Tree;
    assert Emptied(fs, order, at);
  }

  // ---- what an index hides ----

  /** No name at the path or under it is hidden. */
  ghost predicate NothingHidden(fs: Fs, hides: Hides, path: Path) {
    forall q :: Prefix(path, q) ==> !HiddenAt(fs, hides, q)
  }

  /** Whatever path leads elsewhere than it did leads nowhere, and its name was found; what is left looks as it did. */
  ghost predicate Cleanly(start: Fs, now: Fs, hides: Hides) {
    && Remains(start, now)
    && forall q :: Resolve(now, q) != Resolve(start, q) ==> Resolve(now, q) == None && !HiddenAt(start, hides, q)
  }

  lemma {:induction false} RemainsTrans(a: Fs, b: Fs, c: Fs)
    requires Remains(a, b) && Remains(b, c)
    ensures Remains(a, c)
  {
  }

  lemma {:induction false} CleanRemains(start: Fs, now: Fs, hides: Hides)
    requires Cleanly(start, now, hides)
    ensures Remains(start, now)
  {
    hide Resolve, HiddenAt, SameLook;
  }

  lemma {:induction false} InitLeads(fs: Fs, q: Path)
    requires q != [] && Resolve(fs, q).Some?
    ensures Resolve(fs, Init(q)).Some?
  {
    hide Resolve;
    SplitLast(q);
    ResolveMore(fs, Init(q), Last(q));
  }

  /** A name hidden after some have been taken out was hidden before. */
  lemma {:induction false} HiddenBefore(start: Fs, fs: Fs, hides: Hides, q: Path)
    requires Cleanly(start, fs, hides)
    ensures HiddenAt(fs, hides, q) ==> HiddenAt(start, hides, q)
    ensures Resolve(fs, q).Some? && HiddenAt(start, hides, q) ==> HiddenAt(fs, hides, q)
  {
    hide Resolve;
    if q != [] && Resolve(fs, q).Some? {
      InitLeads(fs, q);
      assert Resolve(fs, q) == Resolve(start, q);
      assert Resolve(fs, Init(q)) == Resolve(start, Init(q));
    }
  }

  lemma {:induction false} CleanMore(start: Fs, fs: Fs, now: Fs, hides: Hides, child: Path)
    requires Cleanly(start, fs, hides) && OnlyAt(fs, now, child, None) && !HiddenAt(fs, hides, child) && Resolve(fs, child).Some?
    requires Remains(fs, now)
    ensures Cleanly(start, now, hides)
  {
    RemainsTrans(start, fs, now);
    hide Resolve, HiddenAt, Remains;
    HiddenBefore(start, fs, hides, child);
  }

  lemma {:induction false} UnlinkClean(start: Fs, fs: Fs, hides: Hides, child: Path)
    requires Tree(fs) && Unlink(fs, child).Ok? && Cleanly(start, fs, hides) && !HiddenAt(fs, hides, child)
    ensures Cleanly(start, Unlink(fs, child).value, hides)
  {
    LessRemains(fs, child);
    hide Tree, Unlink, Cleanly, HiddenAt, Find, Resolve, Remains;
    UnlinkEffect(fs, child);
    UnlinkLeads(fs, child);
    CleanMore(start, fs, Unlink(fs, child).value, hides, child);
  }

  lemma {:induction false} LessRemains(fs: Fs, path: Path)
    requires Tree(fs)
    ensures Unlink(fs, path).Ok? ==> Remains(fs, Unlink(fs, path).value)
    ensures RemoveDir(fs, path).Ok? ==> Remains(fs, RemoveDir(fs, path).value)
  {
    hide Tree, Find, Remains, DropName, DropDir;
    if FindName(fs, path).Ok? {
      FindNameIs(fs, path);
      var f := FindName(fs, path).value;
      NotOwnChild(fs, f.dir, f.name);
      HeldIn(fs, f.dir, f.name);
      DropRemains(fs, f.dir, f.name);
    }
  }

  lemma {:induction false} DropRemains(fs: Fs, d: nat, n: Name)
    requires IsDir(fs, d) && n in fs[d].entries && fs[d].entries[n] in fs && fs[d].entries[n] != d
    ensures !IsDir(fs, fs[d].entries[n]) ==> Remains(fs, DropName(fs, d, n))
    ensures IsDir(fs, fs[d].entries[n]) ==> Remains(fs, DropDir(fs, d, n))
  {
  }

  lemma {:induction false} UnlinkLeads(fs: Fs, path: Path)
    requires Tree(fs)
    ensures Unlink(fs, path).Ok? || RemoveDir(fs, path).Ok? ==> Resolve(fs, path).Some?
  {
    hide Tree;
  }

  lemma {:induction false} RemoveDirClean(start: Fs, fs: Fs, hides: Hides, child: Path)
    requires Tree(fs) && RemoveDir(fs, child).Ok? && Cleanly(start, fs, hides) && !HiddenAt(fs, hides, child)
    ensures Cleanly(start, RemoveDir(fs, child).value, hides)
  {
    LessRemains(fs, child);
    hide Tree, RemoveDir, Cleanly, HiddenAt, Find, Resolve, Remains;
    RemoveDirEffect(fs, child);
    UnlinkLeads(fs, child);
    CleanMore(start, fs, RemoveDir(fs, child).value, hides, child);
  }

  lemma {:induction false} CleanTrans(a: Fs, b: Fs, c: Fs, hides: Hides)
    requires Cleanly(a, b, hides) && Cleanly(b, c, hides)
    ensures Cleanly(a, c, hides)
  {
    RemainsTrans(a, b, c);
    hide Resolve, HiddenAt, Remains;
    forall q | Resolve(c, q) != Resolve(a, q) ensures Resolve(c, q) == None && !HiddenAt(a, hides, q) {
      HiddenBefore(a, b, hides, q);
    }
  }

  /** Everything gone cleanly, nothing was hidden. */
  lemma {:induction false} AllClean(start: Fs, now: Fs, hides: Hides, path: Path)
    requires Cleanly(start, now, hides) && forall q :: Prefix(path, q) ==> Resolve(now, q) == None
    ensures NothingHidden(start, hides, path)
  {
    hide Resolve;
    forall q | Prefix(path, q) ensures !HiddenAt(start, hides, q) {
      assert Resolve(now, q) == None;
    }
  }

  // ---- the gathering ----

  /** What a removal keeps even where it stops part way. */
  ghost predicate PartWay(start: Fs, now: Fs, hides: Hides, path: Path) {
    Tree(now) && OutsideKept(start, now, path) && Cleanly(start, now, hides)
  }

  lemma {:induction false} PartWayNone(fs: Fs, hides: Hides, path: Path)
    requires Tree(fs)
    ensures PartWay(fs, fs, hides, path)
  {
    hide Tree, Resolve;
  }

  /** Take the files out of one directory, and gather the directories in it; a file hidden stops it. */
  method Sweep(v: Volume, path: Path, order: seq<Path>, at: nat, ghost start: Fs) returns (r: Result<seq<Path>>)
    requires Gathering(start, v.nodes, path, order, at) && Found(path, order, at) && at < |order| && Cleanly(start, v.nodes, v.hides)
    modifies v`nodes
    ensures PartWay(start, v.nodes, v.hides, path)
    ensures r.Ok? ==> Gathering(start, v.nodes, path, r.value, at + 1) && Found(path, r.value, at + 1)
    ensures r.Err? ==> !NothingHidden(start, v.hides, path)
  {
    hide Find, Tree, Gathered, Swept, OutsideKept, Emptied, EntriesAt, Unlink, Cleanly, HiddenAt, NothingHidden;
    var more := order;
    GatheredIs(start, v.nodes, path, order, at);
    var d := Lookup(v.nodes, order[at]).value;
    SweepStart(start, v.nodes, path, order, at, d);
    var entries := EntriesAt(v.nodes, d);
    var rest := entries.Keys;
    hide Resolve, Lookup;
    FoundMore(path, order, at);
    while rest != {}
      invariant rest <= entries.Keys && order <= more && at < |order|
      invariant Gathering(start, v.nodes, path, more, at) && Sweeping(v.nodes, more, at, d, entries, rest)
      invariant Found(path, more, at + 1) && Cleanly(start, v.nodes, v.hides)
      decreases |rest|
    {
      var n :| n in rest;
      if IsDir(v.nodes, entries[n]) {
        SweepDir(start, v.nodes, path, more, at, d, entries, rest, n);
        FoundOne(path, more, at, n);
        more := more + [order[at] + [n]];
      } else {
        SweepFile(start, v.nodes, path, more, at, d, entries, rest, n);
        GatheringTree(start, v.nodes, path, more, at);
        ghost var fs := v.nodes;
        var gone := v.Remove(order[at] + [n]);
        if gone.Err? {
          HiddenUnder(start, fs, v.hides, path, more, at, n);
          return Err(gone.error);
        }
        UnlinkClean(start, fs, v.hides, order[at] + [n]);
      }
      rest := rest - {n};
    }
    SweepEnd(start, v.nodes, path, more, at, d, entries);
    r := Ok(more);
  }

  lemma {:induction false} HiddenUnder(start: Fs, fs: Fs, hides: Hides, path: Path, order: seq<Path>, at: nat, n: Name)
    requires Gathered(fs, path, order) && at < |order| && Cleanly(start, fs, hides) && HiddenAt(fs, hides, order[at] + [n])
    ensures !NothingHidden(start, hides, path)
  {
    hide Resolve, HiddenAt, Cleanly;
    PrefixOf(order[at], [n]);
    PrefixTrans(path, order[at], order[at] + [n]);
    HiddenBefore(start, fs, hides, order[at] + [n]);
  }

  lemma {:induction false} GatheringTree(start: Fs, fs: Fs, path: Path, order: seq<Path>, at: nat)
    requires Gathering(start, fs, path, order, at)
    ensures Tree(fs)
  {
  }

  lemma {:induction false} GatheredIs(start: Fs, fs: Fs, path: Path, order: seq<Path>, at: nat)
    requires Gathering(start, fs, path, order, at) && at < |order|
    ensures Lookup(fs, order[at]).Ok? && Resolve(fs, order[at]) == Some(Lookup(fs, order[at]).value)
  {
    hide Tree, Find, Emptied;
    assert Resolve(fs, order[at]).Some?;
  }

  lemma {:induction false} FoundMore(path: Path, order: seq<Path>, at: nat)
    requires Found(path, order, at)
    ensures Found(path, order, at + 1)
  {
    forall k | 0 < k < |order| ensures order[k] != [] && exists j :: 0 <= j < at + 1 && j < |order| && Init(order[k]) == order[j] {
      var j :| 0 <= j < at && j < |order| && Init(order[k]) == order[j];
    }
  }

  lemma {:induction false} FoundOne(path: Path, order: seq<Path>, at: nat, n: Name)
    requires Found(path, order, at + 1) && at < |order|
    ensures Found(path, order + [order[at] + [n]], at + 1)
  {
    var more := order + [order[at] + [n]];
    forall k | 0 < k < |more| ensures more[k] != [] && exists j :: 0 <= j < at + 1 && j < |more| && Init(more[k]) == more[j] {
      if k == |order| {
        assert Init(more[k]) == order[at] && more[at] == order[at];
      } else {
        var j :| 0 <= j < at + 1 && j < |order| && Init(order[k]) == order[j];
        assert more[j] == order[j];
      }
    }
  }

  /** Gather every directory under a path, deepest last, taking the files out of each. */
  method GatherDirs(v: Volume, path: Path) returns (r: Result<seq<Path>>)
    requires Tree(v.nodes) && Resolve(v.nodes, path).Some? && IsDir(v.nodes, Resolve(v.nodes, path).value)
    modifies v`nodes
    ensures PartWay(old(v.nodes), v.nodes, v.hides, path)
    ensures r.Ok? ==> Gathering(old(v.nodes), v.nodes, path, r.value, |r.value|)
    ensures r.Err? ==> !NothingHidden(old(v.nodes), v.hides, path)
  {
    hide Find, Tree, Resolve, Dirs, IsDir, Cleanly, NothingHidden;
    ghost var start := v.nodes;
    PartWayNone(start, v.hides, path);
    var order := [path];
    assert path[..|path|] == path;
    var at := 0;
    while at < |order|
      invariant Gathering(start, v.nodes, path, order, at) && Found(path, order, at) && PartWay(start, v.nodes, v.hides, path)
      decreases |Dirs(start)| - at
    {
      GatheredBounded(v.nodes, path, order);
      var more := Sweep(v, path, order, at, start);
      if more.Err? {
        return more;
      }
      order, at := more.value, at + 1;
    }
    r := Ok(order);
  }

  /** The directories left to remove, each holding only ones before it in the removing. */
  ghost predicate Removing(start: Fs, fs: Fs, path: Path, order: seq<Path>, k: nat) {
    && Tree(fs) && k <= |order| && NoRepeats(order) && OutsideKept(start, fs, path)
    && (forall j :: 0 <= j < |order| ==> Prefix(path, order[j]))
    && (forall j :: 0 <= j < k ==> LeftIn(fs, order, j, k))
    && (forall j :: k <= j < |order| ==> Resolve(fs, order[j]) == None)
  }

  /** Directory j is there, and holds nothing but directories still to be removed before it. */
  ghost predicate LeftIn(fs: Fs, order: seq<Path>, j: nat, k: nat)
    requires j < |order|
  {
    && Resolve(fs, order[j]).Some? && IsDir(fs, Resolve(fs, order[j]).value)
    && forall n :: n in EntriesAt(fs, Resolve(fs, order[j]).value) ==> exists l :: j < l < k && l < |order| && order[l] == order[j] + [n]
  }

  lemma {:induction false} RemovingStart(start: Fs, fs: Fs, path: Path, order: seq<Path>)
    requires Gathering(start, fs, path, order, |order|)
    ensures Removing(start, fs, path, order, |order|)
  {
    hide Find, Resolve, EntriesAt, Tree, IsDir;
    forall j | 0 <= j < |order| ensures LeftIn(fs, order, j, |order|) {
      assert Emptied(fs, order, j);
      assert Resolve(fs, order[j]).Some? && IsDir(fs, Resolve(fs, order[j]).value);
    }
  }

  /** The last directory left is empty, and removing it leaves the rest as they were. */
  lemma {:induction false} RemovingStep(start: Fs, fs: Fs, path: Path, order: seq<Path>, k: nat)
    requires Removing(start, fs, path, order, k + 1) && k < |order| && order[k] != []
    ensures RemoveDir(fs, order[k]).Ok? && Removing(start, RemoveDir(fs, order[k]).value, path, order, k)
  {
    hide Find, Resolve, EntriesAt, Tree, IsDir;
    assert LeftIn(fs, order, k, k + 1);
    var i := Resolve(fs, order[k]).value;
    EmptyDirWorks(fs, order[k], i);
    var now, f := RemoveDir(fs, order[k]).value, FindName(fs, order[k]).value;
    hide RemoveDir, FindName;
    RemoveDirEffect(fs, order[k]);
    forall j | 0 <= j < k ensures LeftIn(now, order, j, k) {
      assert LeftIn(fs, order, j, k + 1);
      LeftStays(fs, now, order, j, k, f);
    }
    hide LeftIn, GainsName;
    RemovedRest(start, fs, now, path, order, k);
  }

  lemma {:induction false} RemovedRest(start: Fs, fs: Fs, now: Fs, path: Path, order: seq<Path>, k: nat)
    requires Removing(start, fs, path, order, k + 1) && k < |order| && OnlyAt(fs, now, order[k], None)
    ensures OutsideKept(start, now, path) && forall j :: k <= j < |order| ==> Resolve(now, order[j]) == None
  {
    hide Resolve, Tree, LeftIn;
    OutsideStays(start, fs, now, path, order[k]);
  }

  lemma {:induction false} EmptyDirWorks(fs: Fs, path: Path, i: nat)
    requires Tree(fs) && path != [] && Resolve(fs, path) == Some(i) && IsDir(fs, i) && forall n :: n !in EntriesAt(fs, i)
    ensures RemoveDir(fs, path).Ok? && FindName(fs, path).Ok? && FindName(fs, path).value.inode == i
    ensures Resolve(fs, Init(path)) == Some(FindName(fs, path).value.dir)
  {
    assert fs[i].entries == map[];
    hide Find, Tree, Resolve, IsDir;
    SplitLast(path);
    ResolveMore(fs, Init(path), Last(path));
    NotRoot(fs, path, i);
    var d := Resolve(fs, Init(path)).value;
    LookupIs(fs, Init(path), d);
    LookupIs(fs, path, i);
    hide EntriesAt;
    RemoveDirIs(fs, path, d, i);
  }

  lemma {:induction false} LeftStays(fs: Fs, now: Fs, order: seq<Path>, j: nat, k: nat, f: Named)
    requires Tree(fs) && j < k < |order| && NoRepeats(order) && LeftIn(fs, order, j, k + 1)
    requires OnlyAt(fs, now, order[k], None) && GainsName(now, fs, f.dir, f.name, f.inode) && ParentsBut(fs, now, f.inode)
    requires Resolve(fs, order[k]) == Some(f.inode) && order[k] != [] && Resolve(fs, Init(order[k])) == Some(f.dir) && Last(order[k]) == f.name
    requires IsDir(fs, f.inode)
    ensures LeftIn(now, order, j, k)
  {
    hide Find, Resolve, EntriesAt, Tree, IsDir;
    var x := Resolve(fs, order[j]).value;
    if x == f.inode {
      OnePath(fs, order[j], order[k], x);
    }
    assert Resolve(now, order[j]) == Some(x);
    SplitLast(order[k]);
    forall n | n in EntriesAt(now, x) ensures exists l :: j < l < k && l < |order| && order[l] == order[j] + [n] {
      assert n in EntriesAt(fs, x);
      var l :| j < l < k + 1 && l < |order| && order[l] == order[j] + [n];
      ChildSplit(order[j], n, order[k]);
    }
  }

  lemma {:induction false} ChildSplit(p: Path, n: Name, q: Path)
    requires q != []
    ensures q == p + [n] ==> Init(q) == p && Last(q) == n
  {
  }

  /**
   Remove a name, and everything under it if it is a directory. It succeeds
   exactly where there is such a name and no index hides one at or under the path;
   where it stops part way, the tree is a tree still, and the same outside.
   */
  method RemoveAll(v: Volume, path: Path) returns (r: Result<()>)
    requires Tree(v.nodes)
    modifies v`nodes
    ensures r.Ok? <==> path != [] && Resolve(old(v.nodes), path).Some? && NothingHidden(old(v.nodes), v.hides, path)
    ensures PartWay(old(v.nodes), v.nodes, v.hides, path)
    ensures r.Ok? ==> forall q :: Prefix(path, q) ==> Resolve(v.nodes, q) == None
  {
    hide Find, Tree, EntriesAt, Unlink, RemoveDir, IsDir, Cleanly, HiddenAt, NothingHidden;
    ghost var start := v.nodes;
    PartWayNone(start, v.hides, path);
    var found := Lookup(v.nodes, path);
    if found.Err? {
      return Err(found.error);
    }
    if !IsDir(v.nodes, found.value) {
      r := RemoveFile(v, path, found.value);
      return;
    }
    var gathered := GatherDirs(v, path);
    if gathered.Err? {
      return Err(gathered.error);
    }
    var order := gathered.value;
    RemovingStart(start, v.nodes, path, order);
    assert order != [] && order[0] == path;
    hide Gathering, Resolve, Prefix;
    var k: nat := |order|;
    while k > 0
      invariant k <= |order| && order != [] && order[0] == path && (k == 0 ==> path != [])
      invariant Removing(start, v.nodes, path, order, k) && PartWay(start, v.nodes, v.hides, path)
    {
      k := k - 1;
      ghost var fs := v.nodes;
      RemovingTree(start, fs, path, order, k + 1);
      if order[k] != [] {
        RemovingStep(start, fs, path, order, k);
      }
      var gone := v.RmDir(order[k]);
      if gone.Err? {
        if order[k] != [] {
          HiddenAmong(start, fs, v.hides, path, order, k);
        }
        return Err(gone.error);
      }
      RemoveDirClean(start, fs, v.hides, order[k]);
      RemovingTree(start, v.nodes, path, order, k);
    }
    RemovedAll(start, v.nodes, path, order);
    AllClean(start, v.nodes, v.hides, path);
    r := Ok(());
  }

  method RemoveFile(v: Volume, path: Path, inum: nat) returns (r: Result<()>)
    requires Tree(v.nodes) && Lookup(v.nodes, path) == Ok(inum) && !IsDir(v.nodes, inum)
    modifies v`nodes
    ensures path != [] && Resolve(old(v.nodes), path).Some? && (r.Ok? <==> NothingHidden(old(v.nodes), v.hides, path))
    ensures PartWay(old(v.nodes), v.nodes, v.hides, path)
    ensures r.Ok? ==> forall q :: Prefix(path, q) ==> Resolve(v.nodes, q) == None
  {
    hide Find, Tree, EntriesAt, Unlink, RemoveDir, IsDir, Cleanly, HiddenAt, Lookup;
    ghost var start := v.nodes;
    PartWayNone(start, v.hides, path);
    FileWorks(start, path, inum);
    r := v.Remove(path);
    PrefixWhole(path);
    if r.Ok? {
      RemovedAt(start, v.nodes, path);
      UnlinkClean(start, start, v.hides, path);
      AllClean(start, v.nodes, v.hides, path);
    }
  }

  lemma {:induction false} PrefixWhole(p: Path)
    ensures Prefix(p, p)
  {
    assert p[..|p|] == p;
  }

  lemma {:induction false} HiddenAmong(start: Fs, fs: Fs, hides: Hides, path: Path, order: seq<Path>, k: nat)
    requires Removing(start, fs, path, order, k + 1) && k < |order| && Cleanly(start, fs, hides) && HiddenAt(fs, hides, order[k])
    ensures !NothingHidden(start, hides, path)
  {
    hide Resolve, HiddenAt, Cleanly, Tree, LeftIn;
    HiddenBefore(start, fs, hides, order[k]);
  }

  lemma {:induction false} RemovingTree(start: Fs, fs: Fs, path: Path, order: seq<Path>, k: nat)
    requires Removing(start, fs, path, order, k)
    ensures Tree(fs) && OutsideKept(start, fs, path)
    ensures RemoveDir(fs, []) == Err(InvalidPath)
    ensures forall j :: 0 <= j < |order| && order[j] == [] ==> path == [] && (order[0] == [] ==> j == 0)
  {
  }

  lemma {:induction false} FileWorks(fs: Fs, path: Path, i: nat)
    requires Tree(fs) && Lookup(fs, path) == Ok(i) && !IsDir(fs, i)
    ensures path != [] && Unlink(fs, path).Ok? && Resolve(fs, path) == Some(i)
  {
    hide Find, Tree;
    ResolveMore(fs, [], []);
    RootIsDir(fs);
    assert path != [];
    SplitLast(path);
    ResolveMore(fs, Init(path), Last(path));
    hide Resolve;
    var d := Resolve(fs, Init(path)).value;
    LookupIs(fs, Init(path), d);
    UnlinkIs(fs, path, d, i);
  }

  lemma {:induction false} RootIsDir(fs: Fs)
    requires Tree(fs)
    ensures IsDir(fs, ROOT)
  {
  }

  lemma {:induction false} RemovedAt(start: Fs, now: Fs, path: Path)
    requires Tree(start) && Unlink(start, path) == Ok(now)
    ensures Tree(now) && OutsideKept(start, now, path) && forall q :: Prefix(path, q) ==> Resolve(now, q) == None
  {
    hide Find, Tree, Resolve, Unlink;
    UnlinkEffect(start, path);
    assert path[..|path|] == path;
    forall q | Prefix(path, q) ensures Resolve(now, q) == None {
      NowherePast(now, path, q);
    }
  }

  lemma {:induction false} RemovedAll(start: Fs, now: Fs, path: Path, order: seq<Path>)
    requires Removing(start, now, path, order, 0) && order != [] && order[0] == path
    ensures Tree(now) && OutsideKept(start, now, path) && forall q :: Prefix(path, q) ==> Resolve(now, q) == None
  {
    hide Find, Tree, Resolve, LeftIn;
    forall q | Prefix(path, q) ensures Resolve(now, q) == None {
      NowherePast(now, path, q);
    }
  }
}
