/**
 Runs of operations on names: the tree stays a tree, with its link counts right
 (src/volume.rs:363-728 and 1114-1140) — but for the one way a rename has of
 breaking it.
 */
module NameRuns {
  import opened Base
  import opened Namespace
  import opened NameOps
  import opened VolumeNames
  import opened NameVolume
  import opened Removal

  datatype Step =
    | CreateStep(path: Path, kind: Kind, attrs: Attrs, inum: nat)
    | WriteStep(path: Path, data: Bytes, attrs: Attrs, inum: nat, spoilt: Kind)
    | MkDirStep(path: Path, attrs: Attrs, inum: nat)
    | RemoveStep(path: Path)
    | RmDirStep(path: Path)
    | LinkStep(existing: Path, path: Path)
    | RenameStep(from: Path, to: Path)
    | RemoveAllStep(path: Path)

  /** The allocator's answer: an inode that is free. */
  function Answer(fs: Fs, inum: nat): (r: Result<nat>)
    ensures r.Ok? ==> r.value !in fs && r.value != ROOT
  {
    if inum in fs || inum == ROOT then Err(NoInodes) else Ok(inum)
  }

  /** A rename to a place inside what it moves, too far down for the search for an ancestor to see. */
  predicate Runaway(step: Step) {
    step.RenameStep? && step.to != [] && Prefix(step.from, Init(step.to)) && |Init(step.to)| - |step.from| >= ANCESTOR_LIMIT
  }

  /** On the way to a directory there are only directories. */
  lemma {:induction false} DirsOnTheWay(fs: Fs, p: Path, q: Path)
    requires Tree(fs) && Prefix(p, q) && Resolve(fs, q).Some? && IsDir(fs, Resolve(fs, q).value)
    ensures Resolve(fs, p).Some? && IsDir(fs, Resolve(fs, p).value)
    decreases |q|
  {
    hide Tree, Resolve;
    if |p| < |q| {
      SplitLast(q);
      ResolveMore(fs, Init(q), Last(q));
      NamedIn(fs, Resolve(fs, Init(q)).value, Last(q));
      assert Prefix(p, Init(q));
      DirsOnTheWay(fs, p, Init(q));
    } else {
      assert p == q;
    }
  }

  /** A rename that succeeds leaves a tree exactly when it is not such a one; its paths alone tell. */
  lemma {:induction false} RenameExactly(fs: Fs, from: Path, to: Path)
    requires Tree(fs) && Rename(fs, from, to).Ok?
    ensures Tree(Rename(fs, from, to).value) <==> !Runaway(RenameStep(from, to))
  {
    hide Tree, Rename, RenameFrom, Resolve;
    RenameKeeps(fs, from, to);
    SameIsSame(fs, from, to);
    RenameChecks(fs, from, to);
    if Prefix(from, Init(to)) {
      DirsOnTheWay(fs, from, Init(to));
      if Resolve(fs, to) == Resolve(fs, from) {
        OnePath(fs, from, to, Resolve(fs, from).value);
        assert false;
      }
    }
  }

  method Do(v: Volume, step: Step) returns (ok: bool)
    requires Tree(v.nodes) && 0 < v.layout.blockSize
    modifies v
    ensures ok ==> (Tree(v.nodes) <==> !Runaway(step))
  {
    hide Tree, Create, Write, MakeDir, Unlink, RemoveDir, Link, Rename, OnlyAt, Took, Resolve;
    ghost var fs := v.nodes;
    ok := false;
    match step {
      case CreateStep(path, kind, attrs, inum) =>
        var room := v.AskRoom(path);
        var r := v.CreateNode(path, kind, attrs, Answer(v.nodes, inum), room);
        if r.Ok? {
          CreateEffect(fs, path, kind, attrs, Answer(fs, inum));
          ok := true;
        }
      case WriteStep(path, data, attrs, inum, spoilt) =>
        var room := v.AskRoom(path);
        var put := v.AskBlocks(v.layout.BlocksOf(|data|));
        var r := v.WriteFile(path, data, attrs, Answer(v.nodes, inum), spoilt, room, put);
        if r.Ok? {
          WriteEffect(fs, path, data, attrs, Answer(fs, inum), spoilt);
          ok := true;
        }
      case MkDirStep(path, attrs, inum) =>
        var room := v.AskRoom(path);
        var r := v.MkDir(path, attrs, Answer(v.nodes, inum), room);
        if r.Ok? {
          MakeDirEffect(fs, path, attrs, Answer(fs, inum));
          ok := true;
        }
      case RemoveStep(path) =>
        var r := v.Remove(path);
        if r.Ok? {
          UnlinkEffect(fs, path);
          ok := true;
        }
      case RmDirStep(path) =>
        var r := v.RmDir(path);
        if r.Ok? {
          RemoveDirEffect(fs, path);
          ok := true;
        }
      case LinkStep(existing, path) =>
        var room := v.AskRoom(path);
        var r := v.HardLink(existing, path, room);
        if r.Ok? {
          LinkEffect(fs, existing, path);
          ok := true;
        }
      case RenameStep(from, to) =>
        var room := v.AskRoom(to);
        var r := v.Mv(from, to, room);
        if r.Ok? {
          RenameExactly(fs, from, to);
          ok := true;
        }
      case RemoveAllStep(path) =>
        var r := RemoveAll(v, path);
        ok := r.Ok?;
    }
  }

  /**
   Over every run of steps that succeed, the tree stays a tree, up to the first
   rename that runs away; and after that one it is none.
   */
  method Run(v: Volume, steps: seq<Step>) returns (ok: bool)
    requires Tree(v.nodes) && 0 < v.layout.blockSize && forall i :: 0 <= i < |steps| - 1 ==> !Runaway(steps[i])
    modifies v
    ensures ok ==> (Tree(v.nodes) <==> forall i :: 0 <= i < |steps| ==> !Runaway(steps[i]))
  {
    hide Tree, Runaway;
    for i := 0 to |steps|
      invariant Tree(v.nodes) <==> forall j :: 0 <= j < i ==> !Runaway(steps[j])
    {
      var done := Do(v, steps[i]);
      if !done {
        return false;
      }
    }
    ok := true;
  }

  // ---- a rename that cuts a directory off ----

  const PLAIN := Attrs(0x1ED, 0, 0)

  /** The directory at the end of a chain of k. */
  function Top(k: nat): nat {
    if k == 0 then ROOT else 10 + k
  }

  /** A chain of k directories, each in the one before, all of the same name. */
  function Chain(k: nat): (fs: Fs)
    ensures IsDir(fs, Top(k)) && fs[Top(k)].entries == map[] && (forall i :: i in fs ==> i == ROOT || i <= 10 + k)
  {
    if k == 0 then map[ROOT := Dir(map[], ROOT, 2, PLAIN)]
    else AddDir(Chain(k - 1), Top(k - 1), [97], Top(k), PLAIN)
  }

  function ChainPath(k: nat): (p: Path)
    ensures |p| == k
  {
    seq(k, i => [97])
  }

  lemma {:induction false} EmptyTree()
    ensures Tree(Chain(0)) && Resolve(Chain(0), []) == Some(ROOT)
  {
    var fs := Chain(0);
    assert SubDirs(fs, ROOT) == {};
    var k: nat := 0;
    assert Climb(fs, ROOT, k) == ROOT;
  }

  lemma {:induction false} ChainIsTree(k: nat)
    ensures Tree(Chain(k)) && Resolve(Chain(k), ChainPath(k)) == Some(Top(k))
    ensures forall j :: 0 <= j <= k ==> Resolve(Chain(k), ChainPath(j)) == Some(Top(j)) && IsDir(Chain(k), Top(j))
  {
    if k == 0 {
      EmptyTree();
      assert ChainPath(0) == [];
    } else {
      ChainIsTree(k - 1);
      var was, now, d, i := Chain(k - 1), Chain(k), Top(k - 1), Top(k);
      hide Tree, Resolve, Chain, Find;
      ChainStep(k);
      forall j | 0 <= j < k ensures Resolve(now, ChainPath(j)) == Some(Top(j)) && IsDir(now, Top(j)) {
        assert Resolve(was, ChainPath(j)) == Some(Top(j));
        assert ChainPath(j) != ChainPath(k);
      }
    }
  }

  lemma {:induction false} ChainStep(k: nat)
    requires k > 0 && Tree(Chain(k - 1)) && Resolve(Chain(k - 1), ChainPath(k - 1)) == Some(Top(k - 1))
    ensures Tree(Chain(k)) && OnlyAt(Chain(k - 1), Chain(k), ChainPath(k), Some(Top(k)))
    ensures forall d :: IsDir(Chain(k - 1), d) ==> IsDir(Chain(k), d)
  {
    hide Tree, Resolve, Chain, Find, EntriesAt, GainsName, AddDir;
    var was, now, d, i := Chain(k - 1), Chain(k), Top(k - 1), Top(k);
    ChainNext(k);
    AddDirKeeps(was, d, [97], i, PLAIN);
    assert ChainPath(k) == ChainPath(k - 1) + [[97]];
    forall q ensures Resolve(now, q) == if q == ChainPath(k) then Some(i) else Resolve(was, q) {
      GainResolves(was, now, ChainPath(k - 1), d, [97], i, q);
    }
  }

  lemma {:induction false} ChainNext(k: nat)
    requires k > 0
    ensures var was, now, d, i := Chain(k - 1), Chain(k), Top(k - 1), Top(k);
            && i !in was && IsDir(was, d) && [97] !in was[d].entries && now == AddDir(was, d, [97], i, PLAIN) && i != d
            && GainsName(was, now, d, [97], i) && EntriesAt(was, i) == map[]
            && forall x :: IsDir(was, x) ==> IsDir(now, x)
  {
  }

  /**
   A directory moved 4096 levels or more down inside itself: the search for an
   ancestor gives up, the rename goes ahead, and what is left is no tree.
   */
  lemma {:induction false} DeepRename(k: nat)
    requires ANCESTOR_LIMIT < k
    ensures var fs, from, to := Chain(k), ChainPath(1), ChainPath(k) + [[98]];
            Tree(fs) && Rename(fs, from, to).Ok? && !Tree(Rename(fs, from, to).value)
  {
    hide Tree, Chain, Find, Resolve, Rename, IsAncestor;
    var fs, from, to := Chain(k), ChainPath(1), ChainPath(k) + [[98]];
    var i, d := Top(1), Top(k);
    ChainIsTree(k);
    assert Init(to) == ChainPath(k) && Last(to) == [98] && Init(from) == ChainPath(0);
    TooFarUp(fs, k);
    ResolveMore(fs, ChainPath(k), [98]);
    DeepGoesAhead(fs, from, to, i, ROOT, d);
    assert Prefix(from, Init(to));
    RenameKeeps(fs, from, to);
  }

  lemma {:induction false} TooFarUp(fs: Fs, k: nat)
    requires Tree(fs) && ANCESTOR_LIMIT < k && IsDir(fs, Top(k)) && IsDir(fs, Top(1))
    requires forall j :: 0 <= j <= k ==> Resolve(fs, ChainPath(j)) == Some(Top(j))
    ensures !IsAncestor(fs, Top(1), Top(k), ANCESTOR_LIMIT)
  {
    hide Tree, Resolve, Find, Climb;
    AncestorExactly(fs, Top(1), Top(k), ANCESTOR_LIMIT);
    forall n: nat | n < ANCESTOR_LIMIT ensures Climb(fs, Top(k), n) != Top(1) {
      assert ChainPath(k) == ChainPath(k - n) + ChainPath(n);
      UnderClimbs(fs, ChainPath(k - n), ChainPath(n), Top(k - n), Top(k));
    }
  }

  /** Nothing stands in the way of a rename to a free name in a directory the search does not find inside. */
  lemma {:induction false} DeepGoesAhead(fs: Fs, from: Path, to: Path, i: nat, d1: nat, d2: nat)
    requires Tree(fs) && from != [] && to != [] && Resolve(fs, from) == Some(i) && Resolve(fs, Init(from)) == Some(d1) && Resolve(fs, Init(to)) == Some(d2)
    requires IsDir(fs, d2) && !IsAncestor(fs, i, d2, ANCESTOR_LIMIT) && Resolve(fs, to) == None && NameOk(Last(to))
    ensures Rename(fs, from, to).Ok?
  {
    LookupIs(fs, from, i);
    LookupIs(fs, Init(from), d1);
    LookupIs(fs, Init(to), d2);
    FindsNothing(fs, to, d2);
    hide Tree, Resolve, IsAncestor, Move, Find;
  }

  lemma {:induction false} FindsNothing(fs: Fs, to: Path, d: nat)
    requires to != [] && Resolve(fs, Init(to)) == Some(d) && IsDir(fs, d) && Resolve(fs, to) == None
    ensures Find(fs, ROOT, to) == Ok(None)
  {
    SplitLast(to);
    FindConcat(fs, ROOT, Init(to), [Last(to)]);
  }

  // ---- a rename that stops at ".." ----

  /** Two directories, and one in the first of them. */
  function ThreeDirs(): Fs {
    var fs := AddDir(Chain(0), ROOT, [97], 11, PLAIN);
    AddDir(AddDir(fs, ROOT, [98], 12, PLAIN), 11, [99], 13, PLAIN)
  }

  lemma {:induction false} ThreeDirsAre()
    ensures var fs := ThreeDirs();
            && Tree(fs) && IsDir(fs, ROOT) && IsDir(fs, 11) && IsDir(fs, 12) && IsDir(fs, 13) && fs[ROOT].entries == map[[97] := 11, [98] := 12]
            && fs[11].entries == map[[99] := 13] && fs[12].entries == map[] && fs[11].parent == ROOT && fs[12].parent == ROOT
  {
    EmptyTree();
    hide Tree, Less;
    AddDirKeeps(Chain(0), ROOT, [97], 11, PLAIN);
    var fs := AddDir(Chain(0), ROOT, [97], 11, PLAIN);
    AddDirKeeps(fs, ROOT, [98], 12, PLAIN);
    AddDirKeeps(AddDir(fs, ROOT, [98], 12, PLAIN), 11, [99], 13, PLAIN);
  }

  lemma {:induction false} ThreePaths()
    ensures var fs := ThreeDirs();
            && Resolve(fs, [[97], [99]]) == Some(13) && Resolve(fs, [[97]]) == Some(11) && Resolve(fs, [[98]]) == Some(12)
            && Resolve(fs, [[98], [99]]) == None
  {
    ThreeDirsAre();
    hide Tree, ThreeDirs, Find, Resolve;
    var fs, a: Name, b: Name, c: Name := ThreeDirs(), [97], [98], [99];
    ResolveMore(fs, [], a);
    ResolveMore(fs, [], b);
    assert [] + [a] == [a] && [] + [b] == [b];
    ResolveMore(fs, [a], c);
    ResolveMore(fs, [b], c);
    assert [a] + [c] == [a, c] && [b] + [c] == [b, c];
  }

  /** One of them whose ".." cannot be reached, moved from one to another: all but its ".." is, and what is left is no tree. */
  lemma {:induction false} StuckRename()
    ensures var fs, from, to := ThreeDirs(), [[97], [99]], [[98], [99]];
            && Tree(fs) && Rename(fs, from, to).Ok? && Carriable(fs, map[], from, to, Ok({})) && DotsStuck(fs, {13}, from, to)
            && Resolve(Halfway(fs, from, to), to) == Some(13) && !Tree(Halfway(fs, from, to))
  {
    ThreeRename();
    hide Tree, ThreeDirs, Find, Resolve, Rename, Halfway, Carriable;
    var fs, from: Path, to: Path := ThreeDirs(), [[97], [99]], [[98], [99]];
    HalfwayIs(fs, {13}, from, to);
    RenameKeeps(fs, from, to);
    RenameExactly(fs, from, to);
    assert to + [] == to && from + [] == from;
  }

  lemma {:induction false} ThreeRename()
    ensures var fs, from, to := ThreeDirs(), [[97], [99]], [[98], [99]];
            && Tree(fs) && Resolve(fs, from) == Some(13) && Resolve(fs, to) == None
            && Rename(fs, from, to).Ok? && Carriable(fs, map[], from, to, Ok({})) && DotsStuck(fs, {13}, from, to)
  {
    ThreeDirsAre();
    ThreePaths();
    hide Tree, ThreeDirs, Find, Resolve, Rename;
    var fs, from: Path, to: Path := ThreeDirs(), [[97], [99]], [[98], [99]];
    assert Init(from) == [[97]] && Init(to) == [[98]] && Last(to) == [99];
    assert !IsAncestor(fs, 13, 12, ANCESTOR_LIMIT);
    DeepGoesAhead(fs, from, to, 13, 11, 12);
  }

  lemma {:induction false} WriteOver(fs: Fs, n: Name, i: nat, data: Bytes, spoilt: Kind)
    requires Tree(fs) && IsDir(fs, ROOT) && n in fs[ROOT].entries && fs[ROOT].entries[n] == i && i in fs && fs[i].Leaf?
    ensures var r := Write(fs, [n], data, PLAIN, Err(NoInodes), spoilt);
            r == Ok(fs[i := fs[i].(kind := Overwritten(fs[i].kind, data, spoilt))]) && Resolve(r.value, [n]) == Some(i)
  {
    hide Tree, Overwritten, Resolve;
    var path: Path := [n];
    assert Init(path) == [] && Last(path) == n && path == [] + [n];
    var r := Write(fs, path, data, PLAIN, Err(NoInodes), spoilt);
    ResolveMore(r.value, [], n);
  }

  /** A directory with one FIFO in it. */
  function OneFifo(): Fs {
    AddLeaf(Chain(0), ROOT, [97], 11, Fifo, PLAIN)
  }

  lemma {:induction false} OneFifoIs()
    ensures var fs := OneFifo();
            && Tree(fs) && IsDir(fs, ROOT) && [97] in fs[ROOT].entries && fs[ROOT].entries[[97]] == 11
            && 11 in fs && fs[11] == Leaf(Fifo, 1, PLAIN)
  {
    EmptyTree();
    hide Tree;
    AddLeafKeeps(Chain(0), ROOT, [97], 11, Fifo, PLAIN);
  }

  /** Written over as a file would be, it is a FIFO still. */
  lemma {:induction false} FifoStays(data: Bytes, spoilt: Kind)
    ensures Tree(OneFifo())
    ensures var r := Write(OneFifo(), [[97]], data, PLAIN, Err(NoInodes), spoilt);
            r.Ok? && Resolve(r.value, [[97]]) == Some(11) && 11 in r.value && r.value[11] == Leaf(Fifo, 1, PLAIN)
  {
    OneFifoIs();
    hide Tree, Write, Resolve, OneFifo;
    WriteOver(OneFifo(), [97], 11, data, spoilt);
  }
}
