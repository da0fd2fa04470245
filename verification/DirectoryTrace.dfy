/**
 What operations on names ask of each directory (src/volume.rs:363-728): a run of
 additions and removals of names, from which its entries come to be what the
 tree of names says, whether a list of blocks holds them or an index.
 */
module DirectoryTrace {
  import opened Base
  import opened Namespace
  import opened NameOps
  import opened VolumeNames
  import NameVolume
  import opened NameRuns
  import DirBlock
  import DirEntries
  import DirectoryIndex

  type Entry = DirBlock.Entry
  type Op = DirectoryIndex.Op

  /** The type a directory's entry has for an inode. */
  function TypeOf(node: Node): byte {
    match node
    case Dir(_, _, _, _) => 2
    case Leaf(Regular(_), _, _) => 1
    case Leaf(CharDevice(_, _), _, _) => 3
    case Leaf(BlockDevice(_, _), _, _) => 4
    case Leaf(Fifo, _, _) => 5
    case Leaf(Symlink(_), _, _) => 7
  }

  /** A directory's entries are the names the tree has there, leading where they do. */
  ghost predicate Stands(m: map<Bytes, Entry>, names: map<Name, nat>) {
    && m.Keys == names.Keys
    && forall n :: n in m ==> m[n].name == n && m[n].inode == names[n]
  }

  // ---- what a step asks of directories ----

  /** What one step does to the tree. Removing everything under a path is a run of others. */
  function After(fs: Fs, step: Step): Result<Fs>
    requires Tree(fs)
  {
    match step
    case CreateStep(path, kind, attrs, inum) => Create(fs, path, kind, attrs, Answer(fs, inum))
    case WriteStep(path, data, attrs, inum, spoilt) => NameVolume.Write(fs, path, data, attrs, Answer(fs, inum), spoilt)
    case MkDirStep(path, attrs, inum) => MakeDir(fs, path, attrs, Answer(fs, inum))
    case RemoveStep(path) => Unlink(fs, path)
    case RmDirStep(path) => RemoveDir(fs, path)
    case LinkStep(existing, path) => Link(fs, existing, path)
    case RenameStep(from, to) => Rename(fs, from, to)
    case RemoveAllStep(path) => Err(Unsupported)
  }

  function Added(fs: Fs, path: Path, target: nat, fileType: byte, d: nat): seq<Op> {
    if path != [] && Resolve(fs, Init(path)) == Some(d) then [DirectoryIndex.Add(Last(path), target, fileType)] else []
  }

  function Dropped(fs: Fs, path: Path, d: nat): seq<Op> {
    if path != [] && Resolve(fs, Init(path)) == Some(d) then [DirectoryIndex.Drop(Last(path))] else []
  }

  /** What it asks of directory d: a name put in where there is none, a name taken out. */
  function Asks(fs: Fs, step: Step, d: nat): seq<Op>
    requires Tree(fs)
  {
    match step
    case CreateStep(path, kind, attrs, inum) => Added(fs, path, inum, TypeOf(Leaf(kind, 1, attrs)), d)
    case WriteStep(path, data, attrs, inum, spoilt) =>
      if Resolve(fs, path).Some? then [] else Added(fs, path, inum, 1, d)
    case MkDirStep(path, attrs, inum) => Added(fs, path, inum, 2, d)
    case RemoveStep(path) => Dropped(fs, path, d)
    case RmDirStep(path) => Dropped(fs, path, d)
    case LinkStep(existing, path) => Added(fs, path, LeadsTo(fs, existing), TypeAt(fs, existing), d)
    case RenameStep(from, to) =>
      if Resolve(fs, from) == Resolve(fs, to) then []
      else
        (if Resolve(fs, to).Some? then Dropped(fs, to, d) else [])
        + Added(fs, to, LeadsTo(fs, from), TypeAt(fs, from), d) + Dropped(fs, from, d)
    case RemoveAllStep(path) => []
  }

  function LeadsTo(fs: Fs, path: Path): nat {
    match Resolve(fs, path) case Some(i) => i case None => 0
  }

  function TypeAt(fs: Fs, path: Path): byte {
    if LeadsTo(fs, path) in fs then TypeOf(fs[LeadsTo(fs, path)]) else 0
  }

  // ---- one name gained or lost ----

  /** The operations are ones a directory may be asked for, and leave it as the tree has it. */
  ghost predicate Follows(m: map<Bytes, Entry>, ops: seq<Op>, names: map<Name, nat>) {
    DirectoryIndex.Asked(m, ops) && Stands(DirectoryIndex.ApplyAll(m, ops), names)
  }

  lemma {:induction false} NothingAsked(m: map<Bytes, Entry>, names: map<Name, nat>)
    requires Stands(m, names)
    ensures Follows(m, [], names)
  {
  }

  lemma {:induction false} OneAsked(m: map<Bytes, Entry>, op: Op)
    ensures DirectoryIndex.ApplyAll(m, [op]) == DirectoryIndex.Apply(m, op)
    ensures DirectoryIndex.Asked(m, [op]) <==>
              && (op.Reindex? || (op.name != DirEntries.DOT && op.name != DirEntries.DOTDOT))
              && (op.Add? ==> 0 < op.target < U32_LIMIT && op.name !in m)
  {
    var ops := [op];
    assert ops[..0] == [] && DirectoryIndex.ApplyAll(m, ops[..0]) == m;
  }

  lemma {:induction false} ApplyMore(m: map<Bytes, Entry>, a: seq<Op>, b: seq<Op>)
    ensures DirectoryIndex.ApplyAll(m, a + b) == DirectoryIndex.ApplyAll(DirectoryIndex.ApplyAll(m, a), b)
  {
    if b == [] {
      assert a + b == a;
    } else {
      var n := |b| - 1;
      ApplyMore(m, a, b[..n]);
      assert (a + b)[..|a + b| - 1] == a + b[..n];
    }
  }

  /** One run of operations behind another. */
  lemma {:induction false} FollowsOn(m: map<Bytes, Entry>, a: seq<Op>, mid: map<Name, nat>, b: seq<Op>, names: map<Name, nat>)
    requires Follows(m, a, mid) && Follows(DirectoryIndex.ApplyAll(m, a), b, names)
    ensures Follows(m, a + b, names)
  {
    hide DirectoryIndex.Apply, Stands, DirectoryIndex.ApplyAll;
    ApplyMore(m, a, b);
    var ops := a + b;
    forall i | 0 <= i < |ops|
      ensures ops[i].Reindex? || (ops[i].name != DirEntries.DOT && ops[i].name != DirEntries.DOTDOT)
      ensures ops[i].Add? ==> 0 < ops[i].target < U32_LIMIT && ops[i].name !in DirectoryIndex.ApplyAll(m, ops[..i])
    {
      if i < |a| {
        assert ops[..i] == a[..i];
      } else {
        assert ops[..i] == a + b[..i - |a|];
        ApplyMore(m, a, b[..i - |a|]);
      }
    }
  }

  /** A name that is not one of the dots. */
  predicate Dotless(path: Path) {
    path != [] ==> Last(path) != DirEntries.DOT && Last(path) != DirEntries.DOTDOT
  }

  lemma {:induction false} GainFollows(fs: Fs, was: Fs, now: Fs, path: Path, d0: nat, i: nat, t: byte, d: nat, m: map<Bytes, Entry>)
    requires path != [] && Dotless(path) && Resolve(fs, Init(path)) == Some(d0) && 0 < i < U32_LIMIT
    requires GainsName(was, now, d0, Last(path), i) && Stands(m, EntriesAt(was, d))
    ensures Follows(m, Added(fs, path, i, t, d), EntriesAt(now, d))
  {
    hide Resolve, EntriesAt;
    if d == d0 {
      OneAsked(m, DirectoryIndex.Add(Last(path), i, t));
    } else {
      NothingAsked(m, EntriesAt(now, d));
    }
  }

  lemma {:induction false} LossFollows(fs: Fs, was: Fs, now: Fs, path: Path, d0: nat, i: nat, d: nat, m: map<Bytes, Entry>)
    requires path != [] && Dotless(path) && Resolve(fs, Init(path)) == Some(d0)
    requires GainsName(now, was, d0, Last(path), i) && Stands(m, EntriesAt(was, d))
    ensures Follows(m, Dropped(fs, path, d), EntriesAt(now, d))
  {
    hide Resolve, EntriesAt;
    if d == d0 {
      OneAsked(m, DirectoryIndex.Drop(Last(path)));
    } else {
      NothingAsked(m, EntriesAt(now, d));
    }
  }

  // ---- one step ----

  /** Inodes are numbered as the disk numbers them. */
  ghost predicate Numbered(fs: Fs) {
    forall i :: i in fs ==> 0 < i < U32_LIMIT
  }

  /** The step's names are none of the two dots, and a new inode's number is one the disk can hold. */
  predicate Spelt(step: Step) {
    match step
    case CreateStep(path, kind, attrs, inum) => Dotless(path) && 0 < inum < U32_LIMIT
    case WriteStep(path, data, attrs, inum, spoilt) => Dotless(path) && 0 < inum < U32_LIMIT
    case MkDirStep(path, attrs, inum) => Dotless(path) && 0 < inum < U32_LIMIT
    case RemoveStep(path) => Dotless(path)
    case RmDirStep(path) => Dotless(path)
    case LinkStep(existing, path) => Dotless(path)
    case RenameStep(from, to) => Dotless(from) && Dotless(to)
    case RemoveAllStep(path) => true
  }

  lemma {:induction false} AddsGain(fs: Fs, d: nat, n: Name, i: nat)
    requires IsDir(fs, d) && n !in fs[d].entries
    ensures i !in fs ==> forall k, a :: GainsName(fs, AddLeaf(fs, d, n, i, k, a), d, n, i)
    ensures i !in fs ==> forall a :: GainsName(fs, AddDir(fs, d, n, i, a), d, n, i)
    ensures i in fs && !IsDir(fs, i) ==> GainsName(fs, AddName(fs, d, n, i), d, n, i)
  {
  }

  lemma {:induction false} DropsLose(fs: Fs, d: nat, n: Name)
    requires IsDir(fs, d) && n in fs[d].entries && fs[d].entries[n] in fs
    ensures !IsDir(fs, fs[d].entries[n]) ==> GainsName(DropName(fs, d, n), fs, d, n, fs[d].entries[n])
    ensures IsDir(fs, fs[d].entries[n]) && fs[d].entries[n] != d && fs[fs[d].entries[n]].entries == map[] ==>
              GainsName(DropDir(fs, d, n), fs, d, n, fs[d].entries[n])
  {
  }

  lemma {:induction false} MakesFollow(fs: Fs, step: Step, d: nat, m: map<Bytes, Entry>)
    requires Tree(fs) && (step.CreateStep? || step.MkDirStep? || step.LinkStep?)
    requires After(fs, step).Ok? && Spelt(step) && Numbered(fs) && Stands(m, EntriesAt(fs, d))
    ensures Follows(m, Asks(fs, step, d), EntriesAt(After(fs, step).value, d))
  {
    hide Tree, Resolve, Find, EntriesAt, Stands, Follows, AddLeaf, AddDir, AddName, GainsName, NameOk;
    var now, path := After(fs, step).value, step.path;
    VacantIs(fs, path);
    var d0 := Vacant(fs, path).value;
    match step {
      case CreateStep(_, kind, attrs, inum) =>
        AddsGain(fs, d0, Last(path), inum);
        GainFollows(fs, fs, now, path, d0, inum, TypeOf(Leaf(kind, 1, attrs)), d, m);
      case MkDirStep(_, attrs, inum) =>
        AddsGain(fs, d0, Last(path), inum);
        GainFollows(fs, fs, now, path, d0, inum, 2, d, m);
      case LinkStep(existing, _) =>
        var i := Lookup(fs, existing).value;
        LooksUp(fs, existing);
        ResolvesIn(fs, existing, i);
        AddsGain(fs, d0, Last(path), i);
        GainFollows(fs, fs, now, path, d0, i, TypeAt(fs, existing), d, m);
    }
  }

  lemma {:induction false} LooksUp(fs: Fs, path: Path)
    requires Lookup(fs, path).Ok?
    ensures Resolve(fs, path) == Some(Lookup(fs, path).value)
  {
  }

  lemma {:induction false} TakesFollow(fs: Fs, step: Step, d: nat, m: map<Bytes, Entry>)
    requires Tree(fs) && (step.RemoveStep? || step.RmDirStep?)
    requires After(fs, step).Ok? && Spelt(step) && Stands(m, EntriesAt(fs, d))
    ensures Follows(m, Asks(fs, step, d), EntriesAt(After(fs, step).value, d))
  {
    hide Tree, Resolve, Find, EntriesAt, Stands, Follows, DropName, DropDir, GainsName, FindName;
    var now, path := After(fs, step).value, step.path;
    var f := FindName(fs, path).value;
    FindNameIs(fs, path);
    NamedHeld(fs, f.dir, f.name);
    DropsLose(fs, f.dir, f.name);
    LossFollows(fs, fs, now, path, f.dir, f.inode, d, m);
  }

  lemma {:induction false} NamedHeld(fs: Fs, d: nat, n: Name)
    requires Tree(fs) && IsDir(fs, d) && n in fs[d].entries
    ensures fs[d].entries[n] in fs && fs[d].entries[n] != d
  {
    hide Tree;
    NameVolume.HeldIn(fs, d, n);
  }

  lemma {:induction false} WriteFollows(fs: Fs, step: Step, d: nat, m: map<Bytes, Entry>)
    requires Tree(fs) && step.WriteStep? && After(fs, step).Ok? && Spelt(step) && Numbered(fs) && Stands(m, EntriesAt(fs, d))
    ensures Follows(m, Asks(fs, step, d), EntriesAt(After(fs, step).value, d))
  {
    var path, now := step.path, After(fs, step).value;
    WriteIs(fs, path, step.data, step.attrs, Answer(fs, step.inum), step.spoilt);
    hide Tree, Resolve, Find, EntriesAt, Stands, Follows, NameVolume.Write, Create, NameOk;
    if Resolve(fs, path).Some? {
      NothingAsked(m, EntriesAt(now, d));
    } else {
      MakesFollow(fs, CreateStep(path, Regular(step.data), step.attrs, step.inum), d, m);
    }
  }

  lemma {:induction false} WriteIs(fs: Fs, path: Path, data: Bytes, attrs: Attrs, given: Result<nat>, spoilt: Kind)
    requires Tree(fs) && Given(fs, given) && NameVolume.Write(fs, path, data, attrs, given, spoilt).Ok?
    ensures var now := NameVolume.Write(fs, path, data, attrs, given, spoilt);
            && (Resolve(fs, path) == None ==> now == Create(fs, path, Regular(data), attrs, given))
            && (Resolve(fs, path).Some? ==> SameEntries(fs, now.value))
  {
    hide CountOk, ChildOk, Rooted, Find, NameVolume.Overwritten;
    var d := ParentDir(fs, path).value;
    SplitLast(path);
    ResolveMore(fs, Init(path), Last(path));
    hide Resolve;
    if Last(path) in fs[d].entries {
      HeldBy(fs, d, Last(path));
    }
  }

  // ---- a rename ----

  /** What clears a destination is a removal like any other. */
  lemma {:induction false} ClearedBy(fs: Fs, to: Path, i: nat)
    requires Tree(fs) && Cleared(fs, to, i).Ok? && Cleared(fs, to, i).value.Some? && Resolve(fs, to).Some?
    ensures var f := Cleared(fs, to, i).value.value;
            After(fs, RmDirStep(to)) == Ok(f) || After(fs, RemoveStep(to)) == Ok(f)
  {
    hide Tree, Find, RemoveDir, Unlink;
  }

  /** The destination's old name, if any, is dropped first. */
  lemma {:induction false} ClearFollows(fs: Fs, to: Path, i: nat, d: nat, m: map<Bytes, Entry>)
    requires Tree(fs) && Dotless(to) && Cleared(fs, to, i).Ok? && Cleared(fs, to, i).value.Some? && Stands(m, EntriesAt(fs, d))
    ensures Follows(m, if Resolve(fs, to).Some? then Dropped(fs, to, d) else [], EntriesAt(Cleared(fs, to, i).value.value, d))
  {
    hide Tree, Resolve, Find, EntriesAt, Stands, Follows, Cleared, After;
    var f := Cleared(fs, to, i).value.value;
    if Resolve(fs, to).Some? {
      ClearedBy(fs, to, i);
      if After(fs, RmDirStep(to)) == Ok(f) {
        TakesFollow(fs, RmDirStep(to), d, m);
      } else {
        TakesFollow(fs, RemoveStep(to), d, m);
      }
    } else {
      ClearedNothing(fs, to, i);
      NothingAsked(m, EntriesAt(fs, d));
    }
  }

  /** A move puts the one name in and takes the other out. */
  lemma {:induction false} MoveGains(f: Fs, d1: nat, n1: Name, d2: nat, n2: Name)
    requires Movable(f, d1, n1, d2, n2)
    ensures var i, mid, now := f[d1].entries[n1], Put(f, d2, n2, f[d1].entries[n1]), Move(f, d1, n1, d2, n2);
            GainsName(f, mid, d2, n2, i) && GainsName(now, mid, d1, n1, i)
  {
  }

  /** A rename that changes anything, taken apart. */
  ghost predicate Renames(fs: Fs, from: Path, to: Path, r: Renaming, f: Fs, now: Fs)
    requires Tree(fs)
  {
    && from != [] && to != [] && Cleared(fs, to, r.inode) == Ok(Some(f))
    && Resolve(fs, Init(from)) == Some(r.fromDir) && Resolve(fs, Init(to)) == Some(r.toDir) && Resolve(fs, from) == Some(r.inode)
    && Movable(f, r.fromDir, Last(from), r.toDir, Last(to)) && f[r.fromDir].entries[Last(from)] == r.inode
    && now == Move(f, r.fromDir, Last(from), r.toDir, Last(to))
  }

  lemma {:induction false} RenameParts(fs: Fs, from: Path, to: Path) returns (r: Renaming, f: Fs)
    requires Tree(fs) && Rename(fs, from, to).Ok? && Resolve(fs, from) != Resolve(fs, to)
    ensures Renames(fs, from, to, r, f, Rename(fs, from, to).value)
  {
    hide Tree, Find, Resolve, RenameFrom, Cleared, Move, Movable;
    SameIsSame(fs, from, to);
    r := RenameFrom(fs, from, to).value;
    f := Cleared(fs, to, r.inode).value.value;
    RenameReady(fs, from, to);
    RenameDirs(fs, from, to);
    MoveReady(fs, f, from, to, r);
  }

  lemma {:induction false} RenameFollows(fs: Fs, from: Path, to: Path, d: nat, m: map<Bytes, Entry>)
    requires Tree(fs) && Rename(fs, from, to).Ok? && Dotless(from) && Dotless(to) && Numbered(fs) && Stands(m, EntriesAt(fs, d))
    ensures Follows(m, Asks(fs, RenameStep(from, to), d), EntriesAt(Rename(fs, from, to).value, d))
  {
    hide Tree, Resolve, Find, EntriesAt, Stands, Follows, Rename, Renames, TypeAt, Added, Dropped;
    if Resolve(fs, from) == Resolve(fs, to) {
      SameIsSame(fs, from, to);
      NothingAsked(m, EntriesAt(fs, d));
    } else {
      var r, f := RenameParts(fs, from, to);
      MovesFollow(fs, from, to, r, f, Rename(fs, from, to).value, d, m);
    }
  }

  lemma {:induction false} MovesFollow(fs: Fs, from: Path, to: Path, r: Renaming, f: Fs, now: Fs, d: nat, m: map<Bytes, Entry>)
    requires Tree(fs) && Renames(fs, from, to, r, f, now) && Dotless(from) && Dotless(to) && Numbered(fs) && Stands(m, EntriesAt(fs, d))
    requires Resolve(fs, from) != Resolve(fs, to)
    ensures Follows(m, Asks(fs, RenameStep(from, to), d), EntriesAt(now, d))
  {
    hide Tree, Resolve, Find, EntriesAt, Stands, Follows, Cleared, Move, GainsName, TypeAt, Added, Dropped;
    var mid := Put(f, r.toDir, Last(to), r.inode);
    MoveGains(f, r.fromDir, Last(from), r.toDir, Last(to));
    hide Put, Movable;
    ResolvesIn(fs, from, r.inode);
    var a := if Resolve(fs, to).Some? then Dropped(fs, to, d) else [];
    var b, c := Added(fs, to, r.inode, TypeAt(fs, from), d), Dropped(fs, from, d);
    ClearFollows(fs, to, r.inode, d, m);
    FollowsStands(m, a, EntriesAt(f, d));
    GainFollows(fs, f, mid, to, r.toDir, r.inode, TypeAt(fs, from), d, DirectoryIndex.ApplyAll(m, a));
    FollowsOn(m, a, EntriesAt(f, d), b, EntriesAt(mid, d));
    FollowsStands(m, a + b, EntriesAt(mid, d));
    LossFollows(fs, mid, now, from, r.fromDir, r.inode, d, DirectoryIndex.ApplyAll(m, a + b));
    FollowsOn(m, a + b, EntriesAt(mid, d), c, EntriesAt(now, d));
    assert Asks(fs, RenameStep(from, to), d) == a + b + c;
  }

  lemma {:induction false} FollowsStands(m: map<Bytes, Entry>, ops: seq<Op>, names: map<Name, nat>)
    requires Follows(m, ops, names)
    ensures Stands(DirectoryIndex.ApplyAll(m, ops), names)
  {
  }

  lemma {:induction false} RenameDirs(fs: Fs, from: Path, to: Path)
    requires RenameFrom(fs, from, to).Ok?
    ensures var r := RenameFrom(fs, from, to).value;
            from != [] && to != [] && Resolve(fs, Init(from)) == Some(r.fromDir) && Resolve(fs, Init(to)) == Some(r.toDir)
  {
  }

  lemma {:induction false} MoveReady(fs: Fs, f: Fs, from: Path, to: Path, r: Renaming)
    requires Tree(f) && from != [] && to != [] && RenameFrom(fs, from, to) == Ok(r)
    requires IsDir(f, r.fromDir) && Last(from) in f[r.fromDir].entries && f[r.fromDir].entries[Last(from)] == r.inode && r.inode in f
    requires IsDir(f, r.toDir) && Last(to) !in f[r.toDir].entries && (IsDir(f, r.inode) <==> IsDir(fs, r.inode))
    ensures Movable(f, r.fromDir, Last(from), r.toDir, Last(to))
  {
    NotInPlace(fs, from, to);
    hide RenameFrom, CountOk, ChildOk, Rooted;
    NotOwnChild(f, r.fromDir, Last(from));
    CountAt(f, r.fromDir);
    if IsDir(f, r.inode) {
      CountsSubDir(f, r.fromDir, Last(from));
    }
  }

  // ---- any step, and any run of them ----

  /** One step asks of each directory what brings its entries to what the tree has there. */
  lemma {:induction false} StepFollows(fs: Fs, step: Step, d: nat, m: map<Bytes, Entry>)
    requires Tree(fs) && After(fs, step).Ok? && Spelt(step) && Numbered(fs) && Stands(m, EntriesAt(fs, d))
    ensures Follows(m, Asks(fs, step, d), EntriesAt(After(fs, step).value, d))
  {
    if step.RenameStep? {
      hide Tree, EntriesAt, Stands, Follows, Rename;
      RenameFollows(fs, step.from, step.to, d, m);
    } else {
      hide Tree, EntriesAt, Stands, Follows, After;
      if step.CreateStep? || step.MkDirStep? || step.LinkStep? {
        MakesFollow(fs, step, d, m);
      } else if step.WriteStep? {
        WriteFollows(fs, step, d, m);
      } else if step.RemoveStep? || step.RmDirStep? {
        TakesFollow(fs, step, d, m);
      } else {
        NoRemoveAll(fs, step);
      }
    }
  }

  lemma {:induction false} NoRemoveAll(fs: Fs, step: Step)
    requires Tree(fs) && step.RemoveAllStep?
    ensures After(fs, step).Err?
  {
  }

  /** A step keeps a tree, but for a rename that runs away, and the inodes' numbers. */
  lemma {:induction false} StepKeeps(fs: Fs, step: Step)
    requires Tree(fs) && After(fs, step).Ok? && Spelt(step) && Numbered(fs)
    ensures Numbered(After(fs, step).value) && (!Runaway(step) ==> Tree(After(fs, step).value))
  {
    StepNumbers(fs, step);
    hide Tree, Find, Resolve, Create, NameVolume.Write, MakeDir, Unlink, RemoveDir, Link, Rename, OnlyAt, Took, Numbered, Runaway;
    match step {
      case CreateStep(path, kind, attrs, inum) => CreateEffect(fs, path, kind, attrs, Answer(fs, inum));
      case WriteStep(path, data, attrs, inum, spoilt) => NameVolume.WriteEffect(fs, path, data, attrs, Answer(fs, inum), spoilt);
      case MkDirStep(path, attrs, inum) => MakeDirEffect(fs, path, attrs, Answer(fs, inum));
      case RemoveStep(path) => UnlinkEffect(fs, path);
      case RmDirStep(path) => RemoveDirEffect(fs, path);
      case LinkStep(existing, path) => LinkEffect(fs, existing, path);
      case RenameStep(from, to) => RenameExactly(fs, from, to);
      case RemoveAllStep(_) =>
    }
  }

  lemma {:induction false} AddsKeys(fs: Fs, d: nat, n: Name, i: nat)
    requires IsDir(fs, d)
    ensures i !in fs ==> forall k, a :: AddLeaf(fs, d, n, i, k, a).Keys == fs.Keys + {i}
    ensures i !in fs ==> forall a :: AddDir(fs, d, n, i, a).Keys == fs.Keys + {i}
    ensures i in fs && !IsDir(fs, i) ==> AddName(fs, d, n, i).Keys == fs.Keys
  {
  }

  lemma {:induction false} DropsKeys(fs: Fs, d: nat, n: Name)
    requires IsDir(fs, d) && n in fs[d].entries && fs[d].entries[n] in fs && fs[d].entries[n] != d
    ensures !IsDir(fs, fs[d].entries[n]) ==> DropName(fs, d, n).Keys <= fs.Keys
    ensures IsDir(fs, fs[d].entries[n]) ==> DropDir(fs, d, n).Keys <= fs.Keys
  {
  }

  lemma {:induction false} FewerNumbered(fs: Fs, now: Fs, i: nat)
    requires Numbered(fs) && now.Keys <= fs.Keys + {i} && (i in fs || 0 < i < U32_LIMIT)
    ensures Numbered(now)
  {
    forall k | k in now ensures 0 < k < U32_LIMIT {
      assert k in now.Keys;
    }
  }

  lemma {:induction false} MakesNumbers(fs: Fs, step: Step)
    requires Tree(fs) && (step.CreateStep? || step.MkDirStep? || step.LinkStep?) && After(fs, step).Ok? && Spelt(step) && Numbered(fs)
    ensures Numbered(After(fs, step).value)
  {
    hide Tree, Find, Resolve, AddLeaf, AddDir, AddName, NameOk, Numbered;
    var d0 := Vacant(fs, step.path).value;
    if step.LinkStep? {
      var i := Lookup(fs, step.existing).value;
      LooksUp(fs, step.existing);
      ResolvesIn(fs, step.existing, i);
      AddsKeys(fs, d0, Last(step.path), i);
      FewerNumbered(fs, After(fs, step).value, i);
    } else {
      AddsKeys(fs, d0, Last(step.path), step.inum);
      FewerNumbered(fs, After(fs, step).value, step.inum);
    }
  }

  lemma {:induction false} TakesNumbers(fs: Fs, step: Step)
    requires Tree(fs) && (step.RemoveStep? || step.RmDirStep?) && After(fs, step).Ok? && Numbered(fs)
    ensures Numbered(After(fs, step).value)
  {
    hide Tree, Find, Resolve, DropName, DropDir, FindName, Numbered;
    var f := FindName(fs, step.path).value;
    FindNameIs(fs, step.path);
    NamedHeld(fs, f.dir, f.name);
    DropsKeys(fs, f.dir, f.name);
    FewerNumbered(fs, After(fs, step).value, f.inode);
  }

  lemma {:induction false} StepNumbers(fs: Fs, step: Step)
    requires Tree(fs) && After(fs, step).Ok? && Spelt(step) && Numbered(fs)
    ensures Numbered(After(fs, step).value)
  {
    if step.RenameStep? {
      hide Tree, Rename, Numbered;
      RenameNumbers(fs, step.from, step.to);
    } else {
      hide Tree, After, Numbered;
      if step.CreateStep? || step.MkDirStep? || step.LinkStep? {
        MakesNumbers(fs, step);
      } else if step.WriteStep? {
        WriteNumbers(fs, step);
      } else if step.RemoveStep? || step.RmDirStep? {
        TakesNumbers(fs, step);
      } else {
        NoRemoveAll(fs, step);
      }
    }
  }

  lemma {:induction false} WriteNumbers(fs: Fs, step: Step)
    requires Tree(fs) && step.WriteStep? && After(fs, step).Ok? && Spelt(step) && Numbered(fs)
    ensures Numbered(After(fs, step).value)
  {
    hide Tree, Find, Resolve, NameVolume.Write, Create, NameVolume.Overwritten;
    var path, given := step.path, Answer(fs, step.inum);
    WriteIs(fs, path, step.data, step.attrs, given, step.spoilt);
    if Resolve(fs, path) == None {
      MakesNumbers(fs, CreateStep(path, Regular(step.data), step.attrs, step.inum));
    } else {
      NameVolume.WriteEffect(fs, path, step.data, step.attrs, given, step.spoilt);
      ResolvesIn(fs, path, Resolve(fs, path).value);
    }
  }

  lemma {:induction false} RenameNumbers(fs: Fs, from: Path, to: Path)
    requires Tree(fs) && Rename(fs, from, to).Ok? && Numbered(fs)
    ensures Numbered(Rename(fs, from, to).value)
  {
    hide Tree, Find, Resolve, Rename, RenameFrom, Numbered, Dotless, Move, Movable, Cleared;
    SameIsSame(fs, from, to);
    if Resolve(fs, from) != Resolve(fs, to) {
      var r, f := RenameParts(fs, from, to);
      ClearNumbers(fs, to, r.inode);
      MoveKeys(f, r.fromDir, Last(from), r.toDir, Last(to));
      FewerNumbered(f, Rename(fs, from, to).value, r.inode);
    }
  }

  lemma {:induction false} MoveKeys(f: Fs, d1: nat, n1: Name, d2: nat, n2: Name)
    requires Movable(f, d1, n1, d2, n2)
    ensures Move(f, d1, n1, d2, n2).Keys == f.Keys && f[d1].entries[n1] in f
  {
  }

  lemma {:induction false} ClearNumbers(fs: Fs, to: Path, i: nat)
    requires Tree(fs) && Cleared(fs, to, i).Ok? && Cleared(fs, to, i).value.Some? && Numbered(fs)
    ensures Numbered(Cleared(fs, to, i).value.value)
  {
    hide Tree, Find, Resolve, Cleared, After, Numbered, Dotless;
    var f := Cleared(fs, to, i).value.value;
    if Resolve(fs, to).Some? {
      ClearedBy(fs, to, i);
      if After(fs, RmDirStep(to)) == Ok(f) {
        TakesNumbers(fs, RmDirStep(to));
      } else {
        TakesNumbers(fs, RemoveStep(to));
      }
    } else {
      ClearedNothing(fs, to, i);
    }
  }

  /** A run of steps, one tree after another. */
  ghost predicate Chained(states: seq<Fs>, steps: seq<Step>) {
    && |states| == |steps| + 1 && Numbered(states[0]) && (forall k :: 0 <= k < |states| ==> Tree(states[k]))
    && forall k :: 0 <= k < |steps| ==> Spelt(steps[k]) && After(states[k], steps[k]) == Ok(states[k + 1])
  }

  /** All that a run asks of directory d. */
  function Trace(states: seq<Fs>, steps: seq<Step>, d: nat): seq<Op>
    requires |states| == |steps| + 1 && forall k :: 0 <= k < |states| ==> Tree(states[k])
  {
    if steps == [] then []
    else
      var n := |steps| - 1;
      Trace(states[..n + 1], steps[..n], d) + Asks(states[n], steps[n], d)
  }

  /**
   Over any run of operations on names, what they ask of each directory is what it
   may be asked for, and brings its entries to the names the tree has there.
   */
  lemma {:induction false} RunFollows(states: seq<Fs>, steps: seq<Step>, d: nat, m: map<Bytes, Entry>)
    requires Chained(states, steps) && Stands(m, EntriesAt(states[0], d))
    ensures Follows(m, Trace(states, steps, d), EntriesAt(states[|steps|], d)) && Numbered(states[|steps|])
    decreases |steps|
  {
    hide Tree, Stands, EntriesAt, Follows, After, Asks, Spelt, Numbered;
    if steps == [] {
      NothingAsked(m, EntriesAt(states[0], d));
    } else {
      var n := |steps| - 1;
      var before, ops := states[..n + 1], Trace(states[..n + 1], steps[..n], d);
      RunFollows(before, steps[..n], d, m);
      FollowsStands(m, ops, EntriesAt(states[n], d));
      assert After(states[n], steps[n]) == Ok(states[n + 1]);
      StepFollows(states[n], steps[n], d, DirectoryIndex.ApplyAll(m, ops));
      StepKeeps(states[n], steps[n]);
      FollowsOn(m, ops, EntriesAt(states[n], d), Asks(states[n], steps[n], d), EntriesAt(states[|steps|], d));
    }
  }

  /**
   So a directory kept in blocks, asked what the operations ask of it, has the
   names the tree has; and a name looked up in it then leads where the tree says,
   wherever every name can be found.
   */
  method FollowThenLookup(d: DirectoryIndex.Directory, i: nat, states: seq<Fs>, steps: seq<Step>, name: Name, ghost m: map<Bytes, Entry>)
      returns (ok: bool, r: Option<nat>)
    requires Chained(states, steps) && d.Valid() && DirectoryIndex.Agrees(d.Entries(), m) && Stands(m, EntriesAt(states[0], i))
    requires name != DirEntries.DOT && name != DirEntries.DOTDOT
    modifies d
    ensures d.Valid()
    ensures ok ==> exists now :: DirectoryIndex.Agrees(d.Entries(), now) && Stands(now, EntriesAt(states[|steps|], i))
    ensures ok && r.Some? ==> name in EntriesAt(states[|steps|], i) && r.value == EntriesAt(states[|steps|], i)[name]
    ensures ok && DirectoryIndex.Findable(d.blocks, d.indexed, d.hashes, d.per) ==> (r.Some? <==> name in EntriesAt(states[|steps|], i))
  {
    RunFollows(states, steps, i, m);
    hide Tree, EntriesAt, After, Asks, Spelt, Numbered, Chained, Trace, DirectoryIndex.Sound, DirectoryIndex.Agrees, DirectoryIndex.Findable;
    hide DirectoryIndex.Asked, DirectoryIndex.ApplyAll, DirectoryIndex.Modest, DirectoryIndex.Seen, DirectoryIndex.Directory.Entries;
    var ops := Trace(states, steps, i);
    var found;
    ok, found := DirectoryIndex.RunThenLookup(d, ops, name, m);
    r := match found case Some(e) => Some(e.inode) case None => None;
  }
}
