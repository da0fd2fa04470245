/**
 The tree of names and the disk together (src/volume.rs:624-757 and 1549-1748):
 whatever the tree asks of the disk, each of its directories is what the blocks of
 its inode hold, and the disk answers as the tree supposes.
 */
module NamedDisk {
  import opened Base
  import opened IndirectMap
  import opened MapSpace
  import opened Allocators
  import opened MapCost
  import opened Ownership
  import opened FileData
  import opened DiskAnswers
  import opened DirectoryDisk
  import opened Directories
  import opened DirectoryIndex
  import DirBlock
  import DirEntries
  import DotDot
  import Namespace
  import NameOps
  import NameVolume

  type Code = DirBlk -> Bytes

  // ---- one directory ----

  /** The entries of a directory are the names of another and where they lead. */
  ghost predicate SameNames(entries: set<DirBlock.Entry>, names: map<Bytes, nat>) {
    && (forall e :: e in entries ==> e.name in names && names[e.name] == e.inode)
    && (forall n :: n in names ==> exists e :: e in entries && e.name == n)
    && (forall a, b :: a in entries && b in entries && a.name == b.name ==> a == b)
  }

  lemma {:induction false} SameCount(entries: set<DirBlock.Entry>, names: map<Bytes, nat>)
    requires SameNames(entries, names)
    ensures |entries| == |names|
    decreases |names|
  {
    if names == map[] {
      assert entries == {};
    } else {
      var n :| n in names;
      var e :| e in entries && e.name == n;
      SameCount(entries - {e}, names - {n});
      assert (names - {n}).Keys == names.Keys - {n};
    }
  }

  lemma {:induction false} SameGain(was: set<DirBlock.Entry>, now: set<DirBlock.Entry>, names: map<Bytes, nat>, e: DirBlock.Entry)
    requires SameNames(was, names) && now == was + {e} && e.name !in names
    ensures SameNames(now, names[e.name := e.inode])
  {
    var more := names[e.name := e.inode];
    forall n | n in more ensures exists x :: x in now && x.name == n {
      if n == e.name {
        assert e in now;
      } else {
        var x :| x in was && x.name == n;
        assert x in now;
      }
    }
  }

  lemma {:induction false} SameLoss(was: set<DirBlock.Entry>, now: set<DirBlock.Entry>, names: map<Bytes, nat>, e: DirBlock.Entry)
    requires SameNames(was, names) && was == now + {e} && e !in now
    ensures e.name in names && names[e.name] == e.inode && SameNames(now, names - {e.name})
  {
    assert e in was;
    forall x | x in now ensures x.name in names - {e.name} {
      assert x in was;
    }
    var fewer := names - {e.name};
    forall n | n in fewer ensures exists x :: x in now && x.name == n {
      var x :| x in was && x.name == n;
      assert x in now;
    }
  }

  /** The names among some entries that a search of the blocks does not find. */
  ghost function Unseen(entries: set<DirBlock.Entry>, blocks: seq<DirBlk>, indexed: bool, shape: Shape, hashes: seq<nat>, per: nat, hash: Bytes -> nat): set<Bytes>
    requires shape.Valid()
  {
    set e | e in entries && !Seen(blocks, indexed, shape, hashes, per, hash(e.name), e.name) :: e.name
  }

  /** The names in a directory that a search does not find. */
  ghost function Hidden(d: Directory): set<Bytes>
    requires d.Valid()
    reads d
  {
    Unseen(d.Entries(), d.blocks, d.indexed, d.shape, d.hashes, d.per, d.hash)
  }

  /** With one name gone that was found, the same are not. */
  lemma {:induction false} UnseenLoss(was: set<DirBlock.Entry>, now: set<DirBlock.Entry>, e: DirBlock.Entry, names: map<Bytes, nat>,
                                      blocks: seq<DirBlk>, blocks': seq<DirBlk>, indexed: bool, shape: Shape, hashes: seq<nat>, per: nat, hash: Bytes -> nat)
    requires shape.Valid() && was == now + {e} && e !in now && SameNames(was, names) && Seen(blocks, indexed, shape, hashes, per, hash(e.name), e.name)
    requires forall n: Bytes :: n != e.name ==>
               (Seen(blocks', indexed, shape, hashes, per, hash(n), n) <==> Seen(blocks, indexed, shape, hashes, per, hash(n), n))
    ensures Unseen(now, blocks', indexed, shape, hashes, per, hash) == Unseen(was, blocks, indexed, shape, hashes, per, hash)
  {
    hide Seen;
    assert e in was;
    forall x | x in now ensures x.name != e.name {
      assert x in was;
    }
  }

  lemma {:induction false} UnseenSame(entries: set<DirBlock.Entry>, blocks: seq<DirBlk>, blocks': seq<DirBlk>, indexed: bool, shape: Shape, hashes: seq<nat>, per: nat, hash: Bytes -> nat)
    requires shape.Valid() && forall e :: e in entries ==> e.name != DirEntries.DOT && e.name != DirEntries.DOTDOT
    requires forall n: Bytes :: n != DirEntries.DOT && n != DirEntries.DOTDOT ==>
               (Seen(blocks', indexed, shape, hashes, per, hash(n), n) <==> Seen(blocks, indexed, shape, hashes, per, hash(n), n))
    ensures Unseen(entries, blocks', indexed, shape, hashes, per, hash) == Unseen(entries, blocks, indexed, shape, hashes, per, hash)
  {
    hide Seen;
  }

  /** A name there is hidden if and only if a search does not find it. */
  lemma {:induction false} HiddenExactly(d: Directory, names: map<Bytes, nat>, n: Bytes)
    requires d.Valid() && d.shape.Valid() && SameNames(d.Entries(), names) && n in names
    ensures n in Hidden(d) <==> !Seen(d.blocks, d.indexed, d.shape, d.hashes, d.per, d.hash(n), n)
  {
    hide Seen, Sound, Contents;
    var e :| e in d.Entries() && e.name == n;
  }

  /** The tree of names as it stands, with what it counts on and the directories whose ".." it cannot reach. */
  datatype Side = Side(layout: Layout, standing: Standing, stuck: set<nat>) {
    function Nodes(): Namespace.Fs {
      standing.nodes
    }
  }

  /** A directory of the tree is what its inode's blocks hold, and what is counted on is there. */
  ghost predicate Tied(s: Side, disk: Volume, inum: nat, d: Directory, code: Code, list: seq<nat>)
    reads disk, disk.fs, disk.alloc, d
  {
    && DirOn(disk, inum, d, code, list) && d.shape.self == inum && Namespace.IsDir(s.Nodes(), inum)
    && SameNames(d.Entries(), s.Nodes()[inum].entries) && ParentOf(All(d.blocks, d.shape), inum) == s.Nodes()[inum].parent
    && HiddenIn(s.standing.hides, inum) == Hidden(d) && (inum in s.stuck <==> d.indexed && d.shape.withTail)
    && Counted(s, disk, inum, d.shape, list)
  }

  /** What is counted on for a directory. */
  ghost predicate Counted(s: Side, disk: Volume, inum: nat, shape: Shape, list: seq<nat>)
    reads disk, disk.fs
  {
    && shape.Valid() && inum in disk.inodes && s.layout == LayoutOf(disk.inodes[inum].usesExtents, shape)
    && s.standing.blocks <= disk.fs.freeBlocks && (inum in s.standing.spans ==> |list| <= s.standing.spans[inum])
  }

  lemma {:induction false} TiedIs(s: Side, disk: Volume, inum: nat, d: Directory, code: Code, list: seq<nat>)
    requires Tied(s, disk, inum, d, code, list)
    ensures inum in disk.inodes && disk.Valid() && d.Valid() && d.shape.Valid() && DirOn(disk, inum, d, code, list)
    ensures d.shape.blockSize == disk.blockSize && Coded(code, d.shape)
    ensures Namespace.IsDir(s.Nodes(), inum) && |d.Entries()| == Names(s.Nodes(), inum)
    ensures forall n: Bytes :: n !in s.Nodes()[inum].entries ==> NoneNamed(d.Entries(), n)
    ensures SameNames(d.Entries(), s.Nodes()[inum].entries) && Counted(s, disk, inum, d.shape, list)
    ensures HiddenIn(s.standing.hides, inum) == Hidden(d) && d.shape.self == inum
    ensures ParentOf(All(d.blocks, d.shape), inum) == s.Nodes()[inum].parent && (inum in s.stuck <==> d.indexed && d.shape.withTail)
  {
    hide Sound, VolumeOk, OnDisk, Coded, DataIs, Contents, ParentOf, All, Unseen, Counted;
    DirOnIs(disk, inum, d, code, list);
    SameCount(d.Entries(), s.Nodes()[inum].entries);
  }

  /** There is a place for one name more in a directory, by what is counted on. */
  predicate Counts(layout: Layout, s: Standing, dir: nat) {
    dir in s.spans && RoomIn(layout, s.blocks, s.spans[dir], Names(s.nodes, dir))
  }

  /** What the tree's question for a place in a directory is answered with. */
  predicate RoomGiven(layout: Layout, s: Standing, t: Standing, dir: nat, room: Result<set<Bytes>>) {
    && (room.Err? ==> (room == Err(NoSpace) || room == Err(Unsupported)) && !Counts(layout, s, dir))
    && (room.Ok? && Counts(layout, s, dir) ==>
          var span := Spread(s.spans[dir], Names(s.nodes, dir));
          t.spans == s.spans[dir := span] && s.blocks <= t.blocks + layout.takes(span))
  }

  /** How the tree adds a name to a directory that has been given a place for it. */
  ghost predicate NameAdded(s: Side, t: Side, dir: nat, name: Bytes, target: nat, room: Result<set<Bytes>>, r: Result<()>)
    requires Namespace.IsDir(s.Nodes(), dir)
  {
    && r == Placed(if NameOps.NameOk(name) then Ok(()) else Err(InvalidName), room)
    && t.layout == s.layout && t.Nodes() == (if r.Ok? then Namespace.Put(s.Nodes(), dir, name, target) else s.Nodes())
    && t.standing.hides == (if r.Ok? then s.standing.hides[dir := room.value] else s.standing.hides)
    && (t.stuck == s.stuck || (r.Ok? && t.stuck == s.stuck + {dir}))
  }

  /** What the tree counts on once a place has been asked for. */
  function Asked(layout: Layout, s: Standing, dir: nat): (map<nat, nat>, nat) {
    if Counts(layout, s, dir) then
      var span := Spread(s.spans[dir], Names(s.nodes, dir));
      (s.spans[dir := span], if layout.takes(span) <= s.blocks then s.blocks - layout.takes(span) else 0)
    else (map[], 0)
  }

  /** A place counted on is one the disk has, and what it then takes is no more than is counted on. */
  lemma {:induction false} CountsOnDisk(layout: Layout, s: Standing, dir: nat, free: nat)
    requires Counts(layout, s, dir) && s.blocks <= free
    ensures RoomIn(layout, free, s.spans[dir], Names(s.nodes, dir))
    ensures var (spans, blocks) := Asked(layout, s, dir); s.blocks == blocks + layout.takes(Spread(s.spans[dir], Names(s.nodes, dir)))
  {
    hide Spread;
  }

  /** So the disk's answer is one the tree may get. */
  lemma {:induction false} AnswersCounted(before: State, after: State, usesExtents: bool, shape: Shape, s: Standing, dir: nat, ok: bool, n: nat)
    requires shape.Valid() && Counts(LayoutOf(usesExtents, shape), s, dir) && s.blocks <= before.freeBlocks
    requires Answers(before, after, usesExtents, shape, s.spans[dir], Names(s.nodes, dir), ok, n)
    ensures ok
    ensures var (spans, blocks) := Asked(LayoutOf(usesExtents, shape), s, dir);
            dir in spans && n <= spans[dir] && blocks <= after.freeBlocks
  {
    hide LayoutOf, Spread, RoomIn;
    CountsOnDisk(LayoutOf(usesExtents, shape), s, dir, before.freeBlocks);
  }

  lemma {:induction false} AskedLess(layout: Layout, s: Standing, dir: nat)
    ensures var (spans, blocks) := Asked(layout, s, dir);
            blocks <= s.blocks && forall j :: j in spans && j != dir ==> j in s.spans && spans[j] == s.spans[j]
    ensures var (spans, blocks) := Asked(layout, s, dir); !Counts(layout, s, dir) ==> spans == map[] && blocks == 0
  {
    hide Spread, RoomIn;
  }

  lemma {:induction false} Tie(s: Side, disk: Volume, inum: nat, d: Directory, code: Code, list: seq<nat>)
    requires DirOn(disk, inum, d, code, list) && d.shape.self == inum && Namespace.IsDir(s.Nodes(), inum)
    requires SameNames(d.Entries(), s.Nodes()[inum].entries) && ParentOf(All(d.blocks, d.shape), inum) == s.Nodes()[inum].parent
    requires HiddenIn(s.standing.hides, inum) == Hidden(d) && (inum in s.stuck <==> d.indexed && d.shape.withTail)
    requires Counted(s, disk, inum, d.shape, list)
    ensures Tied(s, disk, inum, d, code, list)
  {
    hide DirOn, Sound, Contents, ParentOf, All, Unseen, Counted, SameNames;
  }

  /**
   Add a name to a directory of the tree and of the disk: the place the tree asks
   for is refused only where there may be none, and the two stay tied.
   */
  method LinkBoth(disk: Volume, inum: nat, d: Directory, code: Code, name: Bytes, target: nat, fileType: byte, ghost list: seq<nat>, ghost s: Side)
    returns (r: Result<()>, ghost room: Result<set<Bytes>>, ghost now: seq<nat>, ghost t: Side)
    requires Tied(s, disk, inum, d, code, list) && name !in s.Nodes()[inum].entries
    requires 0 < target < U32_LIMIT && name != DirEntries.DOT && name != DirEntries.DOTDOT
    modifies d, disk`inodes, disk.alloc`blockCache, disk.alloc`dirtyBlock, disk.fs`descs, disk.fs`freeBlocks, disk.fs`device, disk.fs`log
    ensures NameOps.NameOk(name) ==> RoomGiven(s.layout, s.standing, t.standing, inum, room)
    ensures NameAdded(s, t, inum, name, target, room, r)
    ensures r.Ok? ==> Tied(t, disk, inum, d, code, now) && Alone(old(disk.Now()), disk.Now(), old(disk.inodes), disk.inodes, inum, disk.blockSize)
    ensures r == Err(InvalidName) ==> t == s && Tied(s, disk, inum, d, code, list) && disk.Now() == old(disk.Now())
    ensures t.standing.blocks <= s.standing.blocks && forall j :: j in t.standing.spans && j != inum ==> j in s.standing.spans && t.standing.spans[j] == s.standing.spans[j]
  {
    hide Tied, DirOn, Sound, VolumeOk, OnDisk, Coded, DataIs, Contents, ParentOf, All, Unseen, LayoutOf, Answers, RoomIn, Spread, Alone, NoneNamed, Gained, SameNames;
    TiedIs(s, disk, inum, d, code, list);
    room, now, t := Ok({}), list, s;
    if !DirectoryIndex.NameOk(name) {
      return Err(InvalidName), room, now, t;
    }
    ghost var span := if inum in s.standing.spans then s.standing.spans[inum] else |list|;
    if Counts(s.layout, s.standing, inum) {
      CountsOnDisk(s.layout, s.standing, inum, disk.fs.freeBlocks);
    }
    ghost var was, table := d.blocks, disk.inodes;
    ghost var before, ext, e := disk.Now(), disk.inodes[inum].usesExtents, DirBlock.Entry(name, target, fileType);
    CountedIs(s, disk, inum, d.shape, list);
    r, now := LinkOnDisk(disk, inum, d, code, name, target, fileType, list, span);
    ghost var (spans, blocks) := Asked(s.layout, s.standing, inum);
    AskedLess(s.layout, s.standing, inum);
    if Counts(s.layout, s.standing, inum) {
      AnswersCounted(before, disk.Now(), ext, d.shape, s.standing, inum, r.Ok?, |now|);
    }
    if r.Err? {
      room := Err(r.error);
      t := s.(standing := s.standing.(spans := spans, blocks := blocks));
      return;
    }
    room := Ok(Hidden(d));
    t := Side(s.layout, Standing(Namespace.Put(s.Nodes(), inum, name, target), s.standing.hides[inum := Hidden(d)], s.standing.inodes, blocks, spans),
              if d.indexed && d.shape.withTail then s.stuck + {inum} else s.stuck);
    GainsOneName(was, d.blocks, d.shape, e, s.Nodes()[inum].entries);
    AloneExtents(before, disk.Now(), table, disk.inodes, inum, disk.blockSize);
    OnDiskStill(disk, inum, d, code, now);
    Tie(t, disk, inum, d, code, now);
    r := Ok(());
  }

  lemma {:induction false} OnDiskStill(disk: Volume, inum: nat, d: Directory, code: Code, list: seq<nat>)
    requires disk.Valid() && disk.HasBlocks(inum, list) && d.Valid() && d.shape.Valid() && d.shape.blockSize == disk.blockSize && Coded(code, d.shape)
    requires OnDisk(disk.fs.device, list, d.blocks, code, disk.blockSize)
    ensures DirOn(disk, inum, d, code, list)
  {
    hide Sound, VolumeOk, OnDisk, Coded, DataIs;
  }

  lemma {:induction false} CountedIs(s: Side, disk: Volume, inum: nat, shape: Shape, list: seq<nat>)
    requires Counted(s, disk, inum, shape, list)
    ensures shape.Valid() && inum in disk.inodes && s.layout == LayoutOf(disk.inodes[inum].usesExtents, shape)
    ensures s.standing.blocks <= disk.fs.freeBlocks && (inum in s.standing.spans ==> |list| <= s.standing.spans[inum])
  {
    hide LayoutOf;
  }

  lemma {:induction false} GainsOneName(was: seq<DirBlk>, now: seq<DirBlk>, shape: Shape, e: DirBlock.Entry, names: map<Bytes, nat>)
    requires shape.Valid() && Gained(was, now, shape, e) && SameNames(Directories.Contents(was, shape), names) && e.name !in names
    ensures SameNames(Directories.Contents(now, shape), names[e.name := e.inode])
    ensures ParentOf(All(now, shape), shape.self) == ParentOf(All(was, shape), shape.self)
  {
    hide Contents, ParentOf, All, SameNames;
    SameGain(Directories.Contents(was, shape), Directories.Contents(now, shape), names, e);
  }

  lemma {:induction false} LosesOneName(was: seq<DirBlk>, now: seq<DirBlk>, shape: Shape, e: DirBlock.Entry, names: map<Bytes, nat>)
    requires shape.Valid() && Gained(now, was, shape, e) && SameNames(Directories.Contents(was, shape), names)
    ensures e.name in names && names[e.name] == e.inode && SameNames(Directories.Contents(now, shape), names - {e.name})
    ensures ParentOf(All(now, shape), shape.self) == ParentOf(All(was, shape), shape.self)
    ensures Directories.Contents(was, shape) == Directories.Contents(now, shape) + {e} && e !in Directories.Contents(now, shape)
  {
    hide Contents, ParentOf, All, SameNames;
    SameLoss(Directories.Contents(was, shape), Directories.Contents(now, shape), names, e);
  }

  /** How the tree takes a name out of a directory. */
  ghost predicate NameTaken(s: Side, t: Side, dir: nat, name: Bytes, r: Result<nat>)
    requires Namespace.IsDir(s.Nodes(), dir) && name in s.Nodes()[dir].entries
  {
    && r == (if name in HiddenIn(s.standing.hides, dir) then Err(NotFound) else Ok(s.Nodes()[dir].entries[name]))
    && t == s.(standing := s.standing.(nodes := if r.Ok? then Namespace.Cut(s.Nodes(), dir, name) else s.Nodes()))
  }

  /** Take a name out of a directory of the tree and of the disk: it is not found exactly where the tree has it as hidden. */
  method UnlinkBoth(disk: Volume, inum: nat, d: Directory, code: Code, name: Bytes, ghost list: seq<nat>, ghost s: Side) returns (r: Result<nat>, ghost t: Side)
    requires Tied(s, disk, inum, d, code, list) && name in s.Nodes()[inum].entries && name != DirEntries.DOT && name != DirEntries.DOTDOT
    modifies d`blocks, disk.fs`device, disk.fs`log
    ensures NameTaken(s, t, inum, name, r) && Tied(t, disk, inum, d, code, list)
    ensures r.Ok? ==> Alone(old(disk.Now()), disk.Now(), disk.inodes, disk.inodes, inum, disk.blockSize)
    ensures r.Err? ==> disk.Now() == old(disk.Now())
  {
    hide Tied, DirOn, Sound, VolumeOk, OnDisk, Coded, DataIs, Contents, ParentOf, All, Unseen, LayoutOf, Alone, NoneNamed, Gained, SameNames, Findable, Seen, State.Valid;
    TiedIs(s, disk, inum, d, code, list);
    CountedIs(s, disk, inum, d.shape, list);
    HiddenExactly(d, s.Nodes()[inum].entries, name);
    ghost var was, names := d.blocks, s.Nodes()[inum].entries;
    t := s;
    r := UnlinkOnDisk(disk, inum, d, code, name, list);
    if r.Ok? {
      ghost var e: DirBlock.Entry :| e.name == name && e.inode == r.value && Gained(d.blocks, was, d.shape, e);
      LosesOneName(was, d.blocks, d.shape, e, names);
      UnseenLoss(Directories.Contents(was, d.shape), d.Entries(), e, names, was, d.blocks, d.indexed, d.shape, d.hashes, d.per, d.hash);
      t := s.(standing := s.standing.(nodes := Namespace.Cut(s.Nodes(), inum, name)));
    }
    OnDiskStill(disk, inum, d, code, list);
    Tie(t, disk, inum, d, code, list);
  }

  /** How the tree gives a directory another parent. */
  ghost predicate DotsTurned(s: Side, t: Side, dir: nat, to: nat, r: Result<()>)
    requires Namespace.IsDir(s.Nodes(), dir)
  {
    && r == (if dir in s.stuck then Err(Error.Fs) else Ok(()))
    && t == s.(standing := s.standing.(nodes := if r.Ok? then s.Nodes()[dir := s.Nodes()[dir].(parent := to)] else s.Nodes()))
  }

  /** Give a directory of the tree and of the disk another parent: that fails exactly where the tree has it as stuck. */
  method RepointBoth(disk: Volume, inum: nat, d: Directory, code: Code, to: nat, ghost list: seq<nat>, ghost s: Side) returns (r: Result<()>, ghost t: Side)
    requires Tied(s, disk, inum, d, code, list) && 0 < to < U32_LIMIT && s.Nodes()[inum].parent != inum
    modifies d`blocks, disk.fs`device, disk.fs`log
    ensures DotsTurned(s, t, inum, to, r) && Tied(t, disk, inum, d, code, list)
    ensures r.Ok? ==> Alone(old(disk.Now()), disk.Now(), disk.inodes, disk.inodes, inum, disk.blockSize)
    ensures r.Err? ==> disk.Now() == old(disk.Now())
  {
    hide Tied, DirOn, Sound, VolumeOk, OnDisk, Coded, DataIs, Contents, ParentOf, All, Unseen, LayoutOf, Alone, SameNames, Seen, DotDot.PointedAt, State.Valid;
    TiedIs(s, disk, inum, d, code, list);
    CountedIs(s, disk, inum, d.shape, list);
    ghost var was := d.blocks;
    t := s;
    var k := RepointOnDisk(disk, inum, d, code, to, list);
    OnDiskStill(disk, inum, d, code, list);
    NoDots(was, d.shape);
    UnseenSame(d.Entries(), was, d.blocks, d.indexed, d.shape, d.hashes, d.per, d.hash);
    r := if k.Err? then Err(k.error) else Ok(());
    if k.Ok? {
      t := s.(standing := s.standing.(nodes := s.Nodes()[inum := s.Nodes()[inum].(parent := to)]));
    }
    Tie(t, disk, inum, d, code, list);
  }

  lemma {:induction false} NoDots(blocks: seq<DirBlk>, shape: Shape)
    requires shape.Valid()
    ensures forall e :: e in Directories.Contents(blocks, shape) ==> e.name != DirEntries.DOT && e.name != DirEntries.DOTDOT
  {
    hide All;
    forall e | e in Directories.Contents(blocks, shape) ensures e.name != DirEntries.DOT && e.name != DirEntries.DOTDOT {
      DirectoryIndex.InUndotted(All(blocks, shape), e);
    }
  }

  // ---- all directories ----

  /** A directory in memory, as it stands. */
  datatype Stand = Stand(shape: Shape, hash: Bytes -> nat, blocks: seq<DirBlk>, indexed: bool, hashes: seq<nat>, per: nat)

  ghost function StandOf(d: Directory): Stand
    reads d
  {
    Stand(d.shape, d.hash, d.blocks, d.indexed, d.hashes, d.per)
  }

  /** What is tied, of the disk, the tree and a directory as they stand. */
  ghost predicate Fits(s: Side, disk: State, table: Table, bs: nat, inum: nat, x: Stand, code: Code, list: seq<nat>) {
    && inum in table && DataIs(disk.device, table[inum].map_, bs / 4, list) && Sound(x.blocks, x.indexed, x.shape, x.hashes, x.per, x.hash)
    && x.shape.blockSize == bs && Coded(code, x.shape) && OnDisk(disk.device, list, x.blocks, code, bs)
    && x.shape.self == inum && Namespace.IsDir(s.Nodes(), inum)
    && SameNames(Directories.Contents(x.blocks, x.shape), s.Nodes()[inum].entries) && ParentOf(All(x.blocks, x.shape), inum) == s.Nodes()[inum].parent
    && HiddenIn(s.standing.hides, inum) == Unseen(Directories.Contents(x.blocks, x.shape), x.blocks, x.indexed, x.shape, x.hashes, x.per, x.hash)
    && (inum in s.stuck <==> x.indexed && x.shape.withTail)
    && s.layout == LayoutOf(table[inum].usesExtents, x.shape) && (inum in s.standing.spans ==> |list| <= s.standing.spans[inum])
  }

  lemma {:induction false} TiedFits(s: Side, disk: Volume, inum: nat, d: Directory, code: Code, list: seq<nat>)
    ensures Tied(s, disk, inum, d, code, list) <==>
              disk.Valid() && s.standing.blocks <= disk.fs.freeBlocks && Fits(s, disk.Now(), disk.inodes, disk.blockSize, inum, StandOf(d), code, list)
  {
    hide Sound, VolumeOk, OnDisk, Coded, DataIs, Contents, ParentOf, All, Unseen, SameNames, LayoutOf;
    if Tied(s, disk, inum, d, code, list) {
      DirOnIs(disk, inum, d, code, list);
    } else if disk.Valid() && Fits(s, disk.Now(), disk.inodes, disk.blockSize, inum, StandOf(d), code, list) {
      SoundShape(d.blocks, d.indexed, d.shape, d.hashes, d.per, d.hash);
    }
  }

  lemma {:induction false} SoundShape(blocks: seq<DirBlk>, indexed: bool, shape: Shape, hashes: seq<nat>, per: nat, hash: Bytes -> nat)
    requires Sound(blocks, indexed, shape, hashes, per, hash)
    ensures shape.Valid()
  {
  }

  /** To the tree, a directory is as it was, and no more is counted on. */
  ghost predicate SideKept(s: Side, t: Side, j: nat) {
    && t.layout == s.layout && Namespace.IsDir(s.Nodes(), j) && Namespace.IsDir(t.Nodes(), j)
    && t.Nodes()[j].entries == s.Nodes()[j].entries && t.Nodes()[j].parent == s.Nodes()[j].parent
    && HiddenIn(t.standing.hides, j) == HiddenIn(s.standing.hides, j) && (j in t.stuck <==> j in s.stuck)
    && (j in t.standing.spans ==> j in s.standing.spans && t.standing.spans[j] == s.standing.spans[j])
  }

  /** What is done to one directory leaves the others as they fit. */
  lemma {:induction false} OtherFits(s: Side, t: Side, before: State, after: State, table: Table, table': Table, bs: nat, inum: nat, j: nat, x: Stand, code: Code, list: seq<nat>)
    requires Fits(s, before, table, bs, j, x, code, list) && SideKept(s, t, j) && j != inum && Beside(before, after, table, table', inum, bs)
    ensures Fits(t, after, table', bs, j, x, code, list)
  {
    hide Sound, OnDisk, Coded, DataIs, Contents, ParentOf, All, Unseen, LayoutOf, Alone, SameNames;
    OtherOnDisk(before, after, table, table', inum, j, bs, list, x.blocks, code);
  }

  /** Every directory of the tree has one in memory of its own, and a list of blocks. */
  ghost predicate Mapped(s: Side, dirs: map<nat, Directory>, lists: map<nat, seq<nat>>) {
    && dirs.Keys == lists.Keys && (forall i :: Namespace.IsDir(s.Nodes(), i) <==> i in dirs)
    && (forall i, j :: i in dirs && j in dirs && i != j ==> dirs[i] != dirs[j])
  }

  ghost predicate AllFit(s: Side, disk: State, table: Table, bs: nat, stands: map<nat, Stand>, code: nat -> Code, lists: map<nat, seq<nat>>) {
    stands.Keys == lists.Keys && forall i :: i in stands ==> Fits(s, disk, table, bs, i, stands[i], code(i), lists[i])
  }

  ghost function Stands(dirs: map<nat, Directory>): map<nat, Stand>
    reads dirs.Values
  {
    map i | i in dirs :: StandOf(dirs[i])
  }

  /** Every inode of the tree is one of the disk's. */
  ghost predicate Peopled(s: Side, table: Table) {
    forall i :: i in s.Nodes() ==> i in table
  }

  /** Every directory of the tree is what its inode's blocks hold. */
  ghost predicate AllTied(s: Side, disk: Volume, dirs: map<nat, Directory>, code: nat -> Code, lists: map<nat, seq<nat>>)
    reads disk, disk.fs, disk.alloc, dirs.Values
  {
    && Mapped(s, dirs, lists) && disk.Valid() && s.standing.blocks <= disk.fs.freeBlocks && Peopled(s, disk.inodes)
    && AllFit(s, disk.Now(), disk.inodes, disk.blockSize, Stands(dirs), code, lists)
  }

  lemma {:induction false} AllTiedAt(s: Side, disk: Volume, dirs: map<nat, Directory>, code: nat -> Code, lists: map<nat, seq<nat>>, i: nat)
    requires AllTied(s, disk, dirs, code, lists) && i in dirs
    ensures i in lists && Tied(s, disk, i, dirs[i], code(i), lists[i]) && Namespace.IsDir(s.Nodes(), i)
  {
    hide Tied, Fits, Volume.Valid;
    assert Stands(dirs)[i] == StandOf(dirs[i]);
    TiedFits(s, disk, i, dirs[i], code(i), lists[i]);
  }

  /** The tree has changed one directory, and counts on no more. */
  ghost predicate OnlyDir(s: Side, t: Side, inum: nat) {
    && (forall j :: Namespace.IsDir(s.Nodes(), j) <==> Namespace.IsDir(t.Nodes(), j))
    && forall j :: Namespace.IsDir(s.Nodes(), j) && j != inum ==> SideKept(s, t, j)
  }

  /** One directory has changed, and fits still: so do all the others. */
  lemma {:induction false} OthersFit(s: Side, t: Side, before: State, after: State, table: Table, table': Table, bs: nat, inum: nat,
                                     stands: map<nat, Stand>, stands': map<nat, Stand>, code: nat -> Code, lists: map<nat, seq<nat>>, list: seq<nat>)
    requires AllFit(s, before, table, bs, stands, code, lists) && OnlyDir(s, t, inum) && Alone(before, after, table, table', inum, bs)
    requires stands'.Keys == stands.Keys && inum in stands && stands' == stands[inum := stands'[inum]]
    requires forall i :: i in stands ==> Namespace.IsDir(s.Nodes(), i)
    requires Fits(t, after, table', bs, inum, stands'[inum], code(inum), list)
    ensures AllFit(t, after, table', bs, stands', code, lists[inum := list])
  {
    hide Fits, SideKept, Alone, Beside;
    AloneBeside(before, after, table, table', inum, bs);
    forall j | j in stands' ensures Fits(t, after, table', bs, j, stands'[j], code(j), lists[inum := list][j]) {
      if j != inum {
        OtherFits(s, t, before, after, table, table', bs, inum, j, stands[j], code(j), lists[j]);
      }
    }
  }

  /** Adding a name changes one directory. */
  lemma {:induction false} AddedOnlyDir(s: Side, t: Side, dir: nat, name: Bytes, target: nat, room: Result<set<Bytes>>, r: Result<()>)
    requires Namespace.IsDir(s.Nodes(), dir) && NameAdded(s, t, dir, name, target, room, r)
    requires forall j :: j in t.standing.spans && j != dir ==> j in s.standing.spans && t.standing.spans[j] == s.standing.spans[j]
    ensures OnlyDir(s, t, dir) && t.Nodes().Keys == s.Nodes().Keys
  {
  }

  lemma {:induction false} StillMapped(s: Side, t: Side, dirs: map<nat, Directory>, lists: map<nat, seq<nat>>, inum: nat, list: seq<nat>)
    requires Mapped(s, dirs, lists) && OnlyDir(s, t, inum) && inum in dirs
    ensures Mapped(t, dirs, lists[inum := list]) && forall i :: i in dirs ==> Namespace.IsDir(s.Nodes(), i)
  {
    hide SideKept;
  }

  lemma {:induction false} StillPeopled(s: Side, t: Side, before: State, after: State, table: Table, table': Table, inum: nat, bs: nat)
    requires Peopled(s, table) && Alone(before, after, table, table', inum, bs) && t.Nodes().Keys == s.Nodes().Keys
    ensures Peopled(t, table')
  {
    hide Ownership.Kept;
  }

  lemma {:induction false} FitHas(s: Side, disk: State, table: Table, bs: nat, stands: map<nat, Stand>, code: nat -> Code, lists: map<nat, seq<nat>>)
    requires AllFit(s, disk, table, bs, stands, code, lists)
    ensures stands.Keys == lists.Keys
  {
    hide Fits;
  }

  lemma {:induction false} AllTiedIs(s: Side, disk: Volume, dirs: map<nat, Directory>, code: nat -> Code, lists: map<nat, seq<nat>>)
    requires AllTied(s, disk, dirs, code, lists)
    ensures Mapped(s, dirs, lists) && disk.Valid() && s.standing.blocks <= disk.fs.freeBlocks && Peopled(s, disk.inodes) && AllFit(s, disk.Now(), disk.inodes, disk.blockSize, Stands(dirs), code, lists)
    ensures forall i, j :: i in dirs && j in dirs && i != j ==> dirs[i] != dirs[j]
  {
    hide Fits, Volume.Valid;
  }

  /** So the two stay tied. */
  lemma {:induction false} AllTiedNow(s: Side, t: Side, before: State, table: Table, disk: Volume, dirs: map<nat, Directory>, stands: map<nat, Stand>, code: nat -> Code,
                                      lists: map<nat, seq<nat>>, inum: nat, list: seq<nat>)
    requires Mapped(s, dirs, lists) && AllFit(s, before, table, disk.blockSize, stands, code, lists) && inum in dirs && OnlyDir(s, t, inum)
    requires stands.Keys == dirs.Keys && forall i :: i in dirs && i != inum ==> StandOf(dirs[i]) == stands[i]
    requires Tied(t, disk, inum, dirs[inum], code(inum), list) && Alone(before, disk.Now(), table, disk.inodes, inum, disk.blockSize)
    requires Peopled(s, table) && t.Nodes().Keys == s.Nodes().Keys
    ensures AllTied(t, disk, dirs, code, lists[inum := list])
  {
    hide Tied, Fits, Alone, Volume.Valid, SideKept, StandOf, AllFit, Mapped, OnlyDir;
    TiedFits(t, disk, inum, dirs[inum], code(inum), list);
    StillMapped(s, t, dirs, lists, inum, list);
    StillPeopled(s, t, before, disk.Now(), table, disk.inodes, inum, disk.blockSize);
    FitHas(s, before, table, disk.blockSize, stands, code, lists);
    assert Stands(dirs) == stands[inum := StandOf(dirs[inum])];
    OthersFit(s, t, before, disk.Now(), table, disk.inodes, disk.blockSize, inum, stands, Stands(dirs), code, lists, list);
  }

  /** Add a name to a directory: all of them stay tied. */
  method LinkAll(disk: Volume, dirs: map<nat, Directory>, code: nat -> Code, inum: nat, name: Bytes, target: nat, fileType: byte, ghost lists: map<nat, seq<nat>>, ghost s: Side)
    returns (r: Result<()>, ghost room: Result<set<Bytes>>, ghost now: map<nat, seq<nat>>, ghost t: Side)
    requires AllTied(s, disk, dirs, code, lists) && inum in dirs && name !in s.Nodes()[inum].entries
    requires 0 < target < U32_LIMIT && name != DirEntries.DOT && name != DirEntries.DOTDOT
    modifies dirs[inum], disk`inodes, disk.alloc`blockCache, disk.alloc`dirtyBlock, disk.fs`descs, disk.fs`freeBlocks, disk.fs`device, disk.fs`log
    ensures Namespace.IsDir(s.Nodes(), inum)
    ensures NameOps.NameOk(name) ==> RoomGiven(s.layout, s.standing, t.standing, inum, room)
    ensures NameAdded(s, t, inum, name, target, room, r)
    ensures r.Ok? ==> AllTied(t, disk, dirs, code, now)
    ensures r == Err(InvalidName) ==> t == s && disk.Now() == old(disk.Now())
  {
    hide Tied, AllFit, AllTied, Mapped, RoomGiven, NameAdded, Alone, OnlyDir, Volume.Valid;
    AllTiedAt(s, disk, dirs, code, lists, inum);
    AllTiedIs(s, disk, dirs, code, lists);
    ghost var before, table, stands := disk.Now(), disk.inodes, Stands(dirs);
    ghost var list;
    r, room, list, t := LinkBoth(disk, inum, dirs[inum], code(inum), name, target, fileType, lists[inum], s);
    now := lists;
    if r.Ok? {
      now := lists[inum := list];
      AddedOnlyDir(s, t, inum, name, target, room, r);
      AllTiedNow(s, t, before, table, disk, dirs, stands, code, lists, inum, list);
    }
  }

  lemma {:induction false} SameLists(lists: map<nat, seq<nat>>, i: nat)
    requires i in lists
    ensures lists[i := lists[i]] == lists
  {
  }

  lemma {:induction false} TakenOnlyDir(s: Side, t: Side, dir: nat, name: Bytes, r: Result<nat>)
    requires Namespace.IsDir(s.Nodes(), dir) && name in s.Nodes()[dir].entries && NameTaken(s, t, dir, name, r)
    ensures OnlyDir(s, t, dir) && t.Nodes().Keys == s.Nodes().Keys
  {
  }

  lemma {:induction false} TurnedOnlyDir(s: Side, t: Side, dir: nat, to: nat, r: Result<()>)
    requires Namespace.IsDir(s.Nodes(), dir) && DotsTurned(s, t, dir, to, r)
    ensures OnlyDir(s, t, dir) && t.Nodes().Keys == s.Nodes().Keys
  {
  }

  /** Take a name out: all of them stay tied, found or not. */
  method UnlinkAll(disk: Volume, dirs: map<nat, Directory>, code: nat -> Code, inum: nat, name: Bytes, ghost lists: map<nat, seq<nat>>, ghost s: Side)
    returns (r: Result<nat>, ghost t: Side)
    requires AllTied(s, disk, dirs, code, lists) && inum in dirs && Namespace.IsDir(s.Nodes(), inum) && name in s.Nodes()[inum].entries
    requires name != DirEntries.DOT && name != DirEntries.DOTDOT
    modifies dirs[inum], disk.fs`device, disk.fs`log
    ensures NameTaken(s, t, inum, name, r) && AllTied(t, disk, dirs, code, lists)
  {
    hide Tied, DirOn, Counted, AllFit, AllTied, Mapped, NameTaken, Alone, OnlyDir, Volume.Valid, LayoutOf, SameNames, Sound, Contents, Coded, ParentOf, All, Unseen;
    AllTiedAt(s, disk, dirs, code, lists, inum);
    AllTiedIs(s, disk, dirs, code, lists);
    TiedIs(s, disk, inum, dirs[inum], code(inum), lists[inum]);
    ghost var before, table, stands := disk.Now(), disk.inodes, Stands(dirs);
    r, t := UnlinkBoth(disk, inum, dirs[inum], code(inum), name, lists[inum], s);
    TakenOnlyDir(s, t, inum, name, r);
    if r.Err? {
      AloneSame(before, table, inum, disk.blockSize);
    }
    AllTiedNow(s, t, before, table, disk, dirs, stands, code, lists, inum, lists[inum]);
    SameLists(lists, inum);
  }

  /** Give a directory another parent: all of them stay tied, whether it can be or not. */
  method RepointAll(disk: Volume, dirs: map<nat, Directory>, code: nat -> Code, inum: nat, to: nat, ghost lists: map<nat, seq<nat>>, ghost s: Side)
    returns (r: Result<()>, ghost t: Side)
    requires AllTied(s, disk, dirs, code, lists) && inum in dirs && 0 < to < U32_LIMIT && Namespace.IsDir(s.Nodes(), inum) && s.Nodes()[inum].parent != inum
    modifies dirs[inum], disk.fs`device, disk.fs`log
    ensures DotsTurned(s, t, inum, to, r) && AllTied(t, disk, dirs, code, lists)
  {
    hide Tied, DirOn, Counted, AllFit, AllTied, Mapped, DotsTurned, Alone, OnlyDir, Volume.Valid, LayoutOf, SameNames, Sound, Contents, Coded, ParentOf, All, Unseen;
    AllTiedAt(s, disk, dirs, code, lists, inum);
    AllTiedIs(s, disk, dirs, code, lists);
    TiedIs(s, disk, inum, dirs[inum], code(inum), lists[inum]);
    ghost var before, table, stands := disk.Now(), disk.inodes, Stands(dirs);
    r, t := RepointBoth(disk, inum, dirs[inum], code(inum), to, lists[inum], s);
    TurnedOnlyDir(s, t, inum, to, r);
    if r.Err? {
      AloneSame(before, table, inum, disk.blockSize);
    }
    AllTiedNow(s, t, before, table, disk, dirs, stands, code, lists, inum, lists[inum]);
    SameLists(lists, inum);
  }

  // ---- a file's contents ----

  /** What the tree's question for the blocks of a file of n is answered with. */
  predicate BlocksGiven(layout: Layout, s: Standing, t: Standing, n: nat, put: Result<()>) {
    && (put.Err? ==> (put == Err(NoSpace) || put == Err(Unsupported)) && !CanTake(layout, s.blocks, n))
    && (put.Ok? && CanTake(layout, s.blocks, n) ==> s.blocks <= t.blocks + layout.takes(n))
    && t.blocks <= s.blocks && t == s.(blocks := t.blocks)
  }

  /** What is done to an inode that is no directory leaves all of them as they fit. */
  lemma {:induction false} AllFitStill(s: Side, t: Side, before: State, after: State, table: Table, table': Table, bs: nat, inum: nat,
                                       stands: map<nat, Stand>, code: nat -> Code, lists: map<nat, seq<nat>>)
    requires AllFit(s, before, table, bs, stands, code, lists) && Alone(before, after, table, table', inum, bs) && inum !in stands
    requires forall j :: j in stands ==> SideKept(s, t, j)
    ensures AllFit(t, after, table', bs, stands, code, lists)
  {
    hide Fits, SideKept, Alone, Beside;
    AloneBeside(before, after, table, table', inum, bs);
    forall j | j in stands ensures Fits(t, after, table', bs, j, stands[j], code(j), lists[j]) {
      OtherFits(s, t, before, after, table, table', bs, inum, j, stands[j], code(j), lists[j]);
    }
  }

  /** Where as many blocks as are counted on are counted on, they are there. */
  lemma {:induction false} CountedTake(layout: Layout, usesExtents: bool, shape: Shape, blocks: nat, before: State, after: State, had: nat, n: nat, ok: bool)
    requires shape.Valid() && layout == LayoutOf(usesExtents, shape) && blocks <= before.freeBlocks && CanTake(layout, blocks, n)
    requires Ample(before.freeBlocks, usesExtents, shape.blockSize, had, n) ==> ok && Spent(before, after, usesExtents, shape.blockSize, had, n)
    ensures ok && layout.takes(n) <= blocks && blocks - layout.takes(n) <= after.freeBlocks
  {
    TakesAmple(before.freeBlocks, usesExtents, shape, n, had);
    hide MapBlocks, Ample, MostBlocks;
  }

  lemma {:induction false} SideStill(s: Side, dirs: map<nat, Directory>, lists: map<nat, seq<nat>>, blocks: nat)
    requires Mapped(s, dirs, lists)
    ensures var t := s.(standing := s.standing.(blocks := blocks)); Mapped(t, dirs, lists) && forall j :: j in dirs ==> SideKept(s, t, j)
  {
  }

  /** Give a file other contents: its blocks are refused only where there may not be so many, and the directories stay tied. */
  method FillAll(disk: Volume, dirs: map<nat, Directory>, code: nat -> Code, inum: nat, data: Bytes, ghost shape: Shape, ghost was: seq<nat>, ghost lists: map<nat, seq<nat>>, ghost s: Side)
    returns (put: Result<()>, ghost list: seq<nat>, ghost t: Side)
    requires AllTied(s, disk, dirs, code, lists) && inum !in dirs && disk.Valid() && disk.HasBlocks(inum, was)
    requires shape.Valid() && shape.blockSize == disk.blockSize && s.layout == LayoutOf(disk.inodes[inum].usesExtents, shape)
    modifies disk`inodes, disk.alloc`blockCache, disk.alloc`dirtyBlock, disk.fs`descs, disk.fs`freeBlocks, disk.fs`device, disk.fs`log
    ensures BlocksGiven(s.layout, s.standing, t.standing, CeilDiv(|data|, disk.blockSize), put) && t.layout == s.layout && t.stuck == s.stuck
    ensures put.Ok? ==> AllTied(t, disk, dirs, code, lists) && inum in old(disk.inodes)
                        && Rewrote(old(disk.Now()), disk.Now(), old(disk.inodes), disk.inodes, inum, disk.blockSize, list, data)
  {
    hide AllFit, AllTied, Mapped, Rewrote, VolumeOk, DataIs, LayoutOf, Ample, Spent, CeilDiv, State.Valid, WroteOnce, KeptPart, Alone, StandOf, SideKept;
    AllTiedIs(s, disk, dirs, code, lists);
    ghost var before, table, stands, n := disk.Now(), disk.inodes, Stands(dirs), CeilDiv(|data|, disk.blockSize);
    put, list := disk.WriteData(inum, data, was);
    if CanTake(s.layout, s.standing.blocks, n) {
      CountedTake(s.layout, table[inum].usesExtents, shape, s.standing.blocks, before, disk.Now(), |was|, n, put.Ok?);
    }
    ghost var blocks := if CanTake(s.layout, s.standing.blocks, n) then s.standing.blocks - s.layout.takes(n) else 0;
    t := s.(standing := s.standing.(blocks := blocks));
    if put.Ok? {
      SideStill(s, dirs, lists, blocks);
      RewroteAlone(before, disk.Now(), table, disk.inodes, inum, disk.blockSize, list, data);
      assert Stands(dirs) == stands;
      AllFitStill(s, t, before, disk.Now(), table, disk.inodes, disk.blockSize, inum, stands, code, lists);
      StillPeopled(s, t, before, disk.Now(), table, disk.inodes, inum, disk.blockSize);
      AllTieUp(t, disk, dirs, code, lists);
    }
  }

  lemma {:induction false} AllTieUp(s: Side, disk: Volume, dirs: map<nat, Directory>, code: nat -> Code, lists: map<nat, seq<nat>>)
    requires Mapped(s, dirs, lists) && disk.Valid() && s.standing.blocks <= disk.fs.freeBlocks
    requires AllFit(s, disk.Now(), disk.inodes, disk.blockSize, Stands(dirs), code, lists) && Peopled(s, disk.inodes)
    ensures AllTied(s, disk, dirs, code, lists)
  {
    hide AllFit, Mapped, Volume.Valid, StandOf;
  }

  // ---- a new directory ----

  /** How the tree makes a directory that no name leads to yet. */
  ghost predicate DirMade(s: Side, t: Side, inum: nat, parent: nat, attrs: Namespace.Attrs) {
    && t.layout == s.layout && t.Nodes() == s.Nodes()[inum := Namespace.Dir(map[], parent, 2, attrs)] && t.stuck == s.stuck - {inum}
    && t.standing.hides == s.standing.hides[inum := {}] && t.standing.spans == s.standing.spans[inum := 1] && t.standing.blocks <= s.standing.blocks
    && (CanTake(s.layout, s.standing.blocks, 1) ==> s.standing.blocks <= t.standing.blocks + s.layout.takes(1))
  }

  lemma {:induction false} MadeKeeps(s: Side, t: Side, inum: nat, parent: nat, attrs: Namespace.Attrs, j: nat)
    requires DirMade(s, t, inum, parent, attrs) && j != inum && Namespace.IsDir(s.Nodes(), j)
    ensures SideKept(s, t, j)
  {
  }

  lemma {:induction false} AllFitMore(s: Side, t: Side, before: State, after: State, table: Table, table': Table, bs: nat, inum: nat, stands: map<nat, Stand>, x: Stand,
                                      code: nat -> Code, lists: map<nat, seq<nat>>, list: seq<nat>)
    requires AllFit(s, before, table, bs, stands, code, lists) && Beside(before, after, table, table', inum, bs) && inum !in stands
    requires Fits(t, after, table', bs, inum, x, code(inum), list) && forall j :: j in stands ==> SideKept(s, t, j)
    ensures AllFit(t, after, table', bs, stands[inum := x], code, lists[inum := list])
  {
    hide Fits, SideKept, Beside;
    forall j | j in stands[inum := x] ensures Fits(t, after, table', bs, j, stands[inum := x][j], code(j), lists[inum := list][j]) {
      if j != inum {
        OtherFits(s, t, before, after, table, table', bs, inum, j, stands[j], code(j), lists[j]);
      }
    }
  }

  lemma {:induction false} MoreMapped(s: Side, t: Side, dirs: map<nat, Directory>, lists: map<nat, seq<nat>>, inum: nat, d: Directory, list: seq<nat>, parent: nat, attrs: Namespace.Attrs)
    requires Mapped(s, dirs, lists) && DirMade(s, t, inum, parent, attrs) && inum !in dirs && d !in dirs.Values
    ensures Mapped(t, dirs[inum := d], lists[inum := list]) && forall j :: j in dirs ==> SideKept(s, t, j)
  {
    forall j | j in dirs ensures SideKept(s, t, j) {
      MadeKeeps(s, t, inum, parent, attrs, j);
    }
    hide SideKept;
  }

  lemma {:induction false} MorePeopled(s: Side, t: Side, before: State, after: State, table: Table, table': Table, inum: nat, bs: nat, parent: nat, attrs: Namespace.Attrs)
    requires Peopled(s, table) && Beside(before, after, table, table', inum, bs) && DirMade(s, t, inum, parent, attrs)
    ensures Peopled(t, table')
  {
    hide Ownership.Kept;
  }

  lemma {:induction false} OneCounted(usesExtents: bool, shape: Shape, blocks: nat)
    requires shape.Valid() && CanTake(LayoutOf(usesExtents, shape), blocks, 1)
    ensures 1 <= LayoutOf(usesExtents, shape).takes(1) <= blocks
  {
    hide MapBlocks;
  }

  lemma {:induction false} NoneUnseen(d: Directory)
    requires d.Valid() && d.shape.Valid() && d.Entries() == {}
    ensures Hidden(d) == {} && SameNames(d.Entries(), map[])
  {
    hide Sound, Contents, Seen;
  }

  /** Make a directory: it is refused only where no inode is left or a block may not be, and all of them are tied with it. */
  method NewAll(disk: Volume, dirs: map<nat, Directory>, near: nat, usesExtents: bool, shape: Shape, indexing: bool, hash: Bytes -> nat, minor: Bytes -> nat, parent: nat,
                ghost code: nat -> Code, ghost lists: map<nat, seq<nat>>, ghost s: Side, ghost attrs: Namespace.Attrs)
    returns (r: Result<nat>, d: Directory, ghost list: seq<nat>, ghost t: Side)
    requires AllTied(s, disk, dirs, code, lists) && disk.Valid() && shape.Valid() && shape.blockSize == disk.blockSize && disk.fs.geo.inodesCount < U32_LIMIT
    requires forall i: nat :: 0 < i < U32_LIMIT ==> Coded(code(i), shape.(self := i)) && LayoutOf(usesExtents, shape.(self := i)) == s.layout
    requires EvenHashes(hash) && 0 < parent < U32_LIMIT && (usesExtents || disk.fs.geo.blocksCount <= U32_LIMIT)
    modifies disk`inodes, disk.alloc`inodeCache, disk.alloc`dirtyInode, disk.alloc`dirs, disk.alloc`blockCache, disk.alloc`dirtyBlock
    modifies disk.fs`descs, disk.fs`freeInodes, disk.fs`freeBlocks, disk.fs`device, disk.fs`log
    ensures r.Err? ==> r.error == NoInodes || r.error == NoSpace
    ensures r.Err? ==> !Lifecycle.InodeLeft(old(disk.Now())) || !CanTake(s.layout, s.standing.blocks, 1)
    ensures r.Ok? ==> r.value !in s.Nodes() && DirMade(s, t, r.value, parent, attrs) && AllTied(t, disk, dirs[r.value := d], code, lists[r.value := list])
  {
    hide AllTied, AllFit, Mapped, Volume.Valid, Tied, DirOn, Coded, LayoutOf, Lifecycle.InodeLeft, EvenHashes, Sound, Contents, ParentOf, All, Unseen, SameNames, Beside, StandOf, SideKept, Fits;
    hide Peopled, State.Valid;
    AllTiedIs(s, disk, dirs, code, lists);
    ghost var before, table, stands := disk.Now(), disk.inodes, Stands(dirs);
    ghost var blocks := if CanTake(s.layout, s.standing.blocks, 1) then s.standing.blocks - s.layout.takes(1) else 0;
    if CanTake(s.layout, s.standing.blocks, 1) {
      assert LayoutOf(usesExtents, shape.(self := 1)) == s.layout;
      OneCounted(usesExtents, shape.(self := 1), s.standing.blocks);
    }
    hide CanTake;
    r, d, list := NewOnDisk(disk, near, usesExtents, shape, indexing, hash, minor, parent, code);
    t := s;
    if r.Ok? {
      ghost var i := r.value;
      DirOnIs(disk, i, d, code(i), list);
      NoneUnseen(d);
      t := Side(s.layout, Standing(s.Nodes()[i := Namespace.Dir(map[], parent, 2, attrs)], s.standing.hides[i := {}], s.standing.inodes, blocks, s.standing.spans[i := 1]),
                s.stuck - {i});
      Tie(t, disk, i, d, code(i), list);
      TiedFits(t, disk, i, d, code(i), list);
      NotYet(s, table, dirs, lists, i);
      MoreMapped(s, t, dirs, lists, i, d, list, parent, attrs);
      MorePeopled(s, t, before, disk.Now(), table, disk.inodes, i, disk.blockSize, parent, attrs);
      AllFitMore(s, t, before, disk.Now(), table, disk.inodes, disk.blockSize, i, stands, StandOf(d), code, lists, list);
      assert Stands(dirs[i := d]) == stands[i := StandOf(d)];
      AllTieUp(t, disk, dirs[i := d], code, lists[i := list]);
    }
  }

  lemma {:induction false} NotYet(s: Side, table: Table, dirs: map<nat, Directory>, lists: map<nat, seq<nat>>, i: nat)
    requires Peopled(s, table) && Mapped(s, dirs, lists) && i !in table
    ensures i !in s.Nodes() && i !in dirs
  {
  }

  // ---- a rename ----

  /** To the directories, nodes are as they were. */
  ghost predicate SameDirectories(a: Namespace.Fs, b: Namespace.Fs) {
    forall j :: (Namespace.IsDir(a, j) <==> Namespace.IsDir(b, j)) && (Namespace.IsDir(a, j) ==> a[j].entries == b[j].entries && a[j].parent == b[j].parent)
  }

  /** Counts of links are the tree's own. */
  lemma {:induction false} LinksTied(s: Side, disk: Volume, dirs: map<nat, Directory>, code: nat -> Code, lists: map<nat, seq<nat>>, nodes: Namespace.Fs)
    requires AllTied(s, disk, dirs, code, lists) && SameDirectories(s.Nodes(), nodes) && nodes.Keys == s.Nodes().Keys
    ensures AllTied(s.(standing := s.standing.(nodes := nodes)), disk, dirs, code, lists)
  {
    hide Volume.Valid, Sound, OnDisk, Coded, DataIs, Contents, ParentOf, All, Unseen, LayoutOf, SameNames, StandOf;
  }

  /** What a rename across directories answers, once the tree has found a place for the new name. */
  function Carried(s: Side, d1: nat, n1: Bytes, d2: nat, n2: Bytes, inum: nat, room: Result<set<Bytes>>): Result<()> {
    if !NameOps.NameOk(n2) then Err(InvalidName)
    else if room.Err? then Err(room.error)
    else if n1 in HiddenIn(s.standing.hides[d2 := room.value], d1) then Err(NotFound)
    else if Namespace.IsDir(s.Nodes(), inum) && d1 != d2 && inum in s.stuck then Err(Error.Fs)
    else Ok(())
  }

  /** And what it leaves of the tree: all of it, the new name alone, or both names moved and nothing besides. */
  function CarriedNodes(s: Side, d1: nat, n1: Bytes, d2: nat, n2: Bytes, inum: nat, room: Result<set<Bytes>>, r: Result<()>): Namespace.Fs
    requires Namespace.IsDir(s.Nodes(), d1) && n1 in s.Nodes()[d1].entries && s.Nodes()[d1].entries[n1] == inum && Namespace.IsDir(s.Nodes(), d2)
    requires inum in s.Nodes()
  {
    if r.Ok? then Namespace.Move(s.Nodes(), d1, n1, d2, n2)
    else if !NameOps.NameOk(n2) || room.Err? then s.Nodes()
    else if r.error == NotFound then Namespace.Put(s.Nodes(), d2, n2, inum)
    else NameVolume.MoveName(s.Nodes(), d1, n1, d2, n2)
  }

  /**
   A rename on the disk: the answers are those of the tree's own, and whatever they
   are, once the new name is in, the directories on the disk are those of the tree.
   */
  method CarryAll(disk: Volume, dirs: map<nat, Directory>, code: nat -> Code, d1: nat, n1: Bytes, d2: nat, n2: Bytes, inum: nat, isDir: bool, fileType: byte,
                  ghost lists: map<nat, seq<nat>>, ghost s: Side)
    returns (r: Result<()>, ghost room: Result<set<Bytes>>, ghost now: map<nat, seq<nat>>, ghost t: Side)
    requires AllTied(s, disk, dirs, code, lists) && d1 in dirs && d2 in dirs && Namespace.IsDir(s.Nodes(), d1) && Namespace.IsDir(s.Nodes(), d2)
    requires n1 in s.Nodes()[d1].entries && s.Nodes()[d1].entries[n1] == inum && inum in s.Nodes() && n2 !in s.Nodes()[d2].entries
    requires n1 != DirEntries.DOT && n1 != DirEntries.DOTDOT && n2 != DirEntries.DOT && n2 != DirEntries.DOTDOT
    requires 0 < inum < U32_LIMIT && 0 < d2 < U32_LIMIT && (isDir <==> Namespace.IsDir(s.Nodes(), inum))
    requires isDir ==> inum in dirs && inum != d1 && inum != d2 && s.Nodes()[inum].parent != inum
    modifies dirs.Values, disk`inodes, disk.alloc`blockCache, disk.alloc`dirtyBlock, disk.fs`descs, disk.fs`freeBlocks, disk.fs`device, disk.fs`log
    ensures NameOps.NameOk(n2) ==> RoomGiven(s.layout, s.standing, t.standing, d2, room)
    ensures r == Carried(s, d1, n1, d2, n2, inum, room) && t.Nodes() == CarriedNodes(s, d1, n1, d2, n2, inum, room, r)
    ensures NameOps.NameOk(n2) && room.Ok? ==> AllTied(t, disk, dirs, code, now)
  {
    hide AllTied, RoomGiven;
    r, room, now, t := LinkAll(disk, dirs, code, d2, n2, inum, fileType, lists, s);
    if r.Err? {
      return;
    }
    ghost var u, given := t, t.standing;
    var taken;
    taken, t := UnlinkAll(disk, dirs, code, d1, n1, now, u);
    if taken.Err? {
      r := Err(taken.error);
      return;
    }
    if isDir && d1 != d2 {
      u := t;
      r, t := RepointAll(disk, dirs, code, inum, d2, now, u);
      if r.Err? {
        RoomStill(s.layout, s.standing, given, t.standing, d2, room);
        return;
      }
    }
    ghost var nodes := Namespace.Move(s.Nodes(), d1, n1, d2, n2);
    LinksTied(t, disk, dirs, code, now, nodes);
    t := t.(standing := t.standing.(nodes := nodes));
    RoomStill(s.layout, s.standing, given, t.standing, d2, room);
  }

  lemma {:induction false} RoomStill(layout: Layout, s: Standing, t: Standing, u: Standing, dir: nat, room: Result<set<Bytes>>)
    requires RoomGiven(layout, s, t, dir, room) && u.spans == t.spans && u.blocks == t.blocks
    ensures RoomGiven(layout, s, u, dir, room)
  {
    hide Counts, Spread;
  }
}
