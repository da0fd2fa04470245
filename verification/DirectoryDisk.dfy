/**
 A directory's blocks on the device (src/volume.rs:448-493 and 1645-1748,
 src/index.rs:65-126 and 319-390): whatever is done to it, the blocks its inode
 owns hold what the directory is, and when there is room for one name more.
 */
module DirectoryDisk {
  import opened Base
  import opened Disk
  import opened Allocation
  import opened Allocators
  import opened IndirectMap
  import opened PointerMap
  import opened ExtentTree
  import opened MapSpace
  import opened MapCost
  import opened Ownership
  import opened FileContents
  import opened FileData
  import opened Lifecycle
  import opened DiskAnswers
  import opened Directories
  import DirBlock
  import DirEntries
  import BlockMap
  import HashIndex
  import DirectoryIndex
  import DotDot
  import FreshDirectory
  import VolumeRuns

  // ---- how a volume is laid out ----

  /** The most blocks a map is sure to hold, however they lie. */
  function MostBlocks(usesExtents: bool, bs: nat): nat
    requires 24 <= bs
  {
    if usesExtents then INLINE_MAX * MaxEntries(bs) else MapLimit(bs / 4)
  }

  /** What the names of a volume may count on. */
  function LayoutOf(usesExtents: bool, shape: Shape): Layout
    requires shape.Valid()
  {
    Layout(shape.blockSize, (n: nat) => n + MapBlocks(usesExtents, shape.blockSize, n), MostBlocks(usesExtents, shape.blockSize),
           FreshDirectory.MostNames(shape))
  }

  /** As many free blocks are enough, however many there are already. */
  lemma {:induction false} TakesAmple(free: nat, usesExtents: bool, shape: Shape, n: nat, had: nat)
    requires shape.Valid() && CanTake(LayoutOf(usesExtents, shape), free, n)
    ensures Ample(free, usesExtents, shape.blockSize, had, n)
    ensures SatSub(n, had) + MapBlocks(usesExtents, shape.blockSize, n) <= LayoutOf(usesExtents, shape).takes(n)
  {
    hide MapSize, MapLimit, CeilDiv, FreshDirectory.MostNames;
  }

  /** More blocks never need fewer, and none need none. */
  lemma {:induction false} LayoutValid(usesExtents: bool, shape: Shape)
    requires shape.Valid()
    ensures LayoutOf(usesExtents, shape).Valid()
  {
    hide MapSize, MapLimit, CeilDiv, FreshDirectory.MostNames, MostBlocks;
    var layout, bs := LayoutOf(usesExtents, shape), shape.blockSize;
    forall a: nat, b: nat | a <= b ensures layout.takes(a) <= layout.takes(b) {
      if usesExtents {
        CeilDivRises(a, b, MaxEntries(bs));
      } else {
        MapSizeRises(a, b, bs / 4);
      }
    }
    NoneTaken(usesExtents, bs);
  }

  lemma {:induction false} NoneTaken(usesExtents: bool, bs: nat)
    requires 24 <= bs
    ensures MapBlocks(usesExtents, bs, 0) == 0
  {
  }

  // ---- blocks as bytes ----

  /** The blocks of the list hold the directory's. */
  ghost predicate OnDisk(dev: Device, list: seq<nat>, blocks: seq<DirBlk>, code: DirBlk -> Bytes, bs: nat) {
    |list| == |blocks| && forall k :: 0 <= k < |list| ==> BlockBytes(dev, list[k], bs) == code(blocks[k])
  }

  /** Every block of a sound directory is one block long. */
  lemma {:induction false} BlockLong(d: DirectoryIndex.Directory, code: DirBlk -> Bytes)
    requires d.Valid() && Coded(code, d.shape)
    ensures forall k :: 0 <= k < |d.blocks| ==> |code(d.blocks[k])| == d.shape.blockSize
  {
    hide Undotted, All, Homed, DirectoryIndex.EvenHashes, HashIndex.TreeOver, HashIndex.Rising, DirEntries.DistinctNames;
    forall k | 0 <= k < |d.blocks| ensures |code(d.blocks[k])| == d.shape.blockSize {
      assert !d.blocks[k].Plain? || PlainOk(d.blocks[k], d.shape);
      if d.blocks[k].Plain? {
        assert code(Plain(d.blocks[k].bytes)) == d.blocks[k].bytes;
      }
    }
  }

  /** A block read back is what was written to it. */
  lemma {:induction false} OneHeld(dev: Device, b: nat, content: Bytes, bs: nat)
    requires HoldsFull(dev, [b], content, bs) && |content| == bs
    ensures BlockBytes(dev, b, bs) == content
  {
    hide BlockBytes;
    FullParts(dev, [b], content, bs);
  }

  lemma {:induction false} SameBytes(dev: Device, now: Device, b: nat, bs: nat)
    requires SameAt(dev, now, b)
    ensures BlockBytes(now, b, bs) == BlockBytes(dev, b, bs)
  {
  }

  /** One block rewritten. */
  lemma {:induction false} EditedOnDisk(dev: Device, list: seq<nat>, bs: nat, was: seq<DirBlk>, now: seq<DirBlk>, code: DirBlk -> Bytes, k: nat)
    requires OnDisk(dev, list, was, code, bs) && NoDup(list) && k < |list| && |now| == |was| && now == was[k := now[k]] && |code(now[k])| == bs
    ensures OnDisk(dev[list[k] := Contents(code(now[k]))], list, now, code, bs)
  {
    forall j | 0 <= j < |list| ensures BlockBytes(dev[list[k] := Contents(code(now[k]))], list[j], bs) == code(now[j]) {
      if j != k {
        assert list[j] != list[k];
      }
    }
  }

  /** The blocks of an inode's list are distinct. */
  lemma {:induction false} ListDistinct(s: State, table: Table, inum: nat, bs: nat, list: seq<nat>)
    requires VolumeOk(s, table, bs) && inum in table && DataIs(s.device, table[inum].map_, bs / 4, list)
    ensures NoDup(list)
  {
    hide State.Valid, DataIs, NoDup, Owns;
    VolumeParts(s, table, bs);
    OwnBlocks(s, table, inum, bs / 4, list);
  }

  /** One block more. */
  lemma {:induction false} AppendedOnDisk(s: State, t: State, table: Table, table': Table, inum: nat, bs: nat, list: seq<nat>, b: nat, was: seq<DirBlk>, last: DirBlk, code: DirBlk -> Bytes)
    requires 0 < bs && OnDisk(s.device, list, was, code, bs) && |code(last)| == bs
    requires Appended(s, t, table, table', inum, bs, list, b, code(last))
    ensures OnDisk(t.device, list + [b], was + [last], code, bs)
  {
    hide DataIs, BlocksOf, Ownership.Kept, HoldsFull, BlockBytes, AclBlock, Sectors, ListSize, SameAt;
    OneHeld(t.device, b, code(last), bs);
    forall j | 0 <= j < |list| ensures BlockBytes(t.device, list[j], bs) == code(was[j]) {
      assert SameAt(s.device, t.device, list[j]);
      SameBytes(s.device, t.device, list[j], bs);
    }
  }

  /** Blocks as bytes, one after another. */
  function Coding(code: DirBlk -> Bytes, blocks: seq<DirBlk>): (r: seq<Bytes>)
    ensures |r| == |blocks| && forall k :: 0 <= k < |blocks| ==> r[k] == code(blocks[k])
  {
    seq(|blocks|, k requires 0 <= k < |blocks| => code(blocks[k]))
  }

  // ---- the operations ----

  /** The blocks of an inode hold a directory. */
  ghost predicate DirOn(v: Volume, inum: nat, d: DirectoryIndex.Directory, code: DirBlk -> Bytes, list: seq<nat>)
    reads v, v.fs, v.alloc, d
  {
    && v.Valid() && v.HasBlocks(inum, list) && d.Valid() && d.shape.blockSize == v.blockSize && Coded(code, d.shape)
    && OnDisk(v.fs.device, list, d.blocks, code, v.blockSize)
  }

  lemma {:induction false} DirOnIs(v: Volume, inum: nat, d: DirectoryIndex.Directory, code: DirBlk -> Bytes, list: seq<nat>)
    requires DirOn(v, inum, d, code, list)
    ensures inum in v.inodes && d.shape.Valid() && v.Valid() && Coded(code, d.shape) && d.shape.blockSize == v.blockSize
  {
    hide VolumeOk, OnDisk, Coded, DataIs;
  }

  /** Only one inode is other than it was, or is there at all, and no other's blocks were written. */
  ghost predicate Beside(s: State, t: State, table: Table, table': Table, inum: nat, bs: nat) {
    inum in table' && table' == table[inum := table'[inum]] && Ownership.Kept(s, t, table, inum, bs / 4)
  }

  /** It was there before, and is mapped as it was. */
  ghost predicate Alone(s: State, t: State, table: Table, table': Table, inum: nat, bs: nat) {
    inum in table && Beside(s, t, table, table', inum, bs) && table'[inum].usesExtents == table[inum].usesExtents
  }

  /** What writing some blocks leaves. */
  ghost predicate Written(s: State, t: State, table: Table, table': Table, inum: nat, bs: nat, now: seq<nat>, blocks: seq<DirBlk>, code: DirBlk -> Bytes) {
    && VolumeOk(t, table', bs) && Alone(s, t, table, table', inum, bs) && DataIs(t.device, table'[inum].map_, bs / 4, now)
    && OnDisk(t.device, now, blocks, code, bs)
  }

  /** Write one block back. */
  method WriteOne(v: Volume, inum: nat, blocks: seq<DirBlk>, k: nat, code: DirBlk -> Bytes, ghost was: seq<DirBlk>, ghost list: seq<nat>)
    requires v.Valid() && v.HasBlocks(inum, list) && OnDisk(v.fs.device, list, was, code, v.blockSize)
    requires k < |was| == |blocks| && blocks == was[k := blocks[k]] && |code(blocks[k])| == v.blockSize
    modifies v.fs`device, v.fs`log
    ensures Written(old(v.Now()), v.Now(), v.inodes, v.inodes, inum, v.blockSize, list, blocks, code)
  {
    hide VolumeOk, State.Valid, DataIs, Lifecycle.Edited, BlockBytes, Ownership.Kept, NoDup, OnDisk;
    ghost var s := v.Now();
    OnDiskLength(v.fs.device, list, was, code, v.blockSize);
    ListDistinct(s, v.inodes, inum, v.blockSize, list);
    EditedOnDisk(v.fs.device, list, v.blockSize, was, blocks, code, k);
    EditBlock(v, inum, k, code(blocks[k]), list);
    EditedAlone(s, v.Now(), v.inodes, inum, v.blockSize, list, k, code(blocks[k]));
  }

  lemma {:induction false} OnDiskLength(dev: Device, list: seq<nat>, blocks: seq<DirBlk>, code: DirBlk -> Bytes, bs: nat)
    requires OnDisk(dev, list, blocks, code, bs)
    ensures |list| == |blocks|
  {
  }

  /** Write one block more. */
  method WriteMore(v: Volume, inum: nat, last: DirBlk, code: DirBlk -> Bytes, ghost was: seq<DirBlk>, ghost list: seq<nat>)
    returns (r: Result<()>, ghost now: seq<nat>)
    requires v.Valid() && v.HasBlocks(inum, list) && OnDisk(v.fs.device, list, was, code, v.blockSize) && |code(last)| == v.blockSize
    modifies v`inodes, v.alloc`blockCache, v.alloc`dirtyBlock, v.fs`descs, v.fs`freeBlocks, v.fs`device, v.fs`log
    ensures r.Ok? ==> Written(old(v.Now()), v.Now(), old(v.inodes), v.inodes, inum, v.blockSize, now, was + [last], code)
    ensures r.Err? ==> r.error == NoSpace || r.error == Unsupported
    ensures old(v.AmpleFor(inum, |list|, |was| + 1)) ==>
              r.Ok? && Spent(old(v.Now()), v.Now(), old(v.inodes)[inum].usesExtents, v.blockSize, |list|, |was| + 1)
  {
    hide VolumeOk, State.Valid, DataIs, Appended, BlockBytes, Ownership.Kept, OnDisk, Ample, Spent, Written;
    ghost var s, table := v.Now(), v.inodes;
    VolumeParts(s, table, v.blockSize);
    OnDiskLength(v.fs.device, list, was, code, v.blockSize);
    now := list;
    ghost var b;
    r, b := AppendBlock(v, inum, code(last), list);
    if r.Ok? {
      now := list + [b];
      AppendedWritten(s, v.Now(), table, v.inodes, inum, v.blockSize, list, b, was, last, code);
    }
  }

  lemma {:induction false} AppendedWritten(s: State, t: State, table: Table, table': Table, inum: nat, bs: nat, list: seq<nat>, b: nat, was: seq<DirBlk>, last: DirBlk, code: DirBlk -> Bytes)
    requires 0 < bs && OnDisk(s.device, list, was, code, bs) && |code(last)| == bs && VolumeOk(t, table', bs)
    requires Appended(s, t, table, table', inum, bs, list, b, code(last))
    ensures Written(s, t, table, table', inum, bs, list + [b], was + [last], code)
  {
    hide VolumeOk, DataIs, Appended, OnDisk, Alone;
    AppendedOnDisk(s, t, table, table', inum, bs, list, b, was, last, code);
    AppendedAlone(s, t, table, table', inum, bs, list, b, code(last));
  }

  /** Write them all anew. */
  method WriteAnew(v: Volume, inum: nat, blocks: seq<DirBlk>, code: DirBlk -> Bytes, ghost list: seq<nat>)
    returns (r: Result<()>, ghost now: seq<nat>)
    requires v.Valid() && v.HasBlocks(inum, list) && forall k :: 0 <= k < |blocks| ==> |code(blocks[k])| == v.blockSize
    modifies v`inodes, v.alloc`blockCache, v.alloc`dirtyBlock, v.fs`descs, v.fs`freeBlocks, v.fs`device, v.fs`log
    ensures r.Ok? ==> Written(old(v.Now()), v.Now(), old(v.inodes), v.inodes, inum, v.blockSize, now, blocks, code)
    ensures r.Err? ==> r.error == NoSpace || r.error == Unsupported
    ensures old(v.AmpleFor(inum, |list|, |blocks|)) ==>
              r.Ok? && Spent(old(v.Now()), v.Now(), old(v.inodes)[inum].usesExtents, v.blockSize, |list|, |blocks|)
  {
    hide VolumeOk, State.Valid, DataIs, Rewrote, BlockBytes, Ownership.Kept, Ample, Spent, KeptPart, WroteOnce;
    ghost var s, table := v.Now(), v.inodes;
    VolumeParts(s, table, v.blockSize);
    r, now := WriteDirectory(v, inum, Coding(code, blocks), list);
    if r.Ok? {
      RewroteAlone(s, v.Now(), table, v.inodes, inum, v.blockSize, now, AllOf(Coding(code, blocks)));
    }
  }

  lemma {:induction false} EditedAlone(s: State, t: State, table: Table, inum: nat, bs: nat, list: seq<nat>, k: nat, content: Bytes)
    requires Lifecycle.Edited(s, t, table, inum, bs, list, k, content)
    ensures Alone(s, t, table, table, inum, bs) && DataIs(t.device, table[inum].map_, bs / 4, list)
    ensures k < |list| && t.device == s.device[list[k] := Contents(content)]
  {
    hide State.Valid, State.UsedBlocks, DataIs, BlocksOf, Ownership.Kept;
    assert table[inum := table[inum]] == table;
  }

  lemma {:induction false} AppendedAlone(s: State, t: State, table: Table, table': Table, inum: nat, bs: nat, was: seq<nat>, b: nat, content: Bytes)
    requires 0 < bs && Appended(s, t, table, table', inum, bs, was, b, content)
    ensures Alone(s, t, table, table', inum, bs) && DataIs(t.device, table'[inum].map_, bs / 4, was + [b])
  {
    hide DataIs, BlocksOf, Ownership.Kept, HoldsFull, AclBlock, Sectors, ListSize, SameAt;
  }

  lemma {:induction false} RewroteAlone(s: State, t: State, table: Table, table': Table, inum: nat, bs: nat, list: seq<nat>, data: Bytes)
    requires inum in table && 0 < bs && Rewrote(s, t, table, table', inum, bs, list, data)
    ensures Alone(s, t, table, table', inum, bs) && DataIs(t.device, table'[inum].map_, bs / 4, list)
  {
    hide DataIs, BlocksOf, Ownership.Kept, HoldsData, AclBlock, Sectors;
  }

  /** What one change takes: nothing for a block written back. */
  ghost predicate Paid(s: State, t: State, usesExtents: bool, bs: nat, had: nat, n: nat, how: DirectoryIndex.Change)
    requires 24 <= bs
  {
    if how.Edited? then t.freeBlocks == s.freeBlocks else Spent(s, t, usesExtents, bs, had, n)
  }

  /** Write a directory's blocks as one change has left them. */
  method WriteChange(v: Volume, inum: nat, blocks: seq<DirBlk>, how: DirectoryIndex.Change, code: DirBlk -> Bytes, ghost was: seq<DirBlk>, ghost list: seq<nat>)
    returns (r: Result<()>, ghost now: seq<nat>)
    requires v.Valid() && v.HasBlocks(inum, list) && OnDisk(v.fs.device, list, was, code, v.blockSize)
    requires DirectoryIndex.ChangedSo(was, blocks, how) && forall k :: 0 <= k < |blocks| ==> |code(blocks[k])| == v.blockSize
    modifies v`inodes, v.alloc`blockCache, v.alloc`dirtyBlock, v.fs`descs, v.fs`freeBlocks, v.fs`device, v.fs`log
    ensures r.Ok? ==> Written(old(v.Now()), v.Now(), old(v.inodes), v.inodes, inum, v.blockSize, now, blocks, code)
    ensures r.Err? ==> r.error == NoSpace || r.error == Unsupported
    ensures how.Edited? || old(v.AmpleFor(inum, |list|, |blocks|)) ==>
              r.Ok? && Paid(old(v.Now()), v.Now(), old(v.inodes)[inum].usesExtents, v.blockSize, |list|, |blocks|, how)
  {
    hide Written, VolumeOk, State.Valid, DataIs, BlockBytes, OnDisk, Ample, Spent;
    now := list;
    match how {
      case Edited(k) =>
        WriteOne(v, inum, blocks, k, code, was, list);
        r := Ok(());
      case Added =>
        LastBlock(was, blocks);
        r, now := WriteMore(v, inum, blocks[|blocks| - 1], code, was, list);
      case Relaid =>
        r, now := WriteAnew(v, inum, blocks, code, list);
    }
  }

  lemma {:induction false} LastBlock(was: seq<DirBlk>, blocks: seq<DirBlk>)
    requires |blocks| == |was| + 1 && blocks[..|was|] == was
    ensures blocks == was + [blocks[|blocks| - 1]]
  {
  }

  /** With few enough names, the index one more needs is not too large. */
  lemma {:induction false} NamesFit(entries: set<DirBlock.Entry>, shape: Shape, hash: Bytes -> nat, minor: Bytes -> nat, e: DirBlock.Entry)
    requires shape.Valid() && |entries| + 1 <= FreshDirectory.MostNames(shape)
    ensures !DirectoryIndex.TooLarge(entries + {e}, shape, hash, minor)
  {
    hide DirectoryIndex.TooLarge, FreshDirectory.MostNames;
    OneMore(entries, e);
    FreshDirectory.FewFit(entries + {e}, shape, hash, minor);
  }

  lemma {:induction false} OneMore<T>(s: set<T>, e: T)
    ensures |s + {e}| <= |s| + 1
  {
    if e in s {
      assert s + {e} == s;
    }
  }

  /** With a place for one name more, the change it makes is one there are blocks for. */
  lemma {:induction false} ChangeFits(usesExtents: bool, shape: Shape, free: nat, span: nat, names: nat, had: nat, n: nat)
    requires shape.Valid() && RoomIn(LayoutOf(usesExtents, shape), free, span, names) && n <= Spread(span, names)
    ensures Ample(free, usesExtents, shape.blockSize, had, n)
    ensures SatSub(n, had) + MapBlocks(usesExtents, shape.blockSize, n) <= LayoutOf(usesExtents, shape).takes(Spread(span, names))
  {
    LayoutValid(usesExtents, shape);
    hide LayoutOf, Spread;
    var layout := LayoutOf(usesExtents, shape);
    assert layout.takes(n) <= layout.takes(Spread(span, names));
    TakesAmple(free, usesExtents, shape, n, had);
  }

  /** However a name was put in, the directory has no more blocks than it may. */
  lemma {:induction false} ChangeSmall(was: seq<DirBlk>, now: seq<DirBlk>, shape: Shape, e: DirBlock.Entry, how: DirectoryIndex.Change, span: nat,
                                       hashes: seq<nat>, per: nat, hash: Bytes -> nat, minor: Bytes -> nat)
    requires shape.Valid() && DirectoryIndex.ChangedSo(was, now, how) && |was| <= span && Gained(was, now, shape, e)
    requires how.Relaid? ==> DirectoryIndex.PlannedFor(|hashes|, |now|, per, shape) && DirectoryIndex.FreshIndex(now, hashes, shape, hash, minor)
    ensures |now| <= Spread(span, |Directories.Contents(was, shape)|)
  {
    hide Directories.Contents, DirectoryIndex.PlannedFor, DirectoryIndex.FreshIndex, ParentOf;
    if how.Relaid? {
      assert e in Directories.Contents(now, shape);
      OneMore(Directories.Contents(was, shape), e);
      FreshDirectory.FreshBlocks(now, hashes, per, shape, hash, minor);
    }
  }

  lemma {:induction false} PaidFits(s: State, t: State, usesExtents: bool, bs: nat, had: nat, n: nat, how: DirectoryIndex.Change, most: nat)
    requires 24 <= bs && Paid(s, t, usesExtents, bs, had, n, how) && SatSub(n, had) + MapBlocks(usesExtents, bs, n) <= most
    ensures s.freeBlocks <= t.freeBlocks + most
  {
    hide MapBlocks;
  }

  /** Where there is a place for one name more, it is put in, and no more taken than it may be. */
  ghost predicate Answers(s: State, t: State, usesExtents: bool, shape: Shape, span: nat, names: nat, ok: bool, blocks: nat)
    requires shape.Valid()
  {
    var layout := LayoutOf(usesExtents, shape);
    RoomIn(layout, s.freeBlocks, span, names) ==>
      ok && blocks <= Spread(span, names) && s.freeBlocks <= t.freeBlocks + layout.takes(Spread(span, names))
  }

  lemma {:induction false} ChangeAnswers(s: State, t: State, usesExtents: bool, shape: Shape, span: nat, names: nat, had: nat, n: nat, how: DirectoryIndex.Change)
    requires shape.Valid() && n <= Spread(span, names) && Paid(s, t, usesExtents, shape.blockSize, had, n, how)
    ensures Answers(s, t, usesExtents, shape, span, names, true, n)
  {
    hide RoomIn, Spread, LayoutOf, Paid, MapBlocks;
    if RoomIn(LayoutOf(usesExtents, shape), s.freeBlocks, span, names) {
      ChangeFits(usesExtents, shape, s.freeBlocks, span, names, had, n);
      PaidFits(s, t, usesExtents, shape.blockSize, had, n, how, LayoutOf(usesExtents, shape).takes(Spread(span, names)));
    }
  }

  /** Where there are not blocks for the change, there was no place. */
  lemma {:induction false} WantAnswers(s: State, t: State, usesExtents: bool, shape: Shape, span: nat, names: nat, had: nat, n: nat, ok: bool, blocks: nat)
    requires shape.Valid() && n <= Spread(span, names) && !Ample(s.freeBlocks, usesExtents, shape.blockSize, had, n)
    ensures Answers(s, t, usesExtents, shape, span, names, ok, blocks)
  {
    hide RoomIn, Spread, LayoutOf, Ample, MapBlocks;
    if RoomIn(LayoutOf(usesExtents, shape), s.freeBlocks, span, names) {
      ChangeFits(usesExtents, shape, s.freeBlocks, span, names, had, n);
    }
  }

  lemma {:induction false} ManyAnswers(s: State, t: State, usesExtents: bool, shape: Shape, span: nat, names: nat, blocks: nat)
    requires shape.Valid() && FreshDirectory.MostNames(shape) < names + 1
    ensures Answers(s, t, usesExtents, shape, span, names, false, blocks)
  {
    hide Spread, FreshDirectory.MostNames, MostBlocks, MapBlocks;
  }

  /** Add a name to the directory in memory. With few enough names it is not too large, and it has no more blocks than it may. */
  method LinkInMemory(d: DirectoryIndex.Directory, code: DirBlk -> Bytes, name: Bytes, target: nat, fileType: byte, ghost span: nat)
    returns (r: Result<()>, how: DirectoryIndex.Change)
    requires d.Valid() && Coded(code, d.shape) && |d.blocks| <= span
    requires 0 < target < U32_LIMIT && name != DirEntries.DOT && name != DirEntries.DOTDOT && NoneNamed(d.Entries(), name)
    modifies d
    ensures d.Valid()
    ensures r.Ok? ==> && DirectoryIndex.ChangedSo(old(d.blocks), d.blocks, how) && |d.blocks| <= Spread(span, |old(d.Entries())|)
                      && (forall k :: 0 <= k < |d.blocks| ==> |code(d.blocks[k])| == d.shape.blockSize)
                      && Gained(old(d.blocks), d.blocks, d.shape, DirBlock.Entry(name, target, fileType))
    ensures r.Err? ==> d.blocks == old(d.blocks) && d.indexed == old(d.indexed)
    ensures r.Err? ==> r.error == InvalidName || r.error == Unsupported
    ensures r == Err(InvalidName) <==> !DirectoryIndex.NameOk(name)
    ensures |old(d.Entries())| + 1 <= FreshDirectory.MostNames(d.shape) ==> r != Err(Unsupported)
    ensures (!d.indexing ==> d.indexed == old(d.indexed)) && (old(d.indexed) ==> d.indexed)
  {
    assert d.shape.Valid();
    hide DirectoryIndex.Sound, Directories.Contents, Gained, FreshDirectory.MostNames, Spread;
    hide DirectoryIndex.Crammed, DirectoryIndex.TooLarge, DirectoryIndex.Seen, DirectoryIndex.FreshIndex, DirectoryIndex.PlannedFor, NoneNamed, DirectoryIndex.NameOk;
    ghost var was, e := d.blocks, DirBlock.Entry(name, target, fileType);
    if |d.Entries()| + 1 <= FreshDirectory.MostNames(d.shape) {
      NamesFit(d.Entries(), d.shape, d.hash, d.minor, e);
    }
    r, how := d.Link(name, target, fileType);
    if r.Ok? {
      BlockLong(d, code);
      ChangeSmall(was, d.blocks, d.shape, e, how, span, d.hashes, d.per, d.hash, d.minor);
    }
  }

  /** Write the blocks of a directory given one name more. */
  method WriteLinked(v: Volume, inum: nat, blocks: seq<DirBlk>, how: DirectoryIndex.Change, code: DirBlk -> Bytes, ghost was: seq<DirBlk>, ghost list: seq<nat>,
                     ghost shape: Shape, ghost span: nat, ghost names: nat)
    returns (r: Result<()>, ghost now: seq<nat>)
    requires v.Valid() && v.HasBlocks(inum, list) && OnDisk(v.fs.device, list, was, code, v.blockSize)
    requires DirectoryIndex.ChangedSo(was, blocks, how) && forall k :: 0 <= k < |blocks| ==> |code(blocks[k])| == v.blockSize
    requires shape.Valid() && shape.blockSize == v.blockSize && |blocks| <= Spread(span, names)
    modifies v`inodes, v.alloc`blockCache, v.alloc`dirtyBlock, v.fs`descs, v.fs`freeBlocks, v.fs`device, v.fs`log
    ensures r.Ok? ==> v.Valid() && v.HasBlocks(inum, now) && OnDisk(v.fs.device, now, blocks, code, v.blockSize)
    ensures r.Ok? ==> Alone(old(v.Now()), v.Now(), old(v.inodes), v.inodes, inum, v.blockSize)
    ensures r.Err? ==> r.error == NoSpace || r.error == Unsupported
    ensures Answers(old(v.Now()), v.Now(), old(v.inodes)[inum].usesExtents, shape, span, names, r.Ok?, |now|)
  {
    hide Written, VolumeOk, State.Valid, DataIs, BlockBytes, OnDisk, Ample, Paid, Spread, Answers, Alone, DirectoryIndex.ChangedSo;
    ghost var s, ext, n := v.Now(), v.inodes[inum].usesExtents, |blocks|;
    r, now := WriteChange(v, inum, blocks, how, code, was, list);
    if r.Err? {
      WantAnswers(s, v.Now(), ext, shape, span, names, |list|, n, false, |now|);
      return;
    }
    WrittenIs(s, v.Now(), old(v.inodes), v.inodes, inum, v.blockSize, now, blocks, code);
    if how.Edited? || Ample(s.freeBlocks, ext, shape.blockSize, |list|, n) {
      ChangeAnswers(s, v.Now(), ext, shape, span, names, |list|, n, how);
    } else {
      WantAnswers(s, v.Now(), ext, shape, span, names, |list|, n, true, |now|);
    }
  }

  /**
   Add a name to a directory on the device: the block it went in is written back,
   or one more is added, or all are laid out anew. It fails only as the directory
   in memory does or for want of blocks; and with blocks and names enough for one
   more, it does not, and takes no more than so many.
   */
  method LinkOnDisk(v: Volume, inum: nat, d: DirectoryIndex.Directory, code: DirBlk -> Bytes, name: Bytes, target: nat, fileType: byte, ghost list: seq<nat>, ghost span: nat)
    returns (r: Result<()>, ghost now: seq<nat>)
    requires DirOn(v, inum, d, code, list) && |list| <= span
    requires 0 < target < U32_LIMIT && name != DirEntries.DOT && name != DirEntries.DOTDOT && NoneNamed(d.Entries(), name)
    modifies d, v`inodes, v.alloc`blockCache, v.alloc`dirtyBlock, v.fs`descs, v.fs`freeBlocks, v.fs`device, v.fs`log
    ensures d.Valid()
    ensures r.Ok? ==> v.Valid() && v.HasBlocks(inum, now) && OnDisk(v.fs.device, now, d.blocks, code, v.blockSize)
    ensures r.Ok? ==> Alone(old(v.Now()), v.Now(), old(v.inodes), v.inodes, inum, v.blockSize)
    ensures r.Ok? ==> Gained(old(d.blocks), d.blocks, d.shape, DirBlock.Entry(name, target, fileType))
    ensures r.Err? ==> r.error == InvalidName || r.error == NoSpace || r.error == Unsupported
    ensures r == Err(InvalidName) <==> !DirectoryIndex.NameOk(name)
    ensures DirectoryIndex.NameOk(name) ==>
              Answers(old(v.Now()), v.Now(), old(v.inodes)[inum].usesExtents, d.shape, span, |old(d.Entries())|, r.Ok?, |now|)
    ensures (!d.indexing ==> d.indexed == old(d.indexed)) && (old(d.indexed) ==> d.indexed)
  {
    hide Written, VolumeOk, State.Valid, DataIs, BlockBytes, OnDisk, DirectoryIndex.Sound, Directories.Contents, Gained, Ample, Paid, Spread, Answers, FreshDirectory.MostNames;
    hide NoneNamed, DirectoryIndex.NameOk, Coded, Alone, DirectoryIndex.ChangedSo;
    DirOnIs(v, inum, d, code, list);
    ghost var s, names, was := v.Now(), |d.Entries()|, d.blocks;
    now := list;
    OnDiskLength(v.fs.device, list, was, code, v.blockSize);
    var how;
    r, how := LinkInMemory(d, code, name, target, fileType, span);
    if r.Err? {
      if r.error == Unsupported {
        ManyAnswers(s, s, v.inodes[inum].usesExtents, d.shape, span, names, |now|);
      }
      return;
    }
    r, now := WriteLinked(v, inum, d.blocks, how, code, was, list, d.shape, span, names);
  }

  lemma {:induction false} WrittenIs(s: State, t: State, table: Table, table': Table, inum: nat, bs: nat, now: seq<nat>, blocks: seq<DirBlk>, code: DirBlk -> Bytes)
    requires Written(s, t, table, table', inum, bs, now, blocks, code)
    ensures VolumeOk(t, table', bs) && Alone(s, t, table, table', inum, bs) && inum in table' && DataIs(t.device, table'[inum].map_, bs / 4, now)
    ensures OnDisk(t.device, now, blocks, code, bs) && |now| == |blocks|
  {
    hide VolumeOk, DataIs, Ownership.Kept;
  }

  /**
   Lay a directory's index out anew on the device: it fails where the index is too
   large or its blocks are not there, and not where there is a place for one name
   more.
   */
  method RebuildOnDisk(v: Volume, inum: nat, d: DirectoryIndex.Directory, code: DirBlk -> Bytes, ghost list: seq<nat>, ghost span: nat)
    returns (r: Result<()>, ghost now: seq<nat>)
    requires DirOn(v, inum, d, code, list) && |list| <= span
    modifies d, v`inodes, v.alloc`blockCache, v.alloc`dirtyBlock, v.fs`descs, v.fs`freeBlocks, v.fs`device, v.fs`log
    ensures d.Valid() && d.Entries() == old(d.Entries())
    ensures r.Ok? ==> v.Valid() && v.HasBlocks(inum, now) && OnDisk(v.fs.device, now, d.blocks, code, v.blockSize) && d.indexed
    ensures r.Ok? ==> Alone(old(v.Now()), v.Now(), old(v.inodes), v.inodes, inum, v.blockSize)
    ensures r.Err? ==> r.error == NoSpace || r.error == Unsupported
    ensures DirectoryIndex.TooLarge(old(d.Entries()), d.shape, d.hash, d.minor) ==> r == Err(Unsupported)
    ensures r.Err? && !DirectoryIndex.TooLarge(old(d.Entries()), d.shape, d.hash, d.minor) ==> !Ample(old(v.fs.freeBlocks), old(v.inodes)[inum].usesExtents, v.blockSize, |list|, |d.blocks|)
    ensures Answers(old(v.Now()), v.Now(), old(v.inodes)[inum].usesExtents, d.shape, span, |old(d.Entries())|, r.Ok?, |now|)
  {
    hide Written, VolumeOk, State.Valid, DataIs, BlockBytes, OnDisk, DirectoryIndex.Sound, Directories.Contents, ParentOf, All, Undotted, Ample, Spent, Alone;
    hide DirectoryIndex.TooLarge, DirectoryIndex.FreshIndex, DirectoryIndex.PlannedFor, NoneNamed, Coded, Treed, Homed, DirEntries.DistinctNames;
    hide Answers, FreshDirectory.MostNames;
    DirOnIs(v, inum, d, code, list);
    ghost var s, names, ext := v.Now(), |d.Entries()|, v.inodes[inum].usesExtents;
    now := list;
    r := d.Rebuild(None);
    if r.Err? {
      if names <= FreshDirectory.MostNames(d.shape) {
        FreshDirectory.FewFit(d.Entries(), d.shape, d.hash, d.minor);
      }
      ManyAnswers(s, s, ext, d.shape, span, names, |now|);
      return;
    }
    FreshDirectory.FreshBlocks(d.blocks, d.hashes, d.per, d.shape, d.hash, d.minor);
    BlockLong(d, code);
    r, now := WriteAnew(v, inum, d.blocks, code, list);
    if r.Ok? {
      WrittenIs(s, v.Now(), old(v.inodes), v.inodes, inum, v.blockSize, now, d.blocks, code);
    }
    RebuildAnswers(s, v.Now(), ext, d.shape, span, names, |list|, |d.blocks|, r.Ok?, |now|);
  }

  lemma {:induction false} RebuildAnswers(s: State, t: State, usesExtents: bool, shape: Shape, span: nat, names: nat, had: nat, n: nat, ok: bool, blocks: nat)
    requires shape.Valid() && n <= 2 + 2 * names && (ok ==> blocks == n)
    requires Ample(s.freeBlocks, usesExtents, shape.blockSize, had, n) ==> ok && Spent(s, t, usesExtents, shape.blockSize, had, n)
    ensures Answers(s, t, usesExtents, shape, span, names, ok, blocks)
  {
    assert n <= Spread(span, names);
    hide Ample, Spent, Answers, Spread;
    if Ample(s.freeBlocks, usesExtents, shape.blockSize, had, n) {
      ChangeAnswers(s, t, usesExtents, shape, span, names, had, n, DirectoryIndex.Relaid);
    } else {
      WantAnswers(s, t, usesExtents, shape, span, names, had, n, ok, blocks);
    }
  }

  /** Take a name out of a directory on the device: one block is written back, and no blocks are needed. */
  method UnlinkOnDisk(v: Volume, inum: nat, d: DirectoryIndex.Directory, code: DirBlk -> Bytes, name: Bytes, ghost list: seq<nat>) returns (r: Result<nat>)
    requires DirOn(v, inum, d, code, list) && name != DirEntries.DOT && name != DirEntries.DOTDOT
    modifies d`blocks, v.fs`device, v.fs`log
    ensures v.Valid() && v.HasBlocks(inum, list) && d.Valid() && OnDisk(v.fs.device, list, d.blocks, code, v.blockSize)
    ensures r.Ok? <==> DirectoryIndex.Seen(old(d.blocks), d.indexed, d.shape, d.hashes, d.per, d.hash(name), name)
    ensures r.Ok? ==> && Alone(old(v.Now()), v.Now(), v.inodes, v.inodes, inum, v.blockSize)
                      && exists e: DirBlock.Entry :: e.name == name && e.inode == r.value && Gained(d.blocks, old(d.blocks), d.shape, e)
    ensures r.Err? ==> r == Err(NotFound) && d.blocks == old(d.blocks) && v.Now() == old(v.Now())
    ensures r.Err? && DirectoryIndex.Findable(d.blocks, d.indexed, d.hashes, d.per) ==> NoneNamed(d.Entries(), name)
    ensures forall n: Bytes :: n != name ==>
              (DirectoryIndex.Seen(d.blocks, d.indexed, d.shape, d.hashes, d.per, d.hash(n), n)
               <==> DirectoryIndex.Seen(old(d.blocks), d.indexed, d.shape, d.hashes, d.per, d.hash(n), n))
  {
    hide Written, VolumeOk, State.Valid, DataIs, BlockBytes, OnDisk, DirectoryIndex.Sound, Directories.Contents, Gained, Alone;
    hide DirectoryIndex.Seen, DirectoryIndex.Findable, NoneNamed, Coded;
    DirOnIs(v, inum, d, code, list);
    ghost var s, was := v.Now(), d.blocks;
    OnDiskLength(v.fs.device, list, was, code, v.blockSize);
    var k;
    r, k := d.Unlink(name);
    if r.Ok? {
      BlockLong(d, code);
      WriteOne(v, inum, d.blocks, k, code, was, list);
      WrittenIs(s, v.Now(), v.inodes, v.inodes, inum, v.blockSize, list, d.blocks, code);
    }
  }

  /**
   Point a directory's ".." on the device at a new parent, by one block written
   back. It fails, and nothing is written, exactly where the directory is under an
   index and blocks end in a checksum.
   */
  method RepointOnDisk(v: Volume, inum: nat, d: DirectoryIndex.Directory, code: DirBlk -> Bytes, to: nat, ghost list: seq<nat>) returns (r: Result<Option<nat>>)
    requires DirOn(v, inum, d, code, list) && 0 < to < U32_LIMIT
    modifies d`blocks, v.fs`device, v.fs`log
    ensures v.Valid() && v.HasBlocks(inum, list) && d.Valid() && OnDisk(v.fs.device, list, d.blocks, code, v.blockSize)
    ensures d.Entries() == old(d.Entries())
    ensures r.Err? <==> d.indexed && d.shape.withTail
    ensures r.Err? ==> r == Err(Fs)
    ensures r.Ok? ==> ParentOf(All(d.blocks, d.shape), d.shape.self) == if r.value.Some? then to else d.shape.self
    ensures r.Ok? && r.value.Some? ==>
              var k := r.value.value;
              && Alone(old(v.Now()), v.Now(), v.inodes, v.inodes, inum, v.blockSize) && k < |list| == |old(d.blocks)| == |d.blocks|
              && DotDot.PointedAt(code(old(d.blocks)[k]), code(d.blocks[k]), d.shape, to)
    ensures r.Err? || r.value.None? ==> d.blocks == old(d.blocks) && v.Now() == old(v.Now())
    ensures forall n: Bytes :: n != DirEntries.DOT && n != DirEntries.DOTDOT ==>
              (DirectoryIndex.Seen(d.blocks, d.indexed, d.shape, d.hashes, d.per, d.hash(n), n)
               <==> DirectoryIndex.Seen(old(d.blocks), d.indexed, d.shape, d.hashes, d.per, d.hash(n), n))
  {
    hide Written, VolumeOk, State.Valid, DataIs, BlockBytes, OnDisk, DirectoryIndex.Sound, Directories.Contents, All, ParentOf, Alone;
    hide DirectoryIndex.Seen, Coded, DotDot.PointedAt;
    DirOnIs(v, inum, d, code, list);
    ghost var s, was := v.Now(), d.blocks;
    OnDiskLength(v.fs.device, list, was, code, v.blockSize);
    r := DotDot.Repoint(d, to, code);
    if r.Ok? && r.value.Some? {
      BlockLong(d, code);
      WriteOne(v, inum, d.blocks, r.value.value, code, was, list);
      WrittenIs(s, v.Now(), v.inodes, v.inodes, inum, v.blockSize, list, d.blocks, code);
    }
  }

  /** The bytes of the first block of a directory whose inode is this one. */
  function FirstBytes(shape: Shape, parent: nat, inum: nat): (b: Bytes)
    requires shape.Valid() && 0 < parent < U32_LIMIT
    ensures |b| == shape.blockSize
  {
    var mine := if 0 < inum < U32_LIMIT then shape.(self := inum) else shape;
    DirectoryIndex.DotsStorable(mine, parent);
    BlockOfLists(DirEntries.DotEntries(mine.self, parent, mine.dirType), mine);
    var first := DirectoryIndex.FirstBlock(mine, parent);
    first.bytes
  }

  /** Make a directory on the device: a new inode, whose one block holds the two dots. */
  method NewOnDisk(v: Volume, near: nat, usesExtents: bool, shape: Shape, indexing: bool, hash: Bytes -> nat, minor: Bytes -> nat, parent: nat, ghost code: nat -> DirBlk -> Bytes)
    returns (r: Result<nat>, d: DirectoryIndex.Directory, ghost list: seq<nat>)
    requires v.Valid() && shape.Valid() && shape.blockSize == v.blockSize && v.fs.geo.inodesCount < U32_LIMIT
    requires forall i: nat :: 0 < i < U32_LIMIT ==> Coded(code(i), shape.(self := i))
    requires DirectoryIndex.EvenHashes(hash) && 0 < parent < U32_LIMIT && (usesExtents || v.fs.geo.blocksCount <= U32_LIMIT)
    modifies v`inodes, v.alloc`inodeCache, v.alloc`dirtyInode, v.alloc`dirs, v.alloc`blockCache, v.alloc`dirtyBlock
    modifies v.fs`descs, v.fs`freeInodes, v.fs`freeBlocks, v.fs`device, v.fs`log
    ensures fresh(d) && d.Valid() && d.Entries() == {} && !d.indexed && d.shape == shape.(self := d.shape.self)
    ensures ParentOf(All(d.blocks, d.shape), d.shape.self) == parent
    ensures r.Ok? ==> DirOn(v, r.value, d, code(r.value), list) && |list| == 1 && d.shape.self == r.value
    ensures r.Ok? ==> r.value !in old(v.inodes) && Beside(old(v.Now()), v.Now(), old(v.inodes), v.inodes, r.value, v.blockSize)
                      && v.inodes[r.value].usesExtents == usesExtents && old(v.fs.freeBlocks) <= v.fs.freeBlocks + 1
    ensures r.Ok? <==> InodeLeft(old(v.Now())) && 0 < old(v.Now()).freeBlocks
    ensures r.Err? ==> r.error == if InodeLeft(old(v.Now())) then NoSpace else NoInodes
  {
    hide VolumeOk, State.Valid, AddedOne, BlockBytes, DirectoryIndex.Sound, Directories.Contents, Coded, InodeLeft, DirectoryIndex.EvenHashes, DirectoryIndex.Findable, ParentOf, All, DataIs, Beside, OnDisk;
    ghost var s, table := v.Now(), v.inodes;
    ghost var block;
    r, block := MakeDirectory(v, near, usesExtents, i => FirstBytes(shape, parent, i));
    list := [block];
    var mine := if r.Ok? then shape.(self := r.value) else shape;
    d := new DirectoryIndex.Directory(mine, indexing, hash, minor, parent);
    if r.Ok? {
      FirstCoded(mine, parent, code(r.value));
      MadeOnDisk(s, v.Now(), table, v.inodes, r.value, v.blockSize, block, d.blocks[0], code(r.value));
    }
  }

  lemma {:induction false} FirstCoded(shape: Shape, parent: nat, code: DirBlk -> Bytes)
    requires shape.Valid() && 0 < parent < U32_LIMIT && Coded(code, shape)
    ensures var first := DirectoryIndex.FirstBlock(shape, parent);
            first.Plain? && code(first) == first.bytes && |first.bytes| == shape.blockSize
  {
    hide RootDots;
    DirectoryIndex.DotsStorable(shape, parent);
    BlockOfLists(DirEntries.DotEntries(shape.self, parent, shape.dirType), shape);
    var first := DirectoryIndex.FirstBlock(shape, parent);
    assert first == Plain(first.bytes);
  }

  lemma {:induction false} MadeOnDisk(s: State, t: State, table: Table, table': Table, inum: nat, bs: nat, block: nat, first: DirBlk, code: DirBlk -> Bytes)
    requires AddedOne(s, t, table, table', inum, bs, true, bs, block, code(first)) && |code(first)| == bs
    ensures inum in table' && DataIs(t.device, table'[inum].map_, bs / 4, [block]) && OnDisk(t.device, [block], [first], code, bs)
    ensures inum !in table && Beside(s, t, table, table', inum, bs)
  {
    hide State.Valid, State.UsedBlocks, BlocksOf, DataIs, Ownership.Kept, HoldsFull, BlockBytes;
    OneHeld(t.device, block, code(first), bs);
  }

  /** Whatever is done to one directory, another on the device stays as it is. */
  lemma {:induction false} OtherOnDisk(s: State, t: State, table: Table, table': Table, inum: nat, other: nat, bs: nat, list: seq<nat>, blocks: seq<DirBlk>, code: DirBlk -> Bytes)
    requires Beside(s, t, table, table', inum, bs) && other in table && other != inum
    requires DataIs(s.device, table[other].map_, bs / 4, list) && OnDisk(s.device, list, blocks, code, bs)
    ensures other in table' && table'[other] == table[other] && DataIs(t.device, table'[other].map_, bs / 4, list)
    ensures OnDisk(t.device, list, blocks, code, bs)
  {
    hide SameAt, BlockBytes;
    VolumeRuns.OthersKept(s, t, table, other, inum, bs / 4);
    BlocksAre(s.device, table[other], bs / 4, list);
    hide BlocksOf, BlockMap.WalkMap;
    forall j | 0 <= j < |list| ensures BlockBytes(t.device, list[j], bs) == code(blocks[j]) {
      assert BlocksOf(s.device, table[other], bs / 4)[j] == list[j];
      assert list[j] in Owned(s.device, table[other], bs / 4);
      SameBytes(s.device, t.device, list[j], bs);
    }
  }

  // ---- runs of operations on the device ----

  /** What the callers of an operation see to. */
  predicate Proper(op: DirectoryIndex.Op, m: map<Bytes, DirBlock.Entry>) {
    && (op.Reindex? || (op.name != DirEntries.DOT && op.name != DirEntries.DOTDOT))
    && (op.Add? ==> 0 < op.target < U32_LIMIT && op.name !in m)
  }

  /** What an operation leaves of the free blocks and the spread that are counted on. */
  function After(layout: Layout, free: nat, span: nat, names: nat, op: DirectoryIndex.Op): (nat, nat) {
    var wide := Spread(span, names);
    if op.Drop? then (free, span) else (if layout.takes(wide) <= free then free - layout.takes(wide) else 0, wide)
  }

  /**
   An operation that goes through, with so many blocks free and a directory of at
   most so many: a place for what is put in or laid out anew, a search that finds
   what is taken out, as it does in every list.
   */
  predicate GoesThrough(layout: Layout, free: nat, span: nat, m: map<Bytes, DirBlock.Entry>, op: DirectoryIndex.Op, list: bool) {
    match op
    case Add(name, _, _) => DirectoryIndex.NameOk(name) && RoomIn(layout, free, span, |m|)
    case Drop(name) => list && name in m
    case Reindex => !list && RoomIn(layout, free, span, |m|)
  }

  /** Every one of a run of operations does, in turn. */
  predicate AllGoThrough(layout: Layout, free: nat, span: nat, m: map<Bytes, DirBlock.Entry>, ops: seq<DirectoryIndex.Op>, list: bool)
    decreases |ops|
  {
    ops == [] ||
    (GoesThrough(layout, free, span, m, ops[0], list) &&
     var (left, wide) := After(layout, free, span, |m|, ops[0]);
     AllGoThrough(layout, left, wide, DirectoryIndex.Apply(m, ops[0]), ops[1..], list))
  }

  lemma {:induction false} AgreesCount(entries: set<DirBlock.Entry>, m: map<Bytes, DirBlock.Entry>)
    requires DirectoryIndex.Agrees(entries, m)
    ensures |entries| == |m|
    decreases |m|
  {
    if m == map[] {
      assert entries == {};
    } else {
      var n :| n in m;
      var e, rest := m[n], m - {n};
      AgreesCount(entries - {e}, rest);
      assert rest.Keys == m.Keys - {n};
    }
  }

  /** Where a directory stands among the blocks that are free: at least so many of those, at most so many of its own. */
  ghost predicate StandsSo(v: Volume, inum: nat, list: seq<nat>, usesExtents: bool, free: nat, span: nat)
    reads v, v.fs
  {
    inum in v.inodes && v.inodes[inum].usesExtents == usesExtents && free <= v.fs.freeBlocks && |list| <= span
  }

  /** The blocks of an inode hold what a plain map would. */
  ghost predicate HoldsMap(v: Volume, inum: nat, d: DirectoryIndex.Directory, code: DirBlk -> Bytes, m: map<Bytes, DirBlock.Entry>, list: seq<nat>)
    reads v, v.fs, v.alloc, d
  {
    DirOn(v, inum, d, code, list) && DirectoryIndex.Agrees(d.Entries(), m)
  }

  /** An operation that goes through by what is counted on succeeds, and leaves as much as is counted on. */
  ghost predicate AsCounted(v: Volume, inum: nat, usesExtents: bool, shape: Shape, op: DirectoryIndex.Op, m: map<Bytes, DirBlock.Entry>, ok: bool, now: seq<nat>,
                            free: nat, span: nat, list: bool)
    requires shape.Valid()
    reads v, v.fs
  {
    GoesThrough(LayoutOf(usesExtents, shape), free, span, m, op, list) ==>
      ok && var (left, wide) := After(LayoutOf(usesExtents, shape), free, span, |m|, op);
            StandsSo(v, inum, now, usesExtents, left, wide)
  }

  /** Add a name on the device. */
  method AddOnDisk(v: Volume, inum: nat, d: DirectoryIndex.Directory, code: DirBlk -> Bytes, op: DirectoryIndex.Op, ghost m: map<Bytes, DirBlock.Entry>,
                   ghost list: seq<nat>, ghost free: nat, ghost span: nat, ghost listed: bool)
    returns (ok: bool, ghost now: seq<nat>)
    requires HoldsMap(v, inum, d, code, m, list) && Proper(op, m) && op.Add? && StandsSo(v, inum, list, v.inodes[inum].usesExtents, free, span)
    modifies d, v`inodes, v.alloc`blockCache, v.alloc`dirtyBlock, v.fs`descs, v.fs`freeBlocks, v.fs`device, v.fs`log
    ensures d.shape.Valid()
    ensures ok ==> HoldsMap(v, inum, d, code, DirectoryIndex.Apply(m, op), now) && Alone(old(v.Now()), v.Now(), old(v.inodes), v.inodes, inum, v.blockSize)
    ensures !d.indexing ==> d.indexed == old(d.indexed)
    ensures AsCounted(v, inum, old(v.inodes)[inum].usesExtents, d.shape, op, m, ok, now, free, span, listed)
  {
    hide VolumeOk, State.Valid, DataIs, BlockBytes, OnDisk, DirectoryIndex.Sound, Directories.Contents, ParentOf, All, NoneNamed, Answers, Alone, Coded;
    hide DirectoryIndex.Agrees, DirectoryIndex.NameOk, RoomIn, LayoutOf, After, DirBlock.RecLen;
    HoldsIs(v, inum, d, code, m, list);
    ghost var s, table, was := v.Now(), v.inodes, d.Entries();
    AgreesCount(was, m);
    DirectoryIndex.Absent(was, m, op.name);
    var r;
    r, now := LinkOnDisk(v, inum, d, code, op.name, op.target, op.fileType, list, span);
    ok := r.Ok?;
    if ok {
      DirectoryIndex.AgreesAdd(was, d.Entries(), m, DirBlock.Entry(op.name, op.target, op.fileType));
      AloneExtents(s, v.Now(), table, v.inodes, inum, v.blockSize);
    }
    if DirectoryIndex.NameOk(op.name) {
      AnswersLeave(s, v.Now(), table[inum].usesExtents, d.shape, span, |m|, ok, |now|, free, op);
    }
  }

  /** Take one out. */
  method DropOnDisk(v: Volume, inum: nat, d: DirectoryIndex.Directory, code: DirBlk -> Bytes, op: DirectoryIndex.Op, ghost m: map<Bytes, DirBlock.Entry>,
                    ghost list: seq<nat>, ghost free: nat, ghost span: nat, ghost listed: bool)
    returns (ok: bool)
    requires HoldsMap(v, inum, d, code, m, list) && Proper(op, m) && op.Drop? && StandsSo(v, inum, list, v.inodes[inum].usesExtents, free, span)
    requires listed ==> !d.indexed
    modifies d`blocks, v.fs`device, v.fs`log
    ensures d.shape.Valid()
    ensures ok ==> HoldsMap(v, inum, d, code, DirectoryIndex.Apply(m, op), list) && Alone(old(v.Now()), v.Now(), old(v.inodes), v.inodes, inum, v.blockSize)
    ensures AsCounted(v, inum, old(v.inodes)[inum].usesExtents, d.shape, op, m, ok, list, free, span, listed)
  {
    hide VolumeOk, State.Valid, DataIs, BlockBytes, OnDisk, DirectoryIndex.Sound, Directories.Contents, ParentOf, All, NoneNamed, Alone, Coded;
    hide DirectoryIndex.Agrees, DirectoryIndex.NameOk, DirectoryIndex.Seen, DirectoryIndex.Findable, RoomIn, LayoutOf, Gained;
    HoldsIs(v, inum, d, code, m, list);
    ghost var was, blocks := d.Entries(), d.blocks;
    DirectoryIndex.Absent(was, m, op.name);
    var r := UnlinkOnDisk(v, inum, d, code, op.name, list);
    ok := r.Ok?;
    if ok {
      ghost var e: DirBlock.Entry :| e.name == op.name && e.inode == r.value && Gained(d.blocks, blocks, d.shape, e);
      DropAgrees(blocks, d.blocks, d.shape, m, e);
    } else if listed {
      ListFindable(d.blocks, d.hashes, d.per);
    }
  }

  lemma {:induction false} ListFindable(blocks: seq<DirBlk>, hashes: seq<nat>, per: nat)
    ensures DirectoryIndex.Findable(blocks, false, hashes, per)
  {
  }

  lemma {:induction false} DropAgrees(was: seq<DirBlk>, now: seq<DirBlk>, shape: Shape, m: map<Bytes, DirBlock.Entry>, e: DirBlock.Entry)
    requires shape.Valid() && DirectoryIndex.Agrees(Directories.Contents(was, shape), m) && Gained(now, was, shape, e)
    ensures DirectoryIndex.Agrees(Directories.Contents(now, shape), m - {e.name})
  {
    hide DirectoryIndex.Agrees, Directories.Contents, ParentOf;
    DirectoryIndex.AgreesDrop(Directories.Contents(was, shape), Directories.Contents(now, shape), m, e);
  }

  /** Lay the index out anew. */
  method ReindexOnDisk(v: Volume, inum: nat, d: DirectoryIndex.Directory, code: DirBlk -> Bytes, op: DirectoryIndex.Op, ghost m: map<Bytes, DirBlock.Entry>,
                       ghost list: seq<nat>, ghost free: nat, ghost span: nat, ghost listed: bool)
    returns (ok: bool, ghost now: seq<nat>)
    requires HoldsMap(v, inum, d, code, m, list) && op.Reindex? && StandsSo(v, inum, list, v.inodes[inum].usesExtents, free, span)
    modifies d, v`inodes, v.alloc`blockCache, v.alloc`dirtyBlock, v.fs`descs, v.fs`freeBlocks, v.fs`device, v.fs`log
    ensures d.shape.Valid()
    ensures ok ==> HoldsMap(v, inum, d, code, m, now) && d.indexed && Alone(old(v.Now()), v.Now(), old(v.inodes), v.inodes, inum, v.blockSize)
    ensures AsCounted(v, inum, old(v.inodes)[inum].usesExtents, d.shape, op, m, ok, now, free, span, listed)
  {
    hide VolumeOk, State.Valid, DataIs, BlockBytes, OnDisk, DirectoryIndex.Sound, Directories.Contents, ParentOf, All, NoneNamed, Answers, Alone, Coded, Ample;
    hide DirectoryIndex.Agrees, DirectoryIndex.TooLarge, RoomIn, LayoutOf, After;
    HoldsIs(v, inum, d, code, m, list);
    ghost var s, table := v.Now(), v.inodes;
    AgreesCount(d.Entries(), m);
    var r;
    r, now := RebuildOnDisk(v, inum, d, code, list, span);
    ok := r.Ok?;
    if ok {
      AloneExtents(s, v.Now(), table, v.inodes, inum, v.blockSize);
    }
    AnswersLeave(s, v.Now(), table[inum].usesExtents, d.shape, span, |m|, ok, |now|, free, op);
  }

  /** One operation on a directory of the device. */
  method DoOnDisk(v: Volume, inum: nat, d: DirectoryIndex.Directory, code: DirBlk -> Bytes, op: DirectoryIndex.Op, ghost m: map<Bytes, DirBlock.Entry>,
                  ghost list: seq<nat>, ghost free: nat, ghost span: nat, ghost listed: bool)
    returns (ok: bool, ghost now: seq<nat>)
    requires HoldsMap(v, inum, d, code, m, list) && Proper(op, m) && StandsSo(v, inum, list, v.inodes[inum].usesExtents, free, span)
    requires listed <==> !d.indexing && !d.indexed
    modifies d, v`inodes, v.alloc`blockCache, v.alloc`dirtyBlock, v.fs`descs, v.fs`freeBlocks, v.fs`device, v.fs`log
    ensures d.shape.Valid()
    ensures ok ==> HoldsMap(v, inum, d, code, DirectoryIndex.Apply(m, op), now) && Alone(old(v.Now()), v.Now(), old(v.inodes), v.inodes, inum, v.blockSize)
    ensures GoesThrough(LayoutOf(old(v.inodes)[inum].usesExtents, d.shape), free, span, m, op, listed) ==> (listed <==> !d.indexing && !d.indexed)
    ensures AsCounted(v, inum, old(v.inodes)[inum].usesExtents, d.shape, op, m, ok, now, free, span, listed)
  {
    hide HoldsMap, RoomIn, LayoutOf, After, DirectoryIndex.NameOk, StandsSo, Alone;
    now := list;
    match op {
      case Add(_, _, _) => ok, now := AddOnDisk(v, inum, d, code, op, m, list, free, span, listed);
      case Drop(_) => ok := DropOnDisk(v, inum, d, code, op, m, list, free, span, listed);
      case Reindex => ok, now := ReindexOnDisk(v, inum, d, code, op, m, list, free, span, listed);
    }
  }

  lemma {:induction false} AloneBeside(s: State, t: State, table: Table, table': Table, inum: nat, bs: nat)
    requires Alone(s, t, table, table', inum, bs)
    ensures Beside(s, t, table, table', inum, bs)
  {
  }

  lemma {:induction false} AloneExtents(s: State, t: State, table: Table, table': Table, inum: nat, bs: nat)
    requires Alone(s, t, table, table', inum, bs)
    ensures inum in table && inum in table' && table'[inum].usesExtents == table[inum].usesExtents
  {
    hide Ownership.Kept;
  }

  lemma {:induction false} OneMoreApplied(m: map<Bytes, DirBlock.Entry>, ops: seq<DirectoryIndex.Op>, i: nat)
    requires i < |ops|
    ensures DirectoryIndex.ApplyAll(m, ops[..i + 1]) == DirectoryIndex.Apply(DirectoryIndex.ApplyAll(m, ops[..i]), ops[i])
    ensures DirectoryIndex.Asked(m, ops) ==> Proper(ops[i], DirectoryIndex.ApplyAll(m, ops[..i]))
    ensures ops[i..][0] == ops[i] && ops[i..][1..] == ops[i + 1..]
  {
    assert ops[..i + 1][..i] == ops[..i];
  }

  lemma {:induction false} NoneApplied(m: map<Bytes, DirBlock.Entry>, ops: seq<DirectoryIndex.Op>)
    ensures DirectoryIndex.ApplyAll(m, ops[..0]) == m && ops[0..] == ops
  {
  }

  lemma {:induction false} AloneSame(s: State, table: Table, inum: nat, bs: nat)
    requires inum in table
    ensures Alone(s, s, table, table, inum, bs)
  {
    assert table[inum := table[inum]] == table;
  }

  lemma {:induction false} AloneTrans(s: State, t: State, u: State, a: Table, b: Table, c: Table, inum: nat, bs: nat)
    requires Alone(s, t, a, b, inum, bs) && Alone(t, u, b, c, inum, bs)
    ensures Alone(s, u, a, c, inum, bs)
  {
    hide SameAt, BlocksOf, Owned;
    forall i, x | i in a && i != inum && x in Owned(s.device, a[i], bs / 4) ensures SameAt(s.device, u.device, x) {
      VolumeRuns.OthersKept(s, t, a, i, inum, bs / 4);
      OwnedIs(s.device, t.device, a[i], bs / 4);
      assert x in Owned(t.device, b[i], bs / 4);
      SameAtTrans(s.device, t.device, u.device, x);
    }
  }

  lemma {:induction false} OwnedIs(a: Device, b: Device, i: Inode, p: nat)
    requires BlocksOf(b, i, p) == BlocksOf(a, i, p)
    ensures Owned(b, i, p) == Owned(a, i, p)
  {
    hide BlocksOf;
  }

  lemma {:induction false} AnswersLeave(s: State, t: State, usesExtents: bool, shape: Shape, span: nat, names: nat, ok: bool, blocks: nat, free: nat, op: DirectoryIndex.Op)
    requires shape.Valid() && Answers(s, t, usesExtents, shape, span, names, ok, blocks) && free <= s.freeBlocks && !op.Drop?
    ensures RoomIn(LayoutOf(usesExtents, shape), free, span, names) ==>
              && ok
              && var (left, wide) := After(LayoutOf(usesExtents, shape), free, span, names, op);
                 left <= t.freeBlocks && blocks <= wide
  {
    hide LayoutOf, Spread;
  }

  /** Where a run stands that goes through by what is counted on. */
  ghost predicate Counted(v: Volume, inum: nat, d: DirectoryIndex.Directory, m: map<Bytes, DirBlock.Entry>, ops: seq<DirectoryIndex.Op>, now: seq<nat>,
                          usesExtents: bool, free: nat, span: nat, listed: bool)
    reads v, v.fs, d
  {
    && d.shape.Valid() && StandsSo(v, inum, now, usesExtents, free, span) && (listed <==> !d.indexing && !d.indexed)
    && AllGoThrough(LayoutOf(usesExtents, d.shape), free, span, m, ops, listed)
  }

  /** The next operation of a run. */
  method NextOnDisk(v: Volume, inum: nat, d: DirectoryIndex.Directory, code: DirBlk -> Bytes, ops: seq<DirectoryIndex.Op>, ghost m: map<Bytes, DirBlock.Entry>,
                    ghost list: seq<nat>, ghost sure: bool, ghost usesExtents: bool, ghost free: nat, ghost span: nat, ghost listed: bool)
    returns (ok: bool, ghost now: seq<nat>, ghost left: nat, ghost wide: nat)
    requires ops != [] && HoldsMap(v, inum, d, code, m, list) && Proper(ops[0], m)
    requires sure ==> Counted(v, inum, d, m, ops, list, usesExtents, free, span, listed)
    modifies d, v`inodes, v.alloc`blockCache, v.alloc`dirtyBlock, v.fs`descs, v.fs`freeBlocks, v.fs`device, v.fs`log
    ensures ok ==> HoldsMap(v, inum, d, code, DirectoryIndex.Apply(m, ops[0]), now) && Alone(old(v.Now()), v.Now(), old(v.inodes), v.inodes, inum, v.blockSize)
    ensures sure ==> ok && Counted(v, inum, d, DirectoryIndex.Apply(m, ops[0]), ops[1..], now, usesExtents, left, wide, listed)
  {
    HoldsIs(v, inum, d, code, m, list);
    hide HoldsMap, GoesThrough, After, LayoutOf, Alone, DirectoryIndex.Apply;
    left, wide := 0, |list|;
    if sure {
      left, wide := After(LayoutOf(usesExtents, d.shape), free, span, |m|, ops[0]).0, After(LayoutOf(usesExtents, d.shape), free, span, |m|, ops[0]).1;
    }
    ok, now := DoOnDisk(v, inum, d, code, ops[0], m, list, if sure then free else 0, if sure then span else |list|, !d.indexing && !d.indexed);
  }

  lemma {:induction false} HoldsIs(v: Volume, inum: nat, d: DirectoryIndex.Directory, code: DirBlk -> Bytes, m: map<Bytes, DirBlock.Entry>, list: seq<nat>)
    requires HoldsMap(v, inum, d, code, m, list)
    ensures inum in v.inodes && d.shape.Valid() && v.Valid() && DirOn(v, inum, d, code, list) && DirectoryIndex.Agrees(d.Entries(), m)
  {
    hide VolumeOk, OnDisk, DirectoryIndex.Agrees, Coded, DataIs;
  }

  /**
   After any run of additions, removals and rebuilds, the blocks its inode owns hold
   what a plain map would be, and no other inode has changed; and a run each of
   whose operations goes through by what is counted on does so whole.
   */
  method RunOnDisk(v: Volume, inum: nat, d: DirectoryIndex.Directory, code: DirBlk -> Bytes, ops: seq<DirectoryIndex.Op>, ghost m: map<Bytes, DirBlock.Entry>, ghost list: seq<nat>)
    returns (ok: bool, ghost now: seq<nat>)
    requires DirOn(v, inum, d, code, list) && DirectoryIndex.Agrees(d.Entries(), m) && DirectoryIndex.Asked(m, ops)
    modifies d, v`inodes, v.alloc`blockCache, v.alloc`dirtyBlock, v.fs`descs, v.fs`freeBlocks, v.fs`device, v.fs`log
    ensures d.shape.Valid()
    ensures ok ==> DirOn(v, inum, d, code, now) && DirectoryIndex.Agrees(d.Entries(), DirectoryIndex.ApplyAll(m, ops))
    ensures ok ==> Alone(old(v.Now()), v.Now(), old(v.inodes), v.inodes, inum, v.blockSize)
    ensures AllGoThrough(LayoutOf(old(v.inodes)[inum].usesExtents, d.shape), old(v.fs.freeBlocks), |list|, m, ops, !d.indexing && !old(d.indexed)) ==> ok
  {
    hide VolumeOk, OnDisk, DirectoryIndex.Agrees, Coded, DataIs, DirectoryIndex.Sound;
    assert HoldsMap(v, inum, d, code, m, list);
    HoldsIs(v, inum, d, code, m, list);
    ghost var s, table, ext, listed := v.Now(), v.inodes, v.inodes[inum].usesExtents, !d.indexing && !d.indexed;
    ghost var free: nat, span: nat := v.fs.freeBlocks, |list|;
    ghost var sure := AllGoThrough(LayoutOf(ext, d.shape), free, span, m, ops, listed);
    assert sure ==> Counted(v, inum, d, m, ops, list, ext, free, span, listed);
    hide HoldsMap, Counted, Alone, DirOn, Volume.Valid, DirectoryIndex.Directory.Valid, DirectoryIndex.Asked, DirectoryIndex.Apply, DirectoryIndex.ApplyAll, LayoutOf, AllGoThrough;
    now := list;
    AloneSame(s, table, inum, v.blockSize);
    NoneApplied(m, ops);
    for i := 0 to |ops|
      invariant HoldsMap(v, inum, d, code, DirectoryIndex.ApplyAll(m, ops[..i]), now)
      invariant Alone(s, v.Now(), table, v.inodes, inum, v.blockSize)
      invariant sure ==> Counted(v, inum, d, DirectoryIndex.ApplyAll(m, ops[..i]), ops[i..], now, ext, free, span, listed)
    {
      ghost var mid, was, n := v.Now(), v.inodes, DirectoryIndex.ApplyAll(m, ops[..i]);
      OneMoreApplied(m, ops, i);
      ok, now, free, span := NextOnDisk(v, inum, d, code, ops[i..], n, now, sure, ext, free, span, listed);
      if !ok {
        return;
      }
      AloneTrans(s, mid, v.Now(), table, was, v.inodes, inum, v.blockSize);
    }
    assert ops[..|ops|] == ops;
    HoldsIs(v, inum, d, code, DirectoryIndex.ApplyAll(m, ops), now);
    ok := true;
  }
}
