/**
 Runs of operations on a volume (README.md:83-87 of the repository): whatever is
 done, in whatever order, each block the bitmaps mark has its one owner, and
 which inodes record the right number of sectors is known exactly.
 */
module VolumeRuns {
  import opened Base
  import opened Disk
  import opened BlockWalk
  import opened Bitmaps
  import opened Allocation
  import opened Allocators
  import opened MapSpace
  import opened BlockMap
  import opened Ownership
  import opened FileContents
  import opened FileData
  import opened FileStream
  import opened IndirectMap
  import opened MapCost
  import opened Resolve
  import opened Lifecycle

  datatype Step =
    | Create(near: nat, usesExtents: bool)
    | MakeDir(near: nat, usesExtents: bool, content: Bytes)
    | MakeLink(near: nat, usesExtents: bool, target: Bytes)
    | Write(inum: nat, data: Bytes)
    | Stream(inum: nat, data: Bytes)
    | Append(inum: nat, content: Bytes)
    | Relay(inum: nat, blocks: seq<Bytes>)
    | Edit(inum: nat, index: nat, content: Bytes)
    | SetXattrs(inum: nat, fits: bool, attrs: Block)
    | Truncate(inum: nat)
    | Remove(inum: nat)

  // ---- what is known of each inode ----

  /**
   The inodes with an attribute block, those with blocks of data or of a map,
   those whose recorded sectors are one block short, and those with holes.
   */
  datatype Books = Books(marked: set<nat>, full: set<nat>, short: set<nat>, holed: set<nat>)

  /** The sectors an inode records are those of all the blocks it owns. */
  ghost predicate Tallied(dev: Device, i: Inode, bs: nat) {
    i.blocks == Sectors(|BlocksOf(dev, i, bs / 4)|, bs)
  }

  /** How many of an inode's blocks its recorded sectors are for, when they are one short or not. */
  function Told(blocks: nat, short: bool): nat {
    if short then SatSub(blocks, 1) else blocks
  }

  /** An inode is as the books have it. */
  ghost predicate Entered(dev: Device, i: Inode, bs: nat, marked: bool, full: bool, short: bool) {
    var n := |BlocksOf(dev, i, bs / 4)|;
    && (marked <==> i.fileAcl != 0) && (full <==> |AclBlock(i)| < n) && (short ==> 0 < n)
    && i.blocks == Sectors(Told(n, short), bs)
  }

  /** An inode's data is a list of blocks, without holes unless it is known to have some. */
  ghost predicate Charted(dev: Device, i: Inode, p: nat, holed: bool) {
    exists list: seq<nat> :: Lists(dev, i.map_, p, list) && (holed || HOLE !in list)
  }

  ghost predicate InBooks(dev: Device, i: Inode, bs: nat, b: Books, inum: nat) {
    Entered(dev, i, bs, inum in b.marked, inum in b.full, inum in b.short) && Charted(dev, i, bs / 4, inum in b.holed)
  }

  /** Every inode is as the books have it, and the books are of these inodes. */
  ghost predicate Booked(dev: Device, table: Table, bs: nat, b: Books) {
    && b.marked + b.full + b.short + b.holed <= table.Keys
    && forall i :: i in table ==> InBooks(dev, table[i], bs, b, i)
  }

  /** Everything agrees, every block has its owner, and the books are right. */
  ghost predicate Sound(s: State, table: Table, bs: nat, b: Books) {
    VolumeOk(s, table, bs) && Booked(s.device, table, bs, b)
  }

  /** The inodes that record the right number of sectors are those not in the books as short. */
  lemma {:induction false} TalliedExactly(dev: Device, table: Table, bs: nat, b: Books, inum: nat)
    requires Booked(dev, table, bs, b) && 512 <= bs && inum in table
    ensures Tallied(dev, table[inum], bs) <==> inum !in b.short
  {
    hide BlocksOf, Charted;
    assert InBooks(dev, table[inum], bs, b, inum);
    var n := |BlocksOf(dev, table[inum], bs / 4)|;
    if inum in b.short {
      CountOff(n, 1, bs);
    }
  }

  lemma {:induction false} CountOff(n: nat, a: nat, bs: nat)
    requires a <= n && 512 <= bs
    ensures Sectors(n - a, bs) == Sectors(n, bs) <==> a == 0
  {
    var k := bs / 512;
    assert 1 <= k;
    assert n * k == (n - a) * k + a * k;
    if a > 0 {
      MulMono(1, a, k);
    }
  }

  /** A set with an element or without it. */
  function Having(s: set<nat>, x: nat, has: bool): set<nat> {
    if has then s + {x} else s - {x}
  }

  /** What the books say after a step; `made` is the inode it made, if it made one. */
  function After(b: Books, step: Step, made: nat): Books {
    match step
    case Create(_, _) => b
    case MakeDir(_, _, _) => b.(full := b.full + {made})
    case MakeLink(_, _, _) => b.(full := b.full + {made})
    case Write(i, data) => b.(full := Having(b.full, i, data != []), short := Having(b.short, i, i in b.marked))
    case Stream(i, data) => b.(full := Having(b.full, i, data != []), short := Having(b.short, i, i in b.marked), holed := b.holed - {i})
    case Append(i, _) => b.(full := b.full + {i}, short := Having(b.short, i, i in b.marked))
    case Relay(i, blocks) => b.(full := Having(b.full, i, AllOf(blocks) != []), short := Having(b.short, i, i in b.marked))
    case Edit(_, _, _) => b
    case SetXattrs(i, fits, _) =>
      b.(marked := Having(b.marked, i, !fits), short := if fits && i in b.marked && i !in b.full then b.short - {i} else b.short)
    case Truncate(i) => b.(full := b.full - {i}, short := Having(b.short, i, i in b.marked), holed := b.holed - {i})
    case Remove(i) => Books(b.marked - {i}, b.full - {i}, b.short - {i}, b.holed - {i})
  }

  function AfterAll(b: Books, steps: seq<Step>, made: seq<nat>): Books
    requires |made| == |steps|
  {
    if steps == [] then b
    else
      var n := |steps| - 1;
      After(AfterAll(b, steps[..n], made[..n]), steps[n], made[n])
  }

  /** The steps that write to every block a file lists are not asked for where a file has holes. */
  predicate Allowed(holed: set<nat>, step: Step) {
    step.Write? || step.Append? || step.Relay? || step.Edit? ==> step.inum !in holed
  }

  /** Which inodes have holes after some steps. */
  function HoledAfter(holed: set<nat>, steps: seq<Step>): set<nat> {
    if steps == [] then holed
    else
      var n := |steps| - 1;
      var before := HoledAfter(holed, steps[..n]);
      if steps[n].Stream? || steps[n].Truncate? || steps[n].Remove? then before - {steps[n].inum} else before
  }

  ghost predicate AllAllowed(holed: set<nat>, steps: seq<Step>) {
    forall k :: 0 <= k < |steps| ==> Allowed(HoledAfter(holed, steps[..k]), steps[k])
  }

  lemma {:induction false} HoledIs(b: Books, steps: seq<Step>, made: seq<nat>)
    requires |made| == |steps|
    ensures AfterAll(b, steps, made).holed == HoledAfter(b.holed, steps)
  {
    if steps != [] {
      var n := |steps| - 1;
      HoledIs(b, steps[..n], made[..n]);
    }
  }

  /** The step puts the attributes of an inode in a block. */
  predicate Marks(step: Step) {
    step.SetXattrs? && !step.fits
  }

  /** Where no inode has an attribute block and none is given one, none ever comes to be short. */
  lemma {:induction false} NeverShort(b: Books, steps: seq<Step>, made: seq<nat>)
    requires |made| == |steps| && b.marked == {} && b.short == {} && forall k :: 0 <= k < |steps| ==> !Marks(steps[k])
    ensures AfterAll(b, steps, made).marked == {} && AfterAll(b, steps, made).short == {}
  {
    if steps != [] {
      var n := |steps| - 1;
      NeverShort(b, steps[..n], made[..n]);
      assert !Marks(steps[n]);
    }
  }

  // ---- one inode changed ----

  /** Other inodes keep their blocks when only one inode's blocks are written. */
  lemma {:induction false} OthersKept(s: State, t: State, table: Table, i: nat, inum: nat, p: nat)
    requires Kept(s, t, table, inum, p) && i in table && i != inum
    ensures BlocksOf(t.device, table[i], p) == BlocksOf(s.device, table[i], p)
    ensures WalkMap(t.device, table[i].map_, p) == WalkMap(s.device, table[i].map_, p)
  {
    hide WalkMap, DataOf, MetaOf, SameAt;
    assert forall x :: x in Owned(s.device, table[i], p) ==> SameAt(s.device, t.device, x);
    BlocksFrame(s.device, t.device, table[i], p);
    var w := WalkMap(s.device, table[i].map_, p);
    forall x | x in MetaOf(w) ensures SameAt(s.device, t.device, x) {
      InMiddle(Physicals(DataOf(w)), MetaOf(w), AclBlock(table[i]), x);
    }
    MapFrame(s.device, t.device, table[i].map_, p);
  }

  lemma {:induction false} OtherStays(s: State, t: State, table: Table, i: nat, inum: nat, bs: nat, b: Books, c: Books)
    requires Kept(s, t, table, inum, bs / 4) && i in table && i != inum && InBooks(s.device, table[i], bs, b, i)
    requires i in c.marked <==> i in b.marked
    requires (i in c.full <==> i in b.full) && (i in c.short <==> i in b.short) && (i in c.holed <==> i in b.holed)
    ensures InBooks(t.device, table[i], bs, c, i)
  {
    hide Kept, BlocksOf, WalkMap, Sectors, DataOf;
    OthersKept(s, t, table, i, inum, bs / 4);
    var list: seq<nat> :| Lists(s.device, table[i].map_, bs / 4, list) && (i in b.holed || HOLE !in list);
    assert Lists(t.device, table[i].map_, bs / 4, list);
  }

  /** The books differ only over one inode. */
  ghost predicate SameBut(b: Books, c: Books, inum: nat) {
    && b.marked - {inum} == c.marked - {inum} && b.full - {inum} == c.full - {inum}
    && b.short - {inum} == c.short - {inum} && b.holed - {inum} == c.holed - {inum}
  }

  lemma {:induction false} BooksOf(b: Books, c: Books, inum: nat, i: nat)
    requires SameBut(b, c, inum) && i != inum
    ensures (i in c.marked <==> i in b.marked) && (i in c.full <==> i in b.full)
    ensures (i in c.short <==> i in b.short) && (i in c.holed <==> i in b.holed)
  {
    assert i in b.marked <==> i in b.marked - {inum};
    assert i in c.marked <==> i in c.marked - {inum};
    assert i in b.full <==> i in b.full - {inum};
    assert i in c.full <==> i in c.full - {inum};
    assert i in b.short <==> i in b.short - {inum};
    assert i in c.short <==> i in c.short - {inum};
    assert i in b.holed <==> i in b.holed - {inum};
    assert i in c.holed <==> i in c.holed - {inum};
  }

  /** One inode changed, and the books with it: they are right of every inode still. */
  lemma {:induction false} Rebook(s: State, t: State, table: Table, table': Table, inum: nat, bs: nat, b: Books, c: Books)
    requires Sound(s, table, bs, b) && VolumeOk(t, table', bs)
    requires Kept(s, t, table, inum, bs / 4) && table' - {inum} == table - {inum} && SameBut(b, c, inum)
    requires if inum in table' then InBooks(t.device, table'[inum], bs, c, inum) else inum !in c.marked + c.full + c.short + c.holed
    ensures Sound(t, table', bs, c)
  {
    hide VolumeOk, Kept, InBooks, SameBut;
    forall i | i in table' ensures InBooks(t.device, table'[i], bs, c, i) {
      if i != inum {
        assert i in table' - {inum} && (table' - {inum})[i] == table'[i];
        assert i in table - {inum} && (table - {inum})[i] == table[i];
        BooksOf(b, c, inum, i);
        OtherStays(s, t, table, i, inum, bs, b, c);
      }
    }
    forall i | i in c.marked + c.full + c.short + c.holed ensures i in table' {
      if i != inum {
        BooksOf(b, c, inum, i);
        assert i in table && i in table - {inum};
      }
    }
  }

  lemma {:induction false} OnlyKey(a: Table, b: Table, inum: nat)
    requires inum in b && b == a[inum := b[inum]]
    ensures b - {inum} == a - {inum}
  {
  }

  /** The step makes an inode. */
  predicate Makes(step: Step) {
    step.Create? || step.MakeDir? || step.MakeLink?
  }

  lemma {:induction false} AfterBut(b: Books, step: Step, made: nat, inum: nat)
    requires if Makes(step) then inum == made else inum == step.inum
    ensures SameBut(b, After(b, step, made), inum)
  {
  }

  // ---- an inode's place in the books ----

  /** Blocks counted again without the attributes': short exactly when there are some. */
  lemma {:induction false} Recounted(dev: Device, i: Inode, bs: nat)
    requires var n := |BlocksOf(dev, i, bs / 4)|; |AclBlock(i)| <= n && i.blocks == Sectors(n - |AclBlock(i)|, bs)
    ensures Entered(dev, i, bs, i.fileAcl != 0, |AclBlock(i)| < |BlocksOf(dev, i, bs / 4)|, i.fileAcl != 0)
  {
    hide BlocksOf;
  }

  lemma {:induction false} NoneSkipped(list: seq<nat>, base: nat)
    requires HOLE !in list
    ensures |Listed(list, base)| == |list|
  {
    if list != [] {
      assert list[|list| - 1] in list;
      NoneSkipped(list[..|list| - 1], base);
    }
  }

  /** A file without holes has blocks of its own exactly when its list has. */
  lemma {:induction false} FullExactly(dev: Device, i: Inode, p: nat, list: seq<nat>)
    requires DataIs(dev, i.map_, p, list) && (list == [] ==> MetaOf(WalkMap(dev, i.map_, p)) == [])
    ensures |AclBlock(i)| < |BlocksOf(dev, i, p)| <==> list != []
  {
    hide WalkMap, DataOf, MetaOf;
    NoneSkipped(list, 0);
  }

  lemma {:induction false} ChartedBy(dev: Device, i: Inode, p: nat, list: seq<nat>, holed: bool)
    requires Lists(dev, i.map_, p, list) && (holed || HOLE !in list)
    ensures Charted(dev, i, p, holed)
  {
    hide Lists;
  }

  /** The list a file is charted by. */
  lemma {:induction false} Chart(dev: Device, table: Table, bs: nat, b: Books, inum: nat) returns (was: seq<nat>)
    requires Booked(dev, table, bs, b) && inum in table
    ensures Lists(dev, table[inum].map_, bs / 4, was) && (inum !in b.holed ==> HOLE !in was)
    ensures InBooks(dev, table[inum], bs, b, inum) && (inum in b.marked <==> table[inum].fileAcl != 0)
  {
    hide BlocksOf, Sectors, Lists;
    assert InBooks(dev, table[inum], bs, b, inum);
    was :| Lists(dev, table[inum].map_, bs / 4, was) && (inum in b.holed || HOLE !in was);
  }

  /** A file rewritten: short exactly when it has an attribute block. */
  lemma {:induction false} RewroteBooks(s: State, t: State, table: Table, table': Table, inum: nat, bs: nat, list: seq<nat>, data: Bytes)
    requires inum in table && 0 < bs && Rewrote(s, t, table, table', inum, bs, list, data)
    ensures inum in table' && Entered(t.device, table'[inum], bs, table[inum].fileAcl != 0, data != [], table[inum].fileAcl != 0)
    ensures Charted(t.device, table'[inum], bs / 4, false)
  {
    hide WalkMap, DataOf, MetaOf, BlocksOf, HoldsData, NoDup, Kept, Resolves;
    HoldsDataReads(t.device, list, data, bs);
    CeilNone(|data|, bs);
    FullExactly(t.device, table'[inum], bs / 4, list);
    Recounted(t.device, table'[inum], bs);
    ChartedBy(t.device, table'[inum], bs / 4, list, false);
  }

  lemma {:induction false} CeilNone(n: nat, bs: nat)
    requires 0 < bs
    ensures (n + bs - 1) / bs == 0 <==> n == 0
  {
    if n == 0 {
      DivModUnique(bs - 1, 0, bs - 1, bs);
    } else {
      MulMono(1, (n + bs - 1) / bs, bs);
      assert n + bs - 1 == (n + bs - 1) / bs * bs + (n + bs - 1) % bs;
    }
  }

  /** An inode with an empty map owns its attribute block and no more, and counts not even that. */
  lemma {:induction false} EmptyBooks(dev: Device, i: Inode, bs: nat)
    requires i.map_ == EmptyMap(i.usesExtents) && i.blocks == 0
    ensures Entered(dev, i, bs, i.fileAcl != 0, false, i.fileAcl != 0) && Charted(dev, i, bs / 4, false)
  {
    EmptiedOwns(dev, i, bs / 4);
    EmptyMapIs(dev, i.usesExtents, bs / 4);
    hide BlocksOf, EmptyMap;
    Recounted(dev, i, bs);
    ChartedBy(dev, i, bs / 4, [], false);
  }

  lemma {:induction false} AppendBooks(s: State, t: State, table: Table, table': Table, inum: nat, bs: nat, was: seq<nat>, b: nat, content: Bytes)
    requires 0 < bs && Appended(s, t, table, table', inum, bs, was, b, content)
    ensures Entered(t.device, table'[inum], bs, table[inum].fileAcl != 0, true, table[inum].fileAcl != 0)
    ensures Charted(t.device, table'[inum], bs / 4, false)
  {
    hide WalkMap, DataOf, MetaOf, BlocksOf, Kept, HoldsFull, SameAt, ListSize;
    FullExactly(t.device, table'[inum], bs / 4, was + [b]);
    Recounted(t.device, table'[inum], bs);
    ChartedBy(t.device, table'[inum], bs / 4, was + [b], false);
  }

  /** Attributes are counted as they come and go; a count one short stays so, but where nothing is left to count. */
  lemma {:induction false} XattrBooks(s: State, t: State, table: Table, table': Table, inum: nat, bs: nat, fits: bool, content: Block, full: bool, short: bool)
    requires 512 <= bs && Attributes(s, t, table, table', inum, bs, fits, content)
    requires Entered(s.device, table[inum], bs, table[inum].fileAcl != 0, full, short)
    ensures Entered(t.device, table'[inum], bs, !fits, full, short && !(fits && table[inum].fileAcl != 0 && !full))
  {
    hide Kept, WalkMap, DataOf, MetaOf;
    var w := WalkMap(s.device, table[inum].map_, bs / 4);
    var n := |Physicals(DataOf(w)) + MetaOf(w)|;
    assert |BlocksOf(s.device, table[inum], bs / 4)| == n + |AclBlock(table[inum])|;
    assert |BlocksOf(t.device, table'[inum], bs / 4)| == n + |AclBlock(table'[inum])|;
    SectorsStep(n, bs);
    if n > 0 {
      SectorsStep(n - 1, bs);
    }
    hide BlocksOf, Sectors;
  }

  lemma {:induction false} SectorsStep(n: nat, bs: nat)
    ensures Sectors(n + 1, bs) == Sectors(n, bs) + bs / 512 && Sectors(0, bs) == 0
  {
  }

  // ---- what a step needs ----

  /** How many blocks of data an inode lists. */
  function Had(dev: Device, i: Inode, p: nat): nat {
    |DataOf(WalkMap(dev, i.map_, p))|
  }

  /** The step asks for something that can be done, and inodes and blocks enough are free for it. */
  ghost predicate Enough(s: State, table: Table, bs: nat, step: Step)
    requires s.Valid() && 24 <= bs
  {
    match step
    case Create(_, ext) => (ext || s.geo.blocksCount <= U32_LIMIT) && InodeLeft(s)
    case MakeDir(_, ext, content) => |content| == bs && (ext || s.geo.blocksCount <= U32_LIMIT) && InodeLeft(s) && 0 < s.freeBlocks
    case MakeLink(_, ext, target) =>
      I_BLOCK_LEN <= |target| <= bs && (ext || s.geo.blocksCount <= U32_LIMIT) && InodeLeft(s) && 0 < s.freeBlocks
    case Write(i, data) =>
      i in table && Ample(s.freeBlocks, table[i].usesExtents, bs, Had(s.device, table[i], bs / 4), CeilDiv(|data|, bs))
    case Stream(i, data) => i in table && Ample(s.freeBlocks, table[i].usesExtents, bs, 0, CeilDiv(|data|, bs))
    case Append(i, content) =>
      var had := if i in table then Had(s.device, table[i], bs / 4) else 0;
      i in table && |content| == bs && Ample(s.freeBlocks, table[i].usesExtents, bs, had, had + 1)
    case Relay(i, blocks) =>
      && i in table && (forall k :: 0 <= k < |blocks| ==> |blocks[k]| == bs)
      && Ample(s.freeBlocks, table[i].usesExtents, bs, Had(s.device, table[i], bs / 4), |blocks|)
    case Edit(i, k, _) => i in table && k < Had(s.device, table[i], bs / 4)
    case SetXattrs(i, fits, _) => i in table && (fits || table[i].fileAcl != 0 || 0 < s.freeBlocks)
    case Truncate(i) => i in table
    case Remove(i) => i in table
  }

  /** The step writes a map afresh: what that takes depends on where its blocks lie. */
  predicate Remaps(step: Step) {
    step.Write? || step.Stream? || step.Append? || step.Relay?
  }

  lemma {:induction false} HadIs(dev: Device, i: Inode, p: nat, was: seq<nat>)
    requires Lists(dev, i.map_, p, was) && HOLE !in was
    ensures Had(dev, i, p) == |was|
  {
    hide WalkMap, DataOf, Listed;
    NoneSkipped(was, 0);
  }

  // ---- the steps ----

  method DoCreate(v: Volume, near: nat, usesExtents: bool, ghost b: Books) returns (ok: bool, made: nat)
    requires Sound(v.Now(), v.inodes, v.blockSize, b)
    modifies v`inodes, v.alloc`inodeCache, v.alloc`dirtyInode, v.alloc`dirs, v.fs`descs, v.fs`freeInodes
    ensures ok ==> Sound(v.Now(), v.inodes, v.blockSize, After(b, Create(near, usesExtents), made))
    ensures ok <==> Enough(old(v.Now()), old(v.inodes), v.blockSize, Create(near, usesExtents))
  {
    hide InodeLeft, State.Valid, VolumeOk, Kept, Entered, Charted, EmptyMap, State.UsedBlocks, State.UsedInodes, SameBut;
    ghost var s, table := v.Now(), v.inodes;
    VolumeParts(s, table, v.blockSize);
    made := 0;
    if !usesExtents && v.fs.geo.blocksCount > U32_LIMIT {
      return false, made;
    }
    var r := CreateInode(v, near, usesExtents);
    if r.Err? {
      return false, made;
    }
    made := r.value;
    KeptSame(s, v.Now(), table, made, v.blockSize / 4);
    EmptyBooks(v.fs.device, v.inodes[made], v.blockSize);
    OnlyKey(table, v.inodes, made);
    AfterBut(b, Create(near, usesExtents), made, made);
    assert made !in b.marked + b.full + b.short + b.holed;
    Rebook(s, v.Now(), table, v.inodes, made, v.blockSize, b, After(b, Create(near, usesExtents), made));
    ok := true;
  }

  lemma {:induction false} MadeOneBooks(dev: Device, i: Inode, bs: nat, isDir: bool, size: nat, block: nat, content: Bytes)
    requires MadeOne(dev, i, bs, isDir, size, block, content)
    ensures Entered(dev, i, bs, false, true, false) && Charted(dev, i, bs / 4, false)
  {
    hide WalkMap, DataOf, MetaOf, BlocksOf, HoldsFull, Sectors;
    FullExactly(dev, i, bs / 4, [block]);
    ChartedBy(dev, i, bs / 4, [block], false);
  }

  method DoMakeDir(v: Volume, near: nat, usesExtents: bool, content: Bytes, ghost b: Books) returns (ok: bool, made: nat)
    requires Sound(v.Now(), v.inodes, v.blockSize, b)
    modifies v`inodes, v.alloc`inodeCache, v.alloc`dirtyInode, v.alloc`dirs, v.alloc`blockCache, v.alloc`dirtyBlock
    modifies v.fs`descs, v.fs`freeInodes, v.fs`freeBlocks, v.fs`device, v.fs`log
    ensures ok ==> Sound(v.Now(), v.inodes, v.blockSize, After(b, MakeDir(near, usesExtents, content), made))
    ensures ok <==> Enough(old(v.Now()), old(v.inodes), v.blockSize, MakeDir(near, usesExtents, content))
  {
    hide InodeLeft, VolumeOk, Kept, Entered, Charted, MadeOne, State.UsedBlocks, State.Valid, SameBut;
    ghost var s, table := v.Now(), v.inodes;
    VolumeParts(s, table, v.blockSize);
    made := 0;
    if |content| != v.blockSize || (!usesExtents && v.fs.geo.blocksCount > U32_LIMIT) {
      return false, made;
    }
    var r, block := MakeDirectory(v, near, usesExtents, i => content);
    if r.Err? {
      return false, made;
    }
    made := r.value;
    MadeOneBooks(v.fs.device, v.inodes[made], v.blockSize, true, v.blockSize, block, content);
    OnlyKey(table, v.inodes, made);
    AfterBut(b, MakeDir(near, usesExtents, content), made, made);
    assert made !in b.marked + b.full + b.short + b.holed;
    Rebook(s, v.Now(), table, v.inodes, made, v.blockSize, b, After(b, MakeDir(near, usesExtents, content), made));
    ok := true;
  }

  method DoMakeLink(v: Volume, near: nat, usesExtents: bool, target: Bytes, ghost b: Books) returns (ok: bool, made: nat)
    requires Sound(v.Now(), v.inodes, v.blockSize, b)
    modifies v`inodes, v.alloc`inodeCache, v.alloc`dirtyInode, v.alloc`dirs, v.alloc`blockCache, v.alloc`dirtyBlock
    modifies v.fs`descs, v.fs`freeInodes, v.fs`freeBlocks, v.fs`device, v.fs`log
    ensures ok ==> Sound(v.Now(), v.inodes, v.blockSize, After(b, MakeLink(near, usesExtents, target), made))
    ensures ok <==> Enough(old(v.Now()), old(v.inodes), v.blockSize, MakeLink(near, usesExtents, target))
  {
    hide InodeLeft, VolumeOk, Kept, Entered, Charted, MadeOne, State.UsedBlocks, State.Valid, SameBut;
    ghost var s, table := v.Now(), v.inodes;
    VolumeParts(s, table, v.blockSize);
    made := 0;
    if |target| < I_BLOCK_LEN || |target| > v.blockSize || (!usesExtents && v.fs.geo.blocksCount > U32_LIMIT) {
      return false, made;
    }
    var r, block := MakeSymlink(v, near, usesExtents, target);
    if r.Err? {
      return false, made;
    }
    made := r.value;
    MadeOneBooks(v.fs.device, v.inodes[made], v.blockSize, false, |target|, block, Pad(target, v.blockSize));
    OnlyKey(table, v.inodes, made);
    AfterBut(b, MakeLink(near, usesExtents, target), made, made);
    assert made !in b.marked + b.full + b.short + b.holed;
    Rebook(s, v.Now(), table, v.inodes, made, v.blockSize, b, After(b, MakeLink(near, usesExtents, target), made));
    ok := true;
  }

  method DoWrite(v: Volume, inum: nat, data: Bytes, ghost b: Books) returns (ok: bool)
    requires Sound(v.Now(), v.inodes, v.blockSize, b) && Allowed(b.holed, Write(inum, data))
    modifies v`inodes, v.alloc`blockCache, v.alloc`dirtyBlock, v.fs`descs, v.fs`freeBlocks, v.fs`device, v.fs`log
    ensures ok ==> Sound(v.Now(), v.inodes, v.blockSize, After(b, Write(inum, data), 0))
    ensures Enough(old(v.Now()), old(v.inodes), v.blockSize, Write(inum, data)) ==> ok
  {
    hide Ample, Spent, CeilDiv, Had, VolumeOk, Kept, Entered, Charted, Booked, Rewrote, WalkMap, DataOf, State.UsedBlocks, State.Valid, SameBut, WroteOnce;
    ghost var s, table := v.Now(), v.inodes;
    VolumeParts(s, table, v.blockSize);
    if inum !in v.inodes {
      return false;
    }
    ghost var was := Chart(s.device, table, v.blockSize, b, inum);
    HadIs(s.device, table[inum], v.blockSize / 4, was);
    var r, list := v.WriteData(inum, data, was);
    if r.Err? {
      return false;
    }
    RewroteBooks(s, v.Now(), table, v.inodes, inum, v.blockSize, list, data);
    RewroteKept(s, v.Now(), table, v.inodes, inum, v.blockSize, list, data);
    AfterBut(b, Write(inum, data), 0, inum);
    Rebook(s, v.Now(), table, v.inodes, inum, v.blockSize, b, After(b, Write(inum, data), 0));
    ok := true;
  }

  lemma {:induction false} RewroteKept(s: State, t: State, table: Table, table': Table, inum: nat, bs: nat, list: seq<nat>, data: Bytes)
    requires inum in table && 0 < bs && Rewrote(s, t, table, table', inum, bs, list, data)
    ensures inum in table' && Kept(s, t, table, inum, bs / 4) && table' - {inum} == table - {inum}
  {
    hide WalkMap, DataOf, MetaOf, BlocksOf, HoldsData, NoDup, Kept, Resolves, DataIs;
    OnlyKey(table, table', inum);
  }

  /** A directory laid out anew. */
  method DoRelay(v: Volume, inum: nat, blocks: seq<Bytes>, ghost b: Books) returns (ok: bool)
    requires Sound(v.Now(), v.inodes, v.blockSize, b) && Allowed(b.holed, Relay(inum, blocks))
    modifies v`inodes, v.alloc`blockCache, v.alloc`dirtyBlock, v.fs`descs, v.fs`freeBlocks, v.fs`device, v.fs`log
    ensures ok ==> Sound(v.Now(), v.inodes, v.blockSize, After(b, Relay(inum, blocks), 0))
    ensures Enough(old(v.Now()), old(v.inodes), v.blockSize, Relay(inum, blocks)) ==> ok
  {
    hide Ample, Spent, CeilDiv, Had, VolumeOk, Kept, Entered, Charted, Booked, Rewrote, WalkMap, DataOf, State.UsedBlocks, State.Valid, SameBut, WroteOnce, BlockBytes, KeptPart;
    ghost var s, table := v.Now(), v.inodes;
    VolumeParts(s, table, v.blockSize);
    if inum !in v.inodes || exists k :: 0 <= k < |blocks| && |blocks[k]| != v.blockSize {
      return false;
    }
    ghost var was := Chart(s.device, table, v.blockSize, b, inum);
    HadIs(s.device, table[inum], v.blockSize / 4, was);
    var r, list := WriteDirectory(v, inum, blocks, was);
    if r.Err? {
      return false;
    }
    ghost var data := AllOf(blocks);
    RewroteBooks(s, v.Now(), table, v.inodes, inum, v.blockSize, list, data);
    RewroteKept(s, v.Now(), table, v.inodes, inum, v.blockSize, list, data);
    AfterBut(b, Relay(inum, blocks), 0, inum);
    Rebook(s, v.Now(), table, v.inodes, inum, v.blockSize, b, After(b, Relay(inum, blocks), 0));
    ok := true;
  }

  method DoTruncate(v: Volume, inum: nat, ghost b: Books) returns (ok: bool)
    requires Sound(v.Now(), v.inodes, v.blockSize, b)
    modifies v`inodes, v.alloc`blockCache, v.alloc`dirtyBlock, v.fs`descs, v.fs`freeBlocks
    ensures ok <==> inum in old(v.inodes)
    ensures ok ==> Sound(v.Now(), v.inodes, v.blockSize, After(b, Truncate(inum), 0))
    ensures ok ==> inum in old(v.inodes) && v.inodes == old(v.inodes)[inum := Emptied(old(v.inodes)[inum])]
    ensures ok ==> old(v.Now()).freeBlocks <= v.Now().freeBlocks
  {
    hide VolumeOk, Kept, Entered, Charted, Booked, EmptyMap, State.UsedBlocks, State.UsedInodes, State.Valid, SameBut;
    ghost var s, table := v.Now(), v.inodes;
    VolumeParts(s, table, v.blockSize);
    if inum !in v.inodes {
      return false;
    }
    ghost var was := Chart(s.device, table, v.blockSize, b, inum);
    TruncateInode(v, inum, was);
    KeptSame(s, v.Now(), table, inum, v.blockSize / 4);
    EmptyBooks(v.fs.device, v.inodes[inum], v.blockSize);
    OnlyKey(table, v.inodes, inum);
    AfterBut(b, Truncate(inum), 0, inum);
    Rebook(s, v.Now(), table, v.inodes, inum, v.blockSize, b, After(b, Truncate(inum), 0));
    ok := true;
  }

  /** An empty file's contents laid down from the stream. */
  method DoUnpack(v: Volume, inum: nat, data: Bytes, ghost b: Books) returns (ok: bool)
    requires Sound(v.Now(), v.inodes, v.blockSize, b) && v.HasBlocks(inum, []) && inum !in b.holed
    modifies v`inodes, v.alloc`blockCache, v.alloc`dirtyBlock, v.fs`descs, v.fs`freeBlocks, v.fs`device, v.fs`log
    ensures ok ==> Sound(v.Now(), v.inodes, v.blockSize, After(b, Write(inum, data), 0))
    ensures old(v.AmpleFor(inum, 0, CeilDiv(|data|, v.blockSize))) ==> ok
  {
    hide Ample, Spent, CeilDiv, VolumeOk, Kept, Entered, Charted, Booked, Rewrote, DataIs, State.UsedBlocks, State.Valid, SameBut, WroteOnce;
    ghost var s, table := v.Now(), v.inodes;
    VolumeParts(s, table, v.blockSize);
    ghost var was := Chart(s.device, table, v.blockSize, b, inum);
    var body := new Body(data);
    var r, list := UnpackFile(v, inum, body);
    if r.Err? {
      return false;
    }
    RewroteBooks(s, v.Now(), table, v.inodes, inum, v.blockSize, list, data);
    RewroteKept(s, v.Now(), table, v.inodes, inum, v.blockSize, list, data);
    AfterBut(b, Write(inum, data), 0, inum);
    Rebook(s, v.Now(), table, v.inodes, inum, v.blockSize, b, After(b, Write(inum, data), 0));
    ok := true;
  }

  /** What unpacking a file comes to: it is emptied, and its contents laid down from the stream. */
  method DoStream(v: Volume, inum: nat, data: Bytes, ghost b: Books) returns (ok: bool)
    requires Sound(v.Now(), v.inodes, v.blockSize, b)
    modifies v`inodes, v.alloc`blockCache, v.alloc`dirtyBlock, v.fs`descs, v.fs`freeBlocks, v.fs`device, v.fs`log
    ensures ok ==> Sound(v.Now(), v.inodes, v.blockSize, After(b, Stream(inum, data), 0))
    ensures Enough(old(v.Now()), old(v.inodes), v.blockSize, Stream(inum, data)) ==> ok
  {
    hide Ample, CeilDiv, Sound, After, EmptyMap, DataIs, State.Valid;
    SoundParts(v.Now(), v.inodes, v.blockSize, b);
    ghost var free := v.Now().freeBlocks;
    ok := DoTruncate(v, inum, b);
    if !ok {
      return;
    }
    AmpleMore(free, v.Now().freeBlocks, v.inodes[inum].usesExtents, v.blockSize, CeilDiv(|data|, v.blockSize));
    EmptyMapIs(v.fs.device, v.inodes[inum].usesExtents, v.blockSize / 4);
    NowWhole(b, inum);
    ok := DoUnpack(v, inum, data, After(b, Truncate(inum), 0));
    Streamed(b, inum, data);
  }

  lemma {:induction false} NowWhole(b: Books, inum: nat)
    ensures inum !in After(b, Truncate(inum), 0).holed
  {
  }

  lemma {:induction false} Streamed(b: Books, inum: nat, data: Bytes)
    ensures After(After(b, Truncate(inum), 0), Write(inum, data), 0) == After(b, Stream(inum, data), 0)
  {
    var c := b.full - {inum};
    assert Having(c, inum, data != []) == Having(b.full, inum, data != []);
    assert Having(Having(b.short, inum, inum in b.marked), inum, inum in b.marked) == Having(b.short, inum, inum in b.marked);
  }

  method DoAppend(v: Volume, inum: nat, content: Bytes, ghost b: Books) returns (ok: bool)
    requires Sound(v.Now(), v.inodes, v.blockSize, b) && Allowed(b.holed, Append(inum, content))
    modifies v`inodes, v.alloc`blockCache, v.alloc`dirtyBlock, v.fs`descs, v.fs`freeBlocks, v.fs`device, v.fs`log
    ensures ok ==> Sound(v.Now(), v.inodes, v.blockSize, After(b, Append(inum, content), 0))
    ensures Enough(old(v.Now()), old(v.inodes), v.blockSize, Append(inum, content)) ==> ok
  {
    hide Ample, Spent, Had, VolumeOk, Kept, Entered, Charted, Booked, Appended, WalkMap, DataOf, State.UsedBlocks, State.Valid, SameBut;
    ghost var s, table := v.Now(), v.inodes;
    VolumeParts(s, table, v.blockSize);
    if inum !in v.inodes || |content| != v.blockSize {
      return false;
    }
    ghost var was := Chart(s.device, table, v.blockSize, b, inum);
    HadIs(s.device, table[inum], v.blockSize / 4, was);
    var r, block := AppendBlock(v, inum, content, was);
    if r.Err? {
      return false;
    }
    AppendKept(s, v.Now(), table, v.inodes, inum, v.blockSize, was, block, content);
    AppendBooks(s, v.Now(), table, v.inodes, inum, v.blockSize, was, block, content);
    AfterBut(b, Append(inum, content), 0, inum);
    Rebook(s, v.Now(), table, v.inodes, inum, v.blockSize, b, After(b, Append(inum, content), 0));
    ok := true;
  }

  lemma {:induction false} AppendKept(s: State, t: State, table: Table, table': Table, inum: nat, bs: nat, was: seq<nat>, b: nat, content: Bytes)
    requires 0 < bs && Appended(s, t, table, table', inum, bs, was, b, content)
    ensures inum in table' && Kept(s, t, table, inum, bs / 4) && table' - {inum} == table - {inum}
  {
    hide DataIs, BlocksOf, Kept, HoldsFull, SameAt, ListSize;
    OnlyKey(table, table', inum);
  }

  lemma {:induction false} EditBooks(s: State, t: State, table: Table, inum: nat, bs: nat, list: seq<nat>, k: nat, content: Bytes, b: Books)
    requires Edited(s, t, table, inum, bs, list, k, content) && InBooks(s.device, table[inum], bs, b, inum)
    ensures InBooks(t.device, table[inum], bs, b, inum) && Kept(s, t, table, inum, bs / 4)
  {
    hide BlocksOf, Kept, WalkMap, DataOf, Sectors, State.Valid, State.UsedBlocks;
    ChartedBy(t.device, table[inum], bs / 4, list, inum in b.holed);
  }

  method DoEdit(v: Volume, inum: nat, k: nat, content: Bytes, ghost b: Books) returns (ok: bool)
    requires Sound(v.Now(), v.inodes, v.blockSize, b) && Allowed(b.holed, Edit(inum, k, content))
    modifies v.fs`device, v.fs`log
    ensures ok ==> Sound(v.Now(), v.inodes, v.blockSize, After(b, Edit(inum, k, content), 0))
    ensures ok <==> Enough(old(v.Now()), old(v.inodes), v.blockSize, Edit(inum, k, content))
  {
    hide Had, VolumeOk, Kept, InBooks, Booked, Edited, WalkMap, DataOf, State.UsedBlocks, State.Valid, SameBut;
    ghost var s := v.Now();
    VolumeParts(s, v.inodes, v.blockSize);
    if inum !in v.inodes {
      return false;
    }
    ghost var was := Chart(s.device, v.inodes, v.blockSize, b, inum);
    var list := ReadBlockList(v.fs.device, v.inodes[inum].map_, v.blockSize / 4);
    ReadsBack(v.fs.device, v.inodes[inum].map_, v.blockSize / 4, was);
    HadIs(s.device, v.inodes[inum], v.blockSize / 4, was);
    if k >= |list| {
      return false;
    }
    EditBlock(v, inum, k, content, was);
    EditBooks(s, v.Now(), v.inodes, inum, v.blockSize, was, k, content, b);
    AfterBut(b, Edit(inum, k, content), 0, inum);
    Rebook(s, v.Now(), v.inodes, v.inodes, inum, v.blockSize, b, b);
    ok := true;
  }

  /** The attributes' effect on the books. */
  lemma {:induction false} XattrAfter(s: State, t: State, table: Table, table': Table, inum: nat, bs: nat, fits: bool, content: Block, b: Books)
    requires 512 <= bs && Attributes(s, t, table, table', inum, bs, fits, content) && InBooks(s.device, table[inum], bs, b, inum)
    ensures InBooks(t.device, table'[inum], bs, After(b, SetXattrs(inum, fits, content), 0), inum)
    ensures Kept(s, t, table, inum, bs / 4) && table' - {inum} == table - {inum}
  {
    hide BlocksOf, Sectors, Kept, WalkMap, DataOf;
    XattrBooks(s, t, table, table', inum, bs, fits, content, inum in b.full, inum in b.short);
    hide Entered;
    OnlyKey(table, table', inum);
    var list: seq<nat> :| Lists(s.device, table[inum].map_, bs / 4, list) && (inum in b.holed || HOLE !in list);
    ChartedBy(t.device, table'[inum], bs / 4, list, inum in b.holed);
  }

  method DoXattrs(v: Volume, inum: nat, fits: bool, attrs: Block, ghost b: Books) returns (ok: bool)
    requires Sound(v.Now(), v.inodes, v.blockSize, b)
    modifies v`inodes, v.alloc`blockCache, v.alloc`dirtyBlock, v.fs`descs, v.fs`freeBlocks, v.fs`device, v.fs`log
    ensures ok <==> Enough(old(v.Now()), old(v.inodes), v.blockSize, SetXattrs(inum, fits, attrs))
    ensures ok ==> Sound(v.Now(), v.inodes, v.blockSize, After(b, SetXattrs(inum, fits, attrs), 0))
  {
    hide VolumeOk, Booked, Attributes, State.UsedBlocks, State.Valid, After, Enough, Ample, CeilDiv, Had;
    ghost var s, table := v.Now(), v.inodes;
    VolumeParts(s, table, v.blockSize);
    EnoughForXattrs(s, table, v.blockSize, inum, fits, attrs);
    if inum !in v.inodes {
      return false;
    }
    var r := WriteXattrs(v, inum, fits, attrs);
    if r.Err? {
      return false;
    }
    XattrSound(s, v.Now(), table, v.inodes, inum, v.blockSize, fits, attrs, b);
    ok := true;
  }

  lemma {:induction false} EnoughForXattrs(s: State, table: Table, bs: nat, inum: nat, fits: bool, content: Block)
    requires s.Valid() && 24 <= bs
    ensures Enough(s, table, bs, SetXattrs(inum, fits, content)) <==> inum in table && (fits || table[inum].fileAcl != 0 || 0 < s.freeBlocks)
  {
    hide State.Valid;
  }

  lemma {:induction false} XattrSound(s: State, t: State, table: Table, table': Table, inum: nat, bs: nat, fits: bool, content: Block, b: Books)
    requires Sound(s, table, bs, b) && VolumeOk(t, table', bs) && Attributes(s, t, table, table', inum, bs, fits, content)
    ensures Sound(t, table', bs, After(b, SetXattrs(inum, fits, content), 0))
  {
    hide VolumeOk, Kept, InBooks, Attributes, State.UsedBlocks, State.Valid, SameBut, After, Sound;
    AttributesOf(s, t, table, table', inum, bs, fits, content);
    SoundAt(s, table, bs, b, inum);
    XattrAfter(s, t, table, table', inum, bs, fits, content, b);
    AfterBut(b, SetXattrs(inum, fits, content), 0, inum);
    Rebook(s, t, table, table', inum, bs, b, After(b, SetXattrs(inum, fits, content), 0));
  }

  lemma {:induction false} SoundAt(s: State, table: Table, bs: nat, b: Books, inum: nat)
    requires Sound(s, table, bs, b) && inum in table
    ensures 512 <= bs && InBooks(s.device, table[inum], bs, b, inum)
  {
    SoundParts(s, table, bs, b);
    hide VolumeOk, InBooks;
  }

  lemma {:induction false} AttributesOf(s: State, t: State, table: Table, table': Table, inum: nat, bs: nat, fits: bool, content: Block)
    requires Attributes(s, t, table, table', inum, bs, fits, content)
    ensures inum in table && inum in table'
  {
    hide Kept, WalkMap;
  }

  method DoRemove(v: Volume, inum: nat, ghost b: Books) returns (ok: bool)
    requires Sound(v.Now(), v.inodes, v.blockSize, b)
    modifies v`inodes, v.alloc`blockCache, v.alloc`dirtyBlock, v.alloc`inodeCache, v.alloc`dirtyInode, v.alloc`dirs
    modifies v.fs`descs, v.fs`freeBlocks, v.fs`freeInodes
    ensures ok <==> inum in old(v.inodes)
    ensures ok ==> Sound(v.Now(), v.inodes, v.blockSize, After(b, Remove(inum), 0))
  {
    hide VolumeOk, Kept, InBooks, Booked, State.UsedBlocks, State.UsedInodes, State.Valid, SameBut, Owned;
    ghost var s, table := v.Now(), v.inodes;
    VolumeParts(s, table, v.blockSize);
    if inum !in v.inodes {
      return false;
    }
    ghost var was := Chart(s.device, table, v.blockSize, b, inum);
    RemoveInode(v, inum, was);
    KeptSame(s, v.Now(), table, inum, v.blockSize / 4);
    DropTwice(table, inum);
    AfterBut(b, Remove(inum), 0, inum);
    Rebook(s, v.Now(), table, v.inodes, inum, v.blockSize, b, After(b, Remove(inum), 0));
    ok := true;
  }

  lemma {:induction false} DropTwice(table: Table, inum: nat)
    ensures table - {inum} - {inum} == table - {inum} && inum !in table - {inum}
  {
  }

  /**
   One step, and the books that are right after it. It succeeds where what it
   needs is there, and nowhere else unless its new map happens to take less.
   */
  method Do(v: Volume, step: Step, ghost b: Books) returns (ok: bool, made: nat)
    requires Sound(v.Now(), v.inodes, v.blockSize, b) && Allowed(b.holed, step)
    modifies v`inodes, v.alloc`blockCache, v.alloc`dirtyBlock, v.alloc`inodeCache, v.alloc`dirtyInode, v.alloc`dirs
    modifies v.fs`descs, v.fs`freeBlocks, v.fs`freeInodes, v.fs`device, v.fs`log
    ensures Enough(old(v.Now()), old(v.inodes), v.blockSize, step) ==> ok
    ensures ok && !Remaps(step) ==> Enough(old(v.Now()), old(v.inodes), v.blockSize, step)
    ensures ok ==> Sound(v.Now(), v.inodes, v.blockSize, After(b, step, made))
  {
    hide Sound, State.Valid, After, Allowed, InodeLeft, Ample, CeilDiv, Had;
    SoundParts(v.Now(), v.inodes, v.blockSize, b);
    made := 0;
    match step {
      case Create(near, usesExtents) => ok, made := DoCreate(v, near, usesExtents, b);
      case MakeDir(near, usesExtents, content) => ok, made := DoMakeDir(v, near, usesExtents, content, b);
      case MakeLink(near, usesExtents, target) => ok, made := DoMakeLink(v, near, usesExtents, target, b);
      case Write(inum, data) => ok := DoWrite(v, inum, data, b);
      case Stream(inum, data) => ok := DoStream(v, inum, data, b);
      case Append(inum, content) => ok := DoAppend(v, inum, content, b);
      case Relay(inum, blocks) => ok := DoRelay(v, inum, blocks, b);
      case Edit(inum, index, content) => ok := DoEdit(v, inum, index, content, b);
      case SetXattrs(inum, fits, attrs) => ok := DoXattrs(v, inum, fits, attrs, b);
      case Truncate(inum) => ok := DoTruncate(v, inum, b);
      case Remove(inum) => ok := DoRemove(v, inum, b);
    }
  }

  lemma {:induction false} SoundParts(s: State, table: Table, bs: nat, b: Books)
    requires Sound(s, table, bs, b)
    ensures s.Valid() && 1024 <= bs
  {
  }

  /**
   Over every run of steps that succeed: bitmaps, counts, inodes and owners stay
   in step, and the books worked out from the steps alone are right, so that
   just the inodes they have as short record too few sectors (TalliedExactly).
   A run that stops does so on a volume as sound as any, short of what the next
   step needs.
   */
  method Run(v: Volume, steps: seq<Step>, ghost b: Books) returns (ok: bool, made: seq<nat>, ghost last: State, ghost table: Table)
    requires Sound(v.Now(), v.inodes, v.blockSize, b) && AllAllowed(b.holed, steps)
    modifies v`inodes, v.alloc`blockCache, v.alloc`dirtyBlock, v.alloc`inodeCache, v.alloc`dirtyInode, v.alloc`dirs
    modifies v.fs`descs, v.fs`freeBlocks, v.fs`freeInodes, v.fs`device, v.fs`log
    ensures ok ==> |made| == |steps| && Sound(v.Now(), v.inodes, v.blockSize, AfterAll(b, steps, made))
    ensures !ok ==> && |made| < |steps| && Sound(last, table, v.blockSize, AfterAll(b, steps[..|made|], made))
                    && last.Valid() && 24 <= v.blockSize && !Enough(last, table, v.blockSize, steps[|made|])
  {
    hide Enough, Sound, After, Allowed, State.Valid, HoledAfter;
    made, last, table := [], v.Now(), v.inodes;
    assert steps[..0] == [];
    for i := 0 to |steps|
      invariant |made| == i && Sound(v.Now(), v.inodes, v.blockSize, AfterAll(b, steps[..i], made))
    {
      ghost var c := AfterAll(b, steps[..i], made);
      HoledIs(b, steps[..i], made);
      assert Allowed(c.holed, steps[i]);
      last, table := v.Now(), v.inodes;
      SoundParts(last, table, v.blockSize, c);
      var done, new_ := Do(v, steps[i], c);
      if !done {
        return false, made, last, table;
      }
      assert steps[..i + 1][..i] == steps[..i] && (made + [new_])[..i] == made;
      made := made + [new_];
    }
    assert steps[..|steps|] == steps;
    ok := true;
  }

  // ---- right counts at the start ----

  /** No inode is short exactly when every one records the right number. */
  lemma {:induction false} NoneShort(dev: Device, table: Table, bs: nat, b: Books)
    requires Booked(dev, table, bs, b) && 512 <= bs
    ensures b.short == {} <==> forall i :: i in table ==> Tallied(dev, table[i], bs)
  {
    hide InBooks, Tallied;
    forall i | i in table ensures Tallied(dev, table[i], bs) <==> i !in b.short {
      TalliedExactly(dev, table, bs, b, i);
    }
    if b.short != {} {
      var i :| i in b.short;
      assert i in table;
    }
  }

  /** The books of inodes that all record the right number. */
  ghost function BooksFor(dev: Device, table: Table, bs: nat): Books {
    Books(set i | i in table && table[i].fileAcl != 0,
          set i | i in table && |AclBlock(table[i])| < |BlocksOf(dev, table[i], bs / 4)|,
          {},
          set i | i in table && !Charted(dev, table[i], bs / 4, false))
  }

  /** Whatever inodes record the right number of sectors, there are books that are right about them. */
  lemma {:induction false} BooksRight(dev: Device, table: Table, bs: nat)
    requires forall i :: i in table ==> Charted(dev, table[i], bs / 4, true) && Tallied(dev, table[i], bs)
    ensures Booked(dev, table, bs, BooksFor(dev, table, bs))
  {
    hide BlocksOf, Charted, Sectors;
    var b := BooksFor(dev, table, bs);
    forall i | i in table ensures InBooks(dev, table[i], bs, b, i) {
      assert Charted(dev, table[i], bs / 4, true) && Tallied(dev, table[i], bs);
    }
  }

  /**
   Where every inode records the right number, none has an attribute block, and
   no step gives one such a block, every inode does after any run.
   */
  lemma {:induction false} StaysTallied(dev: Device, table: Table, dev': Device, table': Table, bs: nat, b: Books, steps: seq<Step>, made: seq<nat>)
    requires 512 <= bs && Booked(dev, table, bs, b) && |made| == |steps| && Booked(dev', table', bs, AfterAll(b, steps, made))
    requires forall i :: i in table ==> Tallied(dev, table[i], bs) && table[i].fileAcl == 0
    requires forall k :: 0 <= k < |steps| ==> !Marks(steps[k])
    ensures forall i :: i in table' ==> Tallied(dev', table'[i], bs)
  {
    NoneShort(dev, table, bs, b);
    assert b.marked == {} by {
      hide Charted, BlocksOf, Sectors;
      forall i ensures i !in b.marked {
        if i in table {
          assert InBooks(dev, table[i], bs, b, i);
        }
      }
    }
    hide Booked, Tallied, AfterAll;
    NeverShort(b, steps, made);
    NoneShort(dev', table', bs, AfterAll(b, steps, made));
  }

  /** A file given attributes in a block and then emptied: over any volume its recorded sectors are wrong. */
  lemma {:induction false} AnyFileSpoils(b: Books, inum: nat, attrs: Block, made: seq<nat>)
    requires |made| == 2
    ensures inum in AfterAll(b, [SetXattrs(inum, false, attrs), Truncate(inum)], made).short
  {
    var steps := [SetXattrs(inum, false, attrs), Truncate(inum)];
    var one, c := steps[..1], AfterAll(b, steps[..1], made[..1]);
    assert AfterAll(b, one[..0], made[..1][..0]) == b;
    assert c == After(b, one[0], made[..1][0]);
    assert inum in c.marked;
    assert AfterAll(b, steps, made) == After(c, steps[1], made[1]);
  }

  // ---- the smallest volume it goes wrong on ----

  /** Four blocks, the bitmaps in two of them; one file, with no contents and its attributes in block 3. */
  function SmallState(): State {
    State(Geometry(5, 1, 8, 2, 2, 1), {1, 2}, [Desc(1, 1, 0, 0, false, false, 1, 2)], 1, 1,
          map[1 := Bitmap([true, true, true, false]), 2 := Bitmap([true, false])],
          map[], map[], map[], map[], {})
  }

  function SmallFile(): Inode {
    Inode(ExtentRoot([]), true, false, 0, 2, 3)
  }

  lemma {:induction false} SmallMaps()
    ensures SmallState().Layout() && SmallState().geo.Groups() == 1
    ensures SmallState().BlockMaps() == [[true, true, true, false]] && SmallState().InodeMaps() == [[true, false]]
  {
    var s := SmallState();
    assert (5 - 1 + 8 - 1) / 8 == 1;
    assert BlockLocs(s.descs) == [1] && InodeLocs(s.descs) == [2];
  }

  lemma {:induction false} SmallCounts()
    ensures Clear([true, true, true, false], 4) == 1 && Clear([true, false], 2) == 1 && Sum([1]) == 1
  {
    assert Clear([true, true, true, false], 3) == 0;
    assert Clear([true, false], 1) == 0;
    assert [1][..0] == [];
  }

  lemma {:induction false} SmallBlocks()
    ensures var sp, maps := Space(1, 5, 8), [[true, true, true, false]];
            sp.Valid(1) && sp.InGroup(0) == 4 && Sized(sp, maps) && UsedUnits(sp, maps) == {1, 2, 3}
  {
    var sp, maps := Space(1, 5, 8), [[true, true, true, false]];
    forall u | 1 <= u < 5 ensures Marked(sp, maps, u) <==> u != 4 {
      DivModUnique(u - 1, 0, u - 1, 8);
    }
  }

  lemma {:induction false} SmallInodes()
    ensures var sp, maps := Space(1, 3, 2), [[true, false]];
            sp.Valid(1) && sp.InGroup(0) == 2 && Sized(sp, maps) && UsedUnits(sp, maps) == {1}
  {
    var sp, maps := Space(1, 3, 2), [[true, false]];
    forall u | 1 <= u < 3 ensures Marked(sp, maps, u) <==> u == 1 {
      DivModUnique(u - 1, 0, u - 1, 2);
    }
  }

  lemma {:induction false} SmallValid()
    ensures SmallState().Valid() && SmallState().UsedBlocks() == {1, 2, 3} && SmallState().UsedInodes() == {1}
  {
    var s := SmallState();
    SmallMaps();
    SmallCounts();
    SmallBlocks();
    SmallInodes();
    hide State.Layout, State.BlockMaps, State.InodeMaps, UsedUnits;
    assert FreeBlocks(s.descs) == [1] && FreeInodes(s.descs) == [1];
    assert s.geo.Blocks() == Space(1, 5, 8) && s.geo.Inodes() == Space(1, 3, 2);
    assert DirsIn(s.geo.Inodes(), s.dirs, 0) == {};
  }

  /**
   A volume on which everything is right, and on which emptying its one file
   leaves the file recording no sectors where it still owns a block.
   */
  lemma {:induction false} CountGoesWrong()
    ensures var s, table := SmallState(), map[1 := SmallFile()];
            && Sound(s, table, 1024, Books({1}, {}, {}, {})) && Tallied(s.device, table[1], 1024)
            && !Tallied(s.device, Emptied(table[1]), 1024)
            && Sound(s, table[1 := Emptied(table[1])], 1024, After(Books({1}, {}, {}, {}), Truncate(1), 0))
  {
    hide Sound, BlocksOf, SmallState;
    SmallSound(2, Books({1}, {}, {}, {}));
    SmallSound(0, Books({1}, {}, {1}, {}));
    assert SmallFile().(blocks := 2) == SmallFile() && Emptied(SmallFile()) == SmallFile().(blocks := 0);
    assert map[1 := SmallFile()][1 := Emptied(SmallFile())] == map[1 := SmallFile().(blocks := 0)];
    assert After(Books({1}, {}, {}, {}), Truncate(1), 0) == Books({1}, {}, {1}, {});
    EmptiedOwns(SmallState().device, SmallFile(), 256);
    EmptiedOwns(SmallState().device, Emptied(SmallFile()), 256);
  }

  lemma {:induction false} SmallSound(blocks: nat, b: Books)
    requires (blocks == 2 && b == Books({1}, {}, {}, {})) || (blocks == 0 && b == Books({1}, {}, {1}, {}))
    ensures Sound(SmallState(), map[1 := SmallFile().(blocks := blocks)], 1024, b)
  {
    hide SmallState, VolumeOk, Booked;
    SmallBooked(SmallFile().(blocks := blocks));
    SmallVolumeOk(SmallFile().(blocks := blocks));
    SmallEntered(SmallState().device, blocks, b);
  }

  lemma {:induction false} SmallVolumeOk(i: Inode)
    requires i == SmallFile().(blocks := i.blocks) && BlocksOf(SmallState().device, i, 256) == [3]
    ensures VolumeOk(SmallState(), map[1 := i], 1024)
  {
    hide State.Valid, State.UsedBlocks, State.UsedInodes, Owns, BlocksOf;
    SmallValid();
    SmallOwns(i);
    assert SmallState().geo.firstDataBlock == 1 && SmallState().dirs == {};
    hide SmallState;
    var table := map[1 := i];
    assert table.Keys == {1};
  }

  lemma {:induction false} SmallEntered(dev: Device, blocks: nat, b: Books)
    requires (blocks == 2 && b == Books({1}, {}, {}, {})) || (blocks == 0 && b == Books({1}, {}, {1}, {}))
    requires var i := SmallFile().(blocks := blocks); BlocksOf(dev, i, 256) == [3] && Charted(dev, i, 256, false)
    ensures Booked(dev, map[1 := SmallFile().(blocks := blocks)], 1024, b)
  {
    hide BlocksOf, Charted;
    assert 1024 / 4 == 256 && 1024 / 512 == 2;
    var i := SmallFile().(blocks := blocks);
    assert Entered(dev, i, 1024, true, false, blocks == 0);
    assert 1 in b.marked && 1 !in b.full && (1 in b.short <==> blocks == 0) && 1 !in b.holed;
  }

  lemma {:induction false} SmallBooked(i: Inode)
    requires i == SmallFile().(blocks := i.blocks)
    ensures BlocksOf(SmallState().device, i, 256) == [3] && Charted(SmallState().device, i, 256, false)
  {
    hide SmallState;
    EmptiedOwns(SmallState().device, i, 256);
    EmptyMapIs(SmallState().device, true, 256);
    ChartedBy(SmallState().device, i, 256, [], false);
  }

  lemma {:induction false} SmallOwns(i: Inode)
    requires SmallState().Valid() && SmallState().UsedBlocks() == {1, 2, 3} && BlocksOf(SmallState().device, i, 256) == [3]
    ensures Owns(SmallState(), map[1 := i], 256)
  {
    hide State.Valid, State.UsedBlocks, BlocksOf;
    var s, table := SmallState(), map[1 := i];
    OwnedIs(s.device, i, 256, [3]);
    OneElem(3);
    hide Owned;
    forall b | b in s.UsedBlocks() ensures b in s.fixed || exists k :: k in table && b in Owned(s.device, table[k], 256) {
      if b == 3 {
        assert 1 in table && b in Owned(s.device, table[1], 256);
      }
    }
  }
}
