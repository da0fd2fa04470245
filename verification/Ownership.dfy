/**
 Who owns which block. Every block the bitmaps mark is fixed metadata or belongs
 to exactly one inode, as data, as part of its map, or as its attribute block;
 and no such block is free.
 */
module Ownership {
  import opened Base
  import opened Disk
  import opened BlockWalk
  import opened Bitmaps
  import opened Allocators
  import opened MapSpace
  import opened BlockMap

  /** The parts of an inode that say what blocks it owns and how long its contents are. */
  datatype Inode = Inode(map_: InodeMap, usesExtents: bool, isDir: bool, size: nat, blocks: nat, fileAcl: nat)

  type Table = map<nat, Inode>

  function Physicals(xs: seq<Placed>): (r: seq<nat>)
    ensures |r| == |xs|
  {
    seq(|xs|, i requires 0 <= i < |xs| => xs[i].physical)
  }

  function AclBlock(i: Inode): seq<nat> {
    if i.fileAcl == 0 then [] else [i.fileAcl]
  }

  /** Every block an inode owns: its data, its map, its attributes. */
  function BlocksOf(dev: Device, i: Inode, p: nat): seq<nat> {
    var w := WalkMap(dev, i.map_, p);
    Physicals(DataOf(w)) + MetaOf(w) + AclBlock(i)
  }

  ghost function Owned(dev: Device, i: Inode, p: nat): set<nat> {
    Elems(BlocksOf(dev, i, p))
  }

  ghost predicate Owns(s: State, table: Table, p: nat)
    requires s.Valid()
  {
    && s.fixed <= s.UsedBlocks()
    && (forall i :: i in table ==> NoDup(BlocksOf(s.device, table[i], p)))
    && (forall i :: i in table ==> Owned(s.device, table[i], p) <= s.UsedBlocks() - s.fixed)
    && (forall i, j :: i in table && j in table && i != j ==> Owned(s.device, table[i], p) !! Owned(s.device, table[j], p))
    && (forall b :: b in s.UsedBlocks() ==> b in s.fixed || exists i :: i in table && b in Owned(s.device, table[i], p))
  }

  // ---- how the used blocks change ----

  /** t is s with the blocks `gone` given back, `came` taken, and none written outside `touched`. */
  ghost predicate Changed(s: State, t: State, gone: set<nat>, came: set<nat>, touched: set<nat>) {
    && s.Valid() && t.Valid()
    && came !! (s.UsedBlocks() - gone) && came !! s.fixed && gone !! s.fixed && touched !! s.fixed
    && t.UsedBlocks() == s.UsedBlocks() - gone + came && t.UsedInodes() == s.UsedInodes()
    && t.geo == s.geo && t.fixed == s.fixed && t.dirs == s.dirs
    && (forall x :: x !in touched ==> SameAt(s.device, t.device, x))
  }

  lemma {:induction false} ChangedNone(s: State)
    requires s.Valid()
    ensures Changed(s, s, {}, {}, {})
  {
    hide State.Valid, State.UsedBlocks, State.UsedInodes;
  }

  lemma {:induction false} SameAtTrans(a: Device, b: Device, c: Device, x: nat)
    requires SameAt(a, b, x) && SameAt(b, c, x)
    ensures SameAt(a, c, x)
  {
  }

  lemma {:induction false} ChangedTrans(s: State, t: State, u: State, g: set<nat>, c: set<nat>, w: set<nat>, g': set<nat>, c': set<nat>, w': set<nat>)
    requires Changed(s, t, g, c, w) && Changed(t, u, g', c', w') && g' !! c
    ensures Changed(s, u, g + g', c + c', w + w') && c !! c'
  {
    hide State.Valid, State.UsedBlocks, State.UsedInodes, SameAt;
    forall x | x !in w + w' ensures SameAt(s.device, u.device, x) {
      SameAtTrans(s.device, t.device, u.device, x);
    }
  }

  lemma {:induction false} ChangedGrown(s: State, t: State, own: seq<nat>)
    requires Grown(s, t, own)
    ensures Changed(s, t, {}, Elems(own), Elems(own))
  {
    FixedUsed(s);
    hide State.Valid, State.UsedBlocks, State.UsedInodes, NoDup;
    forall x | x !in Elems(own) ensures SameAt(s.device, t.device, x) {
      assert x !in own;
    }
  }

  lemma {:induction false} ChangedGave(s: State, t: State, b: nat)
    requires s.Valid() && b !in s.fixed && (if b in s.UsedBlocks() then GaveBlock(s, t, b) else Alike(s, t))
    ensures Changed(s, t, {b}, {}, {})
  {
    hide State.Layout, State.BlocksOk, State.InodesOk, State.UsedBlocks, State.UsedInodes;
  }

  lemma {:induction false} ChangedWrite(s: State, b: nat, content: Block)
    requires s.Valid() && b !in s.fixed
    ensures Changed(s, s.(device := s.device[b := content]), {}, {}, {b})
  {
    WriteKeeps(s, b, content);
    hide State.Valid, State.UsedBlocks, State.UsedInodes, SameAt;
    var touched := {b};
    forall x | x !in touched ensures SameAt(s.device, s.device[b := content], x) {
      WroteOther(s.device, b, content, x);
    }
  }

  lemma {:induction false} WroteOther(dev: Device, b: nat, content: Block, x: nat)
    requires x != b
    ensures SameAt(dev, dev[b := content], x)
  {
  }

  /** Only the blocks taken can leave fewer free. */
  lemma {:induction false} FreeAfter(s: State, t: State, gone: set<nat>, came: set<nat>, touched: set<nat>)
    requires Changed(s, t, gone, came, touched)
    ensures s.freeBlocks <= t.freeBlocks + |came|
  {
    hide State.Valid, State.UsedBlocks, State.UsedInodes;
    TotalsCountFree(s);
    TotalsCountFree(t);
    var sp := s.geo.Blocks();
    var before, now := FreeUnits(sp, s.UsedBlocks()), FreeUnits(sp, t.UsedBlocks());
    assert before <= now + came;
    SubsetFewer(before, now + came);
    assert |now + came| + |now * came| == |now| + |came|;
  }

  // ---- what keeps the ownership ----

  /** An inode's blocks are read through its own map blocks, so writes elsewhere leave them as they were. */
  lemma {:induction false} BlocksFrame(a: Device, b: Device, i: Inode, p: nat)
    requires forall x :: x in Owned(a, i, p) ==> SameAt(a, b, x)
    ensures BlocksOf(b, i, p) == BlocksOf(a, i, p)
  {
    var w := WalkMap(a, i.map_, p);
    forall x | x in MetaOf(w) ensures SameAt(a, b, x) {
      InMiddle(Physicals(DataOf(w)), MetaOf(w), AclBlock(i), x);
    }
    MapFrame(a, b, i.map_, p);
  }

  lemma {:induction false} InMiddle(a: seq<nat>, b: seq<nat>, c: seq<nat>, x: nat)
    requires x in b
    ensures x in Elems(a + b + c)
  {
    var k :| 0 <= k < |b| && b[k] == x;
    assert (a + b + c)[|a| + k] == x;
  }

  /** The blocks one inode (or none yet) owns. */
  ghost function OwnedAt(dev: Device, table: Table, inum: nat, p: nat): set<nat> {
    if inum in table then Owned(dev, table[inum], p) else {}
  }

  /** No block of any inode but one was written. */
  ghost predicate Kept(s: State, t: State, table: Table, inum: nat, p: nat) {
    forall i, b :: i in table && i != inum && b in Owned(s.device, table[i], p) ==> SameAt(s.device, t.device, b)
  }

  /** One inode's blocks may be exchanged for others not in use, and the ownership stands. */
  lemma {:induction false} Exchange(s: State, t: State, table: Table, inum: nat, now: Inode, p: nat,
                                    gone: set<nat>, came: set<nat>, touched: set<nat>)
    requires s.Valid() && Owns(s, table, p) && Changed(s, t, gone, came, touched)
    requires gone <= OwnedAt(s.device, table, inum, p)
    requires touched <= OwnedAt(s.device, table, inum, p) + came
    requires NoDup(BlocksOf(t.device, now, p))
    requires Owned(t.device, now, p) == OwnedAt(s.device, table, inum, p) - gone + came
    ensures Owns(t, table[inum := now], p) && Kept(s, t, table, inum, p)
  {
    hide State.Valid, State.UsedBlocks, State.UsedInodes, NoDup, BlocksOf, SameAt;
    var table' := table[inum := now];
    forall i | i in table && i != inum ensures BlocksOf(t.device, table[i], p) == BlocksOf(s.device, table[i], p) {
      forall x | x in Owned(s.device, table[i], p) ensures SameAt(s.device, t.device, x) {
        assert x !in touched;
      }
      BlocksFrame(s.device, t.device, table[i], p);
    }
    forall b | b in t.UsedBlocks() ensures b in t.fixed || exists i :: i in table' && b in Owned(t.device, table'[i], p) {
      if b in Owned(t.device, now, p) {
        assert inum in table' && table'[inum] == now;
      } else if b !in t.fixed {
        assert b in s.UsedBlocks();
        var i :| i in table && b in Owned(s.device, table[i], p);
        assert i != inum ==> i in table' && table'[i] == table[i];
      }
    }
  }

  /** An inode that owns nothing may go. */
  lemma {:induction false} Forget(s: State, table: Table, inum: nat, p: nat)
    requires s.Valid() && Owns(s, table, p) && inum in table && Owned(s.device, table[inum], p) == {}
    ensures Owns(s, table - {inum}, p)
  {
    hide State.Valid, State.UsedBlocks, NoDup, BlocksOf, Owned;
    forall b | b in s.UsedBlocks() && b !in s.fixed ensures exists i :: i in table - {inum} && b in Owned(s.device, (table - {inum})[i], p) {
      var i :| i in table && b in Owned(s.device, table[i], p);
      assert i in table - {inum};
    }
  }

  /** States that differ only in inode bookkeeping have the same owners. */
  lemma {:induction false} OwnsByBlocks(s: State, t: State, table: Table, p: nat)
    requires s.Valid() && t.Valid() && Owns(s, table, p)
    requires t.device == s.device && t.fixed == s.fixed && t.UsedBlocks() == s.UsedBlocks()
    ensures Owns(t, table, p)
  {
    hide State.Valid, State.UsedBlocks, NoDup, BlocksOf;
  }
}
