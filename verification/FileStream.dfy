/** Laying one file down from an archive stream (src/volume.rs:1142-1221). */
module FileStream {
  import opened Base
  import opened Disk
  import opened BlockWalk
  import opened Bitmaps
  import opened Allocation
  import opened Allocators
  import opened MapSpace
  import opened IndirectMap
  import opened PointerMap
  import opened BlockMap
  import opened ExtentTree
  import opened MapCost
  import opened MapWriter
  import opened Resolve
  import opened Ownership
  import opened FileContents
  import opened FileData

  const CHUNK := 64 * 1024
  /** How many bytes are gathered before they are streamed instead. */
  const INLINE_LIMIT := 1024 * 1024

  /** What is left of an archive entry's contents; a read hands over some of it, as much as has arrived. */
  class Body {
    var rest: Bytes

    constructor (rest: Bytes)
      ensures this.rest == rest
    {
      this.rest := rest;
    }

    method Read(limit: nat) returns (chunk: Bytes)
      requires 0 < limit
      modifies this
      ensures old(rest) == chunk + rest && |chunk| <= limit
      ensures chunk == [] <==> old(rest) == []
    {
      if rest == [] {
        return [];
      }
      var n :| 1 <= n <= |rest| && n <= limit;
      chunk := rest[..n];
      rest := rest[n..];
    }
  }

  /** A stream part way down: `done` bytes in full blocks of the list. */
  ghost predicate Streamed(s: State, t: State, bs: nat, list: seq<nat>, done: Bytes) {
    Grown(s, t, list) && ZeroTaken(t) && HoldsFull(t.device, list, done, bs) && HOLE !in list
  }

  /** One more block taken and written. */
  lemma {:induction false} StreamedMore(s: State, t: State, bs: nat, list: seq<nat>, done: Bytes, b: nat, more: Bytes, before: seq<nat>, blocks: seq<nat>)
    requires Grown(s, t, before + blocks) && ZeroTaken(t) && HoldsFull(t.device, list, done, bs)
    requires |list| < |before + blocks| && list == (before + blocks)[..|list|] && b == (before + blocks)[|list|] && |more| == bs
    ensures var u := t.(device := t.device[b := Contents(more)]);
            Grown(s, u, before + blocks) && ZeroTaken(u) && HoldsFull(u.device, list + [b], done + more, bs)
  {
    hide Grown, HoldsFull, NoDup;
    GrownParts(s, t, before + blocks);
    FreshAt(before + blocks, |list|);
    GrownWrite(s, t, before + blocks, b, Contents(more));
    HoldsFullMore(t.device, list, done, b, more, bs);
  }

  /** How many of n bytes make full blocks. */
  function Full(n: nat, bs: nat): (r: nat)
    requires 0 < bs
    ensures r <= n < r + bs
  {
    assert n == n / bs * bs + n % bs;
    n / bs * bs
  }

  /** Write each full block's worth of the pending bytes to the next of the blocks taken. */
  method WriteRun(fs: Filesystem, alloc: Allocator, bs: nat, list: seq<nat>, blocks: seq<nat>, pending: Bytes, ghost s: State, ghost done: Bytes)
    requires 0 < bs && |blocks| == |pending| / bs
    requires Grown(s, alloc.Now(fs), list + blocks) && ZeroTaken(alloc.Now(fs)) && HoldsFull(fs.device, list, done, bs)
    modifies fs`device, fs`log
    ensures Grown(s, alloc.Now(fs), list + blocks) && ZeroTaken(alloc.Now(fs))
    ensures HoldsFull(fs.device, list + blocks, done + pending[..Full(|pending|, bs)], bs)
    ensures fs.log == old(fs.log) + blocks
  {
    hide Grown, HoldsFull, State.Valid, ZeroTaken, State.UsedBlocks, NoDup;
    ghost var all: seq<nat> := list + blocks;
    var n := |blocks|;
    assert n * bs == Full(|pending|, bs);
    assert pending[..0] == [] && done + [] == done && all[..|list|] == list;
    for i := 0 to n
      invariant Grown(s, alloc.Now(fs), all) && ZeroTaken(alloc.Now(fs)) && i * bs <= |pending|
      invariant HoldsFull(fs.device, all[..|list| + i], done + pending[..i * bs], bs) && fs.log == old(fs.log) + blocks[..i]
    {
      MulMono(i + 1, n, bs);
      assert (i + 1) * bs == i * bs + bs;
      var piece := pending[i * bs..(i + 1) * bs];
      NextPiece(done, pending, i * bs, (i + 1) * bs, all, |list| + i);
      StreamedMore(s, alloc.Now(fs), bs, all[..|list| + i], done + pending[..i * bs], blocks[i], piece, list, blocks);
      fs.WriteBlock(blocks[i], Contents(piece));
      assert blocks[..i + 1] == blocks[..i] + [blocks[i]];
    }
    assert all[..|all|] == all && blocks[..n] == blocks;
  }

  lemma {:induction false} NextPiece(done: Bytes, pending: Bytes, from: nat, to: nat, all: seq<nat>, k: nat)
    requires from <= to <= |pending| && k < |all|
    ensures done + pending[..from] + pending[from..to] == done + pending[..to]
    ensures all[..k] + [all[k]] == all[..k + 1]
  {
  }

  /** Take as many blocks as there are full blocks' worth of bytes pending, and write them. */
  method PutFull(fs: Filesystem, alloc: Allocator, bs: nat, list: seq<nat>, pending: Bytes, ghost s: State, ghost done: Bytes)
    returns (r: Result<seq<nat>>)
    requires 0 < bs && Streamed(s, alloc.Now(fs), bs, list, done)
    modifies alloc`blockCache, alloc`dirtyBlock, fs`descs, fs`freeBlocks, fs`device, fs`log
    ensures r.Ok? ==> Streamed(s, alloc.Now(fs), bs, r.value, done + pending[..Full(|pending|, bs)])
    ensures r.Err? ==> r == Err(NoSpace) && s.freeBlocks < |list| + |pending| / bs
    ensures r.Ok? ==> list <= r.value && fs.log == old(fs.log) + r.value[|list|..]
  {
    hide Grown, HoldsFull, State.Valid, ZeroTaken, State.UsedBlocks, NoDup;
    ghost var t := alloc.Now(fs);
    var full := |pending| / bs;
    GrownParts(s, t, list);
    if full == 0 {
      assert full * bs == 0;
      assert pending[..0] == [] && done + [] == done;
      return Ok(list);
    }
    var goal := if list == [] then 0 else list[|list| - 1];
    var blocks := alloc.AllocBlocks(fs, goal, full);
    if blocks.Err? {
      ghost var own := NoLeaves(t, alloc.Now(fs), full);
      GrownParts(t, alloc.Now(fs), own);
      return Err(blocks.error);
    }
    GrownTookBlocks(t, alloc.Now(fs), blocks.value);
    TakenNonZero(t, alloc.Now(fs), blocks.value);
    GrownTrans(s, t, alloc.Now(fs), list, blocks.value);
    TookSameDevice(t, alloc.Now(fs), blocks.value);
    WriteRun(fs, alloc, bs, list, blocks.value, pending, s, done);
    NoHoles(list, blocks.value);
    r := Ok(list + blocks.value);
  }

  lemma {:induction false} TookSameDevice(s: State, t: State, taken: seq<nat>)
    requires TookBlocks(s, t, taken)
    ensures t.device == s.device
  {
  }

  /** Read until the contents end, or until there is too much to gather. */
  method Gather(body: Body) returns (pending: Bytes, whole: bool)
    modifies body
    ensures old(body.rest) == pending + body.rest
    ensures whole ==> body.rest == []
    ensures whole <==> |pending| < INLINE_LIMIT
  {
    pending := [];
    while |pending| < INLINE_LIMIT
      invariant old(body.rest) == pending + body.rest
      decreases |body.rest|
    {
      var chunk := body.Read(CHUNK);
      if chunk == [] {
        return pending, true;
      }
      pending := pending + chunk;
    }
    whole := false;
  }

  /** Write a last partial block, padded with zeroes. */
  method PutTail(fs: Filesystem, alloc: Allocator, bs: nat, list: seq<nat>, pending: Bytes, ghost s: State, ghost done: Bytes)
    returns (r: Result<seq<nat>>)
    requires 0 < |pending| < bs && Streamed(s, alloc.Now(fs), bs, list, done)
    modifies alloc`blockCache, alloc`dirtyBlock, fs`descs, fs`freeBlocks, fs`device, fs`log
    ensures r.Ok? ==> StreamedAll(s, alloc.Now(fs), bs, r.value, done + pending)
    ensures r.Err? ==> r == Err(NoSpace) && s.freeBlocks < |list| + 1
    ensures r.Ok? ==> list <= r.value && fs.log == old(fs.log) + r.value[|list|..]
  {
    hide Grown, HoldsFull, HoldsData, State.Valid, ZeroTaken, State.UsedBlocks, NoDup, FirstFree, BlockOrder;
    ghost var t := alloc.Now(fs);
    GrownParts(s, t, list);
    var goal := if list == [] then 0 else list[|list| - 1];
    var block := TakeBlock(fs, alloc, goal);
    if block.Err? {
      GrownParts(t, alloc.Now(fs), []);
      return Err(block.error);
    }
    var b := block.value;
    GrownTrans(s, t, alloc.Now(fs), list, [b]);
    GrownParts(s, alloc.Now(fs), list + [b]);
    FreshAt(list + [b], |list|);
    assert (list + [b])[..|list|] == list;
    GrownWrite(s, alloc.Now(fs), list + [b], b, Contents(Pad(pending, bs)));
    HoldsDataLast(fs.device, list, done, b, pending, bs);
    fs.WriteBlock(b, Contents(Pad(pending, bs)));
    StillTaken(t, alloc.Now(fs));
    r := Ok(list + [b]);
  }

  /** A stream all the way down. */
  ghost predicate StreamedAll(s: State, t: State, bs: nat, list: seq<nat>, data: Bytes) {
    Grown(s, t, list) && ZeroTaken(t) && HoldsData(t.device, list, data, bs) && HOLE !in list
  }

  /** Stream the contents down: full blocks as they fill, and the last one padded. */
  method StreamDown(fs: Filesystem, alloc: Allocator, bs: nat, head: Bytes, body: Body)
    returns (r: Result<seq<nat>>, size: nat)
    requires alloc.Now(fs).Valid() && ZeroTaken(alloc.Now(fs)) && 0 < bs
    modifies body, alloc`blockCache, alloc`dirtyBlock, fs`descs, fs`freeBlocks, fs`device, fs`log
    ensures r.Ok? ==> body.rest == [] && size == |head + old(body.rest)|
    ensures r.Ok? ==> StreamedAll(old(alloc.Now(fs)), alloc.Now(fs), bs, r.value, head + old(body.rest))
    ensures r.Ok? ==> fs.log == old(fs.log) + r.value
    ensures r.Err? ==> r == Err(NoSpace) && old(alloc.Now(fs)).freeBlocks < CeilDiv(|head + old(body.rest)|, bs)
  {
    hide Grown, HoldsFull, HoldsData, State.Valid, ZeroTaken, State.UsedBlocks, CeilDiv;
    ghost var s := alloc.Now(fs);
    var pending: Bytes := head;
    var list: seq<nat> := [];
    size := 0;
    ghost var done: Bytes := [];
    GrownNone(s);
    EmptyHolds(fs.device, bs);
    while true
      invariant Streamed(s, alloc.Now(fs), bs, list, done) && fs.log == old(fs.log) + list
      invariant head + old(body.rest) == done + pending + body.rest && size == |done|
      decreases |body.rest|
    {
      var n := Full(|pending|, bs);
      FitsIn(fs.device, list, done, |pending|, |head + old(body.rest)|, bs);
      var put := PutFull(fs, alloc, bs, list, pending, s, done);
      if put.Err? {
        return Err(put.error), size;
      }
      assert list + put.value[|list|..] == put.value;
      list := put.value;
      size := size + n;
      Passed(done, pending, body.rest, n);
      done, pending := done + pending[..n], pending[n..];
      var chunk := body.Read(CHUNK);
      if chunk == [] {
        break;
      }
      assert done + pending + (chunk + body.rest) == done + (pending + chunk) + body.rest;
      pending := pending + chunk;
    }
    if pending == [] {
      assert done + [] + [] == done;
      FullIsData(fs.device, list, done, bs);
      return Ok(list), size;
    }
    size := size + |pending|;
    assert done + pending + [] == done + pending;
    FitsIn(fs.device, list, done, |pending|, |head + old(body.rest)|, bs);
    r := PutTail(fs, alloc, bs, list, pending, s, done);
    assert r.Ok? ==> list + r.value[|list|..] == r.value;
  }

  /** Full blocks, what more is pending, and a partial block if anything is: no more than the whole needs. */
  lemma {:induction false} FitsIn(dev: Device, list: seq<nat>, done: Bytes, more: nat, total: nat, bs: nat)
    requires 0 < bs && HoldsFull(dev, list, done, bs) && |done| + more <= total
    ensures |list| + more / bs <= CeilDiv(total, bs) && (0 < more ==> |list| + 1 <= CeilDiv(total, bs))
  {
    hide HoldsFull, CeilDiv;
    HoldsFullReads(dev, list, done, bs);
    hide *;
    FitCount(|list|, more, total, bs);
  }

  lemma {:induction false} FitCount(k: nat, more: nat, total: nat, bs: nat)
    requires 0 < bs && k * bs + more <= total
    ensures k + more / bs <= CeilDiv(total, bs) && (0 < more ==> k + 1 <= CeilDiv(total, bs))
  {
    hide CeilDiv;
    ChunkCount(total, bs, k);
    var n := k + more / bs;
    assert n * bs == k * bs + more / bs * bs;
    assert more / bs * bs <= more;
    if 0 < n {
      ChunkCount(total, bs, n - 1);
    }
  }

  lemma {:induction false} Passed(done: Bytes, pending: Bytes, rest: Bytes, n: nat)
    requires n <= |pending|
    ensures done + pending + rest == done + pending[..n] + pending[n..] + rest
  {
  }

  lemma {:induction false} EmptyHolds(dev: Device, bs: nat)
    ensures HoldsFull(dev, [], [], bs)
  {
  }

  lemma {:induction false} FullIsData(dev: Device, list: seq<nat>, data: Bytes, bs: nat)
    requires HoldsFull(dev, list, data, bs)
    ensures HoldsData(dev, list, data, bs)
  {
  }

  /** Put blocks streamed into an empty file under its map, and record its size. */
  method Adopt(v: Volume, inum: nat, list: seq<nat>, size: nat, ghost s: State, ghost data: Bytes) returns (r: Result<()>)
    requires VolumeOk(s, v.inodes, v.blockSize) && inum in v.inodes && DataIs(s.device, v.inodes[inum].map_, v.blockSize / 4, [])
    requires StreamedAll(s, v.Now(), v.blockSize, list, data) && size == |data|
    modifies v`inodes, v.alloc`blockCache, v.alloc`dirtyBlock, v.fs`descs, v.fs`freeBlocks, v.fs`device, v.fs`log
    ensures r.Ok? ==> v.Valid() && Rewrote(s, v.Now(), old(v.inodes), v.inodes, inum, v.blockSize, list, data)
    ensures r.Ok? ==> Spares(old(v.fs.log), v.fs.log, list)
    ensures r.Err? ==> r.error == NoSpace || r.error == Unsupported
    ensures Ample(s.freeBlocks, old(v.inodes)[inum].usesExtents, v.blockSize, 0, |list|) ==>
              r.Ok? && Spent(s, v.Now(), old(v.inodes)[inum].usesExtents, v.blockSize, 0, |list|)
  {
    hide Ample, Spent, MapBlocks, Logs, Spares, Resolves, Changed, State.Valid, State.UsedBlocks, WalkMap, DataOf, MetaOf, NoDup, HoldsData, DataIs, MapIs, Elems, ZeroTaken, Grown, Owns, Addressable;
    var inode := v.inodes[inum];
    var bs := v.blockSize;
    ghost var p := bs / 4;
    ghost var t, metas := v.Now(), MetaOf(WalkMap(s.device, inode.map_, p));
    GrownParts(s, t, list);
    AmpleAfter(s.freeBlocks, t.freeBlocks, inode.usesExtents, bs, 0, |list|);
    GrownAddressable(s, t, list);
    OldMapStays(s, t, v.inodes, inum, p, list);
    var written, own := WriteBlockList(v.fs, v.alloc, bs, inode.map_, inode.usesExtents, list);
    if written.Err? {
      return Err(written.error);
    }
    var now := inode.(map_ := written.value.inodeMap, size := size, blocks := Sectors(|list| + written.value.metaUsed, bs));
    ghost var stored := Stored(list, written.value);
    assert Sectored(inode, now, data, stored, bs);
    AdoptedAs(s, t, v.Now(), p, bs, metas, data, stored, own);
    FreeAfter(t, v.Now(), Elems(metas), Elems(own), Elems(own));
    FewElems(own);
    SpentAll(s, t, v.Now(), inode.usesExtents, bs, 0, |list|, |own|);
    LogsSpare(old(v.fs.log), v.fs.log, own, list);
    hide StoredAs, Rewrote, Sectored, VolumeOk;
    Settled(s, v.Now(), v.inodes, inum, now, bs, [], data, stored, own);
    v.inodes := v.inodes[inum := now];
    r := Ok(());
  }

  /** Blocks taken fresh are no part of the map a file has. */
  lemma {:induction false} OldMapStays(s: State, t: State, table: Table, inum: nat, p: nat, list: seq<nat>)
    requires s.Valid() && Owns(s, table, p) && inum in table && DataIs(s.device, table[inum].map_, p, [])
    requires Grown(s, t, list)
    ensures WalkMap(t.device, table[inum].map_, p) == WalkMap(s.device, table[inum].map_, p)
    ensures Elems(MetaOf(WalkMap(s.device, table[inum].map_, p))) !! s.fixed
    ensures Elems(MetaOf(WalkMap(s.device, table[inum].map_, p))) <= s.UsedBlocks()
  {
    hide State.Valid, State.UsedBlocks, WalkMap, DataIs, NoDup, AclBlock, MetaOf, Elems, BlocksOf, Owned;
    OwnBlocks(s, table, inum, p, []);
    GrownApart(s, t, list);
    ChangedGrown(s, t, list);
    MetasStay(s, t, table[inum].map_, p, {}, Elems(list), Elems(list));
  }

  /** Streaming a file and mapping it leaves what gathering it and writing it leaves. */
  lemma {:induction false} AdoptedAs(s: State, t: State, u: State, p: nat, bs: nat, metas: seq<nat>, data: Bytes, r: Stored, own: seq<nat>)
    requires Grown(s, t, r.list) && HoldsData(t.device, r.list, data, bs) && HOLE !in r.list
    requires s.Valid() && Elems(metas) <= s.UsedBlocks()
    requires Changed(t, u, Elems(metas), Elems(own), Elems(own)) && NoDup(own)
    requires MapIs(u.device, r.written.inodeMap, p, r.list, own) && r.written.metaUsed == |own|
    requires 0 < p && Resolves(u.device, r.written.inodeMap, p, r.list) && (|r.list| <= INLINE_MAX ==> own == [])
    ensures StoredAs(s, u, p, bs, [], metas, data, r, own) && Elems(own) !! Elems(r.list)
  {
    hide Resolves, State.Valid, State.UsedBlocks, NoDup, HoldsData, MapIs;
    GrownParts(s, t, r.list);
    GrownApart(s, t, r.list);
    ChangedGrown(s, t, r.list);
    ChangedTrans(s, t, u, {}, Elems(r.list), Elems(r.list), Elems(metas), Elems(own), Elems(own));
    ChangedParts(t, u, Elems(metas), Elems(own), Elems(own));
    hide Changed;
    ContentsStay(t, u, r.list, data, bs, Elems(own));
    assert Elems<nat>([]) == {} && Elems<nat>([]) - Elems(r.list) + Elems(metas) == {} + Elems(metas);
    assert Elems(r.list) - Elems<nat>([]) + Elems(own) == Elems(r.list) + Elems(own);
  }

  lemma {:induction false} NoContents(dev: Device, list: seq<nat>, bs: nat)
    requires HoldsData(dev, list, [], bs) && 0 < bs
    ensures list == []
  {
    hide HoldsData;
    HoldsDataReads(dev, list, [], bs);
    DivModUnique(bs - 1, 0, bs - 1, bs);
  }

  /**
   Lay one file's contents down from the archive. Whichever way they go, the
   file comes to hold them in as many blocks as they need, each of them written
   exactly once.
   */
  method UnpackFile(v: Volume, inum: nat, body: Body) returns (r: Result<()>, ghost list: seq<nat>)
    requires v.Valid() && v.HasBlocks(inum, [])
    modifies body, v`inodes, v.alloc`blockCache, v.alloc`dirtyBlock, v.fs`descs, v.fs`freeBlocks, v.fs`device, v.fs`log
    ensures r.Ok? ==> body.rest == [] && v.Valid()
                      && Rewrote(old(v.Now()), v.Now(), old(v.inodes), v.inodes, inum, v.blockSize, list, old(body.rest))
    ensures r.Ok? ==> WroteOnce(old(v.fs.log), v.fs.log, list)
    ensures r.Err? ==> r.error == NoSpace || r.error == Unsupported
    ensures old(v.AmpleFor(inum, 0, CeilDiv(|body.rest|, v.blockSize))) ==>
              r.Ok? && Spent(old(v.Now()), v.Now(), old(v.inodes)[inum].usesExtents, v.blockSize, 0, CeilDiv(|old(body.rest)|, v.blockSize))
  {
    hide Ample, Spent, CeilDiv, DataIs, Rewrote, State.Valid, WroteOnce, Owns;
    list := [];
    var pending, whole := Gather(body);
    if whole {
      assert pending + [] == pending;
      assert pending == old(body.rest);
      r, list := v.WriteData(inum, pending, []);
      return;
    }
    assert pending + body.rest == old(body.rest);
    r, list := StreamFile(v, inum, pending, body);
  }

  /** Stream contents into an empty file. */
  method FillFile(v: Volume, inum: nat, head: Bytes, body: Body) returns (r: Result<()>, ghost list: seq<nat>)
    requires v.Valid() && v.HasBlocks(inum, [])
    modifies body, v`inodes, v.alloc`blockCache, v.alloc`dirtyBlock, v.fs`descs, v.fs`freeBlocks, v.fs`device, v.fs`log
    ensures r.Ok? ==> body.rest == [] && v.Valid()
                      && Rewrote(old(v.Now()), v.Now(), old(v.inodes), v.inodes, inum, v.blockSize, list, head + old(body.rest))
    ensures r.Ok? ==> WroteOnce(old(v.fs.log), v.fs.log, list)
    ensures r.Err? ==> r.error == NoSpace || r.error == Unsupported
    ensures old(v.AmpleFor(inum, 0, CeilDiv(|head + body.rest|, v.blockSize))) ==>
              r.Ok? && Spent(old(v.Now()), v.Now(), old(v.inodes)[inum].usesExtents, v.blockSize, 0, CeilDiv(|head + old(body.rest)|, v.blockSize))
  {
    hide Ample, Spent, CeilDiv, VolumeOk, DataIs, Rewrote, Grown, State.Valid, ZeroTaken, HoldsData, HoldsFull, WroteOnce, Spares;
    ghost var s, table, ext := v.Now(), v.inodes, v.inodes[inum].usesExtents;
    ghost var data, log := head + body.rest, v.fs.log;
    list := [];
    VolumeParts(s, v.inodes, v.blockSize);
    NothingNeeds(s.freeBlocks, ext, v.blockSize, CeilDiv(|data|, v.blockSize));
    var blocks, size := StreamDown(v.fs, v.alloc, v.blockSize, head, body);
    if blocks.Err? {
      return Err(blocks.error), list;
    }
    list := blocks.value;
    ghost var during := v.Now();
    AsNeeded(during.device, list, data, v.blockSize);
    r := Adopt(v, inum, blocks.value, size, s, data);
    if r.Ok? {
      GrownParts(s, during, list);
      OnceEach(log, list, v.fs.log);
    }
  }

  /** Too much to gather: create the file empty, then stream. */
  method StreamFile(v: Volume, inum: nat, head: Bytes, body: Body) returns (r: Result<()>, ghost list: seq<nat>)
    requires v.Valid() && v.HasBlocks(inum, [])
    modifies body, v`inodes, v.alloc`blockCache, v.alloc`dirtyBlock, v.fs`descs, v.fs`freeBlocks, v.fs`device, v.fs`log
    ensures r.Ok? ==> body.rest == [] && v.Valid()
                      && Rewrote(old(v.Now()), v.Now(), old(v.inodes), v.inodes, inum, v.blockSize, list, head + old(body.rest))
    ensures r.Ok? ==> WroteOnce(old(v.fs.log), v.fs.log, list)
    ensures r.Err? ==> r.error == NoSpace || r.error == Unsupported
    ensures old(v.AmpleFor(inum, 0, CeilDiv(|head + body.rest|, v.blockSize))) ==>
              r.Ok? && Spent(old(v.Now()), v.Now(), old(v.inodes)[inum].usesExtents, v.blockSize, 0, CeilDiv(|head + old(body.rest)|, v.blockSize))
  {
    hide Ample, Spent, CeilDiv, VolumeOk, DataIs, Rewrote, State.Valid, WroteOnce;
    ghost var s0, table0, ext := v.Now(), v.inodes, v.inodes[inum].usesExtents;
    ghost var data := head + body.rest;
    VolumeParts(s0, v.inodes, v.blockSize);
    NothingNeeds(s0.freeBlocks, ext, v.blockSize, CeilDiv(|data|, v.blockSize));
    r, list := v.WriteData(inum, [], []);
    if r.Err? {
      return;
    }
    ghost var s, table := v.Now(), v.inodes;
    SpentNothing(s0, s, ext, v.blockSize);
    AmpleMore(s0.freeBlocks, s.freeBlocks, ext, v.blockSize, CeilDiv(|data|, v.blockSize));
    NowEmpty(s0, s, table0, table, inum, v.blockSize, list);
    assert v.fs.log == old(v.fs.log) by { assert old(v.fs.log) + [] == old(v.fs.log); }
    r, list := FillFile(v, inum, head, body);
    if r.Ok? {
      SpentTwice(s0, s, v.Now(), ext, v.blockSize, CeilDiv(|data|, v.blockSize));
      RewroteTwice(s0, s, v.Now(), table0, table, v.inodes, inum, v.blockSize, [], list, [], data);
    }
  }

  lemma {:induction false} AsNeeded(dev: Device, list: seq<nat>, data: Bytes, bs: nat)
    requires HoldsData(dev, list, data, bs) && 0 < bs
    ensures |list| == CeilDiv(|data|, bs)
  {
    hide HoldsData;
    HoldsDataReads(dev, list, data, bs);
  }

  /** A file rewritten with nothing is empty. */
  lemma {:induction false} NowEmpty(s: State, t: State, table: Table, table': Table, inum: nat, bs: nat, list: seq<nat>)
    requires inum in table && 0 < bs && Rewrote(s, t, table, table', inum, bs, list, [])
    ensures list == [] && inum in table' && DataIs(t.device, table'[inum].map_, bs / 4, []) && table'[inum].usesExtents == table[inum].usesExtents
  {
    hide DataIs, Kept, HoldsData, NoDup, BlocksOf, AclBlock, Sectors, Resolves;
    NoContents(t.device, list, bs);
  }

  lemma {:induction false} NothingNeeds(free: nat, usesExtents: bool, bs: nat, n: nat)
    requires 1024 <= bs
    ensures Ample(free, usesExtents, bs, 0, CeilDiv(0, bs))
    ensures CeilDiv(0, bs) == 0 && (Ample(free, usesExtents, bs, 0, n) ==> n <= free)
  {
    DivModUnique(bs - 1, 0, bs - 1, bs);
    hide MapLimit;
  }

  lemma {:induction false} SpentNothing(s: State, t: State, usesExtents: bool, bs: nat)
    requires 24 <= bs
    ensures Spent(s, t, usesExtents, bs, 0, 0) ==> s.freeBlocks <= t.freeBlocks
  {
  }

  lemma {:induction false} AmpleMore(free: nat, now: nat, usesExtents: bool, bs: nat, n: nat)
    requires 24 <= bs && free <= now
    ensures Ample(free, usesExtents, bs, 0, n) ==> Ample(now, usesExtents, bs, 0, n) && n <= now
  {
  }

  lemma {:induction false} SpentTwice(s: State, t: State, u: State, usesExtents: bool, bs: nat, n: nat)
    requires 24 <= bs
    ensures s.freeBlocks <= t.freeBlocks && Spent(t, u, usesExtents, bs, 0, n) ==> Spent(s, u, usesExtents, bs, 0, n)
  {
    hide MapBlocks;
  }

  /** Emptying a file and then writing it is writing it. */
  lemma {:induction false} RewroteTwice(s: State, t: State, u: State, a: Table, b: Table, c: Table, inum: nat, bs: nat,
                                        list: seq<nat>, list': seq<nat>, data: Bytes, data': Bytes)
    requires inum in a && 0 < bs && Rewrote(s, t, a, b, inum, bs, list, data)
    requires Rewrote(t, u, b, c, inum, bs, list', data')
    ensures Rewrote(s, u, a, c, inum, bs, list', data')
  {
    hide DataIs, NoDup, HoldsData, BlocksOf, Sectors, AclBlock;
    var p := bs / 4;
    assert Kept(s, u, a, inum, p) by {
      forall i, x | i in a && i != inum && x in Owned(s.device, a[i], p) ensures SameAt(s.device, u.device, x) {
        assert b[i] == a[i];
        assert forall y :: y in Owned(s.device, a[i], p) ==> SameAt(s.device, t.device, y);
        BlocksFrame(s.device, t.device, a[i], p);
        assert SameAt(t.device, u.device, x);
        SameAtTrans(s.device, t.device, u.device, x);
      }
    }
  }
}
