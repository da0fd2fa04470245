/** The contents of a file as its blocks hold them. */
module FileContents {
  import opened Base
  import opened Disk

  /** The bytes of one block; a block that was never written reads as zeroes. */
  function BlockBytes(dev: Device, b: nat, bs: nat): (r: Bytes)
    ensures |r| == bs
  {
    if b in dev && dev[b].Contents? && |dev[b].bytes| == bs then dev[b].bytes else Zeros(bs)
  }

  function ReadAll(dev: Device, list: seq<nat>, bs: nat): Bytes {
    if list == [] then [] else ReadAll(dev, list[..|list| - 1], bs) + BlockBytes(dev, list[|list| - 1], bs)
  }

  /** A file's contents: its blocks in order, cut or filled out to its size. */
  function FileBytes(dev: Device, list: seq<nat>, size: nat, bs: nat): Bytes {
    var whole := ReadAll(dev, list, bs);
    if size <= |whole| then whole[..size] else whole + Zeros(size - |whole|)
  }

  /** The blocks hold the bytes exactly, each of them full. */
  ghost predicate HoldsFull(dev: Device, list: seq<nat>, data: Bytes, bs: nat) {
    if list == [] then data == []
    else
      && bs <= |data|
      && BlockBytes(dev, list[|list| - 1], bs) == data[|data| - bs..]
      && HoldsFull(dev, list[..|list| - 1], data[..|data| - bs], bs)
  }

  /** Full blocks, and one more holding the last n bytes padded with zeroes. */
  ghost predicate HoldsTail(dev: Device, list: seq<nat>, data: Bytes, n: nat, bs: nat) {
    && list != [] && 0 < n < bs && n <= |data|
    && BlockBytes(dev, list[|list| - 1], bs) == Pad(data[|data| - n..], bs)
    && HoldsFull(dev, list[..|list| - 1], data[..|data| - n], bs)
  }

  /** The blocks hold the bytes, the last block padded with zeroes. */
  ghost predicate HoldsData(dev: Device, list: seq<nat>, data: Bytes, bs: nat) {
    HoldsFull(dev, list, data, bs) || exists n :: HoldsTail(dev, list, data, n, bs)
  }

  lemma {:induction false} HoldsFullReads(dev: Device, list: seq<nat>, data: Bytes, bs: nat)
    requires HoldsFull(dev, list, data, bs)
    ensures ReadAll(dev, list, bs) == data && |data| == |list| * bs
  {
    if list != [] {
      var m := |data| - bs;
      HoldsFullReads(dev, list[..|list| - 1], data[..m], bs);
      assert data == data[..m] + data[m..];
      assert |list| * bs == (|list| - 1) * bs + bs;
    }
  }

  /** Blocks that hold some bytes read back as those bytes, and are as many as the bytes need. */
  lemma {:induction false} HoldsDataReads(dev: Device, list: seq<nat>, data: Bytes, bs: nat)
    requires HoldsData(dev, list, data, bs) && 0 < bs
    ensures FileBytes(dev, list, |data|, bs) == data
    ensures |list| == (|data| + bs - 1) / bs
  {
    if HoldsFull(dev, list, data, bs) {
      HoldsFullReads(dev, list, data, bs);
      CeilOf(|list|, |data|, bs);
    } else {
      var n :| HoldsTail(dev, list, data, n, bs);
      HoldsTailReads(dev, list, data, n, bs);
    }
  }

  lemma {:induction false} HoldsTailReads(dev: Device, list: seq<nat>, data: Bytes, n: nat, bs: nat)
    requires HoldsTail(dev, list, data, n, bs)
    ensures FileBytes(dev, list, |data|, bs) == data
    ensures |list| == (|data| + bs - 1) / bs
  {
    hide BlockBytes, HoldsFull;
    var k, m := |list| - 1, |data| - n;
    HoldsFullReads(dev, list[..k], data[..m], bs);
    var whole := ReadAll(dev, list, bs);
    assert whole == data[..m] + (data[m..] + Zeros(bs - n));
    assert data == data[..m] + data[m..];
    assert whole[..|data|] == data;
    assert |list| * bs == k * bs + bs;
    CeilOf(|list|, |data|, bs);
  }

  lemma {:induction false} CeilOf(k: nat, n: nat, bs: nat)
    requires 0 < bs && n <= k * bs < n + bs
    ensures k == (n + bs - 1) / bs
  {
    var c := (n + bs - 1) / bs;
    assert n + bs - 1 == c * bs + (n + bs - 1) % bs;
    MulMono(c + 1, k, bs);
    MulMono(k + 1, c, bs);
  }

  lemma {:induction false} HoldsFullFrame(dev: Device, now: Device, list: seq<nat>, data: Bytes, bs: nat)
    requires HoldsFull(dev, list, data, bs)
    requires forall b :: b in list ==> BlockBytes(now, b, bs) == BlockBytes(dev, b, bs)
    ensures HoldsFull(now, list, data, bs)
  {
    if list != [] {
      hide BlockBytes;
      HoldsFullFrame(dev, now, list[..|list| - 1], data[..|data| - bs], bs);
    }
  }

  lemma {:induction false} HoldsDataFrame(dev: Device, now: Device, list: seq<nat>, data: Bytes, bs: nat)
    requires HoldsData(dev, list, data, bs)
    requires forall b :: b in list ==> BlockBytes(now, b, bs) == BlockBytes(dev, b, bs)
    ensures HoldsData(now, list, data, bs)
  {
    if HoldsFull(dev, list, data, bs) {
      HoldsFullFrame(dev, now, list, data, bs);
    } else {
      hide BlockBytes, HoldsFull;
      var n :| HoldsTail(dev, list, data, n, bs);
      HoldsFullFrame(dev, now, list[..|list| - 1], data[..|data| - n], bs);
      assert HoldsTail(now, list, data, n, bs);
    }
  }

  /** One more full block, written where none of those before it are. */
  lemma {:induction false} HoldsFullMore(dev: Device, list: seq<nat>, data: Bytes, b: nat, more: Bytes, bs: nat)
    requires HoldsFull(dev, list, data, bs) && b !in list && |more| == bs
    ensures HoldsFull(dev[b := Contents(more)], list + [b], data + more, bs)
  {
    var now := dev[b := Contents(more)];
    HoldsFullFrame(dev, now, list, data, bs);
    var all, whole := list + [b], data + more;
    assert all[..|all| - 1] == list && whole[..|whole| - bs] == data && whole[|whole| - bs..] == more;
  }

  /** A last block, padded with zeroes, behind full ones. */
  lemma {:induction false} HoldsDataLast(dev: Device, list: seq<nat>, data: Bytes, b: nat, more: Bytes, bs: nat)
    requires HoldsFull(dev, list, data, bs) && b !in list && 0 < |more| < bs
    ensures HoldsData(dev[b := Contents(Pad(more, bs))], list + [b], data + more, bs)
  {
    var now := dev[b := Contents(Pad(more, bs))];
    HoldsFullFrame(dev, now, list, data, bs);
    var all, whole, n := list + [b], data + more, |more|;
    assert all[..|all| - 1] == list && whole[..|whole| - n] == data && whole[|whole| - n..] == more;
    assert HoldsTail(now, all, whole, n, bs);
  }
}
