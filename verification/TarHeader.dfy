/**
 An entry's header and its 512-byte block (src/tar.rs:176-201, 361-419 and
 651-698): what is laid out, and what is read back from it.
 */
module TarHeader {
  import opened Base
  import opened TarText
  import opened TarPax

  datatype EntryKind = File | HardLink | Symlink | CharDevice | BlockDevice | Directory | Fifo

  datatype Header = Header(path: Bytes, kind: EntryKind, mode: nat, uid: nat, gid: nat, mtime: nat, size: nat,
                           link: Bytes, major: nat, minor: nat, xattrs: seq<Record>)

  function TypeFlag(k: EntryKind): byte {
    match k
    case File => 48
    case HardLink => 49
    case Symlink => 50
    case CharDevice => 51
    case BlockDevice => 52
    case Directory => 53
    case Fifo => 54
  }

  const PAX_FLAG: byte := 120
  const GLOBAL_FLAG: byte := 103
  const SEVEN_OCTAL := 2097151

  /** The widths the types of the source allow. */
  ghost predicate Typed(h: Header) {
    h.mode < U16_LIMIT && h.uid < U32_LIMIT && h.gid < U32_LIMIT && h.mtime < U32_LIMIT && h.major < U32_LIMIT && h.minor < U32_LIMIT
  }

  // ---- the layout ----

  function Field(v: nat, w: nat): (r: Bytes)
    requires 0 < w
    ensures |r| == w
  {
    Octal(v, w - 1) + [0]
  }

  /** n bytes of a link from one place on, and zeroes past its end. */
  function LinkPart(link: Bytes, from: nat, n: nat): (r: Bytes)
    ensures |r| == n
  {
    seq(n, k requires 0 <= k => if from + k < |link| then link[from + k] else 0)
  }

  const MAGIC: Bytes := [117, 115, 116, 97, 114, 0, 48, 48]

  /** The size a block records: a file's contents, or an extension's. */
  function SizeOf(h: Header, flag: byte): nat {
    if flag == 48 || flag == PAX_FLAG then h.size else 0
  }

  function Front(h: Header, flag: byte): (r: Bytes)
    ensures |r| == 148
  {
    Pad(SplitName(h.path).0, 100) + Field(h.mode, 8) + Field(Min(h.uid, SEVEN_OCTAL), 8) + Field(Min(h.gid, SEVEN_OCTAL), 8)
    + Field(SizeOf(h, flag), 12) + Field(h.mtime, 12)
  }

  /** A link longer than its field runs on under the fields behind it. */
  function Back(h: Header, flag: byte): (r: Bytes)
    ensures |r| == 356
  {
    var prefix := SplitName(h.path).1;
    [flag] + LinkPart(h.link, 0, 100) + MAGIC + LinkPart(h.link, 108, 64)
    + (Octal(h.major, 7) + LinkPart(h.link, 179, 1)) + (Octal(h.minor, 7) + LinkPart(h.link, 187, 1))
    + (prefix + LinkPart(h.link, 188 + |prefix|, 155 - |prefix|)) + LinkPart(h.link, 343, 12)
  }

  function Sum(b: Bytes): (r: nat)
    ensures r <= 255 * |b|
  {
    if b == [] then 0 else Sum(b[..|b| - 1]) + b[|b| - 1]
  }

  const SPACES: Bytes := [32, 32, 32, 32, 32, 32, 32, 32]

  /** The checksum of a block, its own field read as spaces: six octal digits, a NUL and a space. */
  function Checksum(front: Bytes, back: Bytes): (r: Bytes)
    ensures |r| == 8
  {
    Octal(Sum(front + SPACES + back), 6) + [0, 32]
  }

  function HeaderBlock(h: Header, flag: byte): (r: Bytes)
    ensures |r| == BLOCK
  {
    Front(h, flag) + Checksum(Front(h, flag), Back(h, flag)) + Back(h, flag)
  }

  // ---- laying it out ----

  lemma {:induction false} OntoZeros(pre: Bytes, n: nat, data: Bytes)
    requires |data| <= n
    ensures Overwrite(pre + Zeros(n), |pre|, data) == pre + data + Zeros(n - |data|)
  {
  }

  /** Put a text where the block is still zero. */
  method PutText(block: array<byte>, ghost pre: Bytes, at: nat, width: nat, text: Bytes)
    requires at == |pre| && |text| <= width && at + width <= block.Length && block[..] == pre + Zeros(block.Length - at)
    modifies block
    ensures block[..] == pre + Pad(text, width) + Zeros(block.Length - at - width)
  {
    OntoZeros(pre, block.Length - at, text);
    PutBytes(block, at, text);
    SplitZeros(width - |text|, block.Length - at - width);
    assert pre + text + (Zeros(width - |text|) + Zeros(block.Length - at - width)) == pre + (text + Zeros(width - |text|)) + Zeros(block.Length - at - width);
  }

  lemma {:induction false} SplitZeros(a: nat, b: nat)
    ensures Zeros(a + b) == Zeros(a) + Zeros(b)
  {
  }

  /** Put a number in octal, in all but the last byte of its field. */
  method PutOctal(block: array<byte>, ghost pre: Bytes, at: nat, width: nat, value: nat)
    requires 0 < width && at == |pre| && at + width <= block.Length && block[..] == pre + Zeros(block.Length - at)
    modifies block
    ensures block[..] == pre + Field(value, width) + Zeros(block.Length - at - width)
  {
    var text := Formatted(value, width - 1);
    FormattedIsOctal(value, width - 1);
    PutText(block, pre, at, width, text);
    assert Zeros(1) == [0];
  }

  lemma {:induction false} LinkSplit(link: Bytes, from: nat, a: nat, b: nat)
    ensures LinkPart(link, from, a + b) == LinkPart(link, from, a) + LinkPart(link, from + a, b)
  {
  }

  /** Put a text over part of the link. */
  method PutOver(block: array<byte>, ghost pre: Bytes, at: nat, ghost link: Bytes, ghost from: nat, ghost skip: nat, text: Bytes)
    requires at == |pre| + skip && at + |text| <= block.Length && block[..] == pre + LinkPart(link, from, block.Length - |pre|)
    modifies block
    ensures block[..] == pre + LinkPart(link, from, skip) + text + LinkPart(link, from + skip + |text|, block.Length - at - |text|)
  {
    LinkSplit(link, from, skip, block.Length - at);
    LinkSplit(link, from + skip, |text|, block.Length - at - |text|);
    PutBytes(block, at, text);
  }

  /** The part of a block before its checksum. */
  method PutFront(block: array<byte>, h: Header, flag: byte)
    requires block.Length == BLOCK && block[..] == Zeros(BLOCK)
    modifies block
    ensures block[..] == Front(h, flag) + Zeros(364)
  {
    hide Field, Pad, Octal, SplitName;
    assert block[..] == [] + Zeros(BLOCK);
    var (name, prefix) := SplitName(h.path);
    PutText(block, [], 0, 100, name);
    ghost var a := [] + Pad(name, 100);
    PutOctal(block, a, 100, 8, h.mode);
    a := a + Field(h.mode, 8);
    PutOctal(block, a, 108, 8, Min(h.uid, SEVEN_OCTAL));
    a := a + Field(Min(h.uid, SEVEN_OCTAL), 8);
    PutOctal(block, a, 116, 8, Min(h.gid, SEVEN_OCTAL));
    a := a + Field(Min(h.gid, SEVEN_OCTAL), 8);
    PutOctal(block, a, 124, 12, if flag == 48 || flag == PAX_FLAG then h.size else 0);
    a := a + Field(SizeOf(h, flag), 12);
    PutOctal(block, a, 136, 12, h.mtime);
    assert [] + Pad(name, 100) == Pad(name, 100);
  }

  /** The link, as much of it as the block has room for. */
  method PutLink(block: array<byte>, ghost pre: Bytes, link: Bytes)
    requires block.Length == BLOCK && |pre| == 157 && block[..] == pre + Zeros(355)
    modifies block
    ensures block[..] == pre + LinkPart(link, 0, 355)
  {
    var n := Min(|link|, BLOCK - 157);
    PutText(block, pre, 157, 355, link[..n]);
    assert Pad(link[..n], 355) == LinkPart(link, 0, 355);
    assert Zeros(0) == [];
  }

  /** The part of a block after its checksum. */
  method PutBack(block: array<byte>, h: Header, flag: byte, ghost front: Bytes)
    requires block.Length == BLOCK && |front| == 148 && block[..] == front + Zeros(364)
    modifies block
    ensures block[..] == front + Zeros(8) + Back(h, flag)
  {
    hide LinkPart, Octal, SplitName;
    SplitZeros(8, 356);
    assert block[..] == (front + Zeros(8)) + Zeros(356);
    PutText(block, front + Zeros(8), 156, 1, [flag]);
    ghost var a := front + Zeros(8) + Pad([flag], 1);
    PutLink(block, a, h.link);
    PutOver(block, a, 257, h.link, 0, 100, MAGIC[..6]);
    a := a + LinkPart(h.link, 0, 100) + MAGIC[..6];
    PutOver(block, a, 263, h.link, 106, 0, MAGIC[6..]);
    a := a + LinkPart(h.link, 106, 0) + MAGIC[6..];
    FormattedIsOctal(h.major, 7);
    PutOver(block, a, 329, h.link, 108, 64, Formatted(h.major, 7));
    a := a + LinkPart(h.link, 108, 64) + Octal(h.major, 7);
    FormattedIsOctal(h.minor, 7);
    PutOver(block, a, 337, h.link, 179, 1, Formatted(h.minor, 7));
    a := a + LinkPart(h.link, 179, 1) + Octal(h.minor, 7);
    var (name, prefix) := SplitName(h.path);
    PutOver(block, a, 345, h.link, 187, 1, prefix);
    a := a + LinkPart(h.link, 187, 1) + prefix;
    LinkSplit(h.link, 188 + |prefix|, 155 - |prefix|, 12);
    assert block[..] == a + (LinkPart(h.link, 188 + |prefix|, 155 - |prefix|) + LinkPart(h.link, 343, 12));
    BackIs(h, flag, front, a);
  }

  lemma {:induction false} BackIs(h: Header, flag: byte, front: Bytes, a: Bytes)
    requires var (name, prefix) := SplitName(h.path);
             a == front + Zeros(8) + Pad([flag], 1) + LinkPart(h.link, 0, 100) + MAGIC[..6] + LinkPart(h.link, 106, 0) + MAGIC[6..]
                  + LinkPart(h.link, 108, 64) + Octal(h.major, 7) + LinkPart(h.link, 179, 1) + Octal(h.minor, 7) + LinkPart(h.link, 187, 1) + prefix
    ensures var prefix := SplitName(h.path).1;
            a + (LinkPart(h.link, 188 + |prefix|, 155 - |prefix|) + LinkPart(h.link, 343, 12)) == front + Zeros(8) + Back(h, flag)
  {
    hide LinkPart, Octal, SplitName;
    var prefix := SplitName(h.path).1;
    assert LinkPart(h.link, 106, 0) == [] && Zeros(0) == [];
    var l0, l1, l2, l3, l4, l5 := LinkPart(h.link, 0, 100), LinkPart(h.link, 108, 64), LinkPart(h.link, 179, 1), LinkPart(h.link, 187, 1),
                                  LinkPart(h.link, 188 + |prefix|, 155 - |prefix|), LinkPart(h.link, 343, 12);
    var o1, o2 := Octal(h.major, 7), Octal(h.minor, 7);
    var base, first := front + Zeros(8), [flag] + l0 + MAGIC + l1;
    assert base + Pad([flag], 1) + l0 + MAGIC[..6] + [] + MAGIC[6..] + l1 == base + first;
    hide Pad;
    RegroupBack(base, first, o1, l2, o2, l3, prefix, l4, l5);
  }

  lemma {:induction false} RegroupBack(base: Bytes, first: Bytes, o1: Bytes, l2: Bytes, o2: Bytes, l3: Bytes, prefix: Bytes, l4: Bytes, l5: Bytes)
    ensures base + first + o1 + l2 + o2 + l3 + prefix + (l4 + l5) == base + (first + (o1 + l2) + (o2 + l3) + (prefix + l4) + l5)
  {
    assert base + first + o1 + l2 == base + (first + (o1 + l2));
    assert base + (first + (o1 + l2)) + o2 + l3 == base + (first + (o1 + l2) + (o2 + l3));
  }

  /** The sum of a block's bytes. */
  method SumBytes(block: array<byte>) returns (sum: nat)
    ensures sum == Sum(block[..])
  {
    sum := 0;
    for i := 0 to block.Length
      invariant sum == Sum(block[..i])
    {
      sum := sum + block[i];
      assert block[..i + 1][..i] == block[..i];
    }
    assert block[..block.Length] == block[..];
  }

  lemma {:induction false} OverMiddle(front: Bytes, was: Bytes, back: Bytes, now: Bytes)
    requires |was| == |now|
    ensures Overwrite(front + was + back, |front|, now) == front + now + back
  {
  }

  /** Write a header's fields into a block of zeroes. */
  method Encode(h: Header, flag: byte) returns (r: Bytes)
    ensures r == HeaderBlock(h, flag)
  {
    hide Front, Back, Sum, Octal, Overwrite;
    var block := new byte[BLOCK](_ => 0);
    assert block[..] == Zeros(BLOCK);
    PutFront(block, h, flag);
    ghost var front, back := Front(h, flag), Back(h, flag);
    PutBack(block, h, flag, front);
    // The checksum is computed with its own field read as spaces.
    OverMiddle(front, Zeros(8), back, SPACES);
    PutBytes(block, 148, SPACES);
    var sum := SumBytes(block);
    var text := Formatted(sum, 6);
    FormattedIsOctal(sum, 6);
    OverMiddle(front, SPACES, back, text + [0, 32]);
    PutBytes(block, 148, text + [0, 32]);
    r := block[..];
  }
}
