/**
 What the tree of names asks of the disk (src/alloc.rs:87-237, src/map.rs:96-140,
 src/index.rs:65-191): inodes, blocks, a place in a directory, and whether a
 directory's index finds a name that is in it.
 */
module DiskAnswers {
  import opened Base
  import opened Namespace
  import opened NameOps

  /** What the disk answers when it has run out of something. */
  predicate Shortage(e: Error) {
    e == NoInodes || e == NoSpace || e == Unsupported
  }

  /**
   How a volume is laid out: the free blocks enough for a file of n blocks and its
   map, the most blocks a map is sure to hold, the most names an index is sure to.
   */
  datatype Layout = Layout(blockSize: nat, takes: nat -> nat, mostBlocks: nat, mostNames: nat) {
    ghost predicate Valid() {
      0 < blockSize && takes(0) == 0 && forall a, b :: a <= b ==> takes(a) <= takes(b)
    }

    /** How many blocks contents of so many bytes need. */
    function BlocksOf(bytes: nat): nat
      requires 0 < blockSize
    {
      (bytes + blockSize - 1) / blockSize
    }
  }

  /** Enough blocks are free for a file to be given n, and its map. */
  predicate CanTake(layout: Layout, blocks: nat, n: nat) {
    n <= layout.mostBlocks && layout.takes(n) <= blocks
  }

  /** How many blocks a directory of so many, with so many names, may have once it has one name more. */
  function Spread(span: nat, names: nat): nat {
    if span + 1 < 2 * names + 3 then 2 * names + 3 else span + 1
  }

  /** A directory known to have at most so many blocks has a place for one name more. */
  predicate RoomIn(layout: Layout, blocks: nat, span: nat, names: nat) {
    names + 1 <= layout.mostNames && CanTake(layout, blocks, Spread(span, names))
  }

  /** How many names a directory has. */
  function Names(fs: Fs, d: nat): nat {
    |EntriesAt(fs, d)|
  }

  // ---- names an index does not find ----

  /** For each directory, the names in it that a search of its index does not find. */
  type Hides = map<nat, set<Name>>

  /**
   A volume as its names stand: the tree, what indices hide in it, at least how many
   inodes and blocks are free, and the directories known to have at most so many blocks.
   */
  datatype Standing = Standing(nodes: Fs, hides: Hides, inodes: nat, blocks: nat, spans: map<nat, nat>)

  /** There is a place for a path's last name in its directory. */
  predicate HasRoom(layout: Layout, s: Standing, path: Path) {
    match ParentDir(s.nodes, path)
    case Err(_) => false
    case Ok(d) => d in s.spans && RoomIn(layout, s.blocks, s.spans[d], Names(s.nodes, d))
  }

  function HiddenIn(hides: Hides, d: nat): set<Name> {
    if d in hides then hides[d] else {}
  }

  /** The path leads somewhere, and its directory's index does not find its last name. */
  predicate HiddenAt(fs: Fs, hides: Hides, path: Path) {
    && path != [] && Resolve(fs, path).Some? && Resolve(fs, Init(path)).Some?
    && Last(path) in HiddenIn(hides, Resolve(fs, Init(path)).value)
  }

  /** The names hidden once a directory has been given a name and has these hidden. */
  function Linked(fs: Fs, hides: Hides, path: Path, names: set<Name>): Hides {
    match ParentDir(fs, path)
    case Err(_) => hides
    case Ok(d) => hides[d := names]
  }

  /** An operation that ends with a name put in a directory, if there is a place for it. */
  function Placed<T>(r: Result<T>, room: Result<set<Name>>): (p: Result<T>)
    ensures p.Ok? <==> r.Ok? && room.Ok?
    ensures p.Ok? ==> p == r
    ensures p.Err? ==> p.error == if r.Err? then r.error else room.error
  {
    if r.Ok? && room.Err? then Err(room.error) else r
  }
}
