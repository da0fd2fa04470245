/**
 Runs of the allocator (src/alloc.rs:18-304): its cached bitmaps, counters and
 device together answer as two plain sets would.
 */
module AllocatorRuns {
  import opened Base
  import opened Bitmaps
  import opened Allocation
  import opened Allocators

  /** What is in use: blocks, inodes, and the inodes that are directories'. */
  datatype Plain = Plain(blocks: set<nat>, inodes: set<nat>, dirs: set<nat>)

  datatype Ask =
    | Block(goal: nat)
    | GiveBlock(block: nat)
    | Inode(near: nat, isDir: bool)
    | GiveInode(inum: nat, wasDir: bool)
    | WriteBack

  ghost function InUse(s: State): Plain
    requires s.Valid()
  {
    Plain(s.UsedBlocks(), s.UsedInodes(), s.dirs)
  }

  /** What the sets answer: the first block or inode not in use, in the order searched. */
  ghost function Answer(geo: Geometry, was: Plain, ask: Ask): Result<nat>
    requires geo.Valid()
  {
    match ask
    case Block(goal) => (match FirstFree(BlockOrder(geo.Blocks(), geo.Groups(), goal, 0), was.blocks) case None => Err(NoSpace) case Some(b) => Ok(b))
    case Inode(near, _) =>
      (match FirstFree(InodeOrder(geo.Inodes(), geo.Groups(), near, 0), was.inodes + Reserved(geo.firstIno)) case None => Err(NoInodes) case Some(i) => Ok(i))
    case _ => Ok(0)
  }

  /** What is in use then. */
  ghost function After(geo: Geometry, was: Plain, ask: Ask): Plain
    requires geo.Valid()
  {
    var r := Answer(geo, was, ask);
    match ask
    case Block(_) => if r.Ok? then was.(blocks := was.blocks + {r.value}) else was
    case GiveBlock(b) => was.(blocks := was.blocks - {b})
    case Inode(_, isDir) =>
      if r.Ok? then was.(inodes := was.inodes + {r.value}, dirs := if isDir then was.dirs + {r.value} else was.dirs) else was
    case GiveInode(i, _) => was.(inodes := was.inodes - {i}, dirs := was.dirs - {i})
    case WriteBack => was
  }

  /** What callers see to: nothing fixed is given back, and a directory's inode is given back as one. */
  ghost predicate Allowed(was: Plain, fixed: set<nat>, ask: Ask) {
    match ask
    case GiveBlock(b) => b !in fixed
    case GiveInode(i, wasDir) => i in was.inodes ==> (wasDir <==> i in was.dirs)
    case _ => true
  }

  ghost function AfterAll(geo: Geometry, was: Plain, asks: seq<Ask>): Plain
    requires geo.Valid()
  {
    if asks == [] then was else After(geo, AfterAll(geo, was, asks[..|asks| - 1]), asks[|asks| - 1])
  }

  ghost predicate AllAllowed(geo: Geometry, was: Plain, fixed: set<nat>, asks: seq<Ask>)
    requires geo.Valid()
  {
    forall k :: 0 <= k < |asks| ==> Allowed(AfterAll(geo, was, asks[..k]), fixed, asks[k])
  }

  /** One state answers for another: sound, of the same shape, with this in use. */
  ghost predicate Answers(s: State, geo: Geometry, fixed: set<nat>, now: Plain) {
    s.Valid() && s.geo == geo && s.fixed == fixed && InUse(s) == now
  }

  lemma {:induction false} DirsInUse(s: State)
    requires s.Valid()
    ensures s.dirs <= s.UsedInodes() && s.geo.Valid()
  {
    hide Counted, TailUnused, DirsCounted, CacheOk;
  }

  lemma {:induction false} SameUse(s: State, t: State)
    requires Flushed(s, t) && t == s.(device := t.device, dirtyBlock := t.dirtyBlock, dirtyInode := t.dirtyInode)
    ensures InUse(t) == InUse(s)
  {
    hide State.Layout, State.BlocksOk, State.InodesOk, Holds;
  }

  /** One request, answered as the sets would. */
  method Do(fs: Filesystem, alloc: Allocator, ask: Ask) returns (r: Result<nat>)
    requires alloc.Now(fs).Valid() && Allowed(InUse(alloc.Now(fs)), fs.fixed, ask)
    modifies alloc, fs`descs, fs`freeBlocks, fs`freeInodes, fs`device, fs`log
    ensures fs.geo.Valid() && r == Answer(fs.geo, old(InUse(alloc.Now(fs))), ask)
    ensures Answers(alloc.Now(fs), fs.geo, fs.fixed, After(fs.geo, old(InUse(alloc.Now(fs))), ask))
  {
    hide State.Valid, State.UsedBlocks, State.UsedInodes, BlockOrder, InodeOrder, FirstFree, Reserved;
    DirsInUse(alloc.Now(fs));
    match ask {
      case Block(goal) =>
        r := alloc.AllocBlock(fs, goal);
      case GiveBlock(b) =>
        alloc.FreeBlock(fs, b);
        r := Ok(0);
      case Inode(near, isDir) =>
        r := alloc.AllocInode(fs, near, isDir);
      case GiveInode(i, wasDir) =>
        alloc.FreeInode(fs, i, wasDir);
        r := Ok(0);
      case WriteBack =>
        ghost var s := alloc.Now(fs);
        alloc.Flush(fs);
        SameUse(s, alloc.Now(fs));
        r := Ok(0);
    }
  }

  lemma {:induction false} StepAfter(geo: Geometry, was: Plain, asks: seq<Ask>, k: nat)
    requires geo.Valid() && k < |asks|
    ensures AfterAll(geo, was, asks[..k + 1]) == After(geo, AfterAll(geo, was, asks[..k]), asks[k])
  {
    hide After;
    assert asks[..k + 1][..k] == asks[..k];
  }

  /**
   Over any run of requests each is answered as the sets would answer it, and
   afterwards bitmaps and device hold those sets, and the counters count what is
   not in them.
   */
  method Run(fs: Filesystem, alloc: Allocator, asks: seq<Ask>) returns (answers: seq<Result<nat>>)
    requires alloc.Now(fs).Valid() && fs.geo.Valid() && AllAllowed(fs.geo, InUse(alloc.Now(fs)), fs.fixed, asks)
    modifies alloc, fs`descs, fs`freeBlocks, fs`freeInodes, fs`device, fs`log
    ensures var was := old(InUse(alloc.Now(fs)));
            && Answers(alloc.Now(fs), fs.geo, fs.fixed, AfterAll(fs.geo, was, asks))
            && |answers| == |asks|
            && (forall k :: 0 <= k < |asks| ==> answers[k] == Answer(fs.geo, AfterAll(fs.geo, was, asks[..k]), asks[k]))
            && fs.freeBlocks == |FreeUnits(fs.geo.Blocks(), AfterAll(fs.geo, was, asks).blocks)|
            && fs.freeInodes == |FreeUnits(fs.geo.Inodes(), AfterAll(fs.geo, was, asks).inodes)|
  {
    hide State.Valid, State.UsedBlocks, State.UsedInodes, After, Answer, Allowed, Geometry.Valid, FreeUnits;
    ghost var was := InUse(alloc.Now(fs));
    answers := [];
    for k := 0 to |asks|
      invariant Answers(alloc.Now(fs), fs.geo, fs.fixed, AfterAll(fs.geo, was, asks[..k]))
      invariant |answers| == k && forall j :: 0 <= j < k ==> answers[j] == Answer(fs.geo, AfterAll(fs.geo, was, asks[..j]), asks[j])
    {
      StepAfter(fs.geo, was, asks, k);
      var r := Do(fs, alloc, asks[k]);
      answers := answers + [r];
    }
    assert asks[..|asks|] == asks;
    TotalsCountFree(alloc.Now(fs));
  }
}
