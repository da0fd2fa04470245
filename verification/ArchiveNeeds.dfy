/**
 What unpacking takes of a disk (src/volume.rs:934-1080): inodes, blocks for
 contents, and places in directories.
 */
module ArchiveNeeds {
  import opened Base
  import opened Namespace
  import opened NameOps
  import opened DiskAnswers
  import opened NameVolume
  import opened ArchiveWalk
  import opened ArchivePack

  /** How many blocks an entry's contents go in; a link too long for its inode takes one. */
  function ItemBlocks(layout: Layout, item: Item): nat
    requires 0 < layout.blockSize
  {
    match item.what
    case Folder => 1
    case Content(kind) => KindBlocks(layout, kind)
    case Again(_) => 0
  }

  function KindBlocks(layout: Layout, kind: Kind): nat
    requires 0 < layout.blockSize
  {
    match kind
    case Regular(content) => layout.BlocksOf(|content|)
    case Symlink(target) => if |target| < FAST_LINK then 0 else 1
    case _ => 0
  }

  function ItemInodes(item: Item): nat {
    if item.what.Again? then 0 else 1
  }

  /** There is a place for a path's last name, blocks for what it is to lead to, and an inode if it needs one. */
  predicate Affords(layout: Layout, s: Standing, path: Path, wanted: nat, nodes: nat) {
    match ParentDir(s.nodes, path)
    case Err(_) => false
    case Ok(d) =>
      d in s.spans &&
      var span := Spread(s.spans[d], Names(s.nodes, d));
      && Names(s.nodes, d) + 1 <= layout.mostNames && span <= layout.mostBlocks && wanted <= layout.mostBlocks
      && layout.takes(span) + layout.takes(wanted) <= s.blocks && nodes <= s.inodes
  }

  /** No more than that has been taken; a directory made has one block. */
  predicate Afforded(layout: Layout, s: Standing, path: Path, wanted: nat, nodes: nat, made: Option<nat>, t: Standing) {
    match ParentDir(s.nodes, path)
    case Err(_) => false
    case Ok(d) =>
      d in s.spans &&
      var span := Spread(s.spans[d], Names(s.nodes, d));
      var spans := s.spans[d := span];
      && t.spans == (if made.Some? then spans[made.value := 1] else spans)
      && s.inodes <= t.inodes + nodes && s.blocks <= t.blocks + layout.takes(span) + layout.takes(wanted)
  }

  /** With what it is to lead to seen to, there is a place left for the name. */
  lemma {:induction false} AffordsRoom(layout: Layout, s: Standing, left: Standing, path: Path, wanted: nat, nodes: nat)
    requires Affords(layout, s, path, wanted, nodes)
    ensures CanTake(layout, s.blocks, wanted) && nodes <= s.inodes
    ensures left.nodes == s.nodes && left.spans == s.spans && s.blocks <= left.blocks + layout.takes(wanted) ==> HasRoom(layout, left, path)
  {
  }

  /** With a place taken for the name, there are blocks left for what it is to lead to. */
  lemma {:induction false} RoomAffords(layout: Layout, s: Standing, left: nat, path: Path, wanted: nat, nodes: nat)
    requires Affords(layout, s, path, wanted, nodes)
    requires var d := ParentDir(s.nodes, path).value; s.blocks <= left + layout.takes(Spread(s.spans[d], Names(s.nodes, d)))
    ensures CanTake(layout, left, wanted)
  {
  }

  // ---- the way to where an archive goes ----

  /** The most a directory on the way can take: its own block, and a place for it. */
  function StepCost(layout: Layout, span: nat): nat {
    layout.takes(span) + layout.takes(1)
  }

  /** Each directory there is on the way has a place for one more name, and no more than so many blocks with it. */
  ghost predicate Roomy(layout: Layout, s: Standing, path: Path, span: nat) {
    forall q :: Prefix(q, path) && DirAt(s.nodes, q) ==>
      var d := NodeAt(s.nodes, q);
      d in s.spans && Names(s.nodes, d) + 1 <= layout.mostNames && Spread(s.spans[d], Names(s.nodes, d)) <= span
  }

  /** Enough for each of a path's names to be made a directory. */
  ghost predicate WayAffords(layout: Layout, s: Standing, path: Path, span: nat) {
    && layout.Valid() && 3 <= span <= layout.mostBlocks && 1 <= layout.mostNames && Roomy(layout, s, path, span)
    && |path| <= s.inodes && |path| * StepCost(layout, span) <= s.blocks
  }
}
