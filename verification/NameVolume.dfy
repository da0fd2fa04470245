/**
 The volume's operations on names as it carries them out, inode by inode
 (src/volume.rs:363-728 and 1114-1140).
 */
module NameVolume {
  import opened Base
  import opened Namespace
  import opened NameOps
  import opened VolumeNames
  import opened DiskAnswers

  // ---- splitting a path ----

  /** Where the last slash is, if there is one. */
  function LastSlash(path: Bytes): (r: Option<nat>)
    ensures r.Some? ==> r.value < |path| && path[r.value] == SLASH && forall k :: r.value < k < |path| ==> path[k] != SLASH
    ensures r.None? ==> forall k :: 0 <= k < |path| ==> path[k] != SLASH
  {
    if path == [] then None
    else if path[|path| - 1] == SLASH then Some(|path| - 1)
    else LastSlash(path[..|path| - 1])
  }

  /** A path without its last name, and that name. */
  function SplitPath(path: Bytes): Result<(Bytes, Name)> {
    var trimmed := TrimEnd(path);
    var parts := match LastSlash(trimmed)
                 case Some(i) => if i == 0 then ([SLASH], trimmed[1..]) else (trimmed[..i], trimmed[i + 1..])
                 case None => ([SLASH], trimmed);
    if parts.1 == [] then Err(InvalidPath) else Ok(parts)
  }

  /** A path's names, as a walk down it takes them: what lies between slashes, where something does. */
  function Components(path: Bytes): Path {
    if path == [] then []
    else
      match LastSlash(path)
      case None => [path]
      case Some(i) => Components(path[..i]) + if i + 1 == |path| then [] else [path[i + 1..]]
  }

  lemma {:induction false} TrimKeeps(path: Bytes)
    ensures Components(TrimEnd(path)) == Components(path)
    ensures TrimEnd(path) != [] ==> TrimEnd(path)[|TrimEnd(path)| - 1] != SLASH
  {
    if path != [] && path[|path| - 1] == SLASH {
      TrimKeeps(path[..|path| - 1]);
    }
  }

  /** Splitting a path takes off the last of its names, and is refused exactly when it has none. */
  lemma {:induction false} SplitIsLast(path: Bytes)
    ensures SplitPath(path).Err? <==> Components(path) == []
    ensures SplitPath(path).Ok? ==> Components(path) == Components(SplitPath(path).value.0) + [SplitPath(path).value.1]
  {
    TrimKeeps(path);
    var trimmed := TrimEnd(path);
    assert Components([SLASH]) == [] by {
      assert [SLASH][..0] == [];
    }
    if trimmed != [] {
      var at := LastSlash(trimmed);
      if at.Some? && at.value == 0 {
        assert trimmed[..0] == [];
      }
    }
  }

  // ---- writing a file ----

  /** From this length on a symbolic link's target is its contents; a shorter one is read out of its map's bytes. */
  const FAST_LINK := 60

  /**
   What an inode is with its contents replaced. Its type stays what it was: a
   link's target is then the contents, if long enough, and otherwise, like a
   device's numbers, `spoilt`, whatever the new map's bytes read as.
   */
  function Overwritten(kind: Kind, data: Bytes, spoilt: Kind): (r: Kind)
    ensures r == Regular(data) <==> kind.Regular?
  {
    match kind
    case Regular(_) => Regular(data)
    case Symlink(_) => if |data| < FAST_LINK && spoilt.Symlink? then spoilt else Symlink(data)
    case CharDevice(_, _) => if spoilt.CharDevice? then spoilt else kind
    case BlockDevice(_, _) => if spoilt.BlockDevice? then spoilt else kind
    case Fifo => kind
  }

  /** Create a file or replace contents; what is there already keeps its inode, its type and its attributes. */
  function Write(fs: Fs, path: Path, data: Bytes, attrs: Attrs, given: Result<nat>, spoilt: Kind): Result<Fs>
    requires Tree(fs) && (given.Ok? ==> given.value !in fs)
  {
    match ParentDir(fs, path)
    case Err(e) => Err(e)
    case Ok(d) =>
      if !IsDir(fs, d) then Err(NotADirectory)
      else if Last(path) in fs[d].entries then
        var i := fs[d].entries[Last(path)];
        HeldBy(fs, d, Last(path));
        if IsDir(fs, i) then Err(IsADirectory) else Ok(fs[i := fs[i].(kind := Overwritten(fs[i].kind, data, spoilt))])
      else if given.Err? then Err(given.error)
      else if !NameOk(Last(path)) then Err(InvalidName)
      else Ok(AddLeaf(fs, d, Last(path), given.value, Regular(data), attrs))
  }

  lemma {:induction false} SameShape(fs: Fs, now: Fs)
    requires Tree(fs) && now.Keys == fs.Keys && SameEntries(fs, now) && ParentsKept(fs, now) && SameDirs(fs, now)
    requires forall i :: i in fs ==> SameCounts(fs[i], now[i])
    ensures Tree(now)
  {
    hide EntriesAt;
    forall d, n | d in now && n in EntriesAt(now, d) ensures ChildOk(now, d, n) {
      ChildThere(fs, d, n);
    }
    forall i | i in now ensures CountOk(now, i) {
      assert CountOk(fs, i);
      NamesSame(fs, now, i);
      SubDirsSame(fs, now, i);
    }
    forall d | IsDir(now, d) ensures Rooted(now, d) {
      RootedKept(fs, now, d);
    }
  }

  lemma {:induction false} SameEntriesResolve(fs: Fs, now: Fs, q: Path)
    requires SameEntries(fs, now)
    ensures Resolve(now, q) == Resolve(fs, q)
    decreases |q|
  {
    hide Find, Resolve, EntriesAt;
    ResolveMore(fs, [], []);
    ResolveMore(now, [], []);
    if q != [] {
      SplitLast(q);
      SameEntriesResolve(fs, now, Init(q));
      ResolveMore(fs, Init(q), Last(q));
      ResolveMore(now, Init(q), Last(q));
    }
  }

  /** What writing a file does: it is a regular file with the contents exactly when it was one or was not there. */
  lemma {:induction false} WriteEffect(fs: Fs, path: Path, data: Bytes, attrs: Attrs, given: Result<nat>, spoilt: Kind)
    requires Tree(fs) && Given(fs, given) && Write(fs, path, data, attrs, given, spoilt).Ok?
    ensures var now := Write(fs, path, data, attrs, given, spoilt).value;
            && Tree(now) && Resolve(now, path).Some? && OnlyAt(fs, now, path, Resolve(now, path))
            && var i := Resolve(now, path).value;
               && i in now && now[i].Leaf? && (Resolve(fs, path) == Some(i) || (i !in fs && Resolve(fs, path) == None))
               && (i in fs ==> fs[i].Leaf? && now == fs[i := fs[i].(kind := Overwritten(fs[i].kind, data, spoilt))])
               && (now[i].kind == Regular(data) <==> i !in fs || fs[i].kind.Regular?)
  {
    hide CountOk, ChildOk, Rooted, Find, Overwritten;
    var now, d := Write(fs, path, data, attrs, given, spoilt).value, ParentDir(fs, path).value;
    if Last(path) in fs[d].entries {
      var i := fs[d].entries[Last(path)];
      HeldBy(fs, d, Last(path));
      assert SameEntries(fs, now) && ParentsKept(fs, now) && SameDirs(fs, now);
      SameShape(fs, now);
      SplitLast(path);
      ResolveMore(fs, Init(path), Last(path));
      hide Resolve, Tree;
      forall q ensures Resolve(now, q) == Resolve(fs, q) {
        SameEntriesResolve(fs, now, q);
      }
    } else {
      assert Create(fs, path, Regular(data), attrs, given) == Ok(now);
      CreateEffect(fs, path, Regular(data), attrs, given);
      hide Resolve, Tree;
      assert Resolve(now, path) == Some(given.value);
    }
  }

  // ---- the volume ----

  /** What writing a file answers: a new name needs a place, and the contents their blocks. */
  function Wrote(fs: Fs, path: Path, spec: Result<Fs>, room: Result<set<Name>>, put: Result<()>): (r: Result<Fs>)
    ensures r.Ok? <==> spec.Ok? && put.Ok? && (Resolve(fs, path).Some? || room.Ok?)
    ensures r.Ok? ==> r == spec
  {
    var placed := if Resolve(fs, path).Some? then spec else Placed(spec, room);
    if placed.Ok? && put.Err? then Err(put.error) else placed
  }

  /** No block is left, or a map or an index cannot hold what it should. */
  method Refusal() returns (e: Error)
    ensures e == NoSpace || e == Unsupported
  {
    e := NoSpace;
    if * {
      e := Unsupported;
    }
  }

  class Volume {
    const layout: Layout
    var nodes: Fs
    var hides: Hides
    /** Directories whose ".." a walk over their blocks fails to reach: those under an index, where blocks end in a checksum. */
    var stuck: set<nat>
    /** At least so many inodes are free, and so many blocks. */
    var inodes: nat
    var blocks: nat
    /** Directories known to have at most so many blocks. */
    var spans: map<nat, nat>

    constructor (layout: Layout, nodes: Fs, hides: Hides, stuck: set<nat>, inodes: nat, blocks: nat, spans: map<nat, nat>)
      ensures this.layout == layout && this.nodes == nodes && this.hides == hides && this.stuck == stuck
      ensures this.inodes == inodes && this.blocks == blocks && this.spans == spans
    {
      this.layout, this.nodes, this.hides, this.stuck := layout, nodes, hides, stuck;
      this.inodes, this.blocks, this.spans := inodes, blocks, spans;
    }

    ghost function Now(): Standing
      reads this
    {
      Standing(nodes, hides, inodes, blocks, spans)
    }

    // ---- asking the disk ----

    /** Any free inode, or none where none is left: whatever the allocator may answer. */
    method AskInode() returns (given: Result<nat>)
      modifies this`inodes
      ensures Given(nodes, given)
      ensures given.Err? ==> given == Err(NoInodes) && old(inodes) == 0
      ensures old(inodes) <= inodes + 1
    {
      if inodes == 0 {
        if * {
          return Err(NoInodes);
        }
      } else {
        inodes := inodes - 1;
      }
      FreeInode(nodes);
      var i: nat :| i !in nodes && i != ROOT;
      given := Ok(i);
    }

    /** Blocks for a file of n and their map, or a refusal where there are not so many. */
    method AskBlocks(n: nat) returns (put: Result<()>)
      modifies this`blocks
      ensures put.Err? ==> (put == Err(NoSpace) || put == Err(Unsupported)) && !CanTake(layout, old(blocks), n)
      ensures put.Ok? && CanTake(layout, old(blocks), n) ==> old(blocks) <= blocks + layout.takes(n)
      ensures blocks <= old(blocks)
    {
      if !CanTake(layout, blocks, n) {
        // Nothing more is known of what there is.
        blocks := 0;
        if * {
          var e := Refusal();
          return Err(e);
        }
      } else {
        blocks := blocks - layout.takes(n);
      }
      put := Ok(());
    }

    /** An inode, with blocks of its own if it is to have some. */
    method AskNode(n: nat) returns (given: Result<nat>)
      modifies this`inodes, this`blocks
      ensures Given(nodes, given)
      ensures given.Err? ==> Shortage(given.error) && (old(inodes) == 0 || (0 < n && !CanTake(layout, old(blocks), n)))
      ensures given.Ok? ==> old(inodes) <= inodes + 1 && (n == 0 ==> blocks == old(blocks))
      ensures given.Ok? && CanTake(layout, old(blocks), n) ==> old(blocks) <= blocks + layout.takes(n)
    {
      given := AskInode();
      if given.Ok? && n > 0 {
        var put := AskBlocks(n);
        if put.Err? {
          return Err(put.error);
        }
      }
    }

    /**
     A place for a path's last name: the names its directory's index hides from
     then on, or a refusal where there may be none.
     */
    method AskRoom(path: Path) returns (room: Result<set<Name>>)
      modifies this`blocks, this`spans
      ensures room.Err? ==> (room == Err(NoSpace) || room == Err(Unsupported)) && !HasRoom(layout, old(Now()), path)
      ensures room.Ok? && HasRoom(layout, old(Now()), path) ==>
                var d := ParentDir(nodes, path).value;
                var span := Spread(old(spans)[d], Names(nodes, d));
                spans == old(spans)[d := span] && old(blocks) <= blocks + layout.takes(span)
    {
      if HasRoom(layout, Standing(nodes, hides, inodes, blocks, spans), path) {
        var d := ParentDir(nodes, path).value;
        var span := Spread(spans[d], Names(nodes, d));
        spans, blocks := spans[d := span], blocks - layout.takes(span);
      } else {
        // Nothing more is known of what there is.
        spans, blocks := map[], 0;
        if * {
          var e := Refusal();
          return Err(e);
        }
      }
      var hidden: set<Name> := *;
      room := Ok(hidden);
    }

    // ---- names in directories ----

    /** Add a name to a directory, where there is a place for it; the directory may come to be under an index. */
    method LinkInto(dir: nat, name: Name, target: nat, room: Result<set<Name>>) returns (r: Result<()>)
      requires IsDir(nodes, dir)
      modifies this`nodes, this`hides, this`stuck
      ensures r == Placed(if NameOk(name) then Ok(()) else Err(InvalidName), room)
      ensures nodes == if r.Ok? then Put(old(nodes), dir, name, target) else old(nodes)
      ensures hides == if r.Ok? then old(hides)[dir := room.value] else old(hides)
      ensures stuck == old(stuck) || (r.Ok? && stuck == old(stuck) + {dir})
    {
      if name == [] || |name| > NAME_LEN_MAX || SLASH in name {
        return Err(InvalidName);
      }
      if room.Err? {
        return Err(room.error);
      }
      hides := hides[dir := room.value];
      if * {
        stuck := stuck + {dir};
      }
      nodes := nodes[dir := nodes[dir].(entries := nodes[dir].entries[name := target])];
      r := Ok(());
    }

    /** Take a name out of a directory, if a search finds it there. */
    method UnlinkFrom(dir: nat, name: Name) returns (r: Result<()>)
      requires IsDir(nodes, dir)
      modifies this`nodes
      ensures r == if name in HiddenIn(hides, dir) then Err(NotFound) else Ok(())
      ensures nodes == if r.Ok? then Cut(old(nodes), dir, name) else old(nodes)
    {
      if name in HiddenIn(hides, dir) {
        return Err(NotFound);
      }
      nodes := nodes[dir := nodes[dir].(entries := nodes[dir].entries - {name})];
      r := Ok(());
    }

    // ---- the operations ----

    /** Make a file, symbolic link, device node or FIFO. */
    method CreateNode(path: Path, kind: Kind, attrs: Attrs, given: Result<nat>, room: Result<set<Name>>) returns (r: Result<nat>)
      requires Given(nodes, given)
      modifies this`nodes, this`hides, this`stuck
      ensures var spec := Placed(Create(old(nodes), path, kind, attrs, given), room);
              && (r.Ok? <==> spec.Ok?) && (r.Err? ==> r.error == spec.error)
              && (r.Ok? ==> nodes == spec.value && r == given && hides == Linked(old(nodes), old(hides), path, room.value))
      ensures Tree(old(nodes)) && r.Err? ==> (Tree(nodes) <==> !HandedOut(old(nodes), path, given))
    {
      hide Tree;
      var d :- Vacant(nodes, path);
      var inum :- given;
      if Tree(nodes) {
        Nameless(nodes, inum, Leaf(kind, 1, attrs));
      }
      nodes := nodes[inum := Leaf(kind, 1, attrs)];
      var linked := LinkInto(d, Last(path), inum, room);
      if linked.Err? {
        return Err(linked.error);
      }
      r := Ok(inum);
    }

    /** Empty a file and give it other contents. */
    method Refill(inum: nat, data: Bytes, spoilt: Kind, put: Result<()>) returns (r: Result<nat>)
      requires Tree(nodes) && inum in nodes && nodes[inum].Leaf?
      modifies this`nodes
      ensures r == if put.Err? then Err(put.error) else Ok(inum)
      ensures r.Ok? ==> nodes == old(nodes)[inum := old(nodes)[inum].(kind := Overwritten(old(nodes)[inum].kind, data, spoilt))]
      ensures r.Err? ==> Tree(nodes)
    {
      hide Tree, Overwritten;
      var kind := nodes[inum].kind;
      OtherKind(nodes, inum, Overwritten(kind, [], spoilt));
      nodes := nodes[inum := nodes[inum].(kind := Overwritten(kind, [], spoilt))];
      if put.Err? {
        return Err(put.error);
      }
      nodes := nodes[inum := nodes[inum].(kind := Overwritten(kind, data, spoilt))];
      r := Ok(inum);
    }

    /** Create or replace a file. */
    method WriteFile(path: Path, data: Bytes, attrs: Attrs, given: Result<nat>, spoilt: Kind, room: Result<set<Name>>, put: Result<()>)
      returns (r: Result<nat>)
      requires Tree(nodes) && Given(nodes, given)
      modifies this`nodes, this`hides, this`stuck
      ensures var spec := Wrote(old(nodes), path, Write(old(nodes), path, data, attrs, given, spoilt), room, put);
              && (r.Ok? <==> spec.Ok?) && (r.Err? ==> r.error == spec.error)
              && (r.Ok? ==> nodes == spec.value)
      ensures r.Err? ==> (Tree(nodes) <==> !(HandedOut(old(nodes), path, given) && (room.Err? || !NameOk(Last(path)))))
    {
      hide Tree, Resolve;
      var d :- ParentDir(nodes, path);
      if !IsDir(nodes, d) {
        return Err(NotADirectory);
      }
      TakenLeads(nodes, path);
      if Last(path) in nodes[d].entries {
        // The file stays the same inode.
        var inum := nodes[d].entries[Last(path)];
        HeldIn(nodes, d, Last(path));
        if IsDir(nodes, inum) {
          return Err(IsADirectory);
        }
        r := Refill(inum, data, spoilt, put);
        return;
      }
      var inum :- given;
      ghost var fs := nodes;
      Nameless(fs, inum, Leaf(Regular([]), 1, attrs));
      nodes := nodes[inum := Leaf(Regular([]), 1, attrs)];
      var linked := LinkInto(d, Last(path), inum, room);
      if linked.Err? {
        return Err(linked.error);
      }
      if put.Err? {
        AddLeafKeeps(fs, d, Last(path), inum, Regular([]), attrs);
        return Err(put.error);
      }
      nodes := nodes[inum := nodes[inum].(kind := Regular(data))];
      r := Ok(inum);
    }

    /** Make a directory; its inode comes with its first block. */
    method MkDir(path: Path, attrs: Attrs, given: Result<nat>, room: Result<set<Name>>) returns (r: Result<nat>)
      requires Given(nodes, given)
      modifies this`nodes, this`hides, this`stuck, this`spans
      ensures var spec := Placed(MakeDir(old(nodes), path, attrs, given), room);
              && (r.Ok? <==> spec.Ok?) && (r.Err? ==> r.error == spec.error)
              && (r.Ok? ==> nodes == spec.value && r == given && spans == old(spans)[given.value := 1]
                            && hides == Linked(old(nodes), old(hides), path, room.value)[given.value := {}]
                            && given.value !in stuck)
      ensures Tree(old(nodes)) && r.Err? ==> (Tree(nodes) <==> !HandedOut(old(nodes), path, given))
    {
      hide Tree;
      var d :- Vacant(nodes, path);
      var inum :- given;
      if Tree(nodes) {
        Nameless(nodes, inum, Dir(map[], d, 2, attrs));
      }
      // One link is its name, the other its own ".".
      nodes := nodes[inum := Dir(map[], d, 2, attrs)];
      var linked := LinkInto(d, Last(path), inum, room);
      if linked.Err? {
        return Err(linked.error);
      }
      hides, stuck, spans := hides[inum := {}], stuck - {inum}, spans[inum := 1];
      // Its ".." counts for the parent.
      nodes := WithLinks(nodes, d, nodes[d].links + 1);
      r := Ok(inum);
    }

    /** Take a name of a file away, and the file with its last. */
    method Remove(path: Path) returns (r: Result<()>)
      requires Tree(nodes)
      modifies this`nodes
      ensures var spec := Unlink(old(nodes), path);
              && (r.Ok? <==> spec.Ok? && !HiddenAt(old(nodes), hides, path))
              && (r.Err? ==> r.error == if spec.Err? then spec.error else NotFound)
              && nodes == if r.Ok? then spec.value else old(nodes)
    {
      hide Tree;
      var d :- ParentDir(nodes, path);
      var inum :- Lookup(nodes, path);
      if IsDir(nodes, inum) {
        return Err(IsADirectory);
      }
      UnlinkIs(nodes, path, d, inum);
      HiddenIs(nodes, hides, path, d, inum);
      hide Find, Unlink, Lookup, ParentDir, HiddenAt;
      var cut := UnlinkFrom(d, Last(path));
      if cut.Err? {
        return cut;
      }
      var links := Less(nodes[inum].links);
      if links == 0 {
        // It was the only name.
        nodes := nodes - {inum};
      } else {
        nodes := WithLinks(nodes, inum, links);
      }
      r := Ok(());
    }

    /** Take an empty directory away. */
    method RmDir(path: Path) returns (r: Result<()>)
      requires Tree(nodes)
      modifies this`nodes
      ensures var spec := RemoveDir(old(nodes), path);
              && (r.Ok? <==> spec.Ok? && !HiddenAt(old(nodes), hides, path))
              && (r.Err? ==> r.error == if spec.Err? then spec.error else NotFound)
              && nodes == if r.Ok? then spec.value else old(nodes)
    {
      hide Tree;
      var d :- ParentDir(nodes, path);
      var inum :- Lookup(nodes, path);
      if inum == ROOT {
        return Err(InvalidPath);
      }
      if !IsDir(nodes, inum) {
        return Err(NotADirectory);
      }
      if nodes[inum].entries != map[] {
        return Err(NotEmpty);
      }
      RemoveDirIs(nodes, path, d, inum);
      HiddenIs(nodes, hides, path, d, inum);
      hide Find, RemoveDir, Lookup, ParentDir, HiddenAt;
      var cut := UnlinkFrom(d, Last(path));
      if cut.Err? {
        return cut;
      }
      nodes := nodes - {inum};
      // The parent loses the link it had from the "..".
      nodes := WithLinks(nodes, d, Less(nodes[d].links));
      r := Ok(());
    }

    /** Give a file one name more. */
    method HardLink(existing: Path, path: Path, room: Result<set<Name>>) returns (r: Result<nat>)
      requires Tree(nodes)
      modifies this`nodes, this`hides, this`stuck
      ensures var spec := Placed(Link(old(nodes), existing, path), room);
              && (r.Ok? <==> spec.Ok?) && (r.Err? ==> r.error == spec.error)
              && nodes == if r.Ok? then spec.value else old(nodes)
    {
      hide Tree;
      var inum :- Lookup(nodes, existing);
      ResolvesIn(nodes, existing, inum);
      if IsDir(nodes, inum) {
        return Err(IsADirectory);
      }
      var d :- Vacant(nodes, path);
      LinkIs(nodes, existing, path, d, inum);
      hide Link, Find, Lookup, Vacant;
      var linked := LinkInto(d, Last(path), inum, room);
      if linked.Err? {
        return Err(linked.error);
      }
      nodes := WithLinks(nodes, inum, nodes[inum].links + 1);
      r := Ok(inum);
    }

    /** Whether one inode is at or above another in the tree. */
    method AtOrAbove(ancestor: nat, of: nat) returns (r: bool)
      ensures r == IsAncestor(nodes, ancestor, of, ANCESTOR_LIMIT)
    {
      var at := of;
      for step := 0 to ANCESTOR_LIMIT
        invariant IsAncestor(nodes, ancestor, of, ANCESTOR_LIMIT) == IsAncestor(nodes, ancestor, at, ANCESTOR_LIMIT - step)
      {
        if at == ancestor {
          return true;
        }
        if at == ROOT {
          return false;
        }
        if !IsDir(nodes, at) || nodes[at].parent == at {
          return false;
        }
        at := nodes[at].parent;
      }
      r := false;
    }

    /** Clear the destination if something is already there; false when it is the very inode being moved. */
    method Clear(to: Path, inum: nat) returns (r: Result<bool>)
      requires Tree(nodes)
      modifies this`nodes
      ensures var spec := Cleared(old(nodes), to, inum);
              && (r.Ok? <==> spec.Ok? && (spec.value.None? || !HiddenAt(old(nodes), hides, to)))
              && (r.Err? ==> r.error == if spec.Err? then spec.error else NotFound)
              && (r.Ok? ==> (r.value <==> spec.value.Some?))
              && nodes == if r.Ok? && r.value then spec.value.value else old(nodes)
    {
      hide Tree, HiddenAt;
      NowhereHidden(nodes, hides, to);
      var found :- Find(nodes, ROOT, to);
      if found.None? {
        return Ok(true);
      }
      if found.value == inum {
        return Ok(false);
      }
      if IsDir(nodes, found.value) {
        if nodes[found.value].entries != map[] {
          return Err(NotEmpty);
        }
        var removed := RmDir(to);
        if removed.Err? {
          return Err(removed.error);
        }
      } else {
        var removed := Remove(to);
        if removed.Err? {
          return Err(removed.error);
        }
      }
      r := Ok(true);
    }

    /** Give what is at one path another, in place of what was there. */
    method Mv(from: Path, to: Path, room: Result<set<Name>>) returns (r: Result<()>)
      requires Tree(nodes)
      modifies this`nodes, this`hides, this`stuck
      ensures r.Ok? <==> && Rename(old(nodes), from, to).Ok? && Carriable(old(nodes), old(hides), from, to, room)
                         && !DotsStuck(old(nodes), old(stuck), from, to)
      ensures r.Ok? ==> nodes == Rename(old(nodes), from, to).value
      ensures Rename(old(nodes), from, to).Ok? && Carriable(old(nodes), old(hides), from, to, room) && DotsStuck(old(nodes), old(stuck), from, to) ==>
                r == Err(Error.Fs) && nodes == Halfway(old(nodes), from, to)
      ensures r.Err? ==> || r.error == NotFound || (room.Err? && r.error == room.error)
                         || (Rename(old(nodes), from, to).Err? && r.error == Rename(old(nodes), from, to).error)
                         || (r.error == Error.Fs && DotsStuck(old(nodes), old(stuck), from, to))
      ensures r.Err? ==> (Tree(nodes) <==> && !Stranded(old(nodes), old(hides), from, to, room)
                                           && !(Rename(old(nodes), from, to).Ok? && Carriable(old(nodes), old(hides), from, to, room)))
    {
      hide Tree, Cleared, IsAncestor, HiddenAt;
      var inum :- Lookup(nodes, from);
      if from == [] || to == [] {
        return Err(InvalidPath);
      }
      var d1 :- Lookup(nodes, Init(from));
      var d2 :- Lookup(nodes, Init(to));
      if !IsDir(nodes, d2) {
        return Err(NotADirectory);
      }
      if IsDir(nodes, inum) {
        // Its own subtree would be cut off.
        var inside := AtOrAbove(inum, d2);
        if inside {
          return Err(InvalidPath);
        }
        NotAbove(nodes, inum, d2);
      }
      ghost var fs := nodes;
      assert RenameFrom(fs, from, to) == Ok(Renaming(inum, d1, d2));
      CarriableIs(fs, hides, from, to, room, inum, d1, d2);
      hide Lookup, Find, Carriable, Resolve;
      var clear := Clear(to, inum);
      if clear.Err? {
        return Err(clear.error);
      }
      if !clear.value {
        return Ok(());
      }
      RenameReady(fs, from, to);
      ClearedTree(fs, to, inum);
      ghost var mid := nodes;
      r := Carry(d1, Last(from), d2, Last(to), room);
      if r == Err(NotFound) {
        NamedNotRoot(mid, d1, Last(from));
        SecondName(mid, d2, Last(to), inum);
      }
      if r == Err(Error.Fs) && room.Ok? {
        StaleParent(mid, d1, Last(from), d2, Last(to));
      }
    }

    /**
     Put a name in one directory and take it out of another, with what ".." counts
     for, unless the ".." of what is carried cannot be reached.
     */
    method Carry(d1: nat, n1: Name, d2: nat, n2: Name, room: Result<set<Name>>) returns (r: Result<()>)
      requires IsDir(nodes, d1) && n1 in nodes[d1].entries && IsDir(nodes, d2) && n2 !in nodes[d2].entries && nodes[d1].entries[n1] in nodes
      requires IsDir(nodes, nodes[d1].entries[n1]) ==> nodes[d1].entries[n1] != d2
      modifies this`nodes, this`hides, this`stuck
      ensures r == if !NameOk(n2) then Err(InvalidName)
                   else if room.Err? then Err(room.error)
                   else if n1 in HiddenIn(old(hides)[d2 := room.value], d1) then Err(NotFound)
                   else if IsDir(old(nodes), old(nodes)[d1].entries[n1]) && d1 != d2 && old(nodes)[d1].entries[n1] in old(stuck) then Err(Error.Fs)
                   else Ok(())
      ensures nodes == if r.Ok? then Move(old(nodes), d1, n1, d2, n2)
                       else if !NameOk(n2) || room.Err? then old(nodes)
                       else if r.error == NotFound then Put(old(nodes), d2, n2, old(nodes)[d1].entries[n1])
                       else MoveName(old(nodes), d1, n1, d2, n2)
    {
      var inum := nodes[d1].entries[n1];
      var isDir := nodes[inum].Dir?;
      r := LinkInto(d2, n2, inum, room);
      if r.Err? {
        return;
      }
      r := UnlinkFrom(d1, n1);
      if r.Err? {
        return;
      }
      // The ".." of a directory is a link to the one it is in.
      if isDir && d1 != d2 {
        if inum in stuck {
          return Err(Error.Fs);
        }
        nodes := nodes[inum := nodes[inum].(parent := d2)];
        nodes := WithLinks(nodes, d1, Less(nodes[d1].links));
        nodes := WithLinks(nodes, d2, nodes[d2].links + 1);
      }
    }
  }

  /** An inode has been handed out for a new name. */
  predicate HandedOut(fs: Fs, path: Path, given: Result<nat>) {
    Vacant(fs, path).Ok? && given.Ok?
  }

  /** An inode with links and no name is no part of a tree. */
  lemma {:induction false} Nameless(fs: Fs, i: nat, node: Node)
    requires Tree(fs) && i !in fs && i != ROOT && (if node.Dir? then node.entries == map[] else 0 < node.links)
    ensures !Tree(fs[i := node])
  {
    hide Rooted, CountOk, ChildOk;
    var now := fs[i := node];
    forall p | p in NamesOf(now, i) ensures false {
      assert p.1 in EntriesAt(fs, p.0);
      HeldBy(fs, p.0, p.1);
    }
    assert NamesOf(now, i) == {};
    if Tree(now) {
      CountAt(now, i);
    }
  }

  /** Nor is one with a name it has no link for, or a directory with two. */
  lemma {:induction false} SecondName(fs: Fs, d: nat, n: Name, i: nat)
    requires Tree(fs) && IsDir(fs, d) && n !in fs[d].entries && i in fs && i != ROOT
    ensures !Tree(Put(fs, d, n, i))
  {
    hide Tree, NamesOf, SubDirs;
    var now := Put(fs, d, n, i);
    NamesGain(fs, now, d, n, i, i);
    CountAt(fs, i);
    if Tree(now) {
      CountAt(now, i);
    }
  }

  lemma {:induction false} NamedNotRoot(fs: Fs, d: nat, n: Name)
    requires Tree(fs) && IsDir(fs, d) && n in fs[d].entries
    ensures fs[d].entries[n] in fs && fs[d].entries[n] != ROOT
  {
    HeldBy(fs, d, n);
  }

  /** The destination of a rename cleared leaves a tree. */
  lemma {:induction false} ClearedTree(fs: Fs, to: Path, i: nat)
    requires Tree(fs)
    ensures Cleared(fs, to, i).Ok? && Cleared(fs, to, i).value.Some? ==> Tree(Cleared(fs, to, i).value.value)
  {
    hide Tree, Find, Unlink, RemoveDir, Took;
    if RemoveDir(fs, to).Ok? {
      RemoveDirEffect(fs, to);
    }
    if Unlink(fs, to).Ok? {
      UnlinkEffect(fs, to);
    }
  }

  lemma {:induction false} OtherKind(fs: Fs, i: nat, kind: Kind)
    requires Tree(fs) && i in fs && fs[i].Leaf?
    ensures Tree(fs[i := fs[i].(kind := kind)])
  {
    hide CountOk, ChildOk, Rooted, NamesOf, SubDirs;
    SameShape(fs, fs[i := fs[i].(kind := kind)]);
  }

  /** A rename whose new name is in and whose old one cannot be found to be taken out. */
  ghost predicate Stranded(fs: Fs, hides: Hides, from: Path, to: Path, room: Result<set<Name>>)
    requires Tree(fs)
  {
    && Rename(fs, from, to).Ok? && Resolve(fs, from) != Resolve(fs, to) && room.Ok? && !HiddenAt(fs, hides, to)
    && HiddenAt(fs, Linked(fs, hides, to, room.value), from)
  }

  // ---- a rename that stops at ".." ----

  /** The rename gives another parent to a directory whose ".." cannot be reached. */
  predicate DotsStuck(fs: Fs, stuck: set<nat>, from: Path, to: Path) {
    && from != [] && to != [] && Resolve(fs, from).Some? && Resolve(fs, from) != Resolve(fs, to)
    && IsDir(fs, Resolve(fs, from).value) && Resolve(fs, from).value in stuck
    && Resolve(fs, Init(from)) != Resolve(fs, Init(to))
  }

  /** A name moved, and nothing besides. */
  function MoveName(fs: Fs, d1: nat, n1: Name, d2: nat, n2: Name): Fs
    requires IsDir(fs, d1) && n1 in fs[d1].entries && IsDir(fs, d2)
  {
    Cut(Put(fs, d2, n2, fs[d1].entries[n1]), d1, n1)
  }

  /** What there is once a rename has moved the name and done no more. */
  function Halfway(fs: Fs, from: Path, to: Path): Fs
    requires Tree(fs) && Rename(fs, from, to).Ok?
  {
    var r := RenameFrom(fs, from, to).value;
    match Cleared(fs, to, r.inode).value
    case None => fs
    case Some(f) =>
      RenameReady(fs, from, to);
      MoveName(f, r.fromDir, Last(from), r.toDir, Last(to))
  }

  lemma {:induction false} NotAbove(fs: Fs, i: nat, d: nat)
    requires !IsAncestor(fs, i, d, ANCESTOR_LIMIT)
    ensures i != d
  {
  }

  /** A directory whose ".." is not the directory it is in makes no tree. */
  lemma {:induction false} StaleParent(fs: Fs, d1: nat, n1: Name, d2: nat, n2: Name)
    requires Tree(fs) && IsDir(fs, d1) && n1 in fs[d1].entries && IsDir(fs, d2) && d1 != d2
    requires IsDir(fs, fs[d1].entries[n1])
    ensures !Tree(MoveName(fs, d1, n1, d2, n2))
  {
    hide CountOk, Rooted;
    var i, now := fs[d1].entries[n1], MoveName(fs, d1, n1, d2, n2);
    HeldBy(fs, d1, n1);
    NotOwnChild(fs, d1, n1);
    assert IsDir(now, i) && now[i].parent == d1;
    assert n2 in EntriesAt(now, d2) && EntriesAt(now, d2)[n2] == i;
    if Closed(now) {
      HeldBy(now, d2, n2);
    }
  }

  /**
   A rename that stops at ".." is no tree, though every path leads where the rename
   would have it lead: what is wrong is one ".." and two counts of links.
   */
  lemma {:induction false} HalfwayIs(fs: Fs, stuck: set<nat>, from: Path, to: Path)
    requires Tree(fs) && Rename(fs, from, to).Ok? && DotsStuck(fs, stuck, from, to)
    ensures var half, done := Halfway(fs, from, to), Rename(fs, from, to).value;
            var i, d1, d2 := Resolve(fs, from).value, Resolve(fs, Init(from)).value, Resolve(fs, Init(to)).value;
            && !Tree(half) && (forall q :: Resolve(half, q) == Resolve(done, q))
            && Resolve(fs, Init(from)) == Some(d1) && Resolve(fs, Init(to)) == Some(d2)
            && IsDir(half, i) && IsDir(done, i) && half[i].parent == d1 && done[i].parent == d2 && d1 != d2
            && (forall x :: x in done && x !in {i, d1, d2} ==> x in half && half[x] == done[x])
  {
    hide Tree, IsAncestor, Find, Cleared;
    RenameChecks(fs, from, to);
    var r := RenameFrom(fs, from, to).value;
    CarriableIs(fs, map[], from, to, Ok({}), r.inode, r.fromDir, r.toDir);
    RenameReady(fs, from, to);
    NotAbove(fs, r.inode, r.toDir);
    var mid := Cleared(fs, to, r.inode).value.value;
    HalfMoved(mid, r.fromDir, Last(from), r.toDir, Last(to));
    hide Resolve;
    var half, done := Halfway(fs, from, to), Rename(fs, from, to).value;
    forall q ensures Resolve(half, q) == Resolve(done, q) {
      SameEntriesResolve(done, half, q);
    }
  }

  lemma {:induction false} HalfMoved(fs: Fs, d1: nat, n1: Name, d2: nat, n2: Name)
    requires Tree(fs) && IsDir(fs, d1) && n1 in fs[d1].entries && IsDir(fs, d2) && d1 != d2
    requires IsDir(fs, fs[d1].entries[n1]) && fs[d1].entries[n1] != d2
    ensures var i, half, done := fs[d1].entries[n1], MoveName(fs, d1, n1, d2, n2), Move(fs, d1, n1, d2, n2);
            && !Tree(half) && SameEntries(done, half) && IsDir(half, i) && IsDir(done, i) && half[i].parent == d1 && done[i].parent == d2
            && forall x :: x in done && x !in {i, d1, d2} ==> x in half && half[x] == done[x]
  {
    StaleParent(fs, d1, n1, d2, n2);
    HeldBy(fs, d1, n1);
    NotOwnChild(fs, d1, n1);
    hide Tree, EntriesAt;
    HalfFields(fs, d1, n1, d2, n2);
  }

  lemma {:induction false} HalfFields(fs: Fs, d1: nat, n1: Name, d2: nat, n2: Name)
    requires IsDir(fs, d1) && n1 in fs[d1].entries && IsDir(fs, d2) && d1 != d2
    requires IsDir(fs, fs[d1].entries[n1]) && fs[d1].entries[n1] !in {d1, d2}
    ensures var i, half, done := fs[d1].entries[n1], MoveName(fs, d1, n1, d2, n2), Move(fs, d1, n1, d2, n2);
            && SameEntries(done, half) && IsDir(half, i) && IsDir(done, i) && half[i].parent == fs[i].parent && done[i].parent == d2
            && forall x :: x in done && x !in {i, d1, d2} ==> x in half && half[x] == done[x]
  {
    var i, half, done := fs[d1].entries[n1], MoveName(fs, d1, n1, d2, n2), Move(fs, d1, n1, d2, n2);
    assert done.Keys == half.Keys == fs.Keys;
    assert done[i] == half[i].(parent := d2) && half[d1].entries == done[d1].entries && half[d2].entries == done[d2].entries;
  }

  lemma {:induction false} FreeInode(fs: Fs)
    ensures exists i: nat :: i !in fs && i != ROOT
  {
    var i := Beyond(fs.Keys + {ROOT});
    assert i !in fs && i != ROOT;
  }

  lemma {:induction false} Beyond(s: set<nat>) returns (i: nat)
    ensures forall x: nat :: x in s ==> x < i
  {
    if s == {} {
      i := 0;
    } else {
      var x: nat :| x in s;
      var j := Beyond(s - {x});
      i := if j <= x then x + 1 else j;
      assert forall y: nat :: y in s ==> y == x || y in s - {x};
    }
  }

  /**
   Nothing an index hides, and no want of a place, stands in the way of a rename:
   the name there, if there is one, is found; there is a place for the new name;
   and the old one is found once the new one is in.
   */
  predicate Carriable(fs: Fs, hides: Hides, from: Path, to: Path, room: Result<set<Name>>) {
    || Resolve(fs, from) == Resolve(fs, to)
    || (room.Ok? && !HiddenAt(fs, hides, to) && !HiddenAt(fs, Linked(fs, hides, to, room.value), from))
  }

  lemma {:induction false} CarriableIs(fs: Fs, hides: Hides, from: Path, to: Path, room: Result<set<Name>>, i: nat, d1: nat, d2: nat)
    requires Tree(fs) && RenameFrom(fs, from, to) == Ok(Renaming(i, d1, d2))
    ensures from != [] && to != [] && (Cleared(fs, to, i) == Ok(None) <==> Resolve(fs, to) == Some(i))
    ensures Carriable(fs, hides, from, to, room) <==>
              || Resolve(fs, to) == Some(i)
              || (room.Ok? && !HiddenAt(fs, hides, to) && Last(from) !in HiddenIn(hides[d2 := room.value], d1))
  {
    hide Tree;
    assert Resolve(fs, from) == Some(i) && Resolve(fs, Init(from)) == Some(d1) && Resolve(fs, Init(to)) == Some(d2);
    hide Find;
  }

  /** Where a path leads nowhere nothing is hidden. */
  lemma {:induction false} NowhereHidden(fs: Fs, hides: Hides, path: Path)
    ensures Resolve(fs, path) == None ==> !HiddenAt(fs, hides, path)
  {
  }

  lemma {:induction false} HiddenIs(fs: Fs, hides: Hides, path: Path, d: nat, i: nat)
    requires path != [] && ParentDir(fs, path) == Ok(d) && Lookup(fs, path) == Ok(i)
    ensures HiddenAt(fs, hides, path) <==> Last(path) in HiddenIn(hides, d)
  {
  }

  /** A name is taken exactly when its path leads somewhere. */
  lemma {:induction false} TakenLeads(fs: Fs, path: Path)
    requires ParentDir(fs, path).Ok? && IsDir(fs, ParentDir(fs, path).value)
    ensures path != [] && (Last(path) in fs[ParentDir(fs, path).value].entries <==> Resolve(fs, path).Some?)
  {
    SplitLast(path);
    ResolveMore(fs, Init(path), Last(path));
    hide Resolve;
  }

  lemma {:induction false} HeldIn(fs: Fs, d: nat, n: Name)
    requires Tree(fs) && n in EntriesAt(fs, d)
    ensures EntriesAt(fs, d)[n] in fs && EntriesAt(fs, d)[n] != d
  {
    HeldBy(fs, d, n);
    NotOwnChild(fs, d, n);
  }

  lemma {:induction false} UnlinkIs(fs: Fs, path: Path, d: nat, i: nat)
    requires Tree(fs) && ParentDir(fs, path) == Ok(d) && Lookup(fs, path) == Ok(i) && !IsDir(fs, i)
    ensures path != [] && IsDir(fs, d) && Last(path) in fs[d].entries && fs[d].entries[Last(path)] == i && i in fs && i != d
    ensures Unlink(fs, path) == Ok(DropName(fs, d, Last(path)))
  {
    FindNameIs(fs, path);
    HeldIn(fs, d, Last(path));
  }

  lemma {:induction false} RemoveDirIs(fs: Fs, path: Path, d: nat, i: nat)
    requires Tree(fs) && ParentDir(fs, path) == Ok(d) && Lookup(fs, path) == Ok(i) && i != ROOT && IsDir(fs, i) && fs[i].entries == map[]
    ensures path != [] && IsDir(fs, d) && Last(path) in fs[d].entries && fs[d].entries[Last(path)] == i && i != d
    ensures RemoveDir(fs, path) == Ok(DropDir(fs, d, Last(path)))
  {
    FindNameIs(fs, path);
    HeldIn(fs, d, Last(path));
  }

  lemma {:induction false} LinkIs(fs: Fs, existing: Path, path: Path, d: nat, i: nat)
    requires Tree(fs) && Lookup(fs, existing) == Ok(i) && i in fs && !IsDir(fs, i) && Vacant(fs, path) == Ok(d)
    ensures Link(fs, existing, path) == if NameOk(Last(path)) then Ok(AddName(fs, d, Last(path), i)) else Err(InvalidName)
    ensures IsDir(fs, d) && i != d
  {
  }
}
