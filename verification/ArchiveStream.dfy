/** The loop that unpacks an archive, entry by entry (src/volume.rs:934-1080). */
module ArchiveStream {
  import opened Base
  import opened Namespace
  import opened NameOps
  import opened DiskAnswers
  import opened NameVolume
  import opened ArchiveWalk
  import opened ArchivePack
  import opened ArchiveNeeds
  import opened ArchiveUnpack
  import opened ArchiveCopy
  import opened ArchiveSupply
  import opened ArchiveLayers
  import ArchiveWhiteouts

  /** Somewhere empty to unpack to, or nowhere yet and nothing in the way. */
  ghost predicate Open(fs: Fs, dest: Path) {
    EmptyAt(fs, dest) || (Resolve(fs, dest) == None && Layable(fs, dest))
  }

  /** Lay the way to where an archive is to be unpacked. */
  method Begin(v: Volume, dest: Path, ghost span: nat) returns (r: Result<()>)
    requires Tree(v.nodes)
    modifies v
    ensures r.Ok? ==> Tree(v.nodes) && Laid(old(v.nodes), v.nodes, dest)
    ensures Open(old(v.nodes), dest) ==> (r.Err? ==> Shortage(r.error)) && (r.Ok? ==> EmptyAt(v.nodes, dest))
    ensures EmptyAt(old(v.nodes), dest) ==> r.Ok? && v.Now() == old(v.Now())
    ensures Open(old(v.nodes), dest) && !EmptyAt(old(v.nodes), dest) && WayAffords(v.layout, old(v.Now()), dest, span) ==>
              r.Ok? && OnTheWay(v.layout, old(v.Now()), v.Now(), dest, |dest|, span)
  {
    hide Tree, Find, Resolve, EmptyAt, NodeAt, Laid, Layable, WayAffords, OnTheWay;
    ghost var start := v.nodes;
    ResolveMore(v.nodes, [], []);
    if Open(start, dest) {
      OpenLays(start, dest);
    }
    if dest != [] {
      r := MkdirAll(v, dest, span);
      if r.Ok? {
        LaidIs(start, v.nodes, dest);
      }
      return;
    }
    NothingLaid(v.nodes, []);
    r := Ok(());
  }

  /** A copy of a packed tree being unpacked: the entries before k are in place, and the next is this one. */
  ghost predicate Copying(src: Fs, root: Path, start: Fs, now: Fs, dest: Path, items: seq<Item>, k: nat, deferred: seq<Item>) {
    PackOf(src, root, items) && k <= |items| && Copied(src, root, start, now, dest, k) && DirsSet(now, dest, deferred)
  }

  /** The entry is the next of a packed tree being unpacked. */
  ghost predicate IsNext(src: Fs, root: Path, start: Fs, now: Fs, dest: Path, items: seq<Item>, k: nat, deferred: seq<Item>, item: Item) {
    k < |items| && item == items[k] && Copying(src, root, start, now, dest, items, k, deferred)
  }

  /** Unpack one entry, or as a layer obey it; directories' attributes are put off. */
  method UnpackNext(v: Volume, dest: Path, item: Item, layer: bool, deferred: seq<Item>,
                    ghost src: Fs, ghost root: Path, ghost start: Fs, ghost items: seq<Item>, ghost k: nat, ghost span: nat, ghost most: nat, ghost view: View)
    returns (r: Result<seq<Item>>)
    requires Tree(v.nodes) && 0 < v.layout.blockSize && Shows(v.nodes, view)
    modifies v
    ensures r.Ok? ==> Tree(v.nodes) && Shows(v.nodes, Obeyed(view, dest, item, layer))
    ensures !layer && IsNext(src, root, start, old(v.nodes), dest, items, k, deferred, item) ==>
              && (r.Err? ==> Shortage(r.error))
              && (r.Ok? ==> Copying(src, root, start, v.nodes, dest, items, k + 1, r.value))
              && (Provided(v.layout, src, dest, items, old(v.Now()), k, span, most) ==>
                    r.Ok? && Provided(v.layout, src, dest, items, v.Now(), k + 1, span, most))
  {
    hide Tree, Find, Resolve, PackOf, Copied, Ready, PutAt, Stands, DirsSet, NodeAt, Provided, ItemAffords, ItemAfforded;
    hide Shows, Unpacked, Entered, Marked, Remains, ArchiveWhiteouts.InsideOnly, ArchiveWhiteouts.NothingIn;
    ghost var s, fs := v.Now(), v.nodes;
    ghost var packed := !layer && IsNext(src, root, start, v.nodes, dest, items, k, deferred, item);
    if layer && item.path != [] && ArchiveWhiteouts.Begins(Last(item.path), ArchiveWhiteouts.MARK) {
      var gone := ArchiveWhiteouts.ApplyWhiteout(v, dest + Init(item.path), Last(item.path));
      if gone.Err? {
        return Err(gone.error);
      }
      MarkShows(fs, v.nodes, dest + Init(item.path), Last(item.path), view);
      return Ok(deferred);
    }
    ghost var provided := packed && Provided(v.layout, src, dest, items, s, k, span, most);
    if packed {
      ReadyFrom(src, root, start, fs, dest, items, k);
    }
    if provided {
      NextAffords(v.layout, src, root, start, dest, items, s, k, span, most);
    }
    var put, i, laid, clear := UnpackOne(v, dest, item);
    if put.Err? {
      return Err(put.error);
    }
    if packed {
      ReadyIs(fs, dest, item);
      NextFrom(src, root, start, fs, v.nodes, dest, items, k, i);
      DirsStaySet(fs, v.nodes, dest, item, deferred, i);
    }
    if provided {
      ProvidedNext(v.layout, src, root, start, dest, items, s, v.Now(), k, i, span, most);
    }
    if item.path != [] {
      EntryShows(fs, laid, clear, v.nodes, dest, item, i, view);
    }
    // What a directory is to look like is set once everything is in it.
    r := Ok(if item.path != [] && item.what.Folder? then deferred + [item] else deferred);
  }

  lemma {:induction false} CopyingFrom(src: Fs, root: Path, start: Fs, dest: Path, items: seq<Item>)
    requires PackOf(src, root, items) && Tree(start) && EmptyAt(start, dest)
    ensures Copying(src, root, start, start, dest, items, 0, [])
  {
    hide Tree, PackOf, Copied, EmptyAt, DirsSet;
    PackOfIs(src, root, items);
    CopyStart(src, root, start, dest);
    NoDirsSet(start, dest);
  }

  /** Once all entries are in place, putting directories' attributes right changes nothing. */
  lemma {:induction false} CopyingDone(src: Fs, root: Path, start: Fs, now: Fs, dest: Path, items: seq<Item>, deferred: seq<Item>)
    requires Copying(src, root, start, now, dest, items, |items|, deferred)
    ensures Copied(src, root, start, now, dest, |Paths(src, root)|) && forall e :: e in deferred ==> AttrsSet(now, dest, e)
  {
    hide Tree, PackOf, Copied, DirsSet;
    PackOfIs(src, root, items);
    DirsSetIs(now, dest, deferred);
  }

  lemma {:induction false} SeesItself(fs: Fs)
    ensures Shows(fs, ViewOf(fs))
  {
  }

  /** Lay the way, and if it is a packed tree that is to be unpacked, have no entry of it yet, and enough for them all if there is. */
  method BeginCopy(v: Volume, dest: Path, ghost packed: bool, ghost src: Fs, ghost root: Path, ghost items: seq<Item>)
    returns (r: Result<()>, ghost span: nat, ghost most: nat)
    requires Tree(v.nodes) && (packed ==> PackOf(src, root, items) && Open(v.nodes, dest))
    modifies v
    ensures r.Ok? ==> Tree(v.nodes) && Laid(old(v.nodes), v.nodes, dest) && Shows(v.nodes, Way(ViewOf(old(v.nodes)), dest))
    ensures packed ==>
              && (r.Err? ==> Shortage(r.error))
              && (r.Ok? ==> Copying(src, root, v.nodes, v.nodes, dest, items, 0, []))
              && (Enough(v.layout, src, dest, items, old(v.Now())) ==> r.Ok? && Provided(v.layout, src, dest, items, v.Now(), 0, span, most))
  {
    hide Tree, PackOf, Copying, Laid, Open, EmptyAt, Provided, Supplied, Shows, Way;
    ghost var enough, s := packed && Enough(v.layout, src, dest, items, v.Now()), v.Now();
    span, most := 0, 0;
    if enough {
      span, most :| Supplied(v.layout, src, dest, items, s, span, most);
      SuppliedWay(v.layout, src, dest, items, s, span, most);
    }
    r := Begin(v, dest, Widest(span, most));
    if r.Ok? {
      SeesItself(s.nodes);
      WayShows(s.nodes, v.nodes, dest, ViewOf(s.nodes));
    }
    if packed && r.Ok? {
      CopyingFrom(src, root, v.nodes, dest, items);
    }
    if enough {
      OpenLays(s.nodes, dest);
      ProvidedStart(v.layout, src, root, dest, items, s, v.Now(), span, most);
    }
  }

  /**
   Unpack an archive's entries, as a layer or not and over whatever is there: the
   tree stays a tree, and what is seen at every path is what the entries make of
   what was, one after another. Of a packed tree, unpacked somewhere empty or not
   there yet and not as a layer, the copy is whole unless the disk runs short, and
   it does not where enough is free; `mid` is what the way to it being laid leaves.
   */
  method UnpackInto(v: Volume, dest: Path, items: seq<Item>, layer: bool, ghost src: Fs, ghost root: Path) returns (r: Result<()>, ghost mid: Fs)
    requires Tree(v.nodes) && 0 < v.layout.blockSize
    modifies v
    ensures r.Ok? ==> Tree(v.nodes) && Shows(v.nodes, Layered(Way(ViewOf(old(v.nodes)), dest), dest, items, layer))
    ensures !layer && PackOf(src, root, items) && Open(old(v.nodes), dest) ==>
              && (r.Err? ==> Shortage(r.error))
              && (r.Ok? ==> Laid(old(v.nodes), mid, dest) && Copied(src, root, mid, v.nodes, dest, |Paths(src, root)|))
              && (Enough(v.layout, src, dest, items, old(v.Now())) ==> r.Ok?)
  {
    hide Tree, PackOf, Copied, Copying, Paths, Laid, Open, EmptyAt, AttrsSet, Provided, Enough, Shows, Way, Obeyed, Reattributed, ViewOf;
    ghost var packed := !layer && PackOf(src, root, items) && Open(v.nodes, dest);
    ghost var enough := packed && Enough(v.layout, src, dest, items, v.Now());
    ghost var view := Way(ViewOf(v.nodes), dest);
    ghost var span, most;
    r, span, most := BeginCopy(v, dest, packed, src, root, items);
    mid := v.nodes;
    if r.Err? {
      return;
    }
    var deferred: seq<Item> := [];
    for k := 0 to |items|
      invariant Tree(v.nodes) && (packed ==> Copying(src, root, mid, v.nodes, dest, items, k, deferred))
      invariant Shows(v.nodes, Layered(view, dest, items[..k], layer))
      invariant enough ==> Provided(v.layout, src, dest, items, v.Now(), k, span, most)
    {
      var next := UnpackNext(v, dest, items[k], layer, deferred, src, root, mid, items, k, span, most, Layered(view, dest, items[..k], layer));
      if next.Err? {
        return Err(next.error), mid;
      }
      deferred := next.value;
      assert items[..k + 1][..k] == items[..k];
    }
    assert items[..|items|] == items;
    if packed {
      CopyingDone(src, root, mid, v.nodes, dest, items, deferred);
    }
    ghost var fs := v.nodes;
    r := ApplyAttrs(v, dest, deferred);
    if r.Ok? {
      AttrsShow(fs, v.nodes, Layered(view, dest, items, layer));
    }
  }

  /** Where the way is still to be laid, there is enough to lay it. */
  lemma {:induction false} SuppliedWay(layout: Layout, src: Fs, dest: Path, items: seq<Item>, s: Standing, span: nat, most: nat)
    requires Supplied(layout, src, dest, items, s, span, most)
    ensures EmptyAt(s.nodes, dest) || WayAffords(layout, s, dest, Widest(span, most))
  {
    hide BlocksFor, InodesFor, StepCost, Roomy, EmptyAt, NodeAt;
  }

  lemma {:induction false} OpenLays(fs: Fs, dest: Path)
    requires Tree(fs) && Open(fs, dest)
    ensures EmptyAt(fs, dest) ==> Resolve(fs, dest).Some? && Laid(fs, fs, dest)
    ensures !EmptyAt(fs, dest) ==> dest != [] && Resolve(fs, dest) == None && Layable(fs, dest)
  {
    if EmptyAt(fs, dest) {
      NothingLaid(fs, dest);
    }
    hide Layable;
    ResolveMore(fs, [], []);
  }

  lemma {:induction false} PackOfIs(src: Fs, root: Path, items: seq<Item>)
    requires PackOf(src, root, items)
    ensures Tree(src) && DirAt(src, root) && |items| == |Paths(src, root)|
  {
  }

  lemma {:induction false} NoDirsSet(fs: Fs, dest: Path)
    ensures DirsSet(fs, dest, [])
  {
  }

  lemma {:induction false} DirsSetIs(fs: Fs, dest: Path, deferred: seq<Item>)
    requires DirsSet(fs, dest, deferred)
    ensures forall e :: e in deferred ==> AttrsSet(fs, dest, e)
  {
  }

  lemma {:induction false} ReadyIs(fs: Fs, dest: Path, item: Item)
    requires Ready(fs, dest, item)
    ensures item.path != [] && Resolve(fs, dest + item.path) == None
  {
  }
}
