/**
 Trees packed into tar archives and unpacked from them (src/volume.rs:905-1080 and
 1237-1371): an archive's entries as headers and contents, and back.
 */
module ArchiveTar {
  import opened Base
  import opened Namespace
  import opened NameOps
  import opened NameVolume
  import opened ArchiveWalk
  import opened ArchivePack
  import opened ArchiveLayers
  import opened ArchiveUnpack
  import opened ArchiveCopy
  import opened ArchiveMirror
  import opened DiskAnswers
  import opened ArchiveSupply
  import opened ArchiveStream
  import TarPax
  import TarText
  import TarHeader
  import TarDecode
  import TarStream
  import TarReader
  import TarRoundTrip

  // ---- paths as texts ----

  /** Names joined by slashes. */
  function Joined(p: Path): Bytes {
    if p == [] then [] else if |p| == 1 then p[0] else Joined(Init(p)) + [SLASH] + Last(p)
  }

  /** A name that an archive can hold: not empty, not ".", without slashes or NULs. */
  ghost predicate Plain(name: Name) {
    name != [] && name != [46] && SLASH !in name && 0 !in name
  }

  ghost predicate AllPlain(p: Path) {
    forall i :: 0 <= i < |p| ==> Plain(p[i])
  }

  lemma {:induction false} LastSlashIs(a: Bytes, n: Name)
    requires SLASH !in n
    ensures LastSlash(a + [SLASH] + n) == Some(|a|)
  {
    var t, r := a + [SLASH] + n, LastSlash(a + [SLASH] + n);
    assert t[|a|] == SLASH;
    assert forall k :: |a| < k < |t| ==> t[k] == n[k - |a| - 1];
  }

  lemma {:induction false} NoSlash(n: Name)
    requires SLASH !in n
    ensures LastSlash(n) == None
  {
  }

  /** A path's text comes apart into its names. */
  lemma {:induction false} JoinedComponents(p: Path)
    requires AllPlain(p)
    ensures Components(Joined(p)) == p
    decreases |p|
  {
    hide LastSlash;
    if p == [] {
    } else if |p| == 1 {
      NoSlash(p[0]);
      assert Plain(p[0]) && p == [p[0]];
    } else {
      var n, a := Last(p), Joined(Init(p));
      assert Plain(n);
      JoinedComponents(Init(p));
      LastSlashIs(a, n);
      var t := a + [SLASH] + n;
      assert t[..|a|] == a && t[|a| + 1..] == n;
      SplitLast(p);
    }
  }

  /** A path's text starts with its first name and ends with its last, and holds no NUL. */
  lemma {:induction false} JoinedEnds(p: Path)
    requires AllPlain(p) && p != []
    ensures var t, first, last := Joined(p), p[0], Last(p);
            && |first| <= |t| && t[..|first|] == first && (|first| == |t| || t[|first|] == SLASH)
            && |last| <= |t| && t[|t| - |last|..] == last && TarText.NulFree(t)
    decreases |p|
  {
    assert Plain(p[0]) && Plain(Last(p));
    if |p| > 1 {
      JoinedEnds(Init(p));
    }
  }

  lemma {:induction false} NormaliseIs(t: Bytes)
    requires t != [] && t[0] != SLASH && t[|t| - 1] != SLASH && !(2 <= |t| && t[0] == 46 && t[1] == SLASH)
    ensures TarText.Normalise(t) == t
  {
  }

  /** A path's text is normal. */
  lemma {:induction false} JoinedNormal(p: Path)
    requires AllPlain(p)
    ensures TarText.Normalise(Joined(p)) == Joined(p) && TarText.NulFree(Joined(p))
  {
    if p != [] {
      JoinedEnds(p);
      var t, first, last := Joined(p), p[0], Last(p);
      assert Plain(first) && Plain(last);
      assert t[0] == first[0] && first[0] in first;
      assert t[|t| - 1] == last[|last| - 1] && last[|last| - 1] in last;
      StartsNoDot(t, first);
      NormaliseIs(t);
    }
  }

  lemma {:induction false} StartsNoDot(t: Bytes, first: Name)
    requires Plain(first) && |first| <= |t| && t[..|first|] == first && (|first| == |t| || t[|first|] == SLASH)
    ensures !(2 <= |t| && t[0] == 46 && t[1] == SLASH)
  {
    assert |first| == 1 ==> first == [t[0]];
    assert |first| > 1 ==> t[1] == first[1] && first[1] in first;
  }

  // ---- entries as headers ----

  /** The header and contents an entry is written as. */
  function EntryOf(item: Item): TarStream.Entry {
    var path, a := Joined(item.path), item.attrs;
    match item.what
    case Folder => TarStream.Entry(TarHeader.Header(path, TarHeader.Directory, a.mode, a.uid, a.gid, 0, 0, [], 0, 0, []), [])
    case Again(target) =>
      TarStream.Entry(TarHeader.Header(path, TarHeader.HardLink, a.mode, a.uid, a.gid, 0, 0, Joined(target), 0, 0, []), [])
    case Content(Regular(data)) =>
      TarStream.Entry(TarHeader.Header(path, TarHeader.File, a.mode, a.uid, a.gid, 0, |data|, [], 0, 0, []), data)
    case Content(Symlink(target)) =>
      TarStream.Entry(TarHeader.Header(path, TarHeader.Symlink, a.mode, a.uid, a.gid, 0, 0, target, 0, 0, []), [])
    case Content(CharDevice(major, minor)) =>
      TarStream.Entry(TarHeader.Header(path, TarHeader.CharDevice, a.mode, a.uid, a.gid, 0, 0, [], major, minor, []), [])
    case Content(BlockDevice(major, minor)) =>
      TarStream.Entry(TarHeader.Header(path, TarHeader.BlockDevice, a.mode, a.uid, a.gid, 0, 0, [], major, minor, []), [])
    case Content(Fifo) =>
      TarStream.Entry(TarHeader.Header(path, TarHeader.Fifo, a.mode, a.uid, a.gid, 0, 0, [], 0, 0, []), [])
  }

  /** What an entry read is unpacked as. */
  function ItemOf(e: TarStream.Entry): Item {
    var h := e.header;
    var what := match h.kind
                case Directory => Folder
                case HardLink => Again(Components(TarText.Normalise(h.link)))
                case File => Content(Regular(e.data))
                case Symlink => Content(Symlink(h.link))
                case CharDevice => Content(CharDevice(h.major, h.minor))
                case BlockDevice => Content(BlockDevice(h.major, h.minor))
                case Fifo => Content(Fifo);
    Item(Components(h.path), what, Attrs(h.mode, h.uid, h.gid))
  }

  /** An entry a tar archive can hold, a long link not spilling into the name it is kept under. */
  ghost predicate Storable(item: Item) {
    var h := EntryOf(item).header;
    && AllPlain(item.path) && item.attrs.mode < 4096 && item.attrs.uid < U32_LIMIT && item.attrs.gid < U32_LIMIT
    && |TarPax.Body(TarDecode.RecordsFor(h))| < TarText.Power(8, 11) && TarDecode.Unspoilt(h)
    && match item.what
       case Folder => true
       case Again(target) => AllPlain(target)
       case Content(Regular(data)) => |data| < TarText.Power(8, 11)
       case Content(Symlink(target)) => TarText.NulFree(target)
       case Content(CharDevice(major, minor)) => major < TarText.Power(8, 7) && minor < TarText.Power(8, 7)
       case Content(BlockDevice(major, minor)) => major < TarText.Power(8, 7) && minor < TarText.Power(8, 7)
       case Content(Fifo) => true
  }

  /** What is storable is readable once it is written. */
  lemma {:induction false} StorableReads(item: Item)
    requires Storable(item)
    ensures TarStream.Readable(EntryOf(item))
    ensures TarStream.Settled(EntryOf(item).header, EntryOf(item).data) == EntryOf(item)
  {
    hide TarDecode.RecordsFor, TarText.Power, Joined, AllPlain, TarPax.Body;
    EightToSeven();
    JoinedNormal(item.path);
    if item.what.Again? {
      JoinedNormal(item.what.target);
    }
  }

  lemma {:induction false} EightToSeven()
    ensures TarText.Power(8, 7) < U32_LIMIT
  {
    TarDecode.PowersOfEight();
  }

  /** The header of a storable entry, as it comes back. */
  lemma {:induction false} HeaderBack(item: Item)
    requires Storable(item)
    ensures var h := EntryOf(item).header;
            var b := TarDecode.Restored(h);
            && b.path == h.path && b.kind == h.kind && b.mode == h.mode && b.uid == h.uid && b.gid == h.gid && b.link == h.link
            && (item.what.Content? && (item.what.kind.CharDevice? || item.what.kind.BlockDevice?) ==> b.major == h.major && b.minor == h.minor)
  {
    hide TarDecode.RecordsFor, TarText.Power, Joined, AllPlain, TarText.Normalise, TarDecode.Unspoilt, TarDecode.NumberRead, TarPax.InsertAll, TarText.CStr, TarHeader.LinkPart, TarPax.Body;
    var h := EntryOf(item).header;
    StorableReads(item);
    JoinedNormal(item.path);
    TarDecode.NormalSurvives(h);
    EightToSeven();
    if item.what.Content? && (item.what.kind.CharDevice? || item.what.kind.BlockDevice?) {
      TarDecode.NumberSurvives(h.major, h.link, 179);
      TarDecode.NumberSurvives(h.minor, h.link, 187);
    }
  }

  /** A storable entry is unpacked as what was packed. */
  lemma {:induction false} EntryBack(item: Item)
    requires Storable(item)
    ensures ItemOf(TarStream.Entry(TarDecode.Restored(EntryOf(item).header), EntryOf(item).data)) == item
  {
    hide TarDecode.RecordsFor, TarText.Power, Joined, AllPlain, TarText.Normalise, TarDecode.Restored, Components, TarPax.Body;
    HeaderBack(item);
    JoinedComponents(item.path);
    if item.what.Again? {
      JoinedNormal(item.what.target);
      JoinedComponents(item.what.target);
    }
  }

  function EntriesOf(items: seq<Item>): (r: seq<TarStream.Entry>)
    ensures |r| == |items|
  {
    seq(|items|, i requires 0 <= i < |items| => EntryOf(items[i]))
  }

  function ItemsOf(entries: seq<TarStream.Entry>): (r: seq<Item>)
    ensures |r| == |entries|
  {
    seq(|entries|, i requires 0 <= i < |entries| => ItemOf(entries[i]))
  }

  ghost predicate AllStorable(items: seq<Item>) {
    forall i :: 0 <= i < |items| ==> Storable(items[i])
  }

  /** The archive some entries make. */
  function Archive(items: seq<Item>): Bytes {
    TarStream.Stream(EntriesOf(items)) + TarStream.END
  }

  /** What is read of an archive is what was packed in it. */
  lemma {:induction false} ArchiveBack(items: seq<Item>)
    requires AllStorable(items)
    ensures var back := TarReader.Entries(Archive(items), 0, 0, false, []);
            back.Ok? && ItemsOf(back.value) == items
  {
    hide Storable, EntryOf, ItemOf, TarStream.Readable, TarStream.Stream, TarReader.Entries, TarDecode.Restored;
    var entries := EntriesOf(items);
    forall i | 0 <= i < |entries| ensures TarStream.Readable(entries[i]) {
      StorableReads(items[i]);
    }
    TarRoundTrip.ReadsBack(entries);
    var back := TarRoundTrip.Back(entries);
    forall i | 0 <= i < |items| ensures ItemOf(back[i]) == items[i] {
      EntryBack(items[i]);
    }
  }

  // ---- volumes to archives and back ----

  /** Pack a tree into a tar archive. */
  method PackTar(fs: Fs, root: Path) returns (r: Result<Bytes>, ghost items: seq<Item>)
    requires Tree(fs)
    ensures r.Ok? <==> DirAt(fs, root)
    ensures r.Ok? ==> |items| == |Paths(fs, root)| && PackedSoFar(fs, root, Paths(fs, root), items)
    ensures r.Ok? && AllStorable(items) ==> r.value == Archive(items)
  {
    hide Tree, Paths, DirAt, PackedSoFar, Storable, EntryOf, TarStream.Stream, TarStream.Settled;
    items := [];
    var packed := PackInto(fs, root);
    if packed.Err? {
      return Err(packed.error), [];
    }
    items := packed.value;
    ghost var written;
    var text;
    text, written := TarStream.WriteArchive(EntriesOf(packed.value));
    if AllStorable(items) {
      forall i | 0 <= i < |items| ensures written[i] == EntryOf(items[i]) {
        StorableReads(items[i]);
      }
      assert written == EntriesOf(items);
    }
    r := Ok(text);
  }

  /**
   Unpack a tar archive, as a layer or not and over whatever is there: the tree
   stays a tree, and what is seen at every path is what the entries a reading of
   the whole text finds make of what was. Of a packed tree, unpacked somewhere empty or not there yet and not as a
   layer, the copy mirrors it unless the disk runs short, and it does not where
   enough is free; nothing else changes, but for the directories laid on the way,
   which `mid` has.
   */
  method UnpackTar(v: Volume, dest: Path, text: Bytes, layer: bool, ghost src: Fs, ghost root: Path, ghost items: seq<Item>) returns (r: Result<()>, ghost mid: Fs)
    requires Tree(v.nodes) && 0 < v.layout.blockSize
    modifies v
    ensures r.Ok? ==> var all := TarReader.Entries(text, 0, 0, false, []);
                      Tree(v.nodes) && all.Ok? && Shows(v.nodes, Layered(Way(ViewOf(old(v.nodes)), dest), dest, ItemsOf(all.value), layer))
    ensures !layer && PackOf(src, root, items) && AllStorable(items) && text == Archive(items) && Open(old(v.nodes), dest) ==>
              && (r.Err? ==> Shortage(r.error))
              && (r.Ok? ==> Mirrors(src, root, v.nodes, dest) && Laid(old(v.nodes), mid, dest) && Apart(mid, v.nodes, dest))
              && (Enough(v.layout, src, dest, items, old(v.Now())) ==> r.Ok?)
  {
    hide Tree, Paths, DirAt, Storable, EntryOf, ItemOf, Archive, PackOf, EmptyAt, Open, Laid, Mirrors, Apart, Copied, Copying, AttrsSet, Provided, Enough;
    hide TarReader.Entries, TarReader.Advance, TarReader.Continues, Shows, Way, ViewOf, Obeyed, Layered, Reattributed;
    ghost var packed := !layer && PackOf(src, root, items) && AllStorable(items) && text == Archive(items) && Open(v.nodes, dest);
    ghost var all := TarReader.Entries(text, 0, 0, false, []);
    ghost var enough := packed && Enough(v.layout, src, dest, items, v.Now());
    ghost var view := Way(ViewOf(v.nodes), dest);
    if packed {
      ArchiveBack(items);
    }
    ghost var span, most;
    r, span, most := BeginCopy(v, dest, packed, src, root, items);
    mid := v.nodes;
    if r.Err? {
      return;
    }
    var reader, entries := Opened(text);
    var deferred: seq<Item> := [];
    NoItems(view, dest, layer);
    while true
      invariant fresh(reader) && fresh(reader.src) && reader.Valid() && Tree(v.nodes)
      invariant TarReader.Continues(all, entries, TarReader.Entries(reader.src.Rest(), reader.left, reader.pad, reader.done, reader.global))
      invariant packed ==> Copying(src, root, mid, v.nodes, dest, items, |entries|, deferred)
      invariant Shows(v.nodes, Layered(view, dest, ItemsOf(entries), layer))
      invariant enough ==> Provided(v.layout, src, dest, items, v.Now(), |entries|, span, most)
      decreases |reader.src.Rest()|
    {
      ghost var at := TarReader.Entries(reader.src.Rest(), reader.left, reader.pad, reader.done, reader.global);
      var entry := TarReader.NextEntry(reader);
      if packed {
        NextItem(all, entries, at, entry, TarReader.Entries(reader.src.Rest(), reader.left, reader.pad, reader.done, reader.global), items);
      }
      if entry.Err? {
        return Err(entry.error), mid;
      }
      if entry.value.None? {
        WholeRead(all, entries, at);
        break;
      }
      ghost var k := |entries|;
      TarReader.OneMore(all, entries, at, [entry.value.value], TarReader.Entries(reader.src.Rest(), reader.left, reader.pad, reader.done, reader.global));
      ghost var seen := Layered(view, dest, ItemsOf(entries), layer);
      OneItem(view, dest, entries, entry.value.value, layer);
      entries := entries + [entry.value.value];
      var next := UnpackNext(v, dest, ItemOf(entry.value.value), layer, deferred, src, root, mid, items, k, span, most, seen);
      if next.Err? {
        return Err(next.error), mid;
      }
      deferred := next.value;
    }
    if packed {
      CopyingDone(src, root, mid, v.nodes, dest, items, deferred);
    }
    ghost var fs := v.nodes;
    r := ApplyAttrs(v, dest, deferred);
    if r.Ok? {
      AttrsShow(fs, v.nodes, Layered(view, dest, ItemsOf(entries), layer));
    }
    if packed && r.Ok? {
      PackOfIs(src, root, items);
      CopyMirrors(src, root, mid, v.nodes, dest);
      CopiedIs(src, root, mid, v.nodes, dest, |Paths(src, root)|);
    }
  }

  lemma {:induction false} NoItems(view: View, dest: Path, layer: bool)
    ensures Layered(view, dest, ItemsOf([]), layer) == view
  {
  }

  /** One entry more read is one item more. */
  lemma {:induction false} OneItem(view: View, dest: Path, entries: seq<TarStream.Entry>, e: TarStream.Entry, layer: bool)
    ensures Layered(view, dest, ItemsOf(entries + [e]), layer) == Obeyed(Layered(view, dest, ItemsOf(entries), layer), dest, ItemOf(e), layer)
  {
    hide ItemOf, Obeyed;
    var items := ItemsOf(entries + [e]);
    assert items[..|items| - 1] == ItemsOf(entries);
  }

  lemma {:induction false} WholeRead(all: Result<seq<TarStream.Entry>>, out: seq<TarStream.Entry>, at: Result<seq<TarStream.Entry>>)
    requires TarReader.Continues(all, out, at) && at == Ok([])
    ensures all == Ok(out)
  {
    assert out + [] == out;
  }

  /** A reader at the start of an archive, nothing read yet. */
  method Opened(text: Bytes) returns (reader: TarReader.Reader, ghost entries: seq<TarStream.Entry>)
    ensures fresh(reader) && fresh(reader.src) && reader.Valid() && entries == []
    ensures TarReader.Continues(TarReader.Entries(text, 0, 0, false, []), entries,
                                TarReader.Entries(reader.src.Rest(), reader.left, reader.pad, reader.done, reader.global))
  {
    hide TarReader.Entries, TarReader.Continues;
    TarReader.NoneYet(TarReader.Entries(text, 0, 0, false, []));
    assert text[0..] == text;
    var src := new TarReader.Source(text);
    reader := new TarReader.Reader(src);
    entries := [];
  }

  /** Of a packed archive, the next entry read is the next item, and there is no error. */
  lemma {:induction false} NextItem(all: Result<seq<TarStream.Entry>>, out: seq<TarStream.Entry>, at: Result<seq<TarStream.Entry>>,
                                    entry: Result<Option<TarStream.Entry>>, more: Result<seq<TarStream.Entry>>, items: seq<Item>)
    requires all.Ok? && ItemsOf(all.value) == items && TarReader.Continues(all, out, at)
    requires (entry.Err? ==> at == Err(entry.error)) && (entry.Ok? && entry.value.None? ==> at == Ok([]))
    requires entry.Ok? && entry.value.Some? ==> TarReader.Continues(at, [entry.value.value], more)
    ensures entry.Ok? && (entry.value.None? ==> |out| == |items|)
    ensures entry.value.Some? ==> |out| < |items| && ItemOf(entry.value.value) == items[|out|]
  {
    hide ItemOf;
    if entry.Ok? && entry.value.Some? {
      assert all.value == out + ([entry.value.value] + more.value);
      assert ItemsOf(all.value)[|out|] == ItemOf(all.value[|out|]);
    }
  }
}
