/**
 The hash index of a directory (src/index.rs:200-501): names sorted by hash and
 packed into leaves, and a tree of at most two levels laid over them.
 */
module HashIndex {
  import opened Base
  import opened DirBlock

  const SLACK_PERCENT := 20

  /** An entry with the hashes it is sorted by. */
  datatype Sorted = Sorted(hash: nat, minor: nat, entry: Entry)

  // ---- the order names are placed in ----

  /** By hash, then minor hash, then name. */
  predicate Le(a: Sorted, b: Sorted) {
    a.hash < b.hash || (a.hash == b.hash && (a.minor < b.minor || (a.minor == b.minor && NameLe(a.entry.name, b.entry.name))))
  }

  lemma {:induction false} LeTotal(a: Sorted, b: Sorted)
    ensures Le(a, b) || Le(b, a)
    ensures Le(a, b) && Le(b, a) ==> a.hash == b.hash && a.minor == b.minor && a.entry.name == b.entry.name
  {
    NameLeTotal(a.entry.name, b.entry.name);
  }

  lemma {:induction false} LeTrans(a: Sorted, b: Sorted, c: Sorted)
    requires Le(a, b) && Le(b, c)
    ensures Le(a, c)
  {
    if NameLe(a.entry.name, b.entry.name) && NameLe(b.entry.name, c.entry.name) {
      NameLeTrans(a.entry.name, b.entry.name, c.entry.name);
    }
  }

  ghost predicate InOrder(names: seq<Sorted>) {
    forall i, j :: 0 <= i < j < |names| ==> Le(names[i], names[j])
  }

  function InsertInOrder(x: Sorted, names: seq<Sorted>): seq<Sorted> {
    if names == [] || Le(x, names[0]) then [x] + names else [names[0]] + InsertInOrder(x, names[1..])
  }

  function SortNames(names: seq<Sorted>): seq<Sorted> {
    if names == [] then [] else InsertInOrder(names[0], SortNames(names[1..]))
  }

  lemma {:induction false} InsertKeeps(x: Sorted, names: seq<Sorted>)
    requires InOrder(names)
    ensures InOrder(InsertInOrder(x, names))
    ensures multiset(InsertInOrder(x, names)) == multiset{x} + multiset(names)
  {
    hide Le;
    if names == [] || Le(x, names[0]) {
      forall j | 0 <= j < |names| ensures Le(x, names[j]) {
        if j > 0 {
          LeTrans(x, names[0], names[j]);
        }
      }
    } else {
      var rest := InsertInOrder(x, names[1..]);
      InsertKeeps(x, names[1..]);
      LeTotal(x, names[0]);
      assert names == [names[0]] + names[1..];
      forall j | 0 <= j < |rest| ensures Le(names[0], rest[j]) {
        assert rest[j] in multiset(rest);
        assert rest[j] == x || rest[j] in names[1..];
        if rest[j] in names[1..] {
          var k :| 0 <= k < |names[1..]| && names[1..][k] == rest[j];
          assert names[1 + k] == rest[j];
        }
      }
    }
  }

  /** Sorting puts the same names in order. */
  lemma {:induction false} SortSorts(names: seq<Sorted>)
    ensures InOrder(SortNames(names)) && multiset(SortNames(names)) == multiset(names)
  {
    if names != [] {
      SortSorts(names[1..]);
      InsertKeeps(names[0], SortNames(names[1..]));
      assert names == [names[0]] + names[1..];
    }
  }

  /** No two of the names are the same name. */
  ghost predicate OneEach(names: seq<Sorted>) {
    forall x, y :: x in names && y in names && x.entry.name == y.entry.name ==> x == y
  }

  lemma {:induction false} SameFirst(a: seq<Sorted>, b: seq<Sorted>)
    requires a != [] && InOrder(a) && InOrder(b) && multiset(a) == multiset(b) && OneEach(a)
    ensures b != [] && a[0] == b[0] && multiset(a[1..]) == multiset(b[1..])
  {
    assert a[0] in multiset(b);
    assert b[0] in multiset(a);
    FirstLeast(a, b[0]);
    FirstLeast(b, a[0]);
    LeTotal(a[0], b[0]);
    assert a == [a[0]] + a[1..] && b == [b[0]] + b[1..];
    assert multiset(a[1..]) == multiset(a) - multiset{a[0]} == multiset(b[1..]);
  }

  lemma {:induction false} RestInOrder(a: seq<Sorted>)
    requires a != [] && InOrder(a)
    ensures InOrder(a[1..]) && (OneEach(a) ==> OneEach(a[1..]))
  {
    hide Le;
    forall x | x in a[1..] ensures x in a {
    }
  }

  /** The same names in order are in the same order, so a rebuild lays a directory out one way only. */
  lemma {:induction false} OneOrder(a: seq<Sorted>, b: seq<Sorted>)
    requires InOrder(a) && InOrder(b) && multiset(a) == multiset(b) && OneEach(a)
    ensures a == b
  {
    hide InOrder, OneEach;
    if a == [] {
      assert |multiset(b)| == 0;
    } else {
      SameFirst(a, b);
      RestInOrder(a);
      RestInOrder(b);
      OneOrder(a[1..], b[1..]);
      assert a == [a[0]] + a[1..] && b == [b[0]] + b[1..];
    }
  }

  lemma {:induction false} FirstLeast(a: seq<Sorted>, x: Sorted)
    requires InOrder(a) && x in a
    ensures Le(a[0], x)
  {
    var k :| 0 <= k < |a| && a[k] == x;
    if k == 0 {
      NameLeTotal(x.entry.name, x.entry.name);
    }
  }

  // ---- packing ----

  function Flatten(leaves: seq<seq<Sorted>>): seq<Sorted> {
    if leaves == [] then [] else Flatten(leaves[..|leaves| - 1]) + leaves[|leaves| - 1]
  }

  /** What the records of some names take up. */
  function Taken(names: seq<Sorted>): nat {
    if names == [] then 0 else Taken(names[..|names| - 1]) + RecLen(|names[|names| - 1].entry.name|)
  }

  /** Does leaf i carry on the run of equal hashes that the leaf before it ends with? */
  predicate Carries(leaves: seq<seq<Sorted>>, i: nat)
    requires i < |leaves|
  {
    && i > 0 && leaves[i] != [] && leaves[i - 1] != []
    && leaves[i - 1][|leaves[i - 1]| - 1].hash == leaves[i][0].hash
  }

  /** The hash stored for a leaf: its first name's, its low bit set when it carries a run on. */
  function StoredHash(leaves: seq<seq<Sorted>>, i: nat): nat
    requires i < |leaves|
  {
    if leaves[i] == [] then 0
    else leaves[i][0].hash + if Carries(leaves, i) then 1 else 0
  }

  function Usable(blockSize: nat, withTail: bool): nat
    requires withTail ==> TAIL_LEN <= blockSize
  {
    Limit(blockSize, withTail)
  }

  function SlackOf(usable: nat): nat {
    var part := usable * SLACK_PERCENT / 100;
    if part < RecLen(1) then RecLen(1) else part
  }

  /** Room for another name is left behind all but the last of a leaf's names. */
  ghost predicate Roomy(leaf: seq<Sorted>, usable: nat) {
    leaf != [] ==> Taken(leaf[..|leaf| - 1]) + SlackOf(usable) <= usable
  }

  /** A leaf is left off only where it is short of the slack, or the next name does not fit. */
  ghost predicate LeftOff(leaf: seq<Sorted>, next: Sorted, usable: nat) {
    usable < Taken(leaf) + SlackOf(usable) || usable < Taken(leaf) + RecLen(|next.entry.name|)
  }

  /** Leaf i fits, with room to spare, is stored under its hash, and follows one that could take no more. */
  ghost predicate LeafOk(leaves: seq<seq<Sorted>>, hashes: seq<nat>, i: nat, usable: nat)
    requires i < |leaves| == |hashes|
  {
    && hashes[i] == StoredHash(leaves, i) && Taken(leaves[i]) <= usable && Roomy(leaves[i], usable)
    && (i > 0 && leaves[i] != [] ==> LeftOff(leaves[i - 1], leaves[i][0], usable))
  }

  /** Names packed, in order, as full as the slack allows. */
  ghost predicate Packed(names: seq<Sorted>, leaves: seq<seq<Sorted>>, hashes: seq<nat>, usable: nat) {
    && Flatten(leaves) == names && 0 < |leaves| == |hashes|
    && (forall i :: 0 <= i < |leaves| ==> (leaves[i] == [] <==> names == [])) && (names == [] ==> |leaves| == 1)
    && (forall i :: 0 <= i < |leaves| ==> LeafOk(leaves, hashes, i, usable))
  }

  lemma {:induction false} LeafSame(a: seq<seq<Sorted>>, b: seq<seq<Sorted>>, hashes: seq<nat>, hashes': seq<nat>, i: nat, usable: nat)
    requires i < |a| == |hashes| && i < |b| == |hashes'| && LeafOk(a, hashes, i, usable)
    requires a[i] == b[i] && (i > 0 ==> a[i - 1] == b[i - 1]) && hashes[i] == hashes'[i]
    ensures LeafOk(b, hashes', i, usable)
  {
    hide Taken, LeftOff, Roomy;
  }

  lemma {:induction false} FlattenMore(leaves: seq<seq<Sorted>>, leaf: seq<Sorted>)
    ensures Flatten(leaves + [leaf]) == Flatten(leaves) + leaf
  {
    assert (leaves + [leaf])[..|leaves|] == leaves;
  }

  lemma {:induction false} TakenMore(leaf: seq<Sorted>, x: Sorted)
    ensures Taken(leaf + [x]) == Taken(leaf) + RecLen(|x.entry.name|)
  {
    assert (leaf + [x])[..|leaf|] == leaf;
  }

  /** Leaves being packed: the last may still be empty, and those before it are done. */
  ghost predicate Packing(names: seq<Sorted>, leaves: seq<seq<Sorted>>, hashes: seq<nat>, usable: nat, used: nat, previous: nat) {
    && Flatten(leaves) == names && 0 < |leaves| == |hashes|
    && (forall i :: 0 <= i < |leaves| - 1 ==> leaves[i] != [])
    && (forall i :: 0 <= i < |leaves| ==> LeafOk(leaves, hashes, i, usable))
    && used == Taken(leaves[|leaves| - 1])
    && previous == if names == [] then 1 else names[|names| - 1].hash
  }

  lemma {:induction false} LastName(leaves: seq<seq<Sorted>>)
    requires leaves != [] && leaves[|leaves| - 1] != []
    ensures var names, leaf := Flatten(leaves), leaves[|leaves| - 1];
            names != [] && names[|names| - 1] == leaf[|leaf| - 1]
  {
  }

  /** A leaf is begun. */
  lemma {:induction false} NewLeaf(names: seq<Sorted>, leaves: seq<seq<Sorted>>, hashes: seq<nat>, usable: nat, used: nat, previous: nat)
    requires Packing(names, leaves, hashes, usable, used, previous) && leaves[|leaves| - 1] != []
    ensures Packing(names, leaves + [[]], hashes + [0], usable, 0, previous)
  {
    hide LeafOk;
    FlattenMore(leaves, []);
    assert Flatten(leaves) + [] == Flatten(leaves);
    forall i | 0 <= i < |leaves| ensures LeafOk(leaves + [[]], hashes + [0], i, usable) {
      LeafSame(leaves, leaves + [[]], hashes, hashes + [0], i, usable);
    }
    EmptyLeaf(leaves + [[]], hashes + [0], usable);
  }

  lemma {:induction false} EmptyLeaf(leaves: seq<seq<Sorted>>, hashes: seq<nat>, usable: nat)
    requires leaves != [] && |leaves| == |hashes| && leaves[|leaves| - 1] == [] && hashes[|leaves| - 1] == 0
    ensures LeafOk(leaves, hashes, |leaves| - 1, usable)
  {
  }

  lemma {:induction false} NoneTaken(usable: nat)
    ensures Taken([]) == 0 && (12 <= usable ==> SlackOf(usable) <= usable)
  {
  }

  /** The hash a leaf begun by name x is given. */
  function FirstHash(x: Sorted, previous: nat): nat {
    if x.hash == previous then x.hash + 1 else x.hash
  }

  /** A name goes into the last leaf. */
  lemma {:induction false} PutName(names: seq<Sorted>, leaves: seq<seq<Sorted>>, hashes: seq<nat>, usable: nat, used: nat, previous: nat, x: Sorted)
    requires Packing(names, leaves, hashes, usable, used, previous) && x.hash % 2 == 0
    requires used + RecLen(|x.entry.name|) <= usable && used + SlackOf(usable) <= usable
    requires |leaves| > 1 && leaves[|leaves| - 1] == [] ==> LeftOff(leaves[|leaves| - 2], x, usable)
    ensures var at := |leaves| - 1;
            Packing(names + [x], leaves[at := leaves[at] + [x]],
                    if leaves[at] == [] then hashes[at := FirstHash(x, previous)] else hashes,
                    usable, used + RecLen(|x.entry.name|), x.hash)
  {
    hide Taken, SlackOf, RecLen, Flatten, LeafOk;
    var at := |leaves| - 1;
    var leaf := leaves[at];
    var now, hashes' := leaves[at := leaf + [x]], if leaf == [] then hashes[at := FirstHash(x, previous)] else hashes;
    FlattenLast(leaves, x);
    TakenMore(leaf, x);
    PreviousName(leaves);
    forall i | 0 <= i < at ensures LeafOk(now, hashes', i, usable) {
      LeafSame(leaves, now, hashes, hashes', i, usable);
    }
    PutLeaf(leaves, hashes, usable, previous, x);
  }

  lemma {:induction false} PutLeaf(leaves: seq<seq<Sorted>>, hashes: seq<nat>, usable: nat, previous: nat, x: Sorted)
    requires leaves != [] && |leaves| == |hashes| && x.hash % 2 == 0 && LeafOk(leaves, hashes, |leaves| - 1, usable)
    requires var leaf := leaves[|leaves| - 1];
             Taken(leaf) + RecLen(|x.entry.name|) <= usable && Taken(leaf) + SlackOf(usable) <= usable
    requires var at := |leaves| - 1;
             leaves[at] == [] ==>
               if at == 0 then previous == 1
               else leaves[at - 1] != [] && previous == leaves[at - 1][|leaves[at - 1]| - 1].hash && LeftOff(leaves[at - 1], x, usable)
    ensures var at := |leaves| - 1;
            LeafOk(leaves[at := leaves[at] + [x]], if leaves[at] == [] then hashes[at := FirstHash(x, previous)] else hashes, at, usable)
  {
    hide Taken, SlackOf, RecLen, LeftOff;
    var leaf := leaves[|leaves| - 1];
    TakenMore(leaf, x);
    assert (leaf + [x])[..|leaf + [x]| - 1] == leaf;
    StoredAfter(leaves, x, previous);
    hide StoredHash, FirstHash;
  }

  lemma {:induction false} StoredAfter(leaves: seq<seq<Sorted>>, x: Sorted, previous: nat)
    requires leaves != [] && x.hash % 2 == 0
    requires var at := |leaves| - 1;
             leaves[at] == [] ==> if at == 0 then previous == 1 else leaves[at - 1] != [] && previous == leaves[at - 1][|leaves[at - 1]| - 1].hash
    ensures var at := |leaves| - 1;
            var now := leaves[at := leaves[at] + [x]];
            && (forall i :: 0 <= i < at ==> StoredHash(now, i) == StoredHash(leaves, i))
            && StoredHash(now, at) == if leaves[at] == [] then FirstHash(x, previous) else StoredHash(leaves, at)
  {
  }

  lemma {:induction false} FlattenLast(leaves: seq<seq<Sorted>>, x: Sorted)
    requires leaves != []
    ensures Flatten(leaves[|leaves| - 1 := leaves[|leaves| - 1] + [x]]) == Flatten(leaves) + [x]
  {
    var at := |leaves| - 1;
    assert leaves[at := leaves[at] + [x]][..at] == leaves[..at];
  }

  /** The name before an empty last leaf is the last of the leaf before it. */
  lemma {:induction false} PreviousName(leaves: seq<seq<Sorted>>)
    requires leaves != [] && forall i :: 0 <= i < |leaves| - 1 ==> leaves[i] != []
    ensures var at, names := |leaves| - 1, Flatten(leaves);
            leaves[at] == [] ==>
              && (at == 0 ==> names == [])
              && (at > 0 ==> names != [] && names[|names| - 1] == leaves[at - 1][|leaves[at - 1]| - 1])
  {
    var at := |leaves| - 1;
    if leaves[at] == [] {
      assert Flatten(leaves) == Flatten(leaves[..at]) + [];
      if at > 0 {
        LastName(leaves[..at]);
      } else {
        assert leaves[..at] == [];
      }
    }
  }

  /** Cut sorted names into leaves, each with the hash it is stored under. */
  method PackLeaves(names: seq<Sorted>, blockSize: nat, withTail: bool) returns (r: Result<seq<seq<Sorted>>>, hashes: seq<nat>)
    requires 24 <= blockSize && forall x :: x in names ==> x.hash % 2 == 0
    ensures r.Ok? ==> Packed(names, r.value, hashes, Usable(blockSize, withTail))
    ensures r.Err? <==> exists x :: x in names && RecLen(|x.entry.name|) > Usable(blockSize, withTail)
    ensures r.Err? ==> r == Err(InvalidName)
  {
    hide Packing, RecLen, Flatten, Roomy, Taken;
    var usable := Usable(blockSize, withTail);
    var slack := SlackOf(usable);
    var leaves: seq<seq<Sorted>> := [[]];
    hashes := [0];
    var used: nat := 0;
    // An odd number is the hash of no name.
    var previous: nat := 1;
    PackingStart(usable);
    for i := 0 to |names|
      invariant leaves != [] && Packing(names[..i], leaves, hashes, usable, used, previous) && used + slack <= usable
      invariant |leaves| > 1 && leaves[|leaves| - 1] == [] ==> usable < Taken(leaves[|leaves| - 2]) + slack
      invariant forall x :: x in names[..i] ==> RecLen(|x.entry.name|) <= usable
    {
      var name := names[i];
      assert names[..i + 1] == names[..i] + [name];
      var need := RecLen(|name.entry.name|);
      if need > usable {
        return Err(InvalidName), hashes;
      }
      PackingUsed(names[..i], leaves, hashes, usable, used, previous);
      if used + need > usable && leaves[|leaves| - 1] != [] {
        NewLeaf(names[..i], leaves, hashes, usable, used, previous);
        NoneTaken(usable);
        leaves, hashes, used := leaves + [[]], hashes + [0], 0;
      }
      PackingUsed(names[..i], leaves, hashes, usable, used, previous);
      PutName(names[..i], leaves, hashes, usable, used, previous, name);
      var at := |leaves| - 1;
      if leaves[at] == [] {
        hashes := hashes[at := if name.hash == previous then name.hash + 1 else name.hash];
      }
      leaves := leaves[at := leaves[at] + [name]];
      used := used + need;
      previous := name.hash;
      // Stop short of filling the block, so the next name that hashes here has somewhere to go.
      PackingUsed(names[..i + 1], leaves, hashes, usable, used, previous);
      if usable - used < slack {
        NewLeaf(names[..i + 1], leaves, hashes, usable, used, previous);
        NoneTaken(usable);
        leaves, hashes, used := leaves + [[]], hashes + [0], 0;
      }
    }
    assert names[..|names|] == names;
    PackingDone(names, leaves, hashes, usable, used, previous);
    // The loop can leave an empty block on the end; there is no reason to write one.
    if |leaves| > 1 && leaves[|leaves| - 1] == [] {
      leaves, hashes := leaves[..|leaves| - 1], hashes[..|leaves| - 1];
    }
    r := Ok(leaves);
  }

  lemma {:induction false} PackingStart(usable: nat)
    requires 12 <= usable
    ensures Packing([], [[]], [0], usable, 0, 1) && SlackOf(usable) <= usable
  {
    NoneTaken(usable);
    FlattenMore([], []);
    var none: seq<seq<Sorted>> := [];
    assert none + [[]] == [[]];
  }

  lemma {:induction false} PackingUsed(names: seq<Sorted>, leaves: seq<seq<Sorted>>, hashes: seq<nat>, usable: nat, used: nat, previous: nat)
    requires Packing(names, leaves, hashes, usable, used, previous)
    ensures 0 < |leaves| == |hashes| && used == Taken(leaves[|leaves| - 1]) <= usable && (leaves[|leaves| - 1] == [] ==> used == 0)
  {
    assert LeafOk(leaves, hashes, |leaves| - 1, usable);
    NoneTaken(usable);
  }

  lemma {:induction false} PackingDone(names: seq<Sorted>, leaves: seq<seq<Sorted>>, hashes: seq<nat>, usable: nat, used: nat, previous: nat)
    requires Packing(names, leaves, hashes, usable, used, previous)
    ensures 0 < |leaves| == |hashes|
    ensures |leaves| > 1 && leaves[|leaves| - 1] == [] ==> Packed(names, leaves[..|leaves| - 1], hashes[..|leaves| - 1], usable)
    ensures |leaves| == 1 || leaves[|leaves| - 1] != [] ==> Packed(names, leaves, hashes, usable)
  {
    hide LeafOk;
    var n := |leaves| - 1;
    PreviousName(leaves);
    if n > 0 && leaves[n] == [] {
      assert Flatten(leaves) == Flatten(leaves[..n]) + [];
      forall i | 0 <= i < n ensures LeafOk(leaves[..n], hashes[..n], i, usable) {
        LeafSame(leaves, leaves[..n], hashes, hashes[..n], i, usable);
      }
      assert Packed(names, leaves[..n], hashes[..n], usable);
    } else {
      if leaves[n] != [] {
        LastName(leaves);
      }
      assert Packed(names, leaves, hashes, usable);
    }
  }

  // ---- there is one way to pack ----

  /** Leaves that fit, none of them empty, each left off only where it could take no more. */
  ghost predicate Greedy(leaves: seq<seq<Sorted>>, usable: nat) {
    && (forall i :: 0 <= i < |leaves| ==> leaves[i] != [] && Taken(leaves[i]) <= usable && Roomy(leaves[i], usable))
    && (forall i :: 0 < i < |leaves| ==> leaves[i] != [] && LeftOff(leaves[i - 1], leaves[i][0], usable))
  }

  lemma {:induction false} FlattenFirst(leaves: seq<seq<Sorted>>)
    requires leaves != []
    ensures Flatten(leaves) == leaves[0] + Flatten(leaves[1..])
  {
    var n := |leaves| - 1;
    if n == 0 {
      assert leaves[..0] == [] && Flatten(leaves) == [] + leaves[0];
    } else {
      FlattenFirst(leaves[..n]);
      assert leaves[..n][1..] == leaves[1..][..n - 1] && leaves[1..][n - 1] == leaves[n];
    }
  }

  lemma {:induction false} TakenPrefix(leaf: seq<Sorted>, n: nat)
    requires n <= |leaf|
    ensures Taken(leaf[..n]) <= Taken(leaf)
  {
    hide RecLen;
    if n < |leaf| {
      var m := |leaf| - 1;
      TakenPrefix(leaf[..m], n);
      assert leaf[..m][..n] == leaf[..n] && leaf == leaf[..m] + [leaf[m]];
      TakenMore(leaf[..m], leaf[m]);
    } else {
      assert leaf[..n] == leaf;
    }
  }

  /** No first leaf stops short of another's. */
  lemma {:induction false} NotShorter(a: seq<seq<Sorted>>, b: seq<seq<Sorted>>, usable: nat)
    requires a != [] && b != [] && Greedy(a, usable) && Greedy(b, usable) && Flatten(a) == Flatten(b)
    ensures |b[0]| <= |a[0]|
  {
    hide Taken, SlackOf, RecLen, Flatten;
    FlattenFirst(a);
    FlattenFirst(b);
    var n := |a[0]|;
    if n < |b[0]| {
      assert Flatten(a)[..n] == a[0] && Flatten(b)[..n] == b[0][..n];
      assert Flatten(a)[n] == b[0][n];
      NothingFlat();
      assert |a| > 1;
      FlattenFirst(a[1..]);
      assert Flatten(a)[n] == a[1][0];
      var x := b[0][n];
      TakenMore(a[0], x);
      assert b[0][..n + 1] == a[0] + [x];
      TakenPrefix(b[0], n + 1);
      var m := |b[0]| - 1;
      assert b[0][..m][..n] == a[0];
      TakenPrefix(b[0][..m], n);
      assert false;
    }
  }

  lemma {:induction false} NothingFlat()
    ensures Flatten([]) == []
  {
  }

  lemma {:induction false} GreedyRest(a: seq<seq<Sorted>>, usable: nat)
    requires a != [] && Greedy(a, usable)
    ensures Greedy(a[1..], usable)
  {
    hide Taken, LeftOff, Roomy;
    forall i | 0 < i < |a[1..]| ensures LeftOff(a[1..][i - 1], a[1..][i][0], usable) {
      assert LeftOff(a[i], a[i + 1][0], usable);
    }
  }

  lemma {:induction false} OneGreedy(a: seq<seq<Sorted>>, b: seq<seq<Sorted>>, usable: nat)
    requires Greedy(a, usable) && Greedy(b, usable) && Flatten(a) == Flatten(b)
    ensures a == b
  {
    hide Flatten, Taken, Roomy, LeftOff;
    NothingFlat();
    if a != [] {
      FlattenFirst(a);
    }
    if b != [] {
      FlattenFirst(b);
    }
    if a != [] && b != [] {
      NotShorter(a, b, usable);
      NotShorter(b, a, usable);
      var n := |a[0]|;
      assert Flatten(a)[..n] == a[0] && Flatten(b)[..n] == b[0];
      assert Flatten(a)[n..] == Flatten(a[1..]) && Flatten(b)[n..] == Flatten(b[1..]);
      GreedyRest(a, usable);
      GreedyRest(b, usable);
      OneGreedy(a[1..], b[1..], usable);
      assert a == [a[0]] + a[1..] && b == [b[0]] + b[1..];
    }
  }

  lemma {:induction false} PackedGreedy(names: seq<Sorted>, leaves: seq<seq<Sorted>>, hashes: seq<nat>, usable: nat)
    requires Packed(names, leaves, hashes, usable)
    ensures names != [] ==> Greedy(leaves, usable)
    ensures names == [] ==> leaves == [[]]
    ensures |leaves| == |hashes| && Flatten(leaves) == names && forall i :: 0 <= i < |leaves| ==> hashes[i] == StoredHash(leaves, i)
  {
    hide Taken, LeftOff, Roomy, StoredHash, Flatten;
    forall i | 0 <= i < |leaves|
      ensures hashes[i] == StoredHash(leaves, i) && Taken(leaves[i]) <= usable && Roomy(leaves[i], usable)
      ensures i > 0 && names != [] ==> LeftOff(leaves[i - 1], leaves[i][0], usable)
    {
      assert LeafOk(leaves, hashes, i, usable);
    }
    assert names == [] ==> |leaves| == 1 && leaves[0] == [];
  }

  /** Names in order are packed one way only. */
  lemma {:induction false} OnePacking(names: seq<Sorted>, a: seq<seq<Sorted>>, ha: seq<nat>, b: seq<seq<Sorted>>, hb: seq<nat>, usable: nat)
    requires Packed(names, a, ha, usable) && Packed(names, b, hb, usable)
    ensures a == b && ha == hb
  {
    hide Packed, Greedy, StoredHash, Flatten;
    PackedGreedy(names, a, ha, usable);
    PackedGreedy(names, b, hb, usable);
    if names != [] {
      OneGreedy(a, b, usable);
    }
  }

  // ---- finding a name's leaf ----

  /** The last entry whose hash is at most h, the first counting as 0. */
  function FindLast(hashes: seq<nat>, h: nat): (i: nat)
    requires hashes != []
    ensures i < |hashes| && (i == 0 || hashes[i] <= h)
    ensures forall j :: i < j < |hashes| ==> h < hashes[j]
  {
    if |hashes| == 1 || hashes[|hashes| - 1] <= h then |hashes| - 1 else FindLast(hashes[..|hashes| - 1], h)
  }

  /** Leaf i is in the run a search for h reads: the leaf found, and those that carry on from it. */
  ghost predicate InRun(hashes: seq<nat>, i: nat, h: nat)
    requires hashes != []
  {
    FindLast(hashes, h) <= i < |hashes| && forall j :: FindLast(hashes, h) < j <= i ==> hashes[j] % 2 == 1
  }

  ghost predicate HashOrder(names: seq<Sorted>) {
    forall i, j :: 0 <= i < j < |names| ==> names[i].hash <= names[j].hash
  }

  ghost predicate Below(a: seq<Sorted>, b: seq<Sorted>) {
    forall x, y :: x in a && y in b ==> x.hash <= y.hash
  }

  /** Across leaves, too, hashes come in order. */
  ghost predicate LeafOrder(leaves: seq<seq<Sorted>>) {
    && (forall i :: 0 <= i < |leaves| ==> HashOrder(leaves[i]))
    && (forall i, j :: 0 <= i < j < |leaves| ==> Below(leaves[i], leaves[j]))
  }

  lemma {:induction false} FlattenHas(leaves: seq<seq<Sorted>>, i: nat, x: Sorted)
    requires i < |leaves| && x in leaves[i]
    ensures x in Flatten(leaves)
  {
    if i < |leaves| - 1 {
      FlattenHas(leaves[..|leaves| - 1], i, x);
    }
  }

  lemma {:induction false} OrderSplits(a: seq<Sorted>, b: seq<Sorted>)
    requires HashOrder(a + b)
    ensures HashOrder(a) && HashOrder(b) && Below(a, b)
  {
    var c := a + b;
    assert forall i :: 0 <= i < |a| ==> c[i] == a[i];
    assert forall i :: 0 <= i < |b| ==> c[|a| + i] == b[i];
    forall x, y | x in a && y in b ensures x.hash <= y.hash {
      var i :| 0 <= i < |a| && a[i] == x;
      var j :| 0 <= j < |b| && b[j] == y;
      assert c[i] == x && c[|a| + j] == y;
    }
    forall i, j | 0 <= i < j < |b| ensures b[i].hash <= b[j].hash {
      assert c[|a| + i] == b[i] && c[|a| + j] == b[j];
    }
  }

  lemma {:induction false} LeavesInOrder(leaves: seq<seq<Sorted>>)
    requires HashOrder(Flatten(leaves))
    ensures LeafOrder(leaves)
  {
    if leaves != [] {
      hide HashOrder;
      var n := |leaves| - 1;
      OrderSplits(Flatten(leaves[..n]), leaves[n]);
      LeavesInOrder(leaves[..n]);
      forall i, j | 0 <= i < j < |leaves| ensures Below(leaves[i], leaves[j]) {
        if j == n {
          PartBelow(leaves[..n], i, leaves[n]);
        } else {
          assert leaves[..n][i] == leaves[i] && leaves[..n][j] == leaves[j];
        }
      }
    }
  }

  lemma {:induction false} PartBelow(leaves: seq<seq<Sorted>>, i: nat, b: seq<Sorted>)
    requires i < |leaves| && Below(Flatten(leaves), b)
    ensures Below(leaves[i], b)
  {
    forall x | x in leaves[i] ensures x in Flatten(leaves) {
      FlattenHas(leaves, i, x);
    }
  }

  /** Real hashes, whose low bit is clear. */
  ghost predicate RealHashes(names: seq<Sorted>) {
    forall x :: x in names ==> x.hash % 2 == 0
  }

  lemma {:induction false} EndsAround(leaf: seq<Sorted>, x: Sorted)
    requires HashOrder(leaf) && x in leaf
    ensures leaf[0].hash <= x.hash <= leaf[|leaf| - 1].hash
  {
    var k :| 0 <= k < |leaf| && leaf[k] == x;
  }

  lemma {:induction false} InLeaves(leaves: seq<seq<Sorted>>, i: nat, x: Sorted, j: nat, y: Sorted)
    requires LeafOrder(leaves) && i < j < |leaves| && x in leaves[i] && y in leaves[j]
    ensures x.hash <= y.hash
  {
    hide HashOrder;
    assert Below(leaves[i], leaves[j]);
  }

  /** What leaf j is stored under, seen from a name with hash h in leaf i. */
  lemma {:induction false} StoredFrom(leaves: seq<seq<Sorted>>, i: nat, x: Sorted, j: nat)
    requires LeafOrder(leaves) && RealHashes(Flatten(leaves)) && i < |leaves| && x in leaves[i]
    requires 0 < j < |leaves| && leaves[j] != [] && leaves[j - 1] != []
    ensures j <= i ==> StoredHash(leaves, j) <= x.hash || StoredHash(leaves, j) == x.hash + 1
    ensures i < j ==> x.hash < StoredHash(leaves, j)
  {
    hide Below, Flatten, RealHashes, HashOrder;
    var first, last := leaves[j][0], leaves[j - 1][|leaves[j - 1]| - 1];
    FlattenHas(leaves, i, x);
    FlattenHas(leaves, j, first);
    EvenHash(Flatten(leaves), x);
    EvenHash(Flatten(leaves), first);
    assert HashOrder(leaves[i]);
    EndsAround(leaves[i], x);
    InLeaves(leaves, j - 1, last, j, first);
    if i < j - 1 {
      InLeaves(leaves, i, x, j - 1, last);
    }
    if j < i {
      InLeaves(leaves, j, first, i, x);
    }
    hide LeafOrder;
  }

  lemma {:induction false} StoredIs(names: seq<Sorted>, leaves: seq<seq<Sorted>>, hashes: seq<nat>, usable: nat, i: nat)
    requires Packed(names, leaves, hashes, usable) && i < |leaves|
    ensures hashes[i] == StoredHash(leaves, i) && (leaves[i] == [] <==> names == [])
  {
    assert LeafOk(leaves, hashes, i, usable);
  }

  /** Continuation bits are complete: every name lies in the run of its own hash. */
  lemma {:induction false} FlatComplete(names: seq<Sorted>, leaves: seq<seq<Sorted>>, hashes: seq<nat>, usable: nat, i: nat, x: Sorted)
    requires Packed(names, leaves, hashes, usable) && HashOrder(names) && RealHashes(names)
    requires i < |leaves| && x in leaves[i]
    ensures InRun(hashes, i, x.hash)
  {
    hide StoredHash, LeafOrder, HashOrder, Taken, Roomy, Flatten, RealHashes;
    LeavesInOrder(leaves);
    FlattenHas(leaves, i, x);
    var s := FindLast(hashes, x.hash);
    if i < s {
      StoredIs(names, leaves, hashes, usable, s);
      StoredFrom(leaves, i, x, s);
      assert false;
    }
    forall j | s < j <= i ensures hashes[j] % 2 == 1 {
      StoredIs(names, leaves, hashes, usable, j);
      StoredFrom(leaves, i, x, j);
      EvenHash(names, x);
    }
  }

  lemma {:induction false} EvenHash(names: seq<Sorted>, x: Sorted)
    requires RealHashes(names) && x in names
    ensures x.hash % 2 == 0
  {
  }

  ghost predicate Rising(hashes: seq<nat>) {
    forall i, j :: 0 <= i < j < |hashes| ==> hashes[i] <= hashes[j]
  }

  /** The stored hashes never fall. */
  lemma {:induction false} StoredRise(names: seq<Sorted>, leaves: seq<seq<Sorted>>, hashes: seq<nat>, usable: nat)
    requires Packed(names, leaves, hashes, usable) && HashOrder(names) && RealHashes(names)
    ensures Rising(hashes)
  {
    hide Taken, Roomy, LeafOrder, HashOrder, Flatten, RealHashes;
    LeavesInOrder(leaves);
    forall i, j | 0 <= i < j < |hashes| ensures hashes[i] <= hashes[j] {
      StoredIs(names, leaves, hashes, usable, i);
      StoredIs(names, leaves, hashes, usable, j);
      if names != [] {
        FlattenHas(leaves, i, leaves[i][0]);
        StoredFrom(leaves, i, leaves[i][0], j);
        if Carries(leaves, i) {
        }
      }
    }
  }

  // ---- the tree over the leaves ----

  const ROOT_COUNT_OFFSET := 32
  const NODE_COUNT_OFFSET := 8

  /** How many entries an index block holds: eight bytes each, up to the checksum. */
  function IndexLimit(blockSize: nat, offset: nat, withTail: bool): nat {
    var used := offset + if withTail then 8 else 0;
    if blockSize < used then 0 else (blockSize - used) / 8
  }

  /** The levels and nodes of an index. */
  datatype Plan = Plan(levels: nat, nodes: nat, perNode: nat, total: nat)

  function CeilOf(n: nat, per: nat): nat
    requires 0 < per
  {
    (n + per - 1) / per
  }

  function PlanIndex(leaves: nat, rootLimit: nat, nodeLimit: nat): Result<Plan>
    requires 0 < nodeLimit
  {
    if leaves <= rootLimit then Ok(Plan(0, 0, 0, 1 + leaves))
    else
      var nodes := CeilOf(leaves, nodeLimit);
      if nodes > rootLimit then Err(Unsupported) else Ok(Plan(1, nodes, nodeLimit, 1 + leaves + nodes))
  }

  /** Where node n's leaves begin. */
  function FirstOf(n: nat, per: nat): nat {
    n * per
  }

  /** How many of `leaves` leaves node n covers. */
  function CountOf(n: nat, per: nat, leaves: nat): nat {
    if FirstOf(n + 1, per) <= leaves then per else if FirstOf(n, per) <= leaves then leaves - FirstOf(n, per) else 0
  }

  lemma {:induction false} CeilCovers(leaves: nat, per: nat)
    requires 0 < per
    ensures leaves <= FirstOf(CeilOf(leaves, per), per)
    ensures 0 < leaves ==> 0 < CeilOf(leaves, per) && FirstOf(CeilOf(leaves, per) - 1, per) < leaves
  {
    var c := CeilOf(leaves, per);
    assert leaves + per - 1 == c * per + (leaves + per - 1) % per;
    if 0 < leaves {
      assert (c - 1) * per == c * per - per;
    }
  }

  lemma {:induction false} FirstOfRises(m: nat, n: nat, per: nat)
    requires m <= n
    ensures FirstOf(m, per) <= FirstOf(n, per) && FirstOf(n + 1, per) == FirstOf(n, per) + per
    ensures m < n ==> FirstOf(m, per) + per <= FirstOf(n, per)
  {
    assert (n + 1) * per == n * per + per;
    assert n * per == m * per + (n - m) * per;
    if m < n {
      assert (n - m) * per == (n - m - 1) * per + per;
    }
  }

  /**
   A plan is refused exactly when one level of nodes, filled, cannot hold the
   leaves; otherwise its nodes are none of them empty, cover the leaves between
   them, and run past no block's limit.
   */
  lemma {:induction false} PlanHolds(leaves: nat, rootLimit: nat, nodeLimit: nat)
    requires 0 < nodeLimit && 0 < leaves
    ensures var r := PlanIndex(leaves, rootLimit, nodeLimit);
            && (r.Err? <==> rootLimit < leaves && FirstOf(rootLimit, nodeLimit) < leaves)
            && (r.Ok? && r.value.levels == 0 ==> leaves <= rootLimit && r.value.total == 1 + leaves)
            && (r.Ok? && r.value.levels != 0 ==>
                && r.value.levels == 1 && 0 < r.value.nodes <= rootLimit && r.value.perNode == nodeLimit
                && r.value.total == 1 + leaves + r.value.nodes
                && leaves <= FirstOf(r.value.nodes, r.value.perNode)
                && forall n :: 0 <= n < r.value.nodes ==> 0 < CountOf(n, r.value.perNode, leaves) <= nodeLimit)
  {
    CeilCovers(leaves, nodeLimit);
    var nodes := CeilOf(leaves, nodeLimit);
    hide FirstOf, CeilOf;
    if nodes > rootLimit {
      FirstOfRises(rootLimit, nodes - 1, nodeLimit);
    } else {
      FirstOfRises(nodes, rootLimit, nodeLimit);
    }
    forall n | 0 <= n < nodes ensures 0 < CountOf(n, nodeLimit, leaves) <= nodeLimit {
      FirstOfRises(n, nodes - 1, nodeLimit);
      FirstOfRises(n, n, nodeLimit);
    }
  }

  datatype IndexEntry = IndexEntry(hash: nat, block: nat)

  /** The first entry of any index block carries no hash. */
  function EntryHash(k: nat, hash: nat): nat {
    if k == 0 then 0 else hash
  }

  /** A node's entries, for leaves from `first` on. */
  ghost predicate NodeOver(node: seq<IndexEntry>, hashes: seq<nat>, first: nat, count: nat) {
    && |node| == count && first + count <= |hashes|
    && forall k :: 0 <= k < count ==> node[k] == IndexEntry(EntryHash(k, hashes[first + k]), 1 + first + k)
  }

  /** The blocks of a tree: the root's entries, and the interior nodes'. */
  ghost predicate TreeOver(root: seq<IndexEntry>, nodes: seq<seq<IndexEntry>>, per: nat, hashes: seq<nat>) {
    if nodes == [] then NodeOver(root, hashes, 0, |hashes|)
    else
      && 0 < per && |root| == |nodes| && FirstOf(|nodes| - 1, per) < |hashes| <= FirstOf(|nodes|, per)
      && (forall n :: 0 <= n < |nodes| ==> FirstOf(n, per) < |hashes| && 0 < CountOf(n, per, |hashes|)
                                           && NodeOver(nodes[n], hashes, FirstOf(n, per), CountOf(n, per, |hashes|)))
      && (forall n :: 0 <= n < |nodes| ==> root[n] == IndexEntry(EntryHash(n, hashes[FirstOf(n, per)]), 1 + |hashes| + n))
  }

  /** Fill one index block with the entries for leaves from `first` up to `last`. */
  method FillNode(hashes: seq<nat>, first: nat, last: nat, limit: nat) returns (node: seq<IndexEntry>)
    requires first <= last <= |hashes| && last - first <= limit
    ensures NodeOver(node, hashes, first, last - first) && |node| <= limit
  {
    node := [];
    for k := 0 to last - first
      invariant NodeOver(node, hashes, first, k)
    {
      var hash := if k == 0 then 0 else hashes[first + k];
      assert |node| < limit;
      node := node + [IndexEntry(hash, 1 + first + k)];
    }
  }

  /** Lay the index out: the root's entries, and each interior node's. */
  method BuildIndex(hashes: seq<nat>, rootLimit: nat, nodeLimit: nat) returns (r: Result<Plan>, root: seq<IndexEntry>, nodes: seq<seq<IndexEntry>>)
    requires 0 < nodeLimit && hashes != []
    ensures r == PlanIndex(|hashes|, rootLimit, nodeLimit)
    ensures r.Ok? ==> TreeOver(root, nodes, r.value.perNode, hashes) && |nodes| == r.value.nodes && r.value.total == 1 + |hashes| + |nodes|
    ensures r.Ok? ==> |root| <= rootLimit && forall n :: 0 <= n < |nodes| ==> |nodes[n]| <= nodeLimit
  {
    hide FirstOf, CeilOf;
    r := PlanIndex(|hashes|, rootLimit, nodeLimit);
    root, nodes := [], [];
    PlanHolds(|hashes|, rootLimit, nodeLimit);
    if r.Err? {
      return;
    }
    var plan := r.value;
    if plan.levels == 0 {
      root := FillNode(hashes, 0, |hashes|, rootLimit);
      return;
    }
    CeilCovers(|hashes|, nodeLimit);
    for n := 0 to plan.nodes
      invariant |root| == |nodes| == n
      invariant forall m :: 0 <= m < n ==> |nodes[m]| <= nodeLimit
      invariant forall m :: 0 <= m < n ==> FirstOf(m, nodeLimit) < |hashes| && NodeOver(nodes[m], hashes, FirstOf(m, nodeLimit), CountOf(m, nodeLimit, |hashes|))
      invariant forall m :: 0 <= m < n ==> root[m] == IndexEntry(EntryHash(m, hashes[FirstOf(m, nodeLimit)]), 1 + |hashes| + m)
    {
      FirstOfRises(n, n, nodeLimit);
      FirstOfRises(n, plan.nodes - 1, nodeLimit);
      var first := FirstOf(n, plan.perNode);
      var last := Min(first + plan.perNode, |hashes|);
      var node := FillNode(hashes, first, last, nodeLimit);
      nodes := nodes + [node];
      var hash := if n == 0 then 0 else hashes[first];
      root := root + [IndexEntry(hash, 1 + |hashes| + n)];
    }
  }
}
