/** read_dir_entries: listing a directory in pieces. */
module Listing {
  import opened Bytes
  import opened Chains
  import opened States
  import opened Entries
  import opened Volumes
  import opened Allocator
  import opened Directory

  /** What the filler is given: a name, and the offset from which to go on after it. */
  datatype Item = Item(name: Name, next: nat)

  function ItemAt(e: Entry, j: nat): Item {
    Item(CName(e.name), ENTRY_SIZE * (j + 1))
  }

  /** The live slots from slot `i` on; slot 0 of `ss` is slot `base` of the directory. */
  function Pending(ss: seq<Entry>, i: nat, base: nat): seq<Item>
    decreases |ss| - i
  {
    if i >= |ss| then []
    else (if Live(ss[i]) then [ItemAt(ss[i], base + i)] else []) + Pending(ss, i + 1, base)
  }

  // ---- The listing is the live slots, in order ----

  /** Slot `j` is in use, and `x` is its name and the offset of the slot behind it. */
  ghost predicate ItemOf(ss: seq<Entry>, j: nat, x: Item) {
    && j < |ss| && ss[j].name != [] && ss[j].name[0] != 0
    && x.name == CName(ss[j].name) && x.next == 40 * (j + 1)
  }

  ghost predicate Ascending(xs: seq<Item>, lo: nat) {
    && (forall k :: 0 <= k < |xs| ==> lo < xs[k].next)
    && (forall k, l :: 0 <= k < l < |xs| ==> xs[k].next < xs[l].next)
  }

  lemma {:induction false} PendingIsExact(ss: seq<Entry>, i: nat)
    requires i <= |ss|
    ensures Ascending(Pending(ss, i, 0), 40 * i)
    ensures forall x :: x in Pending(ss, i, 0) <==> exists j :: i <= j && ItemOf(ss, j, x)
    decreases |ss| - i
  {
    if i < |ss| {
      PendingIsExact(ss, i + 1);
      var rest := Pending(ss, i + 1, 0);
      forall x
        ensures x in Pending(ss, i, 0) <==> exists j :: i <= j && ItemOf(ss, j, x)
      {
        if x in rest {
          var j :| i + 1 <= j && ItemOf(ss, j, x);
        }
        if j :| i <= j && ItemOf(ss, j, x) {
          assert j == i || (i + 1 <= j && ItemOf(ss, j, x));
        }
        assert Live(ss[i]) && x == ItemAt(ss[i], i) ==> ItemOf(ss, i, x);
      }
    }
  }

  /** The names in a whole listing are the names that a lookup finds. */
  lemma ListedIsFound(ss: seq<Entry>, name: Name)
    ensures (exists x :: x in Pending(ss, 0, 0) && x.name == name) <==> name != [] && Lookup(ss, name).Some?
  {
    PendingIsExact(ss, 0);
    if x :| x in Pending(ss, 0, 0) && x.name == name {
      var j :| 0 <= j && ItemOf(ss, j, x);
    }
    var j := FindIndex(ss, name);
    if name != [] && j < |ss| {
      assert ItemOf(ss, j, Item(name, 40 * (j + 1)));
    }
  }

  // ---- Resuming ----

  /** One call of read_dir_entries with a filler that takes `cap` items. */
  function Piece(ss: seq<Entry>, i: nat, cap: nat): seq<Item> {
    var all := Pending(ss, i, 0);
    if cap <= |all| then all[..cap] else all
  }

  /** The slot at which the next call starts: the offset of the last item, in slots. */
  function Resume(i: nat, piece: seq<Item>): nat {
    if piece == [] then i else piece[|piece| - 1].next / ENTRY_SIZE
  }

  /** All calls of a session, one after another, whose fillers take `caps` items. */
  function Session(ss: seq<Entry>, i: nat, caps: seq<nat>): seq<Item>
    decreases |caps|
  {
    if caps == [] then []
    else
      var piece := Piece(ss, i, caps[0]);
      piece + Session(ss, Resume(i, piece), caps[1..])
  }

  /** The listing goes on behind an item at the slot its offset names. */
  lemma {:induction false} PendingAfter(ss: seq<Entry>, i: nat, k: nat)
    requires 0 < k <= |Pending(ss, i, 0)|
    ensures var j := Pending(ss, i, 0)[k - 1].next / ENTRY_SIZE;
      i < j <= |ss| && Pending(ss, j, 0) == Pending(ss, i, 0)[k..]
    decreases |ss| - i
  {
    var all, rest := Pending(ss, i, 0), Pending(ss, i + 1, 0);
    if !Live(ss[i]) {
      assert all == rest;
      PendingAfter(ss, i + 1, k);
    } else if k == 1 {
      FirstPending(ss, i);
    } else {
      FirstPending(ss, i);
      assert all[k - 1] == rest[k - 2] && all[k..] == rest[k - 1..];
      PendingAfter(ss, i + 1, k - 1);
    }
  }

  lemma FirstPending(ss: seq<Entry>, i: nat)
    requires i < |ss| && Live(ss[i])
    ensures var all := Pending(ss, i, 0);
      all != [] && all[0].next / ENTRY_SIZE == i + 1 && all[1..] == Pending(ss, i + 1, 0)
  {
    assert Pending(ss, i, 0) == [ItemAt(ss[i], i)] + Pending(ss, i + 1, 0);
  }

  /** What a call gives, and what is left for the calls after it. */
  lemma PieceAndRest(ss: seq<Entry>, i: nat, cap: nat)
    requires cap > 0
    ensures var piece := Piece(ss, i, cap);
      && Pending(ss, i, 0) == piece + Pending(ss, Resume(i, piece), 0)
      && (piece == [] <==> Pending(ss, i, 0) == [])
  {
    var all, piece := Pending(ss, i, 0), Piece(ss, i, cap);
    if piece != [] {
      PendingAfter(ss, i, |piece|);
    }
  }

  /** However the listing is cut into calls that take at least one item each, the calls together give
      a prefix of the live entries in slot order, each once; and all of them once there were as many
      calls as entries. */
  lemma {:induction false} SessionIsListing(ss: seq<Entry>, i: nat, caps: seq<nat>)
    requires forall k :: 0 <= k < |caps| ==> caps[k] > 0
    ensures Session(ss, i, caps) <= Pending(ss, i, 0)
    ensures |Session(ss, i, caps)| >= Min(|caps|, |Pending(ss, i, 0)|)
    decreases |caps|
  {
    if caps != [] {
      var piece := Piece(ss, i, caps[0]);
      PieceAndRest(ss, i, caps[0]);
      SessionIsListing(ss, Resume(i, piece), caps[1..]);
      PrefixUnder(piece, Session(ss, Resume(i, piece), caps[1..]), Pending(ss, Resume(i, piece), 0));
    }
  }

  lemma PrefixUnder(p: seq<Item>, a: seq<Item>, b: seq<Item>)
    requires a <= b
    ensures p + a <= p + b
  {
  }

  /** A session that went on until a call gave nothing more has given everything. */
  lemma {:induction false} EmptyPieceEndsListing(ss: seq<Entry>, i: nat, caps: seq<nat>, cap: nat)
    requires cap > 0 && forall k :: 0 <= k < |caps| ==> caps[k] > 0
    requires |Session(ss, i, caps + [cap])| == |Session(ss, i, caps)|
    ensures Session(ss, i, caps) == Pending(ss, i, 0)
    decreases |caps|
  {
    if caps == [] {
      assert caps + [cap] == [cap];
      PieceAndRest(ss, i, cap);
    } else {
      var piece := Piece(ss, i, caps[0]);
      assert (caps + [cap])[0] == caps[0] && (caps + [cap])[1..] == caps[1..] + [cap];
      PieceAndRest(ss, i, caps[0]);
      EmptyPieceEndsListing(ss, Resume(i, piece), caps[1..], cap);
    }
  }

  // ---- Cluster by cluster ----

  lemma {:induction false} PendingConcat(a: seq<Entry>, b: seq<Entry>, i: nat, base: nat)
    requires i <= |a|
    ensures Pending(a + b, i, base) == Pending(a, i, base) + Pending(b, 0, base + |a|)
    decreases |a| - i
  {
    if i == |a| {
      PendingSkips(a, b, i, base);
    } else {
      PendingConcat(a, b, i + 1, base);
      assert (a + b)[i] == a[i];
      Assoc(if Live(a[i]) then [ItemAt(a[i], base + i)] else [], Pending(a, i + 1, base), Pending(b, 0, base + |a|));
    }
  }

  lemma {:induction false} PendingSkips(a: seq<Entry>, b: seq<Entry>, i: nat, base: nat)
    requires |a| <= i
    ensures Pending(a + b, i, base) == Pending(b, i - |a|, base + |a|)
    decreases |a| + |b| - i
  {
    if i < |a| + |b| {
      PendingSkips(a, b, i + 1, base);
      PendingStep(a + b, i, base);
      PendingStep(b, i - |a|, base + |a|);
    }
  }

  lemma PendingStep(ss: seq<Entry>, i: nat, base: nat)
    requires i < |ss|
    ensures Pending(ss, i, base) == (if Live(ss[i]) then [ItemAt(ss[i], base + i)] else []) + Pending(ss, i + 1, base)
  {
  }

  /** `all` is what is still to be listed when slot `r` of the rest `D` of the chain is next. */
  ghost predicate ToList(data: seq<Block>, D: seq<nat>, r: nat, base: nat, all: seq<Item>) {
    r <= |DirSlots(data, D)| && Pending(DirSlots(data, D), r, base) == all
  }

  lemma SkipCluster(data: seq<Block>, D: seq<nat>, r: nat, base: nat, n: nat, all: seq<Item>)
    returns (r': nat, base': nat)
    requires D != [] && n == |Slots(Get(data, D[0]))| && n <= r && ToList(data, D, r, base, all)
    ensures r' == r - n && base' == base + n && ToList(data, D[1..], r', base', all)
  {
    r', base' := r - n, base + n;
    PendingSkips(Slots(Get(data, D[0])), DirSlots(data, D[1..]), r, base);
  }

  /** What a call that has given `given` gives in all if the filler takes it. */
  ghost function Whole(data: seq<Block>, D: seq<nat>, r: nat, base: nat, given: seq<Item>): seq<Item> {
    given + Pending(DirSlots(data, D), r, base)
  }

  /** `out` is `all`, or its first `cap` items when the filler refused one more. */
  ghost predicate Given(all: seq<Item>, cap: nat, out: seq<Item>, full: bool) {
    if full then cap < |all| && out == all[..cap] else |all| <= cap && out == all
  }

  lemma ClusterGiven(data: seq<Block>, D: seq<nat>, r: nat, base: nat, block: Block, given: seq<Item>,
                     cap: nat, out: seq<Item>, full: bool)
    requires D != [] && block == Get(data, D[0]) && r <= |Slots(block)|
    requires Given(given + Pending(Slots(block), r, base), cap, out, full)
    ensures full ==> Given(Whole(data, D, r, base, given), cap, out, true)
    ensures !full ==> |out| <= cap
    ensures !full ==> Whole(data, D, r, base, given) == Whole(data, D[1..], 0, base + |Slots(block)|, out)
  {
    PendingConcat(Slots(block), DirSlots(data, D[1..]), r, base);
    Assoc(given, Pending(Slots(block), r, base), Pending(DirSlots(data, D[1..]), 0, base + |Slots(block)|));
  }

  /** The inner loop: the slots of one cluster from byte `start` on. `full`: the filler refused. */
  method ListCluster(block: Block, start: nat, at: nat, cap: nat, given: seq<Item>, ghost r: nat, ghost base: nat)
    returns (out: seq<Item>, offset: nat, full: bool)
    requires |block| % ENTRY_SIZE == 0 && start == ENTRY_SIZE * r && start <= |block| && |given| <= cap
    requires at == ENTRY_SIZE * (base + r)
    ensures Given(given + Pending(Slots(block), r, base), cap, out, full)
    ensures !full ==> offset == ENTRY_SIZE * (base + |Slots(block)|)
  {
    ghost var j := r;
    var tmp := start;
    out, offset := given, at;
    while tmp < |block|
      invariant r <= j <= |Slots(block)| && tmp == ENTRY_SIZE * j && offset == ENTRY_SIZE * (base + j)
      invariant |out| <= cap
      invariant out + Pending(Slots(block), j, base) == given + Pending(Slots(block), r, base)
      decreases |block| - tmp
    {
      var e := Decode(block[tmp..tmp + ENTRY_SIZE]);
      assert Slots(block)[j] == Slot(block, j) == e;
      tmp, offset := tmp + ENTRY_SIZE, offset + ENTRY_SIZE;
      if e.name[0] != 0 {
        if |out| == cap {
          return out, offset, true;
        }
        var item := Item(CName(e.name), offset);
        assert item == ItemAt(e, base + j);
        Assoc(out, [item], Pending(Slots(block), j + 1, base));
        out := out + [item];
      }
      j := j + 1;
    }
    return out, offset, false;
  }

  /** The loop that passes over the clusters before the offset. */
  method SkipTo(vol: Volume, c: nat, start: nat, ghost C: seq<nat>, ghost i: nat, ghost all: seq<Item>)
    returns (cluster: nat, tmp: nat, ghost D: seq<nat>, ghost r: nat, ghost base: nat)
    requires OnChain(vol, c, C) && start == ENTRY_SIZE * i && ToList(vol.v.data, C, i, 0, all)
    ensures tmp == ENTRY_SIZE * r < vol.g.B && base + r == i && ToList(vol.v.data, D, r, base, all)
    ensures InData(vol.g, D) && IsChain(vol.v.fat, cluster, D)
  {
    cluster, tmp, D, r, base := c, start, C, i, 0;
    while tmp >= vol.g.B
      invariant tmp == ENTRY_SIZE * r && base + r == i && ToList(vol.v.data, D, r, base, all)
      invariant InData(vol.g, D) && IsChain(vol.v.fat, cluster, D)
      decreases tmp
    {
      assert D != [];
      NextOnChain(vol.v.fat, cluster, D);
      ghost var n := |Slots(vol.v.data[cluster])|;
      r, base := SkipCluster(vol.v.data, D, r, base, n, all);
      cluster, tmp, D := vol.ReadFatEntry(cluster), tmp - vol.g.B, D[1..];
    }
  }

  /** read_dir_entries, from slot `i` of the directory on; the filler takes `cap` items. */
  method ReadDirEntries(vol: Volume, c: nat, start: nat, cap: nat, ghost C: seq<nat>, ghost i: nat)
      returns (out: seq<Item>)
    requires OnChain(vol, c, C) && start == ENTRY_SIZE * i && i <= |DirSlots(vol.v.data, C)|
    ensures out == Piece(DirSlots(vol.v.data, C), i, cap)
  {
    ghost var all := Pending(DirSlots(vol.v.data, C), i, 0);
    var cluster, tmp, D, r, base := SkipTo(vol, c, start, C, i, all);
    out := ListFrom(vol, cluster, tmp, start, cap, D, r, base);
  }

  /** One round of the outer loop: the rest of a cluster, then the next cluster. */
  method ListNext(vol: Volume, c: nat, tmp: nat, at: nat, cap: nat, given: seq<Item>, ghost D: seq<nat>,
      ghost r: nat, ghost base: nat)
    returns (out: seq<Item>, offset: nat, next: nat, full: bool, ghost base': nat)
    requires OnChain(vol, c, D) && tmp == ENTRY_SIZE * r < vol.g.B && at == ENTRY_SIZE * (base + r) && |given| <= cap
    ensures full ==> Given(Whole(vol.v.data, D, r, base, given), cap, out, true)
    ensures !full ==> |out| <= cap
    ensures !full ==> Whole(vol.v.data, D, r, base, given) == Whole(vol.v.data, D[1..], 0, base', out)
    ensures !full ==> offset == ENTRY_SIZE * base' && IsChain(vol.v.fat, next, D[1..])
  {
    NextOnChain(vol.v.fat, c, D);
    var block := vol.ReadCluster(c);
    base' := base + |Slots(block)|;
    out, offset, full := ListCluster(block, tmp, at, cap, given, r, base);
    ClusterGiven(vol.v.data, D, r, base, block, given, cap, out, full);
    next := vol.ReadFatEntry(c);
  }

  /** The outer loop. */
  method ListFrom(vol: Volume, c: nat, first: nat, start: nat, cap: nat, ghost C: seq<nat>, ghost r0: nat,
      ghost base0: nat)
    returns (out: seq<Item>)
    requires vol.Coherent() && Slotted(vol.g) && InData(vol.g, C) && IsChain(vol.v.fat, c, C)
    requires first < vol.g.B && first == ENTRY_SIZE * r0 && start == ENTRY_SIZE * (base0 + r0)
    ensures var all := Pending(DirSlots(vol.v.data, C), r0, base0);
      out == if cap <= |all| then all[..cap] else all
  {
    var cluster, tmp, offset := c, first, start;
    ghost var D, r: nat, base: nat, all := C, r0, base0, Whole(vol.v.data, C, r0, base0, []);
    assert all == Pending(DirSlots(vol.v.data, C), r0, base0);
    out := [];
    while cluster != 0
      invariant InData(vol.g, D) && IsChain(vol.v.fat, cluster, D)
      invariant tmp == ENTRY_SIZE * r < vol.g.B && offset == ENTRY_SIZE * (base + r)
      invariant |out| <= cap && Whole(vol.v.data, D, r, base, out) == all
      decreases |D|
    {
      var full;
      out, offset, cluster, full, base := ListNext(vol, cluster, tmp, offset, cap, out, D, r, base);
      if full {
        return;
      }
      tmp, D, r := 0, D[1..], 0;
    }
    assert D == [] && Whole(vol.v.data, [], r, base, out) == out;
  }
}
