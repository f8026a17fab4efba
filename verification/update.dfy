/** update_file: allocation, size update and data writes, as one operation. */
module Update {
  import opened Bytes
  import opened Chains
  import opened States
  import opened Entries
  import opened Allocator
  import opened Layouts
  import opened Trees
  import opened Steps
  import opened Files

  /** Slot `j` of directory `d` is a file. */
  ghost predicate FileSlot(s: State, L: Layout, d: nat, j: nat) {
    && d in L.nodes && L.nodes[d].isDir && 2 <= j < |DirOf(s, L, d)|
    && Live(DirOf(s, L, d)[j]) && DirOf(s, L, d)[j].kind == KIND_FILE
  }

  /** Such a slot leads to a node, and the file fits its chain. */
  lemma FileSlotNode(g: Geometry, s: State, L: Layout, d: nat, j: nat)
    requires Inv(g, s, L) && FileSlot(s, L, d, j)
    ensures var e := DirOf(s, L, d)[j];
      && e.first in L.nodes && !L.nodes[e.first].isDir && e.first != d
      && L.nodes[e.first].parent == d && L.nodes[e.first].slot == j
      && e.size <= Times(|L.nodes[e.first].chain|, g.B)
      && WfEntry(e) && |CName(e.name)| <= MAX_NAME
      && NodeOk(g, s, L, e.first) && NodeOk(g, s, L, d)
  {
    assert DirOk(g, s, L, d);
    var e := DirOf(s, L, d)[j];
    assert EntryOk(g, L.nodes, d, j, e);
    DirSlotsWf(s.data, L.nodes[d].chain);
    NodeOf(g, s, L, e.first);
    NodeOf(g, s, L, d);
  }

  /** Where a write of `n` bytes at `off` falls: it starts in cluster `q` of the chain, `w`
      bytes in, and the chain must have `need` clusters. */
  datatype Spot = Spot(q: nat, w: nat, need: nat)

  ghost predicate IsSpot(g: Geometry, off: nat, n: nat, p: Spot) {
    && p.w < g.B && Times(p.q, g.B) + p.w == off
    && 0 < p.need && Times(p.need - 1, g.B) < off + n <= Times(p.need, g.B)
  }

  /** The divisions of lines 563-564, 585 and 591 of FAT/fat.c compute it. */
  lemma SpotByDivision(g: Geometry, off: nat, n: nat)
    requires 0 < g.B && 0 < n
    ensures IsSpot(g, off, n, Spot(off / g.B, off % g.B, (off + n - 1) / g.B + 1))
  {
    DivTimes(off, g.B);
    DivTimes(off + n - 1, g.B);
  }

  lemma SpotInside(g: Geometry, off: nat, n: nat, p: Spot)
    requires IsSpot(g, off, n, p) && 0 < n
    ensures p.q < p.need
  {
    if p.need <= p.q {
      TimesMono(p.need, p.q, g.B);
    }
  }

  /** From state `s` to `s'` the objects other than `f` and `d` kept their bytes. */
  ghost predicate OthersUntouched(s: State, s': State, L: Layout, f: nat, d: nat) {
    forall x :: x in L.nodes && x != f && x != d ==> Agree(s.data, s'.data, L.nodes[x].chain)
  }

  lemma UntouchedTwice(s: State, s1: State, s2: State, L: Layout, L1: Layout, f: nat, d: nat, d': nat)
    requires OthersUntouched(s, s1, L, f, d) && OthersUntouched(s1, s2, L1, d', d')
    requires d' == f || d' == d
    requires forall x :: x in L.nodes && x != f && x != d ==> x in L1.nodes && L1.nodes[x].chain == L.nodes[x].chain
    ensures OthersUntouched(s, s2, L, f, d)
  {
    forall x | x in L.nodes && x != f && x != d
      ensures Agree(s.data, s2.data, L.nodes[x].chain)
    {
      assert Agree(s.data, s1.data, L.nodes[x].chain) && Agree(s1.data, s2.data, L1.nodes[x].chain);
    }
  }

  // ---- The three parts of the operation ----

  function GrowPart(g: Geometry, L: Layout, f: nat, need: nat): seq<Write>
    requires f in L.nodes
  {
    var C := L.nodes[f].chain;
    if |C| < need <= |C| + |L.free| && C != [] then GrowWrites(g, C, L.free, need - |C|) else []
  }

  function GrowLayout(L: Layout, f: nat, need: nat): Layout
    requires f in L.nodes
  {
    var C := L.nodes[f].chain;
    if |C| < need <= |C| + |L.free| && C != [] then Grown(L, f, need - |C|) else L
  }

  ghost function SizePart(data: seq<Block>, chain: seq<nat>, j: nat, e: Entry, end: nat, time: seq<byte>): seq<Write>
    requires WfEntry(e) && end < U32 && |time| == 8
  {
    if end > e.size then SlotWrite(data, chain, j, e.(size := end, time := time)) else []
  }

  /** Every cluster write of update_file, in order, once the space suffices. */
  ghost function UpdateWrites(g: Geometry, s: State, L: Layout, d: nat, j: nat,
                              buf: seq<byte>, off: nat, p: Spot, time: seq<byte>): seq<Write>
    requires p.w < g.B && FileSlot(s, L, d, j) && DirOf(s, L, d)[j].first in L.nodes
    requires WfEntry(DirOf(s, L, d)[j])
    requires buf != [] && End(off, buf) < U32 && |time| == 8
  {
    var e := DirOf(s, L, d)[j];
    var a := GrowPart(g, L, e.first, p.need);
    var L1 := GrowLayout(L, e.first, p.need);
    var s1 := ApplyAll(s, a);
    var b := SizePart(s1.data, L.nodes[d].chain, j, e, End(off, buf), time);
    var s2 := ApplyAll(s1, b);
    a + b + FileWrites(g, s2.data, Drop(L1.nodes[e.first].chain, p.q), p.w, buf)
  }

  // ---- Each part is crash safe ----

  lemma GrowPartRuns(g: Geometry, s: State, L: Layout, f: nat, need: nat)
    requires Inv(g, s, L) && f in L.nodes && need <= |L.nodes[f].chain| + |L.free|
    ensures Runs(g, s, L, GrowPart(g, L, f, need), GrowLayout(L, f, need))
    ensures |GrowLayout(L, f, need).nodes[f].chain| == Max(|L.nodes[f].chain|, need)
  {
    NodeOf(g, s, L, f);
    if |L.nodes[f].chain| < need {
      GrowRuns(g, s, L, f, need - |L.nodes[f].chain|);
    } else {
      NoRun(g, s, L);
    }
  }

  /** The bytes of `C1` in `s1` are those of `C` in `s`, followed by zeros. */
  ghost predicate Lengthened(g: Geometry, s: State, C: seq<nat>, s1: State, C1: seq<nat>) {
    && |C| <= |C1|
    && Contents(s1.data, C1) == Contents(s.data, C) + Zeros(Times(|C1| - |C|, g.B))
  }

  /** What growth does to the data: it zeroes free clusters, and so no byte of any object. */
  lemma GrowPartEffect(g: Geometry, s: State, L: Layout, f: nat, need: nat)
    requires StructOk(g, s, L) && f in L.nodes && need <= |L.nodes[f].chain| + |L.free|
    ensures var s1, L1, C := ApplyAll(s, GrowPart(g, L, f, need)), GrowLayout(L, f, need), L.nodes[f].chain;
      && WfState(g, s1)
      && (forall x :: x in L.nodes ==> Agree(s.data, s1.data, L.nodes[x].chain))
      && Lengthened(g, s, C, s1, L1.nodes[f].chain)
  {
    var C := L.nodes[f].chain;
    var s1 := ApplyAll(s, GrowPart(g, L, f, need));
    assert C != [] by {
      NodeOf(g, s, L, f);
    }
    if |C| < need {
      GrowEffect(g, s, L, C, need - |C|);
      ObjectsKept(g, s, s1, L);
      ContentsFrame(s.data, s1.data, C);
      ContentsConcat(s1.data, C, L.free[..need - |C|]);
    } else {
      assert Zeros(Times(0, g.B)) == [];
    }
  }

  lemma ObjectsKept(g: Geometry, s: State, s1: State, L: Layout)
    requires StructOk(g, s, L) && |s1.data| == g.N
    requires forall c :: 0 <= c < g.N && L.owner[c] != FREE ==> s1.data[c] == s.data[c]
    ensures forall x :: x in L.nodes ==> Agree(s.data, s1.data, L.nodes[x].chain)
  {
    forall x | x in L.nodes
      ensures Agree(s.data, s1.data, L.nodes[x].chain)
    {
      NodeOf(g, s, L, x);
    }
  }

  lemma GrowEffect(g: Geometry, s: State, L: Layout, C: seq<nat>, n: nat)
    requires StructOk(g, s, L) && C != [] && 0 < n <= |L.free|
    ensures var s1 := ApplyAll(s, GrowWrites(g, C, L.free, n));
      && s1.data == Wipe(g, s.data, L.free[..n])
      && WfState(g, s1)
      && Contents(s1.data, L.free[..n]) == Zeros(Times(n, g.B))
      && (forall c :: 0 <= c < g.N && L.owner[c] != FREE ==> s1.data[c] == s.data[c])
  {
    var F, last := L.free, C[|C| - 1];
    FreeOf(g, s, L);
    ApplySnoc(s, PopWrites(g, F, n), Fat(last, F[0]));
    PopEffect(g, s, F, n);
    assert Contents(Wipe(g, s.data, F[..n]), F[..n]) == Zeros(Times(n, g.B)) by { PopSplits(g, s, F, n); }
  }

  lemma SizePartRuns(g: Geometry, s: State, L: Layout, d: nat, j: nat, e: Entry, end: nat, time: seq<byte>)
    requires Inv(g, s, L) && FileSlot(s, L, d, j) && e == DirOf(s, L, d)[j] && e.first in L.nodes
    requires WfEntry(e) && end < U32 && |time| == 8
    requires end <= Times(|L.nodes[e.first].chain|, g.B)
    ensures Runs(g, s, L, SizePart(s.data, L.nodes[d].chain, j, e, end, time), L)
  {
    if end > e.size {
      var e' := e.(size := end, time := time);
      var w := PutSlot(g, s, L, d, j, e');
      ResizeKeepsInv(g, s, L, d, j, e', w);
      OneRun(g, s, L, w, L);
    } else {
      NoRun(g, s, L);
    }
  }

  /** SlotWrite on a directory of the tree. */
  lemma PutSlot(g: Geometry, s: State, L: Layout, d: nat, j: nat, e: Entry) returns (w: Write)
    requires StructOk(g, s, L) && d in L.nodes && L.nodes[d].isDir && 2 <= j < |DirOf(s, L, d)| && WfEntry(e)
    ensures SlotWrite(s.data, L.nodes[d].chain, j, e) == [w]
    ensures SlotPut(g, s, L, d, j, e, w)
  {
    NodeOf(g, s, L, d);
    var C := L.nodes[d].chain;
    ChainIsAcyclic(s.fat, d, C);
    SlotWriteEffect(s.data, C, j, e);
    w := SlotWrite(s.data, C, j, e)[0];
  }

  // ---- The whole operation ----

  /** What the caller of update_file must provide, and enough free clusters. */
  ghost predicate CanUpdate(g: Geometry, s: State, L: Layout, d: nat, j: nat,
                            buf: seq<byte>, off: nat, p: Spot, time: seq<byte>) {
    && Inv(g, s, L) && FileSlot(s, L, d, j) && IsSpot(g, off, |buf|, p)
    && buf != [] && End(off, buf) < U32 && |time| == 8
    && var f := DirOf(s, L, d)[j].first;
    && f in L.nodes && WfEntry(DirOf(s, L, d)[j])
    && p.need <= |L.nodes[f].chain| + |L.free|
  }

  ghost function UpdateLayout(s: State, L: Layout, d: nat, j: nat, p: Spot): Layout
    requires FileSlot(s, L, d, j) && DirOf(s, L, d)[j].first in L.nodes
  {
    GrowLayout(L, DirOf(s, L, d)[j].first, p.need)
  }

  ghost function UpdatedEntry(e: Entry, end: nat, time: seq<byte>): Entry {
    if end > e.size then e.(size := end, time := time) else e
  }

  /** After the allocation the directory still shows the same file. */
  lemma GrowKeepsSlot(g: Geometry, s: State, L: Layout, d: nat, j: nat, need: nat)
    requires Inv(g, s, L) && FileSlot(s, L, d, j)
    ensures var e := DirOf(s, L, d)[j];
      && e.first in L.nodes
      && (need <= |L.nodes[e.first].chain| + |L.free| ==>
          var s1, L1 := ApplyAll(s, GrowPart(g, L, e.first, need)), GrowLayout(L, e.first, need);
          && L1.nodes.Keys == L.nodes.Keys
          && (forall x :: x in L.nodes && x != e.first ==> L1.nodes[x] == L.nodes[x])
          && DirOf(s1, L1, d) == DirOf(s, L, d)
          && FileSlot(s1, L1, d, j))
  {
    FileSlotNode(g, s, L, d, j);
    var f := DirOf(s, L, d)[j].first;
    if need <= |L.nodes[f].chain| + |L.free| {
      GrowPartEffect(g, s, L, f, need);
      DirSlotsFrame(s.data, ApplyAll(s, GrowPart(g, L, f, need)).data, L.nodes[d].chain);
      GrownNodes(L, f, need);
    }
  }

  /** Growth changes the chain of one node and no other. */
  lemma GrownNodes(L: Layout, f: nat, need: nat)
    requires f in L.nodes
    ensures var L1 := GrowLayout(L, f, need);
      && L1.nodes.Keys == L.nodes.Keys
      && (forall x :: x in L.nodes && x != f ==> L1.nodes[x] == L.nodes[x])
      && L1.nodes[f].isDir == L.nodes[f].isDir
  {
  }

  /** What the size update does: one slot of `d`, and no byte of another object. */
  lemma SizePartEffect(g: Geometry, s: State, L: Layout, d: nat, j: nat, e: Entry, end: nat, time: seq<byte>)
    requires StructOk(g, s, L) && FileSlot(s, L, d, j) && e == DirOf(s, L, d)[j]
    requires WfEntry(e) && end < U32 && |time| == 8
    ensures var s' := ApplyAll(s, SizePart(s.data, L.nodes[d].chain, j, e, end, time));
      && WfState(g, s')
      && DirOf(s', L, d) == DirOf(s, L, d)[j := UpdatedEntry(e, end, time)]
      && OthersUntouched(s, s', L, d, d)
  {
    if end > e.size {
      var e' := e.(size := end, time := time);
      var w := PutSlot(g, s, L, d, j, e');
      ApplyOne(s, w);
      SlotPutEffect(g, s, L, d, j, e', w);
      OtherDirsKept(g, s, L, d, w.c, w.block);
    }
  }

  /** The chain of a file, from some cluster on, is ready for the data writes. */
  lemma ReadyToWrite(g: Geometry, s: State, L: Layout, f: nat, q: nat)
    requires StructOk(g, s, L) && f in L.nodes
    ensures var C := L.nodes[f].chain;
      && InData(g, C) && Distinct(C) && Full(g, s.data, C)
      && Owned(g, L, Drop(C, q), f) && Distinct(Drop(C, q)) && Full(g, s.data, Drop(C, q))
  {
    NodeOf(g, s, L, f);
    ChainIsAcyclic(s.fat, f, L.nodes[f].chain);
  }

  /** Growth leaves room for the write. */
  lemma RoomAfterGrowth(g: Geometry, s: State, L: Layout, d: nat, j: nat,
                        buf: seq<byte>, off: nat, p: Spot, time: seq<byte>)
    requires CanUpdate(g, s, L, d, j, buf, off, p, time)
    ensures var C := UpdateLayout(s, L, d, j, p).nodes[DirOf(s, L, d)[j].first].chain;
      p.q < |C| && End(off, buf) <= Times(|C|, g.B)
  {
    var f := DirOf(s, L, d)[j].first;
    SpotInside(g, off, |buf|, p);
    GrowPartRuns(g, s, L, f, p.need);
    TimesMono(p.need, |GrowLayout(L, f, p.need).nodes[f].chain|, g.B);
  }

  lemma GrowAndSizeRun(g: Geometry, s: State, L: Layout, d: nat, j: nat,
                       buf: seq<byte>, off: nat, p: Spot, time: seq<byte>)
    requires CanUpdate(g, s, L, d, j, buf, off, p, time)
    ensures var e := DirOf(s, L, d)[j];
      var a := GrowPart(g, L, e.first, p.need);
      var b := SizePart(ApplyAll(s, a).data, L.nodes[d].chain, j, e, End(off, buf), time);
      Runs(g, s, L, a + b, UpdateLayout(s, L, d, j, p))
  {
    var e := DirOf(s, L, d)[j];
    var a, L1 := GrowPart(g, L, e.first, p.need), GrowLayout(L, e.first, p.need);
    GrowPartRuns(g, s, L, e.first, p.need);
    GrowKeepsSlot(g, s, L, d, j, p.need);
    FileSlotNode(g, s, L, d, j);
    RoomAfterGrowth(g, s, L, d, j, buf, off, p, time);
    var s1 := ApplyAll(s, a);
    assert L1.nodes[d] == L.nodes[d];
    SizePartRuns(g, s1, L1, d, j, e, End(off, buf), time);
    RunsConcat(g, s, L, a, L1, SizePart(s1.data, L1.nodes[d].chain, j, e, End(off, buf), time), L1);
  }

  lemma DataPartRuns(g: Geometry, s: State, L: Layout, f: nat, p: Spot, buf: seq<byte>)
    requires Inv(g, s, L) && f in L.nodes && !L.nodes[f].isDir && p.w < g.B
    ensures Runs(g, s, L, FileWrites(g, s.data, Drop(L.nodes[f].chain, p.q), p.w, buf), L)
  {
    ReadyToWrite(g, s, L, f, p.q);
    FileRuns(g, s, L, f, Drop(L.nodes[f].chain, p.q), p.w, buf);
  }

  /** update_file keeps the filesystem consistent after every single cluster write. */
  lemma UpdateIsCrashSafe(g: Geometry, s: State, L: Layout, d: nat, j: nat,
                          buf: seq<byte>, off: nat, p: Spot, time: seq<byte>)
    requires CanUpdate(g, s, L, d, j, buf, off, p, time)
    ensures Runs(g, s, L, UpdateWrites(g, s, L, d, j, buf, off, p, time), UpdateLayout(s, L, d, j, p))
  {
    var e, L1 := DirOf(s, L, d)[j], UpdateLayout(s, L, d, j, p);
    var a := GrowPart(g, L, e.first, p.need);
    var b := SizePart(ApplyAll(s, a).data, L.nodes[d].chain, j, e, End(off, buf), time);
    var s2 := ApplyAll(s, a + b);
    ApplyConcat(s, a, b);
    GrowAndSizeRun(g, s, L, d, j, buf, off, p, time);
    assert !L1.nodes[e.first].isDir by {
      FileSlotNode(g, s, L, d, j);
    }
    DataPartRuns(g, s2, L1, e.first, p, buf);
    var C := Drop(L1.nodes[e.first].chain, p.q);
    RunsConcat(g, s, L, a + b, L1, FileWrites(g, s2.data, C, p.w, buf), L1);
  }

  /** The data writes splice the file and touch nothing else. */
  lemma DataPartEffect(g: Geometry, s: State, L: Layout, f: nat, off: nat, p: Spot, buf: seq<byte>)
    requires StructOk(g, s, L) && f in L.nodes && p.w < g.B && Times(p.q, g.B) + p.w == off
    requires buf != [] && p.q < |L.nodes[f].chain|
    requires End(off, buf) <= Times(|L.nodes[f].chain|, g.B)
    ensures var C := L.nodes[f].chain;
      var s' := ApplyAll(s, FileWrites(g, s.data, Drop(C, p.q), p.w, buf));
      && WfState(g, s') && |Contents(s.data, C)| == Times(|C|, g.B)
      && Contents(s'.data, C) == Splice(Contents(s.data, C), off, buf)
      && OthersUntouched(s, s', L, f, f)
  {
    var C := L.nodes[f].chain;
    ReadyToWrite(g, s, L, f, p.q);
    WritesAreSpliceAt(g, s, C, p.q, p.w, off, buf);
    OutsideKept(g, s, ApplyAll(s, FileWrites(g, s.data, Drop(C, p.q), p.w, buf)), L, f);
  }

  lemma OutsideKept(g: Geometry, s: State, s': State, L: Layout, f: nat)
    requires StructOk(g, s, L) && f in L.nodes && SameBut(s, s', L.nodes[f].chain)
    ensures OthersUntouched(s, s', L, f, f)
  {
    NodeOf(g, s, L, f);
    forall x | x in L.nodes && x != f
      ensures Agree(s.data, s'.data, L.nodes[x].chain)
    {
      NodeOf(g, s, L, x);
    }
  }

  /** The state after growth and size update. */
  ghost function SizedState(g: Geometry, s: State, L: Layout, d: nat, j: nat, end: nat, p: Spot, time: seq<byte>): State
    requires FileSlot(s, L, d, j) && DirOf(s, L, d)[j].first in L.nodes && WfEntry(DirOf(s, L, d)[j])
    requires end < U32 && |time| == 8
  {
    var e := DirOf(s, L, d)[j];
    var s1 := ApplyAll(s, GrowPart(g, L, e.first, p.need));
    ApplyAll(s1, SizePart(s1.data, L.nodes[d].chain, j, e, end, time))
  }

  lemma SizeAfterGrowth(g: Geometry, s: State, L: Layout, d: nat, j: nat,
                        buf: seq<byte>, off: nat, p: Spot, time: seq<byte>)
    requires CanUpdate(g, s, L, d, j, buf, off, p, time)
    ensures var e, L1 := DirOf(s, L, d)[j], UpdateLayout(s, L, d, j, p);
      var s1 := ApplyAll(s, GrowPart(g, L, e.first, p.need));
      var s2 := SizedState(g, s, L, d, j, End(off, buf), p, time);
      && e.first != d
      && DirOf(s2, L1, d) == DirOf(s, L, d)[j := UpdatedEntry(e, End(off, buf), time)]
      && OthersUntouched(s1, s2, L1, d, d)
  {
    var e, L1 := DirOf(s, L, d)[j], UpdateLayout(s, L, d, j, p);
    var s1 := ApplyAll(s, GrowPart(g, L, e.first, p.need));
    assert StructOk(g, s1, L1) by { GrowPartRuns(g, s, L, e.first, p.need); }
    assert e.first != d by { FileSlotNode(g, s, L, d, j); }
    assert DirOf(s1, L1, d) == DirOf(s, L, d) && FileSlot(s1, L1, d, j) && L1.nodes[d] == L.nodes[d] by {
      GrowKeepsSlot(g, s, L, d, j, p.need);
    }
    SizeEffectThere(g, s1, L1, DirOf(s, L, d), L.nodes[d].chain, d, j, End(off, buf), time);
  }

  lemma SizeEffectThere(g: Geometry, s: State, L: Layout, ss: seq<Entry>, C: seq<nat>,
                        d: nat, j: nat, end: nat, time: seq<byte>)
    requires StructOk(g, s, L) && FileSlot(s, L, d, j) && ss == DirOf(s, L, d) && C == L.nodes[d].chain
    requires WfEntry(ss[j]) && end < U32 && |time| == 8
    ensures var s' := ApplyAll(s, SizePart(s.data, C, j, ss[j], end, time));
      && DirOf(s', L, d) == ss[j := UpdatedEntry(ss[j], end, time)]
      && OthersUntouched(s, s', L, d, d)
  {
    SizePartEffect(g, s, L, d, j, ss[j], end, time);
  }

  /** The file's bytes after growth and size update, before the data writes. */
  lemma GrowAndSizeEffect(g: Geometry, s: State, L: Layout, d: nat, j: nat,
                          buf: seq<byte>, off: nat, p: Spot, time: seq<byte>)
    requires CanUpdate(g, s, L, d, j, buf, off, p, time)
    ensures var e, L1 := DirOf(s, L, d)[j], UpdateLayout(s, L, d, j, p);
      var s2 := SizedState(g, s, L, d, j, End(off, buf), p, time);
      && Lengthened(g, s, L.nodes[e.first].chain, s2, L1.nodes[e.first].chain)
      && DirOf(s2, L1, d) == DirOf(s, L, d)[j := UpdatedEntry(e, End(off, buf), time)]
      && OthersUntouched(s, s2, L, e.first, d)
  {
    var f := DirOf(s, L, d)[j].first;
    SizeAfterGrowth(g, s, L, d, j, buf, off, p, time);
    GrowThenSize(g, s, ApplyAll(s, GrowPart(g, L, f, p.need)),
                 SizedState(g, s, L, d, j, End(off, buf), p, time), L, d, j, p);
  }

  lemma GrowThenSize(g: Geometry, s: State, s1: State, s2: State, L: Layout, d: nat, j: nat, p: Spot)
    requires StructOk(g, s, L) && FileSlot(s, L, d, j) && DirOf(s, L, d)[j].first in L.nodes
    requires var f := DirOf(s, L, d)[j].first;
      && f != d && p.need <= |L.nodes[f].chain| + |L.free|
      && s1 == ApplyAll(s, GrowPart(g, L, f, p.need))
    requires OthersUntouched(s1, s2, UpdateLayout(s, L, d, j, p), d, d)
    ensures var f, L1 := DirOf(s, L, d)[j].first, UpdateLayout(s, L, d, j, p);
      && Lengthened(g, s, L.nodes[f].chain, s2, L1.nodes[f].chain)
      && OthersUntouched(s, s2, L, f, d)
  {
    var f, L1 := DirOf(s, L, d)[j].first, UpdateLayout(s, L, d, j, p);
    assert L.nodes[f].chain != [] by { NodeOf(g, s, L, f); }
    GrowPartEffect(g, s, L, f, p.need);
    ContentsFrame(s1.data, s2.data, L1.nodes[f].chain);
    UntouchedTwice(s, s1, s2, L, L1, f, d, d);
  }

  /** update_file is a splice: the bytes of the chain, lengthened by zeroed clusters where
      the write reaches past them, with exactly the written range replaced; the size becomes
      the larger of the old size and the end of the write; nothing else changes. */
  lemma UpdateIsSplice(g: Geometry, s: State, L: Layout, d: nat, j: nat,
                       buf: seq<byte>, off: nat, p: Spot, time: seq<byte>)
    requires CanUpdate(g, s, L, d, j, buf, off, p, time)
    ensures var e, L1 := DirOf(s, L, d)[j], UpdateLayout(s, L, d, j, p);
      var s' := ApplyAll(s, UpdateWrites(g, s, L, d, j, buf, off, p, time));
      var C, C1 := L.nodes[e.first].chain, L1.nodes[e.first].chain;
      && |C1| == Max(|C|, p.need)
      && var grown := Contents(s.data, C) + Zeros(Times(|C1| - |C|, g.B));
      && End(off, buf) <= |grown|
      && Contents(s'.data, C1) == Splice(grown, off, buf)
      && DirOf(s', L1, d) == DirOf(s, L, d)[j := UpdatedEntry(e, End(off, buf), time)]
      && UpdatedEntry(e, End(off, buf), time).size == Max(e.size, End(off, buf))
      && OthersUntouched(s, s', L, e.first, d)
  {
    var e, L1 := DirOf(s, L, d)[j], UpdateLayout(s, L, d, j, p);
    var s2 := SizedState(g, s, L, d, j, End(off, buf), p, time);
    GrowPartRuns(g, s, L, e.first, p.need);
    assert StructOk(g, s2, L1) by {
      var a := GrowPart(g, L, e.first, p.need);
      ApplyConcat(s, a, SizePart(ApplyAll(s, a).data, L.nodes[d].chain, j, e, End(off, buf), time));
      GrowAndSizeRun(g, s, L, d, j, buf, off, p, time);
    }
    GrowAndSizeEffect(g, s, L, d, j, buf, off, p, time);
    RoomAfterGrowth(g, s, L, d, j, buf, off, p, time);
    DataPartEffect(g, s2, L1, e.first, off, p, buf);
    LastStage(g, s, s2, L, d, j, buf, off, p, time);
  }

  /** Joining the data writes to the rest. */
  lemma LastStage(g: Geometry, s: State, s2: State, L: Layout, d: nat, j: nat,
                  buf: seq<byte>, off: nat, p: Spot, time: seq<byte>)
    requires CanUpdate(g, s, L, d, j, buf, off, p, time)
    requires s2 == SizedState(g, s, L, d, j, End(off, buf), p, time)
    requires OthersUntouched(s, s2, L, DirOf(s, L, d)[j].first, d)
    requires var f, L1 := DirOf(s, L, d)[j].first, UpdateLayout(s, L, d, j, p);
      var s' := ApplyAll(s2, FileWrites(g, s2.data, Drop(L1.nodes[f].chain, p.q), p.w, buf));
      OthersUntouched(s2, s', L1, f, f)
    ensures var f, L1 := DirOf(s, L, d)[j].first, UpdateLayout(s, L, d, j, p);
      var s' := ApplyAll(s2, FileWrites(g, s2.data, Drop(L1.nodes[f].chain, p.q), p.w, buf));
      && s' == ApplyAll(s, UpdateWrites(g, s, L, d, j, buf, off, p, time))
      && OthersUntouched(s, s', L, f, d)
      && DirOf(s', L1, d) == DirOf(s2, L1, d)
  {
    var e, L1 := DirOf(s, L, d)[j], UpdateLayout(s, L, d, j, p);
    var a := GrowPart(g, L, e.first, p.need);
    var b := SizePart(ApplyAll(s, a).data, L.nodes[d].chain, j, e, End(off, buf), time);
    var c := FileWrites(g, s2.data, Drop(L1.nodes[e.first].chain, p.q), p.w, buf);
    ApplyConcat(s, a, b);
    ApplyConcat(s, a + b, c);
    FileSlotNode(g, s, L, d, j);
    GrowKeepsSlot(g, s, L, d, j, p.need);
    DirSlotsFrame(s2.data, ApplyAll(s2, c).data, L1.nodes[d].chain);
    UntouchedTwice(s, s2, ApplyAll(s2, c), L, L1, e.first, d, e.first);
  }
}
