/** What an interruption leaves of names and bytes: all of them, but for the one entry and the one range that
    the interrupted operation was about to write. */
module Intactness {
  import opened Bytes
  import opened Chains
  import opened States
  import opened Entries
  import opened Allocator
  import opened Layouts
  import opened Trees
  import opened Files
  import opened Update
  import opened Make
  import opened Effects
  import opened Theorems

  /** Every slot in use is as it was; slot `j` may have a new size and time. */
  ghost predicate SlotsKept(ss: seq<Entry>, ss': seq<Entry>, j: nat) {
    && |ss'| == |ss|
    && forall i :: 0 <= i < |ss| && Live(ss[i]) ==>
      if i == j then ss'[i].(size := ss[i].size, time := ss[i].time) == ss[i] else ss'[i] == ss[i]
  }

  /** The first `m` bytes of `buf` have been put at `off`, no other byte has changed. */
  ghost predicate Partly(b: seq<byte>, b': seq<byte>, off: nat, buf: seq<byte>, m: nat) {
    && m <= |buf| && |b'| == |b|
    && forall i :: 0 <= i < |b| ==> b'[i] == if off <= i < off + m then buf[i - off] else b[i]
  }

  /** The chain of `x` and its bytes are what they were. */
  ghost predicate SameObject(s: State, s': State, L: Layout, x: nat)
    requires x in L.nodes
  {
    IsChain(s'.fat, x, L.nodes[x].chain) && Agree(s.data, s'.data, L.nodes[x].chain)
  }

  /** From `s` to `s'` every object but the directory `d` and the file `f` is unchanged, `d` has every entry
      it had, and the bytes of `f` changed by a part of the buffer only. */
  ghost predicate Intact(s: State, s': State, L: Layout, d: nat, j: nat, f: nat, off: nat, buf: seq<byte>) {
    && (forall x {:trigger SameObject(s, s', L, x)} :: x in L.nodes && x != f && x != d ==> SameObject(s, s', L, x))
    && (d in L.nodes ==> SlotsKept(DirOf(s, L, d), DirSlots(s'.data, L.nodes[d].chain), j))
    && (f in L.nodes ==> exists m ::
        Partly(Contents(s.data, L.nodes[f].chain), Contents(s'.data, L.nodes[f].chain), off, buf, m))
  }

  // ---- Writes that pass a chain by ----

  ghost predicate FatAvoids(ws: seq<Write>, D: seq<nat>) {
    forall i :: 0 <= i < |ws| && ws[i].Fat? ==> ws[i].c !in D
  }

  ghost predicate DataAvoids(ws: seq<Write>, D: seq<nat>) {
    forall i :: 0 <= i < |ws| && ws[i].Data? ==> ws[i].c !in D
  }

  lemma {:induction false} FatKept(s: State, ws: seq<Write>, x: nat, D: seq<nat>)
    requires IsChain(s.fat, x, D) && FatAvoids(ws, D)
    ensures IsChain(ApplyAll(s, ws).fat, x, D)
    decreases |ws|
  {
    if ws != [] {
      FatKept(s, ws[..|ws| - 1], x, D);
      var s1, w := ApplyAll(s, ws[..|ws| - 1]), ws[|ws| - 1];
      if w.Fat? && w.c < |s1.fat| {
        ChainFrame(s1.fat, x, D, w.c, w.next);
      }
    }
  }

  lemma DataKept(s: State, ws: seq<Write>, D: seq<nat>)
    requires DataAvoids(ws, D)
    ensures Agree(s.data, ApplyAll(s, ws).data, D)
  {
    forall i | 0 <= i < |D|
      ensures Get(s.data, D[i]) == Get(ApplyAll(s, ws).data, D[i])
    {
      AvoidedIsKept(s, ws, D[i]);
    }
  }

  lemma PrefixAvoids(ws: seq<Write>, D: seq<nat>, k: nat)
    requires k <= |ws|
    ensures FatAvoids(ws, D) ==> FatAvoids(ws[..k], D)
    ensures DataAvoids(ws, D) ==> DataAvoids(ws[..k], D)
  {
  }

  lemma BothAvoid(a: seq<Write>, b: seq<Write>, D: seq<nat>)
    ensures FatAvoids(a, D) && FatAvoids(b, D) ==> FatAvoids(a + b, D)
    ensures DataAvoids(a, D) && DataAvoids(b, D) ==> DataAvoids(a + b, D)
  {
  }

  /** An object that all writes avoid survives every prefix of them. */
  lemma AvoidedObject(g: Geometry, s: State, L: Layout, ws: seq<Write>, x: nat, k: nat)
    requires StructOk(g, s, L) && x in L.nodes && k <= |ws|
    requires FatAvoids(ws, L.nodes[x].chain) && DataAvoids(ws, L.nodes[x].chain)
    ensures SameObject(s, ApplyAll(s, ws[..k]), L, x)
  {
    PrefixAvoids(ws, L.nodes[x].chain, k);
    NodeOf(g, s, L, x);
    FatKept(s, ws[..k], x, L.nodes[x].chain);
    DataKept(s, ws[..k], L.nodes[x].chain);
  }

  // ---- Which clusters are written ----

  lemma {:induction false} ZeroWritesIn(g: Geometry, cs: seq<nat>, D: seq<nat>)
    requires Disjoint(cs, D)
    ensures FatAvoids(ZeroWrites(g, cs), D) && DataAvoids(ZeroWrites(g, cs), D)
  {
    if cs != [] {
      ZeroWritesIn(g, cs[..|cs| - 1], D);
      BothAvoid(ZeroWrites(g, cs[..|cs| - 1]), [Data(cs[|cs| - 1], Zeros(g.B))], D);
    }
  }

  /** An allocation writes free clusters only. */
  lemma PopAvoids(g: Geometry, F: seq<nat>, n: nat, D: seq<nat>)
    requires 0 < n <= |F| && Disjoint(F, D)
    ensures FatAvoids(PopWrites(g, F, n), D) && DataAvoids(PopWrites(g, F, n), D)
  {
    ZeroWritesIn(g, F[..n], D);
    BothAvoid([Head(At(F, n))] + [Fat(F[n - 1], 0)], ZeroWrites(g, F[..n]), D);
  }

  /** The growth of a chain `C` touches the FAT at its end, and else free clusters only. */
  lemma GrowthAvoids(g: Geometry, C: seq<nat>, F: seq<nat>, n: nat, D: seq<nat>)
    requires C != [] && 0 < n <= |F| && Disjoint(F, D)
    ensures DataAvoids(GrowWrites(g, C, F, n), D)
    ensures C[|C| - 1] !in D ==> FatAvoids(GrowWrites(g, C, F, n), D)
  {
    PopAvoids(g, F, n, D);
    BothAvoid(PopWrites(g, F, n), [Fat(C[|C| - 1], F[0])], D);
  }

  lemma SlotWriteAvoids(data: seq<Block>, C: seq<nat>, j: nat, e: Entry, D: seq<nat>)
    requires WfEntry(e) && Disjoint(C, D)
    ensures FatAvoids(SlotWrite(data, C, j, e), D) && DataAvoids(SlotWrite(data, C, j, e), D)
    decreases |C|
  {
    if C != [] {
      var n := |Get(data, C[0])| / ENTRY_SIZE;
      if j >= n {
        SlotWriteAvoids(data, C[1..], j - n, e, D);
      }
    }
  }

  /** A file write is nothing, or the write of the first cluster and a file write of the rest. */
  lemma FileWritesShape(g: Geometry, data: seq<Block>, C: seq<nat>, w: nat, buf: seq<byte>)
      returns (b: Block, rest: seq<byte>)
    requires w < g.B && FileWrites(g, data, C, w, buf) != []
    ensures C != [] && FileWrites(g, data, C, w, buf) == [Data(C[0], b)] + FileWrites(g, data, C[1..], 0, rest)
  {
    var m := Min(|buf|, g.B - w);
    b, rest := Splice(Get(data, C[0]), w, buf[..m]), buf[m..];
    FileWritesCons(g, data, C, w, buf, m, Get(data, C[0]));
  }

  lemma {:induction false} FileWritesAvoid(g: Geometry, data: seq<Block>, C: seq<nat>, w: nat, buf: seq<byte>,
      D: seq<nat>)
    requires w < g.B && Disjoint(C, D)
    ensures FatAvoids(FileWrites(g, data, C, w, buf), D) && DataAvoids(FileWrites(g, data, C, w, buf), D)
    decreases |C|
  {
    if FileWrites(g, data, C, w, buf) != [] {
      var b, rest := FileWritesShape(g, data, C, w, buf);
      FileWritesAvoid(g, data, C[1..], 0, rest, D);
      assert C[0] !in D;
      BothAvoid([Data(C[0], b)], FileWrites(g, data, C[1..], 0, rest), D);
    }
  }

  lemma PrefixCons<T>(a: T, xs: seq<T>, n: nat)
    requires 0 < n <= |xs| + 1
    ensures ([a] + xs)[..n] == [a] + xs[..n - 1]
  {
  }

  /** A file write cut short is the write of a shorter buffer. */
  lemma {:induction false} FileWritesPrefix(g: Geometry, data: seq<Block>, C: seq<nat>, w: nat, buf: seq<byte>, n: nat)
    returns (m: nat)
    requires w < g.B && n <= |FileWrites(g, data, C, w, buf)|
    ensures m <= |buf| && FileWrites(g, data, C, w, buf)[..n] == FileWrites(g, data, C, w, buf[..m])
    decreases |C|
  {
    if n == 0 {
      m := 0;
    } else {
      var k, block := Min(|buf|, g.B - w), Get(data, C[0]);
      FileWritesCons(g, data, C, w, buf, k, block);
      var m' := FileWritesPrefix(g, data, C[1..], 0, buf[k..], n - 1);
      PrefixCons(Data(C[0], Splice(block, w, buf[..k])), FileWrites(g, data, C[1..], 0, buf[k..]), n);
      m := ShorterBuffer(g, data, C, w, buf, k, block, m');
    }
  }

  lemma ShorterBuffer(g: Geometry, data: seq<Block>, C: seq<nat>, w: nat, buf: seq<byte>, k: nat, block: Block, m': nat)
    returns (m: nat)
    requires w < g.B && C != [] && buf != [] && block == Get(data, C[0]) && |block| == g.B && k == Min(|buf|, g.B - w)
    requires m' <= |buf| - k
    ensures m <= |buf|
    ensures FileWrites(g, data, C, w, buf[..m])
         == [Data(C[0], Splice(block, w, buf[..k]))] + FileWrites(g, data, C[1..], 0, buf[k..][..m'])
  {
    m := k + m';
    var part := buf[..m];
    assert part[..k] == buf[..k] && part[k..] == buf[k..][..m'];
    FileWritesCons(g, data, C, w, part, k, block);
  }

  // ---- update_file ----

  /** The three parts of a file write. */
  lemma UpdateInThree(g: Geometry, s: State, L: Layout, d: nat, j: nat,
                      buf: seq<byte>, off: nat, p: Spot, time: seq<byte>)
    requires CanUpdate(g, s, L, d, j, buf, off, p, time)
    ensures var e, C1 := DirOf(s, L, d)[j], UpdateLayout(s, L, d, j, p).nodes[DirOf(s, L, d)[j].first].chain;
      var a := GrowPart(g, L, e.first, p.need);
      var b := SizePart(ApplyAll(s, a).data, L.nodes[d].chain, j, e, End(off, buf), time);
      var s2 := SizedState(g, s, L, d, j, End(off, buf), p, time);
      && UpdateWrites(g, s, L, d, j, buf, off, p, time) == a + b + FileWrites(g, s2.data, Drop(C1, p.q), p.w, buf)
      && s2 == ApplyAll(s, a + b)
  {
    var e := DirOf(s, L, d)[j];
    var a := GrowPart(g, L, e.first, p.need);
    ApplyConcat(s, a, SizePart(ApplyAll(s, a).data, L.nodes[d].chain, j, e, End(off, buf), time));
  }

  lemma GrowPartAvoids(g: Geometry, s: State, L: Layout, f: nat, need: nat, x: nat)
    requires Inv(g, s, L) && f in L.nodes && x in L.nodes
    ensures DataAvoids(GrowPart(g, L, f, need), L.nodes[x].chain)
    ensures x != f ==> FatAvoids(GrowPart(g, L, f, need), L.nodes[x].chain)
  {
    var C, F, D := L.nodes[f].chain, L.free, L.nodes[x].chain;
    assert Disjoint(F, D) && C != [] && (x != f ==> Disjoint(C, D)) by { ChainsAreSeparate(g, s, L); }
    if |C| < need <= |C| + |F| {
      GrowthAvoids(g, C, F, need - |C|, D);
    }
  }

  lemma DataPartAvoids(g: Geometry, s: State, L: Layout, f: nat, p: Spot, data: seq<Block>, buf: seq<byte>, x: nat)
    requires Inv(g, s, L) && f in L.nodes && x in L.nodes && x != f && p.w < g.B
    ensures var ws := FileWrites(g, data, Drop(GrowLayout(L, f, p.need).nodes[f].chain, p.q), p.w, buf);
      FatAvoids(ws, L.nodes[x].chain) && DataAvoids(ws, L.nodes[x].chain)
  {
    ChainsAreSeparate(g, s, L);
    var C1, D := GrowLayout(L, f, p.need).nodes[f].chain, L.nodes[x].chain;
    assert Disjoint(L.nodes[f].chain, D) && Disjoint(D, L.free);
    assert Disjoint(C1, D);
    FileWritesAvoid(g, data, Drop(C1, p.q), p.w, buf, D);
  }

  /** No write of update_file concerns another object. */
  lemma UpdateAvoids(g: Geometry, s: State, L: Layout, d: nat, j: nat,
                     buf: seq<byte>, off: nat, p: Spot, time: seq<byte>, x: nat)
    requires CanUpdate(g, s, L, d, j, buf, off, p, time)
    requires x in L.nodes && x != d && x != DirOf(s, L, d)[j].first
    ensures var ws := UpdateWrites(g, s, L, d, j, buf, off, p, time);
      FatAvoids(ws, L.nodes[x].chain) && DataAvoids(ws, L.nodes[x].chain)
  {
    var e, D := DirOf(s, L, d)[j], L.nodes[x].chain;
    var a := GrowPart(g, L, e.first, p.need);
    var b := SizePart(ApplyAll(s, a).data, L.nodes[d].chain, j, e, End(off, buf), time);
    var s2 := SizedState(g, s, L, d, j, End(off, buf), p, time);
    UpdateInThree(g, s, L, d, j, buf, off, p, time);
    GrowPartAvoids(g, s, L, e.first, p.need, x);
    assert Disjoint(L.nodes[d].chain, D) by { ChainsAreSeparate(g, s, L); }
    if End(off, buf) > e.size {
      SlotWriteAvoids(ApplyAll(s, a).data, L.nodes[d].chain, j, e.(size := End(off, buf), time := time), D);
    }
    BothAvoid(a, b, D);
    DataPartAvoids(g, s, L, e.first, p, s2.data, buf, x);
    var C1 := UpdateLayout(s, L, d, j, p).nodes[e.first].chain;
    BothAvoid(a + b, FileWrites(g, s2.data, Drop(C1, p.q), p.w, buf), D);
  }

  lemma NothingYet(b: seq<byte>, off: nat, buf: seq<byte>)
    ensures Partly(b, b, off, buf, 0)
  {
  }

  /** Interrupted during the allocation: directory and file are as they were. */
  lemma IntactInGrowth(g: Geometry, s: State, L: Layout, d: nat, j: nat,
                       buf: seq<byte>, off: nat, p: Spot, time: seq<byte>, k: nat)
    requires CanUpdate(g, s, L, d, j, buf, off, p, time)
    requires k <= |GrowPart(g, L, DirOf(s, L, d)[j].first, p.need)|
    ensures var f := DirOf(s, L, d)[j].first;
      var s' := ApplyAll(s, GrowPart(g, L, f, p.need)[..k]);
      && SlotsKept(DirOf(s, L, d), DirSlots(s'.data, L.nodes[d].chain), j)
      && Partly(Contents(s.data, L.nodes[f].chain), Contents(s'.data, L.nodes[f].chain), off, buf, 0)
  {
    var f := DirOf(s, L, d)[j].first;
    var C, D, a := L.nodes[f].chain, L.nodes[d].chain, GrowPart(g, L, f, p.need);
    GrowPartAvoids(g, s, L, f, p.need, d);
    GrowPartAvoids(g, s, L, f, p.need, f);
    PrefixAvoids(a, C, k);
    PrefixAvoids(a, D, k);
    DataKept(s, a[..k], C);
    DataKept(s, a[..k], D);
    DirSlotsFrame(s.data, ApplyAll(s, a[..k]).data, D);
    ContentsFrame(s.data, ApplyAll(s, a[..k]).data, C);
    NothingYet(Contents(s.data, C), off, buf);
  }

  /** The bytes of the old chain, when those of the lengthened one are spliced. */
  lemma PartOfSplice(old': seq<byte>, z: nat, new': seq<byte>, tail: seq<byte>, off: nat, buf: seq<byte>, m: nat)
    requires m <= |buf| && off + m <= |old'| + z && |new'| == |old'|
    requires new' + tail == Splice(old' + Zeros(z), off, buf[..m])
    ensures Partly(old', new', off, buf, m)
  {
    var all := new' + tail;
    forall i | 0 <= i < |old'|
      ensures new'[i] == if off <= i < off + m then buf[i - off] else old'[i]
    {
      assert new'[i] == all[i];
    }
  }

  lemma GrownChain(L: Layout, f: nat, need: nat)
    requires f in L.nodes
    ensures L.nodes[f].chain <= GrowLayout(L, f, need).nodes[f].chain
  {
  }

  /** After growth and size update the state is sound and the chain holds the range to be written. */
  lemma SizedIsSound(g: Geometry, s: State, L: Layout, d: nat, j: nat,
                     buf: seq<byte>, off: nat, p: Spot, time: seq<byte>)
    requires CanUpdate(g, s, L, d, j, buf, off, p, time)
    ensures var L1, f := UpdateLayout(s, L, d, j, p), DirOf(s, L, d)[j].first;
      && StructOk(g, SizedState(g, s, L, d, j, End(off, buf), p, time), L1)
      && p.q < |L1.nodes[f].chain| && End(off, buf) <= Times(|L1.nodes[f].chain|, g.B)
  {
    UpdateInThree(g, s, L, d, j, buf, off, p, time);
    GrowAndSizeRun(g, s, L, d, j, buf, off, p, time);
    RoomAfterGrowth(g, s, L, d, j, buf, off, p, time);
  }

  /** A part of the data writes: a splice of that part, and no byte of another object. */
  lemma PartWritten(g: Geometry, s: State, L: Layout, d: nat, f: nat, off: nat, p: Spot, buf: seq<byte>, m: nat)
    requires StructOk(g, s, L) && f in L.nodes && d in L.nodes && f != d && m <= |buf|
    requires p.w < g.B && Times(p.q, g.B) + p.w == off
    requires p.q < |L.nodes[f].chain| && End(off, buf) <= Times(|L.nodes[f].chain|, g.B)
    ensures var C := L.nodes[f].chain;
      var s' := ApplyAll(s, FileWrites(g, s.data, Drop(C, p.q), p.w, buf[..m]));
      && WfState(g, s') && |Contents(s.data, C)| == Times(|C|, g.B)
      && Contents(s'.data, C) == Splice(Contents(s.data, C), off, buf[..m])
      && Agree(s.data, s'.data, L.nodes[d].chain)
  {
    var C := L.nodes[f].chain;
    if m == 0 {
      NodeOf(g, s, L, f);
      ContentsLength(g, s.data, C);
      assert Splice(Contents(s.data, C), off, []) == Contents(s.data, C);
      assert buf[..m] == [];
    } else {
      DataPartEffect(g, s, L, f, off, p, buf[..m]);
    }
  }

  lemma KeptLength(g: Geometry, s: State, s': State, L: Layout, f: nat)
    requires StructOk(g, s, L) && WfState(g, s') && f in L.nodes
    ensures |Contents(s'.data, L.nodes[f].chain)| == |Contents(s.data, L.nodes[f].chain)|
  {
    NodeOf(g, s, L, f);
    ContentsLength(g, s.data, L.nodes[f].chain);
    ContentsLength(g, s'.data, L.nodes[f].chain);
  }

  lemma ResizedSlots(ss: seq<Entry>, j: nat, end: nat, time: seq<byte>)
    requires j < |ss|
    ensures SlotsKept(ss, ss[j := UpdatedEntry(ss[j], end, time)], j)
  {
  }

  /** Interrupted later: the entry has its new size. */
  lemma SlotsInData(g: Geometry, s: State, L: Layout, d: nat, j: nat,
                    buf: seq<byte>, off: nat, p: Spot, time: seq<byte>, s': State)
    requires CanUpdate(g, s, L, d, j, buf, off, p, time)
    requires Agree(SizedState(g, s, L, d, j, End(off, buf), p, time).data, s'.data, L.nodes[d].chain)
    ensures SlotsKept(DirOf(s, L, d), DirSlots(s'.data, L.nodes[d].chain), j)
  {
    var s2, L1 := SizedState(g, s, L, d, j, End(off, buf), p, time), UpdateLayout(s, L, d, j, p);
    assert L1.nodes[d] == L.nodes[d] by {
      FileSlotNode(g, s, L, d, j);
      GrowKeepsSlot(g, s, L, d, j, p.need);
    }
    assert DirOf(s2, L1, d) == DirOf(s, L, d)[j := UpdatedEntry(DirOf(s, L, d)[j], End(off, buf), time)] by {
      GrowAndSizeEffect(g, s, L, d, j, buf, off, p, time);
    }
    DirSlotsFrame(s2.data, s'.data, L.nodes[d].chain);
    ResizedSlots(DirOf(s, L, d), j, End(off, buf), time);
  }

  /** And the first bytes of the buffer are in place. */
  lemma BytesInData(g: Geometry, s: State, L: Layout, d: nat, j: nat,
                    buf: seq<byte>, off: nat, p: Spot, time: seq<byte>, m: nat, s': State)
    requires CanUpdate(g, s, L, d, j, buf, off, p, time) && m <= |buf| && WfState(g, s')
    requires var f, L1 := DirOf(s, L, d)[j].first, UpdateLayout(s, L, d, j, p);
      var bytes := Contents(SizedState(g, s, L, d, j, End(off, buf), p, time).data, L1.nodes[f].chain);
      off + m <= |bytes| && Contents(s'.data, L1.nodes[f].chain) == Splice(bytes, off, buf[..m])
    ensures var C := L.nodes[DirOf(s, L, d)[j].first].chain;
      Partly(Contents(s.data, C), Contents(s'.data, C), off, buf, m)
  {
    var f, L1 := DirOf(s, L, d)[j].first, UpdateLayout(s, L, d, j, p);
    var C, C1 := L.nodes[f].chain, L1.nodes[f].chain;
    var s2 := SizedState(g, s, L, d, j, End(off, buf), p, time);
    assert Lengthened(g, s, C, s2, C1) by { GrowAndSizeEffect(g, s, L, d, j, buf, off, p, time); }
    GrownChain(L, f, p.need);
    KeptLength(g, s, s', L, f);
    PartOfChain(g, s, s2, s', C, C1, off, buf, m);
  }

  lemma PartOfChain(g: Geometry, s: State, s2: State, s': State, C: seq<nat>, C1: seq<nat>,
                    off: nat, buf: seq<byte>, m: nat)
    requires C <= C1 && Lengthened(g, s, C, s2, C1) && m <= |buf| && off + m <= |Contents(s2.data, C1)|
    requires Contents(s'.data, C1) == Splice(Contents(s2.data, C1), off, buf[..m])
    requires |Contents(s'.data, C)| == |Contents(s.data, C)|
    ensures Partly(Contents(s.data, C), Contents(s'.data, C), off, buf, m)
  {
    var rest := C1[|C|..];
    assert C1 == C + rest;
    ContentsConcat(s'.data, C, rest);
    PartOfSplice(Contents(s.data, C), Times(|C1| - |C|, g.B), Contents(s'.data, C), Contents(s'.data, rest), off,
        buf, m);
  }

  /** The state when the first `m` bytes of the buffer have been written. */
  ghost function HalfWritten(g: Geometry, s: State, L: Layout, d: nat, j: nat,
                             buf: seq<byte>, off: nat, p: Spot, time: seq<byte>, m: nat): State
    requires CanUpdate(g, s, L, d, j, buf, off, p, time) && m <= |buf|
  {
    var s2 := SizedState(g, s, L, d, j, End(off, buf), p, time);
    var C1 := UpdateLayout(s, L, d, j, p).nodes[DirOf(s, L, d)[j].first].chain;
    ApplyAll(s2, FileWrites(g, s2.data, Drop(C1, p.q), p.w, buf[..m]))
  }

  lemma IntactInData(g: Geometry, s: State, L: Layout, d: nat, j: nat,
                     buf: seq<byte>, off: nat, p: Spot, time: seq<byte>, m: nat)
    requires CanUpdate(g, s, L, d, j, buf, off, p, time) && m <= |buf|
    ensures var C, s' := L.nodes[DirOf(s, L, d)[j].first].chain, HalfWritten(g, s, L, d, j, buf, off, p, time, m);
      && SlotsKept(DirOf(s, L, d), DirSlots(s'.data, L.nodes[d].chain), j)
      && Partly(Contents(s.data, C), Contents(s'.data, C), off, buf, m)
  {
    var f, L1 := DirOf(s, L, d)[j].first, UpdateLayout(s, L, d, j, p);
    var s2, s' := SizedState(g, s, L, d, j, End(off, buf), p, time), HalfWritten(g, s, L, d, j, buf, off, p, time, m);
    SizedIsSound(g, s, L, d, j, buf, off, p, time);
    assert f != d && L1.nodes[d] == L.nodes[d] by {
      FileSlotNode(g, s, L, d, j);
      GrowKeepsSlot(g, s, L, d, j, p.need);
    }
    PartWritten(g, s2, L1, d, f, off, p, buf, m);
    SlotsInData(g, s, L, d, j, buf, off, p, time, s');
    BytesInData(g, s, L, d, j, buf, off, p, time, m, s');
  }

  /** After `k` of its writes, update_file is in its allocation or has written a part of the buffer. */
  lemma UpdatePrefix(g: Geometry, s: State, L: Layout, d: nat, j: nat,
                     buf: seq<byte>, off: nat, p: Spot, time: seq<byte>, k: nat) returns (m: nat)
    requires CanUpdate(g, s, L, d, j, buf, off, p, time)
    requires |GrowPart(g, L, DirOf(s, L, d)[j].first, p.need)| < k <= |UpdateWrites(g, s, L, d, j, buf, off, p, time)|
    ensures m <= |buf|
    ensures ApplyAll(s, UpdateWrites(g, s, L, d, j, buf, off, p, time)[..k]) == HalfWritten(g, s, L, d, j, buf, off,
        p, time, m)
  {
    var e := DirOf(s, L, d)[j];
    var a := GrowPart(g, L, e.first, p.need);
    var b := SizePart(ApplyAll(s, a).data, L.nodes[d].chain, j, e, End(off, buf), time);
    var s2 := SizedState(g, s, L, d, j, End(off, buf), p, time);
    var C1 := UpdateLayout(s, L, d, j, p).nodes[e.first].chain;
    var c := FileWrites(g, s2.data, Drop(C1, p.q), p.w, buf);
    UpdateInThree(g, s, L, d, j, buf, off, p, time);
    SizeIsOneWrite(g, s, L, d, j, buf, off, p, time);
    var n := k - |a + b|;
    m := FileWritesPrefix(g, s2.data, Drop(C1, p.q), p.w, buf, n);
    PrefixOfSum(UpdateWrites(g, s, L, d, j, buf, off, p, time), a + b, c, k, n);
    ApplyConcat(s, a + b, c[..n]);
  }

  lemma SizeIsOneWrite(g: Geometry, s: State, L: Layout, d: nat, j: nat,
                       buf: seq<byte>, off: nat, p: Spot, time: seq<byte>)
    requires CanUpdate(g, s, L, d, j, buf, off, p, time)
    ensures var e := DirOf(s, L, d)[j];
      |SizePart(ApplyAll(s, GrowPart(g, L, e.first, p.need)).data, L.nodes[d].chain, j, e, End(off, buf), time)| <= 1
  {
    var e := DirOf(s, L, d)[j];
    var data := ApplyAll(s, GrowPart(g, L, e.first, p.need)).data;
    if End(off, buf) > e.size {
      SlotWriteIsShort(data, L.nodes[d].chain, j, e.(size := End(off, buf), time := time));
    }
  }

  lemma {:induction false} SlotWriteIsShort(data: seq<Block>, C: seq<nat>, j: nat, e: Entry)
    requires WfEntry(e)
    ensures |SlotWrite(data, C, j, e)| <= 1
    decreases |C|
  {
    if C != [] {
      var n := |Get(data, C[0])| / ENTRY_SIZE;
      if j >= n {
        SlotWriteIsShort(data, C[1..], j - n, e);
      }
    }
  }

  /** update_file, interrupted after any of its writes: every other object has its chain and its bytes, every
      entry its name, kind and first cluster, and the file a part of the buffer, from its start, where it was
      to be written, and its old bytes everywhere else. */
  lemma UpdateIsIntact(g: Geometry, s: State, L: Layout, d: nat, j: nat,
                       buf: seq<byte>, off: nat, p: Spot, time: seq<byte>, k: nat)
    requires CanUpdate(g, s, L, d, j, buf, off, p, time)
    requires k <= |UpdateWrites(g, s, L, d, j, buf, off, p, time)|
    ensures Intact(s, ApplyAll(s, UpdateWrites(g, s, L, d, j, buf, off, p, time)[..k]), L,
                   d, j, DirOf(s, L, d)[j].first, off, buf)
  {
    var f, ws := DirOf(s, L, d)[j].first, UpdateWrites(g, s, L, d, j, buf, off, p, time);
    var a, s' := GrowPart(g, L, f, p.need), ApplyAll(s, ws[..k]);
    forall x | x in L.nodes && x != f && x != d
      ensures SameObject(s, s', L, x)
    {
      UpdateAvoids(g, s, L, d, j, buf, off, p, time, x);
      AvoidedObject(g, s, L, ws, x, k);
    }
    if k <= |a| {
      UpdateInThree(g, s, L, d, j, buf, off, p, time);
      assert ws[..k] == a[..k];
      IntactInGrowth(g, s, L, d, j, buf, off, p, time, k);
    } else {
      var m := UpdatePrefix(g, s, L, d, j, buf, off, p, time, k);
      IntactInData(g, s, L, d, j, buf, off, p, time, m);
    }
  }

  // ---- mknod ----

  lemma MakeAvoids(g: Geometry, s: State, L: Layout, d: nat, name: Name, time: seq<byte>, x: nat)
    requires CanMake(g, s, L, d, name, time) && x in L.nodes && x != d
    ensures var ws := MakeWrites(g, s, L, d, name, false, time);
      FatAvoids(ws, L.nodes[x].chain) && DataAvoids(ws, L.nodes[x].chain)
  {
    ChainsAreSeparate(g, s, L);
    var a, b, D := PopWrites(g, L.free, 1), EntryWrites(g, s, L, d, name, false, time), L.nodes[x].chain;
    assert Disjoint(L.free, D);
    PopAvoids(g, L.free, 1, D);
    if MakeOk(g, s, L, d, name) {
      assert Disjoint(L.nodes[d].chain, D);
      NewEntryIsFresh(name, L.free[0], false, time);
      AddAvoids(g, TakenState(g, s, L), L.nodes[d].chain, L.free[1..], NewEntry(name, L.free[0], false, time), D);
    }
    BothAvoid(a, b, D);
    BothAvoid(a + b, [], D);
  }

  /** An insertion writes the directory and free clusters only. */
  lemma AddAvoids(g: Geometry, s: State, C: seq<nat>, F: seq<nat>, e: Entry, D: seq<nat>)
    requires WfEntry(e) && Disjoint(C, D) && Disjoint(F, D)
    ensures FatAvoids(AddWrites(g, s, C, F, e), D) && DataAvoids(AddWrites(g, s, C, F, e), D)
  {
    var j := FindIndex(DirSlots(s.data, C), []);
    SlotWriteAvoids(s.data, C, j, e, D);
    if C != [] && F != [] {
      var grow := GrowWrites(g, C, F, 1);
      GrowthAvoids(g, C, F, 1, D);
      SlotWriteAvoids(ApplyAll(s, grow).data, C + [F[0]], j, e, D);
      BothAvoid(grow, SlotWrite(ApplyAll(s, grow).data, C + [F[0]], j, e), D);
    }
  }

  /** Before its last write a creation has not touched the parent's clusters. */
  lemma MakeAvoidsParent(g: Geometry, s: State, L: Layout, d: nat, name: Name, time: seq<byte>, k: nat)
    requires CanMake(g, s, L, d, name, time)
    requires k < |MakeWrites(g, s, L, d, name, false, time)|
    ensures DataAvoids(MakeWrites(g, s, L, d, name, false, time)[..k], L.nodes[d].chain)
  {
    ChainsAreSeparate(g, s, L);
    var a, b, D := PopWrites(g, L.free, 1), EntryWrites(g, s, L, d, name, false, time), L.nodes[d].chain;
    var ws := MakeWrites(g, s, L, d, name, false, time);
    assert ws == a + b;
    assert Disjoint(L.free, D);
    PopAvoids(g, L.free, 1, D);
    if k <= |a| {
      assert ws[..k] == a[..k];
      PrefixAvoids(a, D, k);
    } else {
      var n := k - |a|;
      PrefixOfSum(ws, a, b, k, n);
      assert DataAvoids(b[..n], D) by {
        NewEntryIsFresh(name, L.free[0], false, time);
        AddAvoidsFirst(g, TakenState(g, s, L), D, L.free[1..], NewEntry(name, L.free[0], false, time), n);
      }
      BothAvoid(a, b[..n], D);
    }
  }

  lemma PrefixOfSum<T>(ws: seq<T>, a: seq<T>, b: seq<T>, k: nat, n: nat)
    requires ws == a + b && k == |a| + n && n <= |b|
    ensures ws[..k] == a + b[..n]
  {
  }

  lemma AddAvoidsFirst(g: Geometry, s: State, C: seq<nat>, F: seq<nat>, e: Entry, n: nat)
    requires WfEntry(e) && Disjoint(F, C) && n < |AddWrites(g, s, C, F, e)|
    ensures DataAvoids(AddWrites(g, s, C, F, e)[..n], C)
  {
    var ss := DirSlots(s.data, C);
    var j := FindIndex(ss, []);
    SlotWriteIsShort(s.data, C, j, e);
    if j == |ss| && C != [] && F != [] {
      var grow := GrowWrites(g, C, F, 1);
      GrowthAvoids(g, C, F, 1, C);
      SlotWriteIsShort(ApplyAll(s, grow).data, C + [F[0]], j, e);
      assert AddInNew(g, s, C, F, j, e)[..n] == grow[..n];
      PrefixAvoids(grow, C, n);
    }
  }

  /** All entries of the parent are there when the creation is complete. */
  lemma MadeKeepsSlots(g: Geometry, s: State, L: Layout, d: nat, name: Name, time: seq<byte>)
    requires CanMake(g, s, L, d, name, time)
    ensures var s' := ApplyAll(s, MakeWrites(g, s, L, d, name, false, time));
      SlotsKept(DirOf(s, L, d), DirSlots(s'.data, L.nodes[d].chain), |DirOf(s, L, d)|)
  {
    var s', L' := ApplyAll(s, MakeWrites(g, s, L, d, name, false, time)), MakeLayout(g, s, L, d, name, false);
    var ss, D := DirOf(s, L, d), L.nodes[d].chain;
    assert s' == EnteredState(g, s, L, d, name, false, time) by {
      ApplyConcat(s, PopWrites(g, L.free, 1), EntryWrites(g, s, L, d, name, false, time));
      assert MakeWrites(g, s, L, d, name, false, time) ==
        PopWrites(g, L.free, 1) + EntryWrites(g, s, L, d, name, false, time);
    }
    EnteredEffect(g, s, L, d, name, false, time);
    MadeChain(g, s, L, d, name);
    var rest := L'.nodes[d].chain[|D|..];
    assert L'.nodes[d].chain == D + rest;
    DirSlotsConcat(s'.data, D, rest);
    SlotCount(g, s, s', L, d, name, time);
    DirSlotsWf(s.data, D);
    if MakeOk(g, s, L, d, name) {
      InsertedKeeps(g, ss, NewEntry(name, L.free[0], false, time), DirSlots(s'.data, D), DirSlots(s'.data, rest));
    } else {
      assert rest == [];
    }
  }

  lemma MadeChain(g: Geometry, s: State, L: Layout, d: nat, name: Name)
    requires Inv(g, s, L) && L.free != [] && d in L.nodes && L.free[0] !in L.nodes
    ensures var L' := MakeLayout(g, s, L, d, name, false);
      d in L'.nodes && L.nodes[d].chain <= L'.nodes[d].chain && (!MakeOk(g, s, L, d, name) ==> L'.nodes == L.nodes)
  {
  }

  lemma SlotCount(g: Geometry, s: State, s': State, L: Layout, d: nat, name: Name, time: seq<byte>)
    requires CanMake(g, s, L, d, name, time) && s' == ApplyAll(s, MakeWrites(g, s, L, d, name, false, time))
    ensures |DirSlots(s'.data, L.nodes[d].chain)| == |DirOf(s, L, d)|
  {
    MakeFileIsCrashSafe(g, s, L, d, name, time);
    NodeOf(g, s, L, d);
    SlotCounts(s.data, L.nodes[d].chain, g.B / ENTRY_SIZE);
    SlotCounts(s'.data, L.nodes[d].chain, g.B / ENTRY_SIZE);
  }

  lemma {:induction false} SlotCounts(data: seq<Block>, C: seq<nat>, n: nat)
    requires forall i :: 0 <= i < |C| ==> |Get(data, C[i])| / ENTRY_SIZE == n
    ensures |DirSlots(data, C)| == Times(|C|, n)
  {
    if C != [] {
      SlotCounts(data, C[1..], n);
    }
  }

  lemma InsertedKeeps(g: Geometry, ss: seq<Entry>, e: Entry, a: seq<Entry>, b: seq<Entry>)
    requires ENTRY_SIZE <= g.B && a + b == Inserted(g, ss, e) && |a| == |ss|
    requires forall i :: 0 <= i < |ss| ==> WfEntry(ss[i])
    ensures SlotsKept(ss, a, |ss|)
  {
    var j := FindIndex(ss, []);
    forall i | 0 <= i < |ss| && Live(ss[i])
      ensures a[i] == ss[i]
    {
      assert a[i] == (a + b)[i];
      DeadSlotIsFree(ss, i);
    }
  }

  /** The creation of a file, interrupted after any of its writes: every other object has its chain and its
      bytes, and the parent every entry it had. */
  lemma MakeIsIntact(g: Geometry, s: State, L: Layout, d: nat, name: Name, time: seq<byte>, k: nat)
    requires CanMake(g, s, L, d, name, time) && k <= |MakeWrites(g, s, L, d, name, false, time)|
    ensures Intact(s, ApplyAll(s, MakeWrites(g, s, L, d, name, false, time)[..k]), L, d, |DirOf(s, L, d)|, FREE, 0, [])
  {
    var ws := MakeWrites(g, s, L, d, name, false, time);
    var s' := ApplyAll(s, ws[..k]);
    NodesOwnThemselves(g, s, L);
    forall x | x in L.nodes && x != d
      ensures SameObject(s, s', L, x)
    {
      MakeAvoids(g, s, L, d, name, time, x);
      AvoidedObject(g, s, L, ws, x, k);
    }
    if k < |ws| {
      MakeAvoidsParent(g, s, L, d, name, time, k);
      DataKept(s, ws[..k], L.nodes[d].chain);
      DirSlotsFrame(s.data, s'.data, L.nodes[d].chain);
    } else {
      assert ws[..k] == ws;
      MadeKeepsSlots(g, s, L, d, name, time);
    }
  }

  /** Nothing has happened yet. */
  lemma NothingHappened(g: Geometry, s: State, L: Layout, d: nat, j: nat, f: nat, off: nat, buf: seq<byte>)
    requires StructOk(g, s, L)
    ensures Intact(s, s, L, d, j, f, off, buf)
  {
    forall x | x in L.nodes
      ensures SameObject(s, s, L, x)
    {
      NodeOf(g, s, L, x);
    }
    if f in L.nodes {
      NothingYet(Contents(s.data, L.nodes[f].chain), off, buf);
    }
  }
}
