/** update_file, on the volume. */
module Writing {
  import opened Bytes
  import opened Chains
  import opened States
  import opened Entries
  import opened Volumes
  import opened Allocator
  import opened Layouts
  import opened Trees
  import opened Files
  import opened Update
  import opened Release
  import opened Machine
  import opened Directory
  import opened FileData

  /** A volume in use: memory and disk agree, and `L` is the layout of its state. */
  ghost predicate Mounted(vol: Volume, L: Layout)
    reads vol, vol.fatTable
  {
    vol.Coherent() && Slotted(vol.g) && Inv(vol.g, vol.v, L)
  }

  lemma DirChain(vol: Volume, L: Layout, d: nat)
    requires Mounted(vol, L) && d in L.nodes
    ensures OnChain(vol, d, L.nodes[d].chain) && FreeListIs(vol, L.free)
  {
    NodeOf(vol.g, vol.v, L, d);
    FreeOf(vol.g, vol.v, L);
  }

  lemma NeedIsUnique(g: Geometry, off: nat, n: nat, p: Spot, k: nat, within: nat)
    requires IsSpot(g, off, n, p) && 0 < n && within < g.B && off + n - 1 == Times(k, g.B) + within
    ensures p.need == k + 1
  {
    assert Times(p.need, g.B) == Times(p.need - 1, g.B) + g.B;
    TimesUnique(p.need - 1, k, g.B, off + n - 1);
  }

  /** Lines 566-575 of FAT/fat.c: allocation and attachment. */
  method GrowFile(vol: Volume, f: nat, n: nat, stray: Option<nat>, ghost L: Layout) returns (r: PopResult)
    requires Mounted(vol, L) && f in L.nodes && 0 < n && (stray.Some? ==> stray.value < U32)
    modifies vol, vol.fatTable
    ensures vol.Coherent() && L.nodes[f].chain != []
    ensures |L.free| >= n ==> r.Popped? && vol.Wrote(GrowWrites(vol.g, L.nodes[f].chain, L.free, n))
    ensures |L.free| == n - 1 ==> r == PopResult.Wild && vol.Wrote(StrayWrites(stray))
    ensures |L.free| <= n - 2 ==> r == NoSpace && vol.Wrote([])
  {
    ghost var C, F, v0, t0 := L.nodes[f].chain, L.free, vol.v, vol.trace;
    DirChain(vol, L, f);
    r := PopFreeClusters(vol, n, stray, F);
    if r.Popped? {
      assert IsChain(vol.v.fat, f, C) by {
        PopEffect(vol.g, v0, F, n);
        NotFree(vol.g, v0, L, f, F[n - 1]);
        ChainFrame(v0.fat, f, C, F[n - 1], 0);
      }
      var last := LastCluster(vol, f, C);
      vol.UpdateFatEntry(last, r.first);
      Compose(v0, t0, PopWrites(vol.g, F, n), [Fat(last, r.first)]);
    }
  }

  /** Lines 562-575 of FAT/fat.c: `need` clusters for the file, by allocation if it has fewer. */
  method Provide(vol: Volume, f: nat, need: nat, stray: Option<nat>, ghost L: Layout) returns (r: PopResult)
    requires Mounted(vol, L) && f in L.nodes && (stray.Some? ==> stray.value < U32)
    modifies vol, vol.fatTable
    ensures vol.Coherent()
    ensures var room := |L.nodes[f].chain| + |L.free|;
      && (need <= room ==> r.Popped? && vol.Wrote(GrowPart(vol.g, L, f, need)))
      && (need == room + 1 ==> r == PopResult.Wild && vol.Wrote(StrayWrites(stray)))
      && (need > room + 1 ==> r == NoSpace && vol.Wrote([]))
  {
    DirChain(vol, L, f);
    var n := CountClusterInChain(vol, f, L.nodes[f].chain);
    if need > n {
      r := GrowFile(vol, f, need - n, stray, L);
    } else {
      r := Popped(f);
    }
  }

  lemma NotFree(g: Geometry, s: State, L: Layout, f: nat, c: nat)
    requires StructOk(g, s, L) && f in L.nodes && c in L.free
    ensures c !in L.nodes[f].chain
  {
    NodeOf(g, s, L, f);
    NodesOwnThemselves(g, s, L);
    FreeOf(g, s, L);
  }

  /** Lines 577-581 of FAT/fat.c: the size in the directory entry. */
  method SetSize(vol: Volume, d: nat, e: Entry, end: nat, time: seq<byte>, ghost C: seq<nat>, ghost j: nat)
    requires OnChain(vol, d, C) && WfEntry(e) && end < U32 && |time| == 8
    requires j == FindIndex(DirSlots(vol.v.data, C), CName(e.name)) && j < |DirSlots(vol.v.data, C)|
    modifies vol
    ensures vol.Coherent() && vol.Wrote(SizePart(old(vol.v.data), C, j, e, end, time))
  {
    if end > e.size {
      var e' := e.(size := end, time := time);
      var ok := UpdateDirEntry(vol, d, e', false, C);
      assert ok;
    }
  }

  /** update_file. `j` is the slot of the file in its directory `d`. */
  method UpdateFile(vol: Volume, d: nat, e: Entry, buf: seq<byte>, off: nat, time: seq<byte>, stray: Option<nat>,
                    ghost L: Layout, ghost j: nat) returns (r: Reply)
    requires Mounted(vol, L) && ObjectSlot(vol.v, L, d, j) && e == DirOf(vol.v, L, d)[j]
    requires j == FindIndex(DirOf(vol.v, L, d), CName(e.name))
    requires buf != [] && End(off, buf) < U32 && |time| == 8 && (stray.Some? ==> stray.value < U32)
    modifies vol, vol.fatTable
    ensures vol.Coherent()
    ensures var plan := Strayed(PlanUpdate(vol.g, old(vol.v), L, d, j, buf, off, time), stray);
      r == plan.reply && vol.Wrote(plan.ws)
  {
    ObjectSlotNode(vol.g, vol.v, L, d, j);
    if e.kind != KIND_FILE {
      return Aborted;
    }
    SpotOfIs(vol.g, off, |buf|);
    ghost var C, p := L.nodes[e.first].chain, SpotOf(vol.g, off, |buf|);
    var last, lo, within := Locate(End(off, buf) - 1, vol.g.B);
    var need := last + 1;
    assert need == p.need by { NeedIsUnique(vol.g, off, |buf|, p, last, within); }
    var provided := Provide(vol, e.first, need, stray, L);
    if provided.NoSpace? {
      return NoMemory;
    } else if provided.Wild? {
      return Reply.Wild;
    }
    FinishUpdate(vol, d, e, buf, off, time, old(vol.v), old(vol.trace), L, j, p);
    return Done(|buf|);
  }

  /** The writes of update_file before its data writes. */
  ghost function HeadWrites(g: Geometry, s: State, L: Layout, d: nat, j: nat, end: nat, p: Spot,
      time: seq<byte>): seq<Write>
    requires FileSlot(s, L, d, j) && DirOf(s, L, d)[j].first in L.nodes && WfEntry(DirOf(s, L, d)[j])
    requires end < U32 && |time| == 8
  {
    var e := DirOf(s, L, d)[j];
    var a := GrowPart(g, L, e.first, p.need);
    a + SizePart(ApplyAll(s, a).data, L.nodes[d].chain, j, e, end, time)
  }

  /** The rest of update_file, once the chain is long enough. */
  method FinishUpdate(vol: Volume, d: nat, e: Entry, buf: seq<byte>, off: nat, time: seq<byte>,
                      ghost s: State, ghost t: seq<Write>, ghost L: Layout, ghost j: nat, ghost p: Spot)
    requires vol.Coherent() && Slotted(vol.g) && CanUpdate(vol.g, s, L, d, j, buf, off, p, time)
    requires e == DirOf(s, L, d)[j] && j == FindIndex(DirOf(s, L, d), CName(e.name))
    requires vol.v == ApplyAll(s, GrowPart(vol.g, L, e.first, p.need))
    requires vol.trace == t + GrowPart(vol.g, L, e.first, p.need)
    modifies vol
    ensures vol.Coherent() && vol.start == old(vol.start)
    ensures vol.trace == t + UpdateWrites(vol.g, s, L, d, j, buf, off, p, time)
    ensures vol.v == ApplyAll(s, UpdateWrites(vol.g, s, L, d, j, buf, off, p, time))
  {
    UpdateSize(vol, d, e, End(off, buf), time, s, t, L, j, p);
    WriteUpdated(vol, d, e, buf, off, time, s, t, L, j, p);
  }

  /** Lines 583-632 of FAT/fat.c, once the size is set. */
  method WriteUpdated(vol: Volume, d: nat, e: Entry, buf: seq<byte>, off: nat, time: seq<byte>,
                      ghost s: State, ghost t: seq<Write>, ghost L: Layout, ghost j: nat, ghost p: Spot)
    requires vol.Coherent() && Slotted(vol.g) && CanUpdate(vol.g, s, L, d, j, buf, off, p, time)
    requires e == DirOf(s, L, d)[j] && vol.v == SizedState(vol.g, s, L, d, j, End(off, buf), p, time)
    requires vol.trace == t + HeadWrites(vol.g, s, L, d, j, End(off, buf), p, time)
    requires vol.v == ApplyAll(s, HeadWrites(vol.g, s, L, d, j, End(off, buf), p, time))
    modifies vol
    ensures vol.Coherent() && vol.start == old(vol.start)
    ensures vol.trace == t + UpdateWrites(vol.g, s, L, d, j, buf, off, p, time)
    ensures vol.v == ApplyAll(s, UpdateWrites(vol.g, s, L, d, j, buf, off, p, time))
  {
    ghost var C1 := UpdateLayout(s, L, d, j, p).nodes[e.first].chain;
    assert Holds(vol, e.first, C1, off, |buf|) by { SizedVolume(vol, s, L, d, j, buf, off, p, time); }
    ghost var all := UpdateWrites(vol.g, s, L, d, j, buf, off, p, time);
    ghost var h := HeadWrites(vol.g, s, L, d, j, End(off, buf), p, time);
    assert all == h + FileWrites(vol.g, vol.v.data, Drop(C1, p.q), p.w, buf) by {
      WritesInTwo(vol.g, s, vol.v, L, d, j, buf, off, p, time, h, all, C1);
    }
    WriteThere(vol, e.first, off, buf, s, t, h, all, C1, p);
  }

  /** Data writes after the writes `h`. */
  method WriteThere(vol: Volume, first: nat, off: nat, buf: seq<byte>, ghost s: State, ghost t: seq<Write>,
                    ghost h: seq<Write>, ghost all: seq<Write>, ghost C: seq<nat>, ghost p: Spot)
    requires Holds(vol, first, C, off, |buf|) && buf != []
    requires p.w < vol.g.B && Times(p.q, vol.g.B) + p.w == off
    requires vol.trace == t + h && vol.v == ApplyAll(s, h)
    requires all == h + FileWrites(vol.g, vol.v.data, Drop(C, p.q), p.w, buf)
    modifies vol
    ensures vol.Coherent() && vol.start == old(vol.start)
    ensures vol.trace == t + all && vol.v == ApplyAll(s, all)
  {
    ghost var data := vol.v.data;
    WriteFileData(vol, first, off, buf, C, p);
    Compose(s, t, h, FileWrites(vol.g, data, Drop(C, p.q), p.w, buf));
  }

  lemma WritesInTwo(g: Geometry, s: State, s2: State, L: Layout, d: nat, j: nat, buf: seq<byte>, off: nat, p: Spot,
                    time: seq<byte>, h: seq<Write>, all: seq<Write>, C: seq<nat>)
    requires CanUpdate(g, s, L, d, j, buf, off, p, time)
    requires s2 == SizedState(g, s, L, d, j, End(off, buf), p, time)
    requires C == UpdateLayout(s, L, d, j, p).nodes[DirOf(s, L, d)[j].first].chain
    requires h == HeadWrites(g, s, L, d, j, End(off, buf), p, time)
    requires all == UpdateWrites(g, s, L, d, j, buf, off, p, time)
    ensures all == h + FileWrites(g, s2.data, Drop(C, p.q), p.w, buf)
  {
  }

  method UpdateSize(vol: Volume, d: nat, e: Entry, end: nat, time: seq<byte>,
                    ghost s: State, ghost t: seq<Write>, ghost L: Layout, ghost j: nat, ghost p: Spot)
    requires vol.Coherent() && Slotted(vol.g) && Inv(vol.g, s, L) && FileSlot(s, L, d, j)
    requires e == DirOf(s, L, d)[j] && j == FindIndex(DirOf(s, L, d), CName(e.name))
    requires WfEntry(e) && end < U32 && |time| == 8
    requires e.first in L.nodes && p.need <= |L.nodes[e.first].chain| + |L.free|
    requires vol.v == ApplyAll(s, GrowPart(vol.g, L, e.first, p.need))
    requires vol.trace == t + GrowPart(vol.g, L, e.first, p.need)
    modifies vol
    ensures vol.Coherent() && vol.start == old(vol.start)
    ensures vol.trace == t + HeadWrites(vol.g, s, L, d, j, end, p, time)
    ensures vol.v == ApplyAll(s, HeadWrites(vol.g, s, L, d, j, end, p, time))
    ensures vol.v == SizedState(vol.g, s, L, d, j, end, p, time)
  {
    ghost var a, D := GrowPart(vol.g, L, e.first, p.need), L.nodes[d].chain;
    assert OnChain(vol, d, D) && DirSlots(vol.v.data, D) == DirOf(s, L, d) by { GrownVolume(vol, s, L, d, j, p); }
    SetSize(vol, d, e, end, time, D, j);
    Compose(s, t, a, SizePart(ApplyAll(s, a).data, D, j, e, end, time));
  }

  /** After the allocation the directory shows the same slots. */
  lemma GrownVolume(vol: Volume, s: State, L: Layout, d: nat, j: nat, p: Spot)
    requires vol.Coherent() && Slotted(vol.g) && Inv(vol.g, s, L) && FileSlot(s, L, d, j)
    requires var f := DirOf(s, L, d)[j].first;
      && f in L.nodes && p.need <= |L.nodes[f].chain| + |L.free|
      && vol.v == ApplyAll(s, GrowPart(vol.g, L, f, p.need))
    ensures OnChain(vol, d, L.nodes[d].chain) && DirSlots(vol.v.data, L.nodes[d].chain) == DirOf(s, L, d)
  {
    var f := DirOf(s, L, d)[j].first;
    var L1 := GrowLayout(L, f, p.need);
    assert Inv(vol.g, vol.v, L1) by { GrowPartRuns(vol.g, s, L, f, p.need); }
    GrowKeepsSlot(vol.g, s, L, d, j, p.need);
    assert f != d by { FileSlotNode(vol.g, s, L, d, j); }
    assert L1.nodes[d] == L.nodes[d];
    DirChain(vol, L1, d);
  }

  /** After the size update the chain is there and holds the range to be written. */
  lemma SizedVolume(vol: Volume, s: State, L: Layout, d: nat, j: nat,
                    buf: seq<byte>, off: nat, p: Spot, time: seq<byte>)
    requires vol.Coherent() && Slotted(vol.g) && CanUpdate(vol.g, s, L, d, j, buf, off, p, time)
    requires vol.v == SizedState(vol.g, s, L, d, j, End(off, buf), p, time)
    ensures var f := DirOf(s, L, d)[j].first;
      Holds(vol, f, UpdateLayout(s, L, d, j, p).nodes[f].chain, off, |buf|)
  {
    var e, L1 := DirOf(s, L, d)[j], UpdateLayout(s, L, d, j, p);
    assert Inv(vol.g, vol.v, L1) by {
      var a := GrowPart(vol.g, L, e.first, p.need);
      ApplyConcat(s, a, SizePart(ApplyAll(s, a).data, L.nodes[d].chain, j, e, End(off, buf), time));
      GrowAndSizeRun(vol.g, s, L, d, j, buf, off, p, time);
    }
    RoomAfterGrowth(vol.g, s, L, d, j, buf, off, p, time);
    DirChain(vol, L1, e.first);
  }
}
