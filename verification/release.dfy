/** Removal of an object and the shrinking of a file. */
module Release {
  import opened Bytes
  import opened Chains
  import opened States
  import opened Entries
  import opened Allocator
  import opened Layouts
  import opened Trees
  import opened Update
  import opened Make

  /** Slot `j` of directory `d` holds a live object other than the dots. */
  ghost predicate ObjectSlot(s: State, L: Layout, d: nat, j: nat) {
    && d in L.nodes && L.nodes[d].isDir && 2 <= j < |DirOf(s, L, d)| && Live(DirOf(s, L, d)[j])
  }

  lemma ObjectSlotNode(g: Geometry, s: State, L: Layout, d: nat, j: nat)
    requires Inv(g, s, L) && ObjectSlot(s, L, d, j)
    ensures var e := DirOf(s, L, d)[j];
      && e.first in L.nodes && e.first != g.Root() && WfEntry(e)
      && L.nodes[e.first].parent == d && L.nodes[e.first].slot == j
      && e.kind == (if L.nodes[e.first].isDir then KIND_DIR else KIND_FILE)
      && L.nodes[e.first].chain != [] && L.nodes[e.first].chain[0] == e.first
  {
    assert DirOk(g, s, L, d);
    assert EntryOk(g, L.nodes, d, j, DirOf(s, L, d)[j]);
    DirSlotsWf(s.data, L.nodes[d].chain);
    NodeOf(g, s, L, DirOf(s, L, d)[j].first);
  }

  // ---- Giving a chain of orphans back to the free list ----

  /** The orphans `o` form a chain; the two writes of free_cluster_chain return them. */
  lemma FreeKeepsInv(g: Geometry, s: State, L: Layout, o: seq<nat>)
    requires Inv(g, s, L) && o != [] && Owned(g, L, o, ORPHAN) && g.Root() !in o
    requires IsChain(s.fat, o[0], o)
    ensures Inv(g, ApplyAll(s, FreeWrites(o, s.head)), Returned(L, o))
  {
    var last := o[|o| - 1];
    var s1 := Apply(s, Fat(last, s.head));
    FreeOf(g, s, L);
    assert s.head == At(L.free, 0);
    OrphanLinkKeepsInv(g, s, L, last, s.head);
    ChainJoin(s.fat, o, s.head, L.free);
    ReturnKeepsInv(g, s1, L, o);
    ApplyTwo(s, Fat(last, s.head), Head(o[0]));
  }

  // ---- unlink and rmdir ----

  ghost function RemoveWrites(s: State, L: Layout, d: nat, j: nat): seq<Write>
    requires ObjectSlot(s, L, d, j) && WfEntry(DirOf(s, L, d)[j])
    requires DirOf(s, L, d)[j].first in L.nodes && L.nodes[DirOf(s, L, d)[j].first].chain != []
  {
    var e := DirOf(s, L, d)[j];
    FreeWrites(L.nodes[e.first].chain, s.head) + SlotWrite(s.data, L.nodes[d].chain, j, Killed(e))
  }

  ghost function RemoveLayout(L: Layout, id: nat): Layout
    requires id in L.nodes
  {
    Returned(Dropped(L, id), L.nodes[id].chain)
  }

  /** Freeing the chain first and emptying the slot then ends in the state of the other order. */
  lemma RemoveReordered(s: State, C: seq<nat>, w: Write)
    requires C != [] && w.Data?
    ensures ApplyAll(s, FreeWrites(C, s.head) + [w]) == ApplyAll(Apply(s, w), FreeWrites(C, s.head))
  {
    var ws := FreeWrites(C, s.head);
    ApplySnoc(s, ws, w);
    ApplyTwo(s, ws[0], ws[1]);
    ApplyTwo(Apply(s, w), ws[0], ws[1]);
  }

  /** Removing an object that holds no other keeps the invariant, gives all its clusters back
      in their order, and empties exactly its slot. */
  lemma RemoveKeepsInv(g: Geometry, s: State, L: Layout, d: nat, j: nat)
    requires Inv(g, s, L) && ObjectSlot(s, L, d, j)
    requires Childless(g, L, DirOf(s, L, d)[j].first)
    ensures var e := DirOf(s, L, d)[j];
      && e.first in L.nodes && WfEntry(e) && L.nodes[e.first].chain != []
      && Inv(g, ApplyAll(s, RemoveWrites(s, L, d, j)), RemoveLayout(L, e.first))
  {
    ObjectSlotNode(g, s, L, d, j);
    var e := DirOf(s, L, d)[j];
    var id, C := e.first, L.nodes[e.first].chain;
    var w := PutSlot(g, s, L, d, j, Killed(e));
    DropKeepsInv(g, s, L, d, j, Killed(e), w, id);
    var s1 := Apply(s, w);
    DroppedChain(g, s, L, id);
    FreeKeepsInv(g, s1, Dropped(L, id), C);
    assert RemoveWrites(s, L, d, j) == FreeWrites(C, s.head) + [w];
    RemoveReordered(s, C, w);
  }

  /** The clusters of an object that has left the tree are orphans, and none is the root. */
  lemma DroppedChain(g: Geometry, s: State, L: Layout, id: nat)
    requires StructOk(g, s, L) && id in L.nodes && id != g.Root()
    ensures var C := L.nodes[id].chain;
      C != [] && IsChain(s.fat, C[0], C) && Owned(g, Dropped(L, id), C, ORPHAN) && g.Root() !in C
  {
    NodeOf(g, s, L, id);
    NodesOwnThemselves(g, s, L);
  }

  /** A directory without live slots besides its dots holds no object. */
  lemma EmptyIsChildless(g: Geometry, s: State, L: Layout, id: nat)
    requires Inv(g, s, L) && id in L.nodes
    requires L.nodes[id].isDir ==>
      forall j :: 2 <= j < |DirOf(s, L, id)| ==> !Live(DirOf(s, L, id)[j])
    ensures Childless(g, L, id)
  {
    forall x | x in L.nodes && x != g.Root()
      ensures L.nodes[x].parent != id
    {
      assert ChildOk(s, L, x);
    }
  }

  // ---- Shrinking a file ----

  /** Shrinking to `size` bytes keeps `k` clusters. */
  ghost predicate IsCut(g: Geometry, size: nat, k: nat) {
    0 < k && Times(k - 1, g.B) <= size < Times(k, g.B)
  }

  /** The division of line 937 of FAT/fat.c computes it. */
  lemma CutByDivision(g: Geometry, size: nat)
    requires 0 < g.B
    ensures IsCut(g, size, size / g.B + 1)
  {
    DivTimes(size, g.B);
  }

  ghost predicate CanShrink(g: Geometry, s: State, L: Layout, d: nat, j: nat, size: nat, k: nat) {
    && Inv(g, s, L) && FileSlot(s, L, d, j) && IsCut(g, size, k) && size < DirOf(s, L, d)[j].size
    && DirOf(s, L, d)[j].first in L.nodes && WfEntry(DirOf(s, L, d)[j])
  }

  /** A file that is to shrink has the clusters to keep. */
  lemma CutFits(g: Geometry, s: State, L: Layout, d: nat, j: nat, size: nat, k: nat)
    requires CanShrink(g, s, L, d, j, size, k)
    ensures k <= |L.nodes[DirOf(s, L, d)[j].first].chain|
  {
    FileSlotNode(g, s, L, d, j);
    var n := |L.nodes[DirOf(s, L, d)[j].first].chain|;
    if n < k {
      TimesMono(n, k - 1, g.B);
    }
  }

  /** The FAT and superblock writes of a shrink. */
  function CutWrites(C: seq<nat>, k: nat, head: nat): seq<Write>
    requires 0 < k <= |C|
  {
    [Fat(C[k - 1], 0)] + if k < |C| then FreeWrites(C[k..], head) else []
  }

  ghost function ShrinkWrites(s: State, L: Layout, d: nat, j: nat, size: nat, k: nat): seq<Write>
    requires FileSlot(s, L, d, j) && WfEntry(DirOf(s, L, d)[j]) && size < U32
    requires DirOf(s, L, d)[j].first in L.nodes && 0 < k <= |L.nodes[DirOf(s, L, d)[j].first].chain|
  {
    var e := DirOf(s, L, d)[j];
    CutWrites(L.nodes[e.first].chain, k, s.head)
    + SlotWrite(s.data, L.nodes[d].chain, j, e.(size := size))
  }

  ghost function ShrinkLayout(L: Layout, f: nat, k: nat): Layout
    requires f in L.nodes && k <= |L.nodes[f].chain|
  {
    var C := L.nodes[f].chain;
    if k < |C| then Returned(Detached(L, f, k), C[k..]) else Detached(L, f, k)
  }

  lemma ShrinkReordered(s: State, C: seq<nat>, k: nat, w: Write)
    requires 0 < k <= |C| && w.Data?
    ensures ApplyAll(s, CutWrites(C, k, s.head) + [w]) == ApplyAll(Apply(s, w), CutWrites(C, k, s.head))
  {
    var ws := CutWrites(C, k, s.head);
    forall c: nat
      ensures Avoids(ws, c)
    {
    }
    ApplySnoc(s, ws, w);
    DataCommutes(s, ws, w.c, w.block);
  }

  /** The new size first, then the cut. */
  lemma ResizedThenCut(g: Geometry, s: State, L: Layout, d: nat, j: nat, e: Entry, w: Write, k: nat)
    requires Inv(g, s, L) && FileSlot(s, L, d, j) && SlotPut(g, s, L, d, j, e, w)
    requires e == DirOf(s, L, d)[j].(size := e.size) && e.size <= Times(k, g.B)
    requires e.first in L.nodes && 0 < k <= |L.nodes[e.first].chain| && e.size <= DirOf(s, L, d)[j].size
    ensures Inv(g, ApplyAll(Apply(s, w), CutWrites(L.nodes[e.first].chain, k, s.head)), ShrinkLayout(L, e.first, k))
  {
    FileSlotNode(g, s, L, d, j);
    ResizeKeepsInv(g, s, L, d, j, e, w);
    SlotPutEffect(g, s, L, d, j, e, w);
    CutKeepsInv(g, Apply(s, w), L, e.first, k);
  }

  /** Shrinking keeps the invariant. */
  lemma ShrinkKeepsInv(g: Geometry, s: State, L: Layout, d: nat, j: nat, size: nat, k: nat)
    requires CanShrink(g, s, L, d, j, size, k)
    ensures var f := DirOf(s, L, d)[j].first;
      && k <= |L.nodes[f].chain|
      && Inv(g, ApplyAll(s, ShrinkWrites(s, L, d, j, size, k)), ShrinkLayout(L, f, k))
  {
    CutFits(g, s, L, d, j, size, k);
    FileSlotNode(g, s, L, d, j);
    var e := DirOf(s, L, d)[j];
    var f, C, e' := e.first, L.nodes[e.first].chain, e.(size := size);
    var w := PutSlot(g, s, L, d, j, e');
    ResizedThenCut(g, s, L, d, j, e', w, k);
    assert ShrinkWrites(s, L, d, j, size, k) == CutWrites(C, k, s.head) + [w];
    ShrinkReordered(s, C, k, w);
  }

  lemma CutKeepsInv(g: Geometry, s: State, L: Layout, f: nat, k: nat)
    requires Inv(g, s, L) && f in L.nodes && !L.nodes[f].isDir && 0 < k <= |L.nodes[f].chain|
    requires f != g.Root() && L.nodes[f].parent in L.nodes
    requires L.nodes[f].slot < |DirOf(s, L, L.nodes[f].parent)|
    requires DirOf(s, L, L.nodes[f].parent)[L.nodes[f].slot].size <= Times(k, g.B)
    ensures Inv(g, ApplyAll(s, CutWrites(L.nodes[f].chain, k, s.head)), ShrinkLayout(L, f, k))
  {
    var C := L.nodes[f].chain;
    var s1, L1 := Apply(s, Fat(C[k - 1], 0)), Detached(L, f, k);
    DetachKeepsInv(g, s, L, f, k);
    ApplyOne(s, Fat(C[k - 1], 0));
    if k < |C| {
      NodeOf(g, s, L, f);
      ChainCut(s.fat, f, C, k);
      ApplyConcat(s, [Fat(C[k - 1], 0)], FreeWrites(C[k..], s.head));
      TailIsOrphaned(g, s, L, f, k);
      FreeKeepsInv(g, s1, L1, C[k..]);
    }
  }

  lemma TailIsOrphaned(g: Geometry, s: State, L: Layout, f: nat, k: nat)
    requires StructOk(g, s, L) && f in L.nodes && f != g.Root() && k <= |L.nodes[f].chain|
    ensures var o := L.nodes[f].chain[k..];
      Owned(g, Detached(L, f, k), o, ORPHAN) && g.Root() !in o
  {
    NodeOf(g, s, L, f);
    NodesOwnThemselves(g, s, L);
  }
}
