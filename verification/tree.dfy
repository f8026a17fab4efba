/** The directory tree that the slots on disk describe, and the writes that keep it one. */
module Trees {
  import opened Bytes
  import opened Chains
  import opened States
  import opened Entries
  import opened Layouts

  /** The slots of directory `d`. */
  ghost function DirOf(s: State, L: Layout, d: nat): seq<Entry>
    requires d in L.nodes
  {
    DirSlots(s.data, L.nodes[d].chain)
  }

  ghost predicate DotOk(e: Entry, name: Name, target: nat) {
    CName(e.name) == name && e.kind == KIND_DIR && e.first == target
  }

  /** Slot `j` of `d` describes a live object: kind and place agree with its node, and a
      file fits its chain. */
  ghost predicate EntryOk(g: Geometry, nodes: map<nat, Node>, d: nat, j: nat, e: Entry) {
    && e.first in nodes && e.first != g.Root()
    && CName(e.name) != DOT && CName(e.name) != DOTDOT && |CName(e.name)| <= MAX_NAME
    && var n := nodes[e.first];
    && n.parent == d && n.slot == j
    && e.kind == (if n.isDir then KIND_DIR else KIND_FILE)
    && e.size <= (if n.isDir then 0 else Times(|n.chain|, g.B))
  }

  ghost predicate DirOk(g: Geometry, s: State, L: Layout, d: nat)
    requires d in L.nodes
  {
    var ss := DirOf(s, L, d);
    && 2 <= |ss| && DotOk(ss[0], DOT, d) && DotOk(ss[1], DOTDOT, L.nodes[d].parent)
    && forall j {:trigger EntryOk(g, L.nodes, d, j, ss[j])} ::
      2 <= j < |ss| && Live(ss[j]) ==> EntryOk(g, L.nodes, d, j, ss[j])
  }

  /** The object is held by the slot its node names. */
  ghost predicate ChildOk(s: State, L: Layout, id: nat)
    requires id in L.nodes
  {
    var n := L.nodes[id];
    && n.parent in L.nodes && L.nodes[n.parent].isDir
    && n.depth == L.nodes[n.parent].depth + 1
    && var ss := DirOf(s, L, n.parent);
    && 2 <= n.slot < |ss| && Live(ss[n.slot]) && ss[n.slot].first == id
  }

  ghost predicate TreeOk(g: Geometry, s: State, L: Layout) {
    && g.Root() in L.nodes
    && L.nodes[g.Root()].isDir && L.nodes[g.Root()].parent == g.Root()
    && L.nodes[g.Root()].depth == 0
    && (forall d {:trigger DirOk(g, s, L, d)} :: d in L.nodes && L.nodes[d].isDir ==> DirOk(g, s, L, d))
    && (forall id {:trigger ChildOk(s, L, id)} :: id in L.nodes && id != g.Root() ==> ChildOk(s, L, id))
  }

  /** The invariant of the filesystem. */
  ghost predicate Inv(g: Geometry, s: State, L: Layout) {
    StructOk(g, s, L) && TreeOk(g, s, L)
  }

  // ---- Writes that touch no directory ----

  lemma TreeFrame(g: Geometry, s: State, s': State, L: Layout, L': Layout)
    requires TreeOk(g, s, L) && L'.nodes == L.nodes
    requires forall d :: d in L.nodes && L.nodes[d].isDir ==> Agree(s.data, s'.data, L.nodes[d].chain)
    ensures TreeOk(g, s', L')
  {
    forall d | d in L.nodes && L.nodes[d].isDir
      ensures DirOf(s', L', d) == DirOf(s, L, d)
    {
      DirSlotsFrame(s.data, s'.data, L.nodes[d].chain);
    }
    forall d | d in L.nodes && L.nodes[d].isDir
      ensures DirOk(g, s', L', d)
    {
      assert DirOk(g, s, L, d);
    }
    forall id | id in L.nodes && id != g.Root()
      ensures ChildOk(s', L', id)
    {
      assert ChildOk(s, L, id);
    }
  }

  /** A data write outside every directory. */
  lemma DataKeepsInv(g: Geometry, s: State, L: Layout, c: nat, block: Block)
    requires Inv(g, s, L) && g.K < c < g.N && |block| == g.B
    requires L.owner[c] in L.nodes ==> !L.nodes[L.owner[c]].isDir
    ensures Inv(g, Apply(s, Data(c, block)), L)
  {
    DataKeepsStruct(g, s, L, c, block);
    forall d | d in L.nodes && L.nodes[d].isDir
      ensures Agree(s.data, s.data[c := block], L.nodes[d].chain)
    {
      NodeOf(g, s, L, d);
    }
    TreeFrame(g, s, Apply(s, Data(c, block)), L, L);
  }

  lemma TakeKeepsInv(g: Geometry, s: State, L: Layout, n: nat)
    requires Inv(g, s, L) && n <= |L.free|
    ensures Inv(g, Apply(s, Head(At(L.free, n))), Taken(L, n))
  {
    TakeKeepsStruct(g, s, L, n);
    TreeFrame(g, s, Apply(s, Head(At(L.free, n))), L, Taken(L, n));
  }

  lemma OrphanLinkKeepsInv(g: Geometry, s: State, L: Layout, c: nat, value: nat)
    requires Inv(g, s, L) && g.K < c < g.N && L.owner[c] == ORPHAN
    requires value == 0 || g.Root() < value < g.N
    ensures Inv(g, Apply(s, Fat(c, value)), L)
  {
    OrphanLinkKeepsStruct(g, s, L, c, value);
    TreeFrame(g, s, Apply(s, Fat(c, value)), L, L);
  }

  lemma ReturnKeepsInv(g: Geometry, s: State, L: Layout, o: seq<nat>)
    requires Inv(g, s, L) && o != []
    requires Owned(g, L, o, ORPHAN) && g.Root() !in o && IsChain(s.fat, o[0], o + L.free)
    ensures Inv(g, Apply(s, Head(o[0])), Returned(L, o))
  {
    ReturnKeepsStruct(g, s, L, o);
    TreeFrame(g, s, Apply(s, Head(o[0])), L, Returned(L, o));
  }

  // ---- Growing and shrinking a chain ----

  /** Attaching orphans to a file, or zeroed orphans to a directory. */
  lemma AttachKeepsInv(g: Geometry, s: State, L: Layout, id: nat, o: seq<nat>)
    requires Inv(g, s, L) && id in L.nodes && o != []
    requires IsChain(s.fat, o[0], o) && Owned(g, L, o, ORPHAN) && g.Root() !in o
    requires L.nodes[id].isDir ==>
      forall j :: 0 <= j < |DirSlots(s.data, o)| ==> !Live(DirSlots(s.data, o)[j])
    ensures var chain := L.nodes[id].chain;
      && chain != []
      && Inv(g, Apply(s, Fat(chain[|chain| - 1], o[0])), Attached(L, id, o))
  {
    AttachKeepsStruct(g, s, L, id, o);
    AttachKeepsTree(g, s, L, id, o);
    var chain := L.nodes[id].chain;
    TreeFrame(g, s, Apply(s, Fat(chain[|chain| - 1], o[0])), Attached(L, id, o), Attached(L, id, o));
  }

  lemma AttachKeepsTree(g: Geometry, s: State, L: Layout, id: nat, o: seq<nat>)
    requires TreeOk(g, s, L) && id in L.nodes
    requires L.nodes[id].isDir ==>
      forall j :: 0 <= j < |DirSlots(s.data, o)| ==> !Live(DirSlots(s.data, o)[j])
    ensures TreeOk(g, s, Attached(L, id, o))
  {
    var L' := Attached(L, id, o);
    forall d | d in L'.nodes && L'.nodes[d].isDir
      ensures DirOk(g, s, L', d)
    {
      assert DirOk(g, s, L, d);
      AttachKeepsDir(g, s, L, id, o, d);
    }
    forall x | x in L'.nodes && x != g.Root()
      ensures ChildOk(s, L', x)
    {
      assert ChildOk(s, L, x);
      AttachKeepsSlot(s, L, id, o, L.nodes[x].parent, L.nodes[x].slot);
    }
  }

  lemma AttachKeepsSlot(s: State, L: Layout, id: nat, o: seq<nat>, d: nat, j: nat)
    requires id in L.nodes && d in L.nodes && j < |DirOf(s, L, d)|
    ensures j < |DirOf(s, Attached(L, id, o), d)| && DirOf(s, Attached(L, id, o), d)[j] == DirOf(s, L, d)[j]
  {
    DirSlotsConcat(s.data, L.nodes[id].chain, o);
  }

  lemma AttachKeepsDir(g: Geometry, s: State, L: Layout, id: nat, o: seq<nat>, d: nat)
    requires id in L.nodes && d in L.nodes && L.nodes[d].isDir && DirOk(g, s, L, d)
    requires L.nodes[id].isDir ==>
      forall j :: 0 <= j < |DirSlots(s.data, o)| ==> !Live(DirSlots(s.data, o)[j])
    ensures DirOk(g, s, Attached(L, id, o), d)
  {
    var L' := Attached(L, id, o);
    TimesMono(|L.nodes[id].chain|, |L'.nodes[id].chain|, g.B);
    DirSlotsConcat(s.data, L.nodes[id].chain, o);
    var ss, ss' := DirOf(s, L, d), DirOf(s, L', d);
    forall j | 2 <= j < |ss'| && Live(ss'[j])
      ensures EntryOk(g, L'.nodes, d, j, ss'[j])
    {
      assert j < |ss|;
      EntryFitsLonger(g, L, id, o, d, j, ss[j]);
    }
  }

  lemma EntryFitsLonger(g: Geometry, L: Layout, id: nat, o: seq<nat>, d: nat, j: nat, e: Entry)
    requires id in L.nodes && EntryOk(g, L.nodes, d, j, e)
    requires Times(|L.nodes[id].chain|, g.B) <= Times(|L.nodes[id].chain + o|, g.B)
    ensures EntryOk(g, Attached(L, id, o).nodes, d, j, e)
  {
  }

  /** Cutting a file behind the cluster its size needs. */
  lemma DetachKeepsInv(g: Geometry, s: State, L: Layout, id: nat, k: nat)
    requires Inv(g, s, L) && id in L.nodes && !L.nodes[id].isDir && 0 < k <= |L.nodes[id].chain|
    requires L.nodes[id].parent in L.nodes && L.nodes[id].slot < |DirOf(s, L, L.nodes[id].parent)|
    requires DirOf(s, L, L.nodes[id].parent)[L.nodes[id].slot].size <= Times(k, g.B)
    ensures Inv(g, Apply(s, Fat(L.nodes[id].chain[k - 1], 0)), Detached(L, id, k))
  {
    DetachKeepsStruct(g, s, L, id, k);
    DetachKeepsTree(g, s, L, id, k);
    TreeFrame(g, s, Apply(s, Fat(L.nodes[id].chain[k - 1], 0)), Detached(L, id, k), Detached(L, id, k));
  }

  lemma DetachKeepsTree(g: Geometry, s: State, L: Layout, id: nat, k: nat)
    requires TreeOk(g, s, L) && id in L.nodes && !L.nodes[id].isDir && k <= |L.nodes[id].chain|
    requires L.nodes[id].parent in L.nodes && L.nodes[id].slot < |DirOf(s, L, L.nodes[id].parent)|
    requires DirOf(s, L, L.nodes[id].parent)[L.nodes[id].slot].size <= Times(k, g.B)
    ensures TreeOk(g, s, Detached(L, id, k))
  {
    var L' := Detached(L, id, k);
    forall d | d in L.nodes && L.nodes[d].isDir
      ensures DirOk(g, s, L', d)
    {
      assert DirOk(g, s, L, d);
      var ss := DirOf(s, L, d);
      forall j | 2 <= j < |ss| && Live(ss[j])
        ensures EntryOk(g, L'.nodes, d, j, ss[j])
      {
        assert EntryOk(g, L.nodes, d, j, ss[j]);
      }
    }
    forall x | x in L'.nodes && x != g.Root()
      ensures ChildOk(s, L', x)
    {
      assert ChildOk(s, L, x);
    }
  }

  // ---- Writing one slot ----

  /** A write into a chain leaves the other chains alone. */
  lemma OtherDirsKept(g: Geometry, s: State, L: Layout, d: nat, c: nat, block: Block)
    requires StructOk(g, s, L) && d in L.nodes && c in L.nodes[d].chain
    ensures forall x :: x in L.nodes && x != d ==> Agree(s.data, Apply(s, Data(c, block)).data, L.nodes[x].chain)
    ensures forall x :: x in L.nodes && x != d ==> DirOf(Apply(s, Data(c, block)), L, x) == DirOf(s, L, x)
  {
    NodeOf(g, s, L, d);
    forall x | x in L.nodes && x != d
      ensures Agree(s.data, Apply(s, Data(c, block)).data, L.nodes[x].chain)
      ensures DirOf(Apply(s, Data(c, block)), L, x) == DirOf(s, L, x)
    {
      NodeOf(g, s, L, x);
      DirSlotsFrame(s.data, Apply(s, Data(c, block)).data, L.nodes[x].chain);
    }
  }

  /** `w` puts `e` into slot `j` of directory `d` and changes no other slot of any directory. */
  ghost predicate SlotPut(g: Geometry, s: State, L: Layout, d: nat, j: nat, e: Entry, w: Write) {
    && d in L.nodes && L.nodes[d].isDir && 2 <= j
    && PutsSlot(s.data, L.nodes[d].chain, j, e, w)
    && |w.block| == g.B
  }

  lemma SlotPutEffect(g: Geometry, s: State, L: Layout, d: nat, j: nat, e: Entry, w: Write)
    requires StructOk(g, s, L) && SlotPut(g, s, L, d, j, e, w)
    ensures StructOk(g, Apply(s, w), L)
    ensures j < |DirOf(s, L, d)| && DirOf(Apply(s, w), L, d) == DirOf(s, L, d)[j := e]
    ensures forall x :: x in L.nodes && x != d ==> DirOf(Apply(s, w), L, x) == DirOf(s, L, x)
  {
    DataKeepsStruct(g, s, L, w.c, w.block);
    OtherDirsKept(g, s, L, d, w.c, w.block);
  }

  /** Rewriting the slot of a file with a new size that fits. */
  lemma ResizeKeepsInv(g: Geometry, s: State, L: Layout, d: nat, j: nat, e: Entry, w: Write)
    requires Inv(g, s, L) && SlotPut(g, s, L, d, j, e, w) && Live(e)
    requires Live(DirOf(s, L, d)[j]) && CName(e.name) == CName(DirOf(s, L, d)[j].name)
    requires e.first == DirOf(s, L, d)[j].first && e.kind == DirOf(s, L, d)[j].kind == KIND_FILE
    requires e.first in L.nodes && e.size <= Times(|L.nodes[e.first].chain|, g.B)
    ensures Inv(g, Apply(s, w), L)
  {
    SlotPutEffect(g, s, L, d, j, e, w);
    var s' := Apply(s, w);
    forall x | x in L.nodes && L.nodes[x].isDir
      ensures DirOk(g, s', L, x)
    {
      assert DirOk(g, s, L, x);
      if x == d {
        ResizeKeepsDir(g, s, s', L, d, j, e);
      }
    }
    forall x | x in L.nodes && x != g.Root()
      ensures ChildOk(s', L, x)
    {
      assert ChildOk(s, L, x);
    }
  }

  lemma ResizeKeepsDir(g: Geometry, s: State, s': State, L: Layout, d: nat, j: nat, e: Entry)
    requires d in L.nodes && DirOk(g, s, L, d) && 2 <= j < |DirOf(s, L, d)| && Live(DirOf(s, L, d)[j])
    requires DirOf(s', L, d) == DirOf(s, L, d)[j := e] && CName(e.name) == CName(DirOf(s, L, d)[j].name)
    requires e.first == DirOf(s, L, d)[j].first && e.kind == DirOf(s, L, d)[j].kind == KIND_FILE
    requires e.first in L.nodes && e.size <= Times(|L.nodes[e.first].chain|, g.B)
    ensures DirOk(g, s', L, d)
  {
    assert EntryOk(g, L.nodes, d, j, DirOf(s, L, d)[j]);
  }

  /** A new object must be blank, or hold exactly its two dot entries. */
  ghost predicate FreshObject(s: State, o: nat, isDir: bool, d: nat) {
    isDir ==>
      var ss := DirSlots(s.data, [o]);
      && 2 <= |ss| && DotOk(ss[0], DOT, o) && DotOk(ss[1], DOTDOT, d)
      && forall j :: 2 <= j < |ss| ==> !Live(ss[j])
  }

  /** The entry under which a new object is entered into its directory. */
  ghost predicate FreshEntry(e: Entry, o: nat, isDir: bool) {
    && e.first == o && e.size == 0 && e.kind == (if isDir then KIND_DIR else KIND_FILE)
    && Live(e) && CName(e.name) != DOT && CName(e.name) != DOTDOT && |CName(e.name)| <= MAX_NAME
  }

  lemma AdoptKeepsInv(g: Geometry, s: State, L: Layout, d: nat, j: nat, e: Entry, w: Write, isDir: bool)
    requires Inv(g, s, L) && SlotPut(g, s, L, d, j, e, w) && !Live(DirOf(s, L, d)[j])
    requires FreshEntry(e, e.first, isDir) && FreshObject(s, e.first, isDir, d)
    requires g.Root() < e.first < g.N && L.owner[e.first] == ORPHAN && s.fat[e.first] == 0
    ensures Inv(g, Apply(s, w), Adopted(L, e.first, isDir, d, j))
  {
    var o, s' := e.first, Apply(s, w);
    SlotPutEffect(g, s, L, d, j, e, w);
    AdoptKeepsStruct(g, s', L, o, isDir, d, j);
    NodesOwnThemselves(g, s, L);
    NodeOf(g, s, L, d);
    assert o !in L.nodes[d].chain;
    DirSlotsFrame(s.data, s'.data, [o]);
    AdoptKeepsTree(g, s, s', L, d, j, e, isDir);
  }

  lemma AdoptKeepsTree(g: Geometry, s: State, s': State, L: Layout, d: nat, j: nat, e: Entry, isDir: bool)
    requires TreeOk(g, s, L) && d in L.nodes && L.nodes[d].isDir
    requires e.first !in L.nodes && e.first != g.Root()
    requires FreshEntry(e, e.first, isDir) && FreshObject(s', e.first, isDir, d)
    requires 2 <= j < |DirOf(s, L, d)| && !Live(DirOf(s, L, d)[j])
    requires DirOf(s', L, d) == DirOf(s, L, d)[j := e]
    requires forall x :: x in L.nodes && x != d ==> DirOf(s', L, x) == DirOf(s, L, x)
    ensures TreeOk(g, s', Adopted(L, e.first, isDir, d, j))
  {
    var o, L' := e.first, Adopted(L, e.first, isDir, d, j);
    forall x | x in L.nodes
      ensures x in L'.nodes && L'.nodes[x] == L.nodes[x] && DirOf(s', L', x) == DirOf(s', L, x)
    {
    }
    forall x | x in L'.nodes && L'.nodes[x].isDir
      ensures DirOk(g, s', L', x)
    {
      if x != o {
        assert DirOk(g, s, L, x);
        AdoptKeepsDir(g, s, s', L, L', d, j, e, x);
      }
    }
    forall x | x in L'.nodes && x != g.Root()
      ensures ChildOk(s', L', x)
    {
      if x != o {
        assert ChildOk(s, L, x);
        AdoptKeepsChild(s, s', L, L', d, j, e, x);
      }
    }
  }

  lemma AdoptKeepsChild(s: State, s': State, L: Layout, L': Layout, d: nat, j: nat, e: Entry, x: nat)
    requires x in L.nodes && ChildOk(s, L, x) && d in L.nodes && j < |DirOf(s, L, d)| && !Live(DirOf(s, L, d)[j])
    requires DirOf(s', L, d) == DirOf(s, L, d)[j := e]
    requires forall y :: y in L.nodes && y != d ==> DirOf(s', L, y) == DirOf(s, L, y)
    requires forall y :: y in L.nodes ==> y in L'.nodes && L'.nodes[y] == L.nodes[y]
    ensures ChildOk(s', L', x)
  {
  }

  lemma AdoptKeepsDir(g: Geometry, s: State, s': State, L: Layout, L': Layout,
                      d: nat, j: nat, e: Entry, x: nat)
    requires x in L.nodes && x in L'.nodes && DirOk(g, s, L, x) && L'.nodes[x] == L.nodes[x]
    requires forall y :: y in L.nodes ==> y in L'.nodes && L'.nodes[y] == L.nodes[y]
    requires 2 <= j && (x == d ==> j < |DirOf(s, L, x)|)
    requires DirOf(s', L', x) == if x == d then DirOf(s, L, x)[j := e] else DirOf(s, L, x)
    requires EntryOk(g, L'.nodes, d, j, e)
    ensures DirOk(g, s', L', x)
  {
    var ss, ss' := DirOf(s, L, x), DirOf(s', L', x);
    forall k | 2 <= k < |ss'| && Live(ss'[k])
      ensures EntryOk(g, L'.nodes, x, k, ss'[k])
    {
      if x == d && k == j {
      } else {
        assert EntryOk(g, L.nodes, x, k, ss[k]);
      }
    }
  }

  /** No object is held by `id`. */
  ghost predicate Childless(g: Geometry, L: Layout, id: nat) {
    forall x :: x in L.nodes && x != g.Root() ==> L.nodes[x].parent != id
  }

  /** Emptying the slot of an object that holds no other: the object leaves the tree and its
      clusters become orphans. */
  lemma DropKeepsInv(g: Geometry, s: State, L: Layout, d: nat, j: nat, e: Entry, w: Write, id: nat)
    requires Inv(g, s, L) && SlotPut(g, s, L, d, j, e, w) && !Live(e)
    requires Live(DirOf(s, L, d)[j]) && DirOf(s, L, d)[j].first == id && Childless(g, L, id)
    ensures id in L.nodes && Inv(g, Apply(s, w), Dropped(L, id))
  {
    SlotPutEffect(g, s, L, d, j, e, w);
    assert DirOk(g, s, L, d);
    assert EntryOk(g, L.nodes, d, j, DirOf(s, L, d)[j]);
    var s', L' := Apply(s, w), Dropped(L, id);
    DropKeepsStruct(g, s', L, id);
    forall x | x in L'.nodes && L'.nodes[x].isDir
      ensures DirOk(g, s', L', x)
    {
      assert DirOk(g, s, L, x);
      DropKeepsDir(g, s, s', L, d, j, e, id, x);
    }
    forall x | x in L'.nodes && x != g.Root()
      ensures ChildOk(s', L', x)
    {
      assert ChildOk(s, L, x);
      DropKeepsChild(s, s', L, d, j, e, id, x);
    }
  }

  lemma DropKeepsChild(s: State, s': State, L: Layout, d: nat, j: nat, e: Entry, id: nat, x: nat)
    requires id in L.nodes && x in L.nodes && x != id && ChildOk(s, L, x) && L.nodes[x].parent != id
    requires d in L.nodes && j < |DirOf(s, L, d)| && DirOf(s, L, d)[j].first == id
    requires DirOf(s', L, d) == DirOf(s, L, d)[j := e]
    requires forall y :: y in L.nodes && y != d ==> DirOf(s', L, y) == DirOf(s, L, y)
    ensures ChildOk(s', Dropped(L, id), x)
  {
  }

  lemma DropKeepsDir(g: Geometry, s: State, s': State, L: Layout,
                     d: nat, j: nat, e: Entry, id: nat, x: nat)
    requires id in L.nodes && x in L.nodes && x != id && DirOk(g, s, L, x) && !Live(e)
    requires L.nodes[id].parent == d && L.nodes[id].slot == j
    requires 2 <= j && (x == d ==> j < |DirOf(s, L, x)|)
    requires DirOf(s', L, x) == if x == d then DirOf(s, L, x)[j := e] else DirOf(s, L, x)
    ensures DirOk(g, s', Dropped(L, id), x)
  {
    var ss, ss' := DirOf(s, L, x), DirOf(s', L, x);
    assert DirOf(s', Dropped(L, id), x) == ss';
    forall k | 2 <= k < |ss'| && Live(ss'[k])
      ensures EntryOk(g, Dropped(L, id).nodes, x, k, ss'[k])
    {
      assert EntryOk(g, L.nodes, x, k, ss[k]);
    }
  }
}
