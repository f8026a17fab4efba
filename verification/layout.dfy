/** The invariant of the filesystem: which clusters belong to what, and the shape of the
    directory tree. Each lemma of this module is about one cluster write. */
module Layouts {
  import opened Bytes
  import opened Chains
  import opened States

  /** Owners that are not objects: the free list, and clusters nothing refers to. */
  const FREE: nat := 0
  const ORPHAN: nat := 1

  /** A live file or directory: its chain, the directory that holds it, the slot there and
      the distance from the root. An object is named by its first cluster. */
  datatype Node = Node(isDir: bool, chain: seq<nat>, parent: nat, slot: nat, depth: nat)

  datatype Layout = Layout(free: seq<nat>, nodes: map<nat, Node>, owner: seq<nat>)

  // ---- Who owns which cluster ----

  /** No FAT entry points at a metadata cluster or at the root. */
  ghost predicate LinksOk(g: Geometry, s: State)
    requires WfState(g, s)
  {
    forall c :: g.K < c < g.N ==> s.fat[c] == 0 || g.Root() < s.fat[c] < g.N
  }

  ghost predicate Owned(g: Geometry, L: Layout, cs: seq<nat>, tag: nat)
    requires |L.owner| == g.N
  {
    forall i :: 0 <= i < |cs| ==> g.K < cs[i] < g.N && L.owner[cs[i]] == tag
  }

  ghost predicate FreeOk(g: Geometry, s: State, L: Layout)
    requires |L.owner| == g.N
  {
    IsChain(s.fat, s.head, L.free) && Owned(g, L, L.free, FREE) && g.Root() !in L.free
  }

  ghost predicate NodeOk(g: Geometry, s: State, L: Layout, id: nat)
    requires |L.owner| == g.N && id in L.nodes
  {
    var chain := L.nodes[id].chain;
    && g.K < id && chain != [] && chain[0] == id
    && IsChain(s.fat, id, chain) && Owned(g, L, chain, id)
  }

  ghost predicate OwnerOk(L: Layout, c: nat)
    requires c < |L.owner|
  {
    var o := L.owner[c];
    if o == FREE then c in L.free
    else o == ORPHAN || (o in L.nodes && c in L.nodes[o].chain)
  }

  /** The clusters are shared out between the free list, the chains of the live objects and
      the orphans; free list and chains are as the FAT says. */
  ghost predicate Shared(g: Geometry, s: State, L: Layout)
    requires WfState(g, s) && |L.owner| == g.N
  {
    && LinksOk(g, s) && FreeOk(g, s, L)
    && (forall id {:trigger NodeOk(g, s, L, id)} :: id in L.nodes ==> NodeOk(g, s, L, id))
    && (forall c {:trigger OwnerOk(L, c)} :: g.K < c < g.N ==> OwnerOk(L, c))
  }

  /** `Shared` and the sizes. `Shared` is put behind `Open`, so that the verifier looks at
      it only in the proofs that ask for it. */
  ghost predicate StructOk(g: Geometry, s: State, L: Layout) {
    && 1 <= g.K && g.K + 1 < g.N && WfState(g, s) && |L.owner| == g.N
    && g.Root() in L.nodes
    && forall u {:trigger Open(u)} :: Open(u) ==> Shared(g, s, L)
  }

  lemma NodeOf(g: Geometry, s: State, L: Layout, id: nat)
    requires StructOk(g, s, L) && id in L.nodes
    ensures NodeOk(g, s, L, id)
  {
    assert Open(0);
  }

  lemma FreeOf(g: Geometry, s: State, L: Layout)
    requires StructOk(g, s, L)
    ensures FreeOk(g, s, L) && LinksOk(g, s)
  {
    assert Open(0);
  }

  lemma OwnersOf(g: Geometry, s: State, L: Layout)
    requires StructOk(g, s, L)
    ensures forall c :: g.K < c < g.N ==> OwnerOk(L, c)
  {
    assert Open(0);
  }

  /** `owner` with the clusters `cs` given to `tag`. */
  function Paint(owner: seq<nat>, cs: seq<nat>, tag: nat): (r: seq<nat>)
    ensures |r| == |owner|
    ensures forall c :: 0 <= c < |owner| ==> r[c] == if c in cs then tag else owner[c]
  {
    seq(|owner|, c requires 0 <= c < |owner| => if c in cs then tag else owner[c])
  }

  // ---- The layout after each kind of write ----

  function Taken(L: Layout, n: nat): Layout
    requires n <= |L.free|
  {
    L.(free := L.free[n..], owner := Paint(L.owner, L.free[..n], ORPHAN))
  }

  function Attached(L: Layout, id: nat, o: seq<nat>): Layout
    requires id in L.nodes
  {
    var n := L.nodes[id];
    L.(nodes := L.nodes[id := n.(chain := n.chain + o)], owner := Paint(L.owner, o, id))
  }

  function Detached(L: Layout, id: nat, k: nat): Layout
    requires id in L.nodes && k <= |L.nodes[id].chain|
  {
    var n := L.nodes[id];
    L.(nodes := L.nodes[id := n.(chain := n.chain[..k])],
       owner := Paint(L.owner, n.chain[k..], ORPHAN))
  }

  function Returned(L: Layout, o: seq<nat>): Layout {
    L.(free := o + L.free, owner := Paint(L.owner, o, FREE))
  }

  function Adopted(L: Layout, o: nat, isDir: bool, d: nat, j: nat): Layout
    requires d in L.nodes
  {
    L.(nodes := L.nodes[o := Node(isDir, [o], d, j, L.nodes[d].depth + 1)],
       owner := Paint(L.owner, [o], o))
  }

  function Dropped(L: Layout, id: nat): Layout
    requires id in L.nodes
  {
    L.(nodes := L.nodes - {id}, owner := Paint(L.owner, L.nodes[id].chain, ORPHAN))
  }

  // ---- Ownership is kept ----

  lemma NodesOwnThemselves(g: Geometry, s: State, L: Layout)
    requires StructOk(g, s, L)
    ensures forall id :: id in L.nodes ==> g.K < id < g.N && L.owner[id] == id
  {
    assert Open(0);
    forall id | id in L.nodes
      ensures g.K < id < g.N && L.owner[id] == id
    {
      assert NodeOk(g, s, L, id);
      assert id == L.nodes[id].chain[0];
    }
  }

  /** A FAT update inside one chain, with clusters passing between it and the orphans,
      leaves the free list and the other chains alone. */
  lemma OthersKept(g: Geometry, s: State, L: Layout, L': Layout, id: nat, c: nat, value: nat)
    requires StructOk(g, s, L) && id in L.nodes && g.K < c < g.N && L.owner[c] == id
    requires L'.free == L.free && |L'.owner| == g.N && L'.nodes.Keys == L.nodes.Keys
    requires forall x :: x in L.nodes && x != id ==> L'.nodes[x] == L.nodes[x]
    requires forall x :: g.K < x < g.N && L.owner[x] != ORPHAN && L.owner[x] != id ==>
      L'.owner[x] == L.owner[x]
    ensures FreeOk(g, Apply(s, Fat(c, value)), L')
    ensures forall x :: x in L'.nodes && x != id ==> NodeOk(g, Apply(s, Fat(c, value)), L', x)
  {
    assert Open(0);
    NodesOwnThemselves(g, s, L);
    ChainFrame(s.fat, s.head, L.free, c, value);
    forall x | x in L'.nodes && x != id
      ensures NodeOk(g, Apply(s, Fat(c, value)), L', x)
    {
      assert NodeOk(g, s, L, x);
      ChainFrame(s.fat, x, L.nodes[x].chain, c, value);
    }
  }

  lemma TakenOwner(L: Layout, n: nat, c: nat)
    requires n <= |L.free| && c < |L.owner| && OwnerOk(L, c)
    ensures OwnerOk(Taken(L, n), c)
  {
    var a, b := L.free[..n], L.free[n..];
    assert L.free == a + b;
    assert c in L.free <==> c in a || c in b;
  }

  lemma TakenFree(g: Geometry, s: State, L: Layout, n: nat)
    requires StructOk(g, s, L) && n <= |L.free|
    ensures FreeOk(g, Apply(s, Head(At(L.free, n))), Taken(L, n))
  {
    FreeOf(g, s, L);
    ChainIsAcyclic(s.fat, s.head, L.free);
    SuffixIsChain(s.fat, s.head, L.free, n);
  }

  lemma TakeKeepsStruct(g: Geometry, s: State, L: Layout, n: nat)
    requires StructOk(g, s, L) && n <= |L.free|
    ensures StructOk(g, Apply(s, Head(At(L.free, n))), Taken(L, n))
  {
    TakenFree(g, s, L, n);
    assert Open(0);
    var L' := Taken(L, n);
    forall id | id in L.nodes
      ensures NodeOk(g, s, L', id)
    {
      assert NodeOk(g, s, L, id);
    }
    forall c | g.K < c < g.N
      ensures OwnerOk(L', c)
    {
      assert OwnerOk(L, c);
      TakenOwner(L, n, c);
    }
  }

  lemma OrphanLinkKeepsStruct(g: Geometry, s: State, L: Layout, c: nat, value: nat)
    requires StructOk(g, s, L) && g.K < c < g.N && L.owner[c] == ORPHAN
    requires value == 0 || g.Root() < value < g.N
    ensures StructOk(g, Apply(s, Fat(c, value)), L)
  {
    assert Open(0);
    ChainFrame(s.fat, s.head, L.free, c, value);
    forall id | id in L.nodes
      ensures NodeOk(g, Apply(s, Fat(c, value)), L, id)
    {
      assert NodeOk(g, s, L, id);
      ChainFrame(s.fat, id, L.nodes[id].chain, c, value);
    }
  }

  lemma DataKeepsStruct(g: Geometry, s: State, L: Layout, c: nat, block: Block)
    requires StructOk(g, s, L) && |block| == g.B
    ensures StructOk(g, Apply(s, Data(c, block)), L)
  {
    assert Open(0);
    forall id | id in L.nodes
      ensures NodeOk(g, Apply(s, Data(c, block)), L, id)
    {
      assert NodeOk(g, s, L, id);
    }
  }

  lemma AttachOwners(g: Geometry, L: Layout, id: nat, o: seq<nat>)
    requires |L.owner| == g.N && id in L.nodes && id != FREE && Owned(g, L, o, ORPHAN)
    requires forall c :: g.K < c < g.N ==> OwnerOk(L, c)
    ensures forall c :: g.K < c < g.N ==> OwnerOk(Attached(L, id, o), c)
  {
    forall c | g.K < c < g.N
      ensures OwnerOk(Attached(L, id, o), c)
    {
      assert OwnerOk(L, c);
    }
  }

  lemma AttachNode(g: Geometry, s: State, L: Layout, id: nat, o: seq<nat>)
    requires |L.owner| == g.N && |s.fat| == g.N && id in L.nodes && id != ORPHAN
    requires NodeOk(g, s, L, id)
    requires o != [] && IsChain(s.fat, o[0], o) && Owned(g, L, o, ORPHAN)
    ensures var chain := L.nodes[id].chain;
      NodeOk(g, Apply(s, Fat(chain[|chain| - 1], o[0])), Attached(L, id, o), id)
  {
    ChainJoin(s.fat, L.nodes[id].chain, o[0], o);
  }

  /** Linking a chain of orphans to the end of a live chain. */
  lemma AttachKeepsStruct(g: Geometry, s: State, L: Layout, id: nat, o: seq<nat>)
    requires StructOk(g, s, L) && id in L.nodes && o != []
    requires IsChain(s.fat, o[0], o) && Owned(g, L, o, ORPHAN) && g.Root() !in o
    ensures var chain := L.nodes[id].chain;
      && chain != []
      && StructOk(g, Apply(s, Fat(chain[|chain| - 1], o[0])), Attached(L, id, o))
  {
    NodeOf(g, s, L, id);
    FreeOf(g, s, L);
    OwnersOf(g, s, L);
    var chain := L.nodes[id].chain;
    var last := chain[|chain| - 1];
    OthersKept(g, s, L, Attached(L, id, o), id, last, o[0]);
    AttachNode(g, s, L, id, o);
    AttachOwners(g, L, id, o);
    LinkKeepsLinks(g, s, last, o[0]);
    Assembled(g, Apply(s, Fat(last, o[0])), Attached(L, id, o));
  }

  lemma LinkKeepsLinks(g: Geometry, s: State, c: nat, value: nat)
    requires WfState(g, s) && LinksOk(g, s) && g.K < c < g.N && (value == 0 || g.Root() < value < g.N)
    ensures WfState(g, Apply(s, Fat(c, value))) && LinksOk(g, Apply(s, Fat(c, value)))
  {
  }

  /** Ownership from its parts. */
  lemma Assembled(g: Geometry, s: State, L: Layout)
    requires 1 <= g.K && g.K + 1 < g.N && WfState(g, s) && |L.owner| == g.N && g.Root() in L.nodes
    requires LinksOk(g, s) && FreeOk(g, s, L)
    requires forall id :: id in L.nodes ==> NodeOk(g, s, L, id)
    requires forall c :: g.K < c < g.N ==> OwnerOk(L, c)
    ensures StructOk(g, s, L)
  {
  }

  lemma DetachOwners(g: Geometry, L: Layout, id: nat, k: nat)
    requires |L.owner| == g.N && id in L.nodes && k <= |L.nodes[id].chain|
    requires forall c :: g.K < c < g.N ==> OwnerOk(L, c)
    ensures forall c :: g.K < c < g.N ==> OwnerOk(Detached(L, id, k), c)
  {
    var chain := L.nodes[id].chain;
    forall c | g.K < c < g.N
      ensures OwnerOk(Detached(L, id, k), c)
    {
      assert OwnerOk(L, c);
      assert chain == chain[..k] + chain[k..];
    }
  }

  lemma DetachNode(g: Geometry, s: State, L: Layout, id: nat, k: nat)
    requires |L.owner| == g.N && |s.fat| == g.N && id in L.nodes && NodeOk(g, s, L, id)
    requires 0 < k <= |L.nodes[id].chain|
    ensures NodeOk(g, Apply(s, Fat(L.nodes[id].chain[k - 1], 0)), Detached(L, id, k), id)
  {
    var chain := L.nodes[id].chain;
    ChainIsAcyclic(s.fat, id, chain);
    ChainCut(s.fat, id, chain, k);
  }

  /** Ending a live chain early. */
  lemma DetachKeepsStruct(g: Geometry, s: State, L: Layout, id: nat, k: nat)
    requires StructOk(g, s, L) && id in L.nodes && 0 < k <= |L.nodes[id].chain|
    ensures StructOk(g, Apply(s, Fat(L.nodes[id].chain[k - 1], 0)), Detached(L, id, k))
  {
    NodeOf(g, s, L, id);
    FreeOf(g, s, L);
    OwnersOf(g, s, L);
    var c := L.nodes[id].chain[k - 1];
    OthersKept(g, s, L, Detached(L, id, k), id, c, 0);
    DetachNode(g, s, L, id, k);
    DetachOwners(g, L, id, k);
    LinkKeepsLinks(g, s, c, 0);
    Assembled(g, Apply(s, Fat(c, 0)), Detached(L, id, k));
  }

  /** The clusters `o` lead, one to the next, to the head of the free list. */
  lemma ReturnKeepsStruct(g: Geometry, s: State, L: Layout, o: seq<nat>)
    requires StructOk(g, s, L) && o != []
    requires Owned(g, L, o, ORPHAN) && g.Root() !in o && IsChain(s.fat, o[0], o + L.free)
    ensures StructOk(g, Apply(s, Head(o[0])), Returned(L, o))
  {
    assert Open(0);
    var L' := Returned(L, o);
    forall id | id in L.nodes
      ensures NodeOk(g, s, L', id)
    {
      assert NodeOk(g, s, L, id);
    }
    forall c | g.K < c < g.N
      ensures OwnerOk(L', c)
    {
      assert OwnerOk(L, c);
    }
  }

  lemma AdoptKeepsNode(g: Geometry, s: State, L: Layout, o: nat, isDir: bool, d: nat, j: nat, id: nat)
    requires WfState(g, s) && d in L.nodes && |L.owner| == g.N && g.K < o < g.N && L.owner[o] == ORPHAN
    requires id in L.nodes && NodeOk(g, s, L, id) && id != o && id != ORPHAN
    ensures NodeOk(g, s, Adopted(L, o, isDir, d, j), id)
  {
  }

  lemma AdoptedOwner(L: Layout, o: nat, isDir: bool, d: nat, j: nat, c: nat)
    requires o < |L.owner| && L.owner[o] == ORPHAN && d in L.nodes && o !in L.nodes && o != FREE && o != ORPHAN
    requires c < |L.owner| && OwnerOk(L, c)
    ensures OwnerOk(Adopted(L, o, isDir, d, j), c)
  {
  }

  lemma AdoptKeepsFree(g: Geometry, s: State, L: Layout, o: nat, isDir: bool, d: nat, j: nat)
    requires StructOk(g, s, L) && d in L.nodes && g.K < o < g.N && L.owner[o] == ORPHAN
    ensures FreeOk(g, s, Adopted(L, o, isDir, d, j)) && LinksOk(g, s)
  {
    FreeOf(g, s, L);
  }

  lemma AdoptKeepsStruct(g: Geometry, s: State, L: Layout, o: nat, isDir: bool, d: nat, j: nat)
    requires StructOk(g, s, L) && d in L.nodes
    requires g.K < o < g.N && L.owner[o] == ORPHAN && s.fat[o] == 0
    ensures StructOk(g, s, Adopted(L, o, isDir, d, j))
  {
    var L' := Adopted(L, o, isDir, d, j);
    AdoptKeepsFree(g, s, L, o, isDir, d, j);
    NodesOwnThemselves(g, s, L);
    assert Open(0);
    forall id | id in L'.nodes
      ensures NodeOk(g, s, L', id)
    {
      if id != o {
        assert NodeOk(g, s, L, id);
        AdoptKeepsNode(g, s, L, o, isDir, d, j, id);
      }
    }
    forall c | g.K < c < g.N
      ensures OwnerOk(L', c)
    {
      assert OwnerOk(L, c);
      AdoptedOwner(L, o, isDir, d, j, c);
    }
  }

  lemma DropKeepsStruct(g: Geometry, s: State, L: Layout, id: nat)
    requires StructOk(g, s, L) && id in L.nodes && id != g.Root()
    ensures StructOk(g, s, Dropped(L, id))
  {
    assert Open(0);
    var L' := Dropped(L, id);
    assert NodeOk(g, s, L, id);
    forall x | x in L'.nodes
      ensures NodeOk(g, s, L', x)
    {
      assert NodeOk(g, s, L, x);
    }
    forall c | g.K < c < g.N
      ensures OwnerOk(L', c)
    {
      assert OwnerOk(L, c);
    }
  }
}
