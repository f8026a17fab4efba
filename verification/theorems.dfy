/** What holds in every state that a run from a fresh format can reach. */
module Theorems {
  import opened Bytes
  import opened Chains
  import opened States
  import opened Volumes
  import opened Entries
  import opened Layouts
  import opened Trees
  import opened Steps
  import opened Make
  import opened Update
  import opened Release
  import opened Paths
  import opened Machine

  // ---- A fresh format ----

  function FreshFree(g: Geometry): (free: seq<nat>)
    requires g.K + 3 <= g.N
    ensures |free| == g.N - g.K - 2
    ensures forall i :: 0 <= i < |free| ==> free[i] == g.K + 2 + i
  {
    seq(g.N - g.K - 2, i requires 0 <= i => g.K + 2 + i)
  }

  ghost function FreshData(g: Geometry, time: seq<byte>): (data: seq<Block>)
    requires g.Valid() && g.N < U32 && |time| == 8
    ensures |data| == g.N && data[g.Root()] == DotsBlock(g, g.Root(), g.Root(), time)
    ensures forall c :: g.K < c < g.N ==> |data[c]| == g.B
    ensures forall c :: g.Root() < c < g.N ==> data[c] == Zeros(g.B)
  {
    var root := DotsBlock(g, g.Root(), g.Root(), time);
    seq(g.N, c => if c <= g.K then [] else if c == g.Root() then root else Zeros(g.B))
  }

  /** The state that fat_init leaves on a new disk. */
  ghost function FreshState(g: Geometry, time: seq<byte>): State
    requires g.Valid() && g.N < U32 && |time| == 8
  {
    State(g.Root() + 1, FreshFat(g), FreshData(g, time))
  }

  function FreshLayout(g: Geometry): Layout
    requires g.K + 3 <= g.N
  {
    var r := g.Root();
    Layout(FreshFree(g), map[r := Node(true, [r], r, 0, 0)],
           seq(g.N, c requires 0 <= c < g.N => if c == r then r else FREE))
  }

  lemma FreshStructOk(g: Geometry, time: seq<byte>)
    requires g.Valid() && g.N < U32 && |time| == 8
    ensures StructOk(g, FreshState(g, time), FreshLayout(g))
  {
    var s, L := FreshState(g, time), FreshLayout(g);
    forall c | g.K < c < g.N
      ensures OwnerOk(L, c)
    {
      if c > g.Root() {
        assert L.free[c - g.K - 2] == c;
      }
    }
    FreshFreeOk(g, time);
    assert NodeOk(g, s, L, g.Root());
  }

  lemma FreshFreeOk(g: Geometry, time: seq<byte>)
    requires g.Valid() && g.N < U32 && |time| == 8
    ensures var s, L := FreshState(g, time), FreshLayout(g);
      |L.owner| == g.N && WfState(g, s) && FreeOk(g, s, L) && LinksOk(g, s)
  {
  }

  /** A fresh filesystem is consistent: nothing but the root and its two dot entries. */
  lemma FreshIsConsistent(g: Geometry, time: seq<byte>)
    requires g.Valid() && g.N < U32 && |time| == 8
    ensures Inv(g, FreshState(g, time), FreshLayout(g))
  {
    var s, L, r := FreshState(g, time), FreshLayout(g), g.Root();
    FreshStructOk(g, time);
    DotsAreFresh(g, r, r, time);
    assert DirSlots(s.data, [r]) == Slots(DotsBlock(g, r, r, time)) + DirSlots(s.data, []);
    assert DirOk(g, s, L, r);
  }

  // ---- Chains ----

  /** Chains are acyclic and end in 0, no two objects share a cluster, and the free list
      shares none with any object. */
  lemma ChainsAreSeparate(g: Geometry, s: State, L: Layout)
    requires Inv(g, s, L)
    ensures IsChain(s.fat, s.head, L.free) && Distinct(L.free)
    ensures forall id :: id in L.nodes ==>
      var C := L.nodes[id].chain;
      IsChain(s.fat, id, C) && C != [] && Distinct(C) && Disjoint(C, L.free)
    ensures forall x, y :: x in L.nodes && y in L.nodes && x != y ==>
      Disjoint(L.nodes[x].chain, L.nodes[y].chain)
    ensures forall c :: g.K < c < g.N ==> s.fat[c] == 0 || g.Root() < s.fat[c] < g.N
  {
    FreeOf(g, s, L);
    NodesOwnThemselves(g, s, L);
    ChainIsAcyclic(s.fat, s.head, L.free);
    forall id | id in L.nodes
      ensures var C := L.nodes[id].chain;
        IsChain(s.fat, id, C) && C != [] && Distinct(C) && Disjoint(C, L.free)
    {
      NodeOf(g, s, L, id);
      ChainIsAcyclic(s.fat, id, L.nodes[id].chain);
    }
    forall x, y | x in L.nodes && y in L.nodes && x != y
      ensures Disjoint(L.nodes[x].chain, L.nodes[y].chain)
    {
      NodeOf(g, s, L, x);
      NodeOf(g, s, L, y);
    }
  }

  // ---- Conservation ----

  /** The clusters that belong to `tag`. */
  ghost function ClustersOf(g: Geometry, L: Layout, tag: nat): set<nat>
    requires g.K + 1 <= g.N && |L.owner| == g.N
  {
    set c | c in Range(g.K + 1, g.N) && L.owner[c] == tag
  }

  ghost function Orphans(g: Geometry, L: Layout): set<nat>
    requires g.K + 1 <= g.N && |L.owner| == g.N
  {
    ClustersOf(g, L, ORPHAN)
  }

  ghost function Pick(m: map<nat, Node>): (k: nat)
    requires m != map[]
    ensures k in m
  {
    var k :| k in m;
    k
  }

  /** The clusters of all objects together, counted chain by chain. */
  ghost function TotalLength(m: map<nat, Node>): nat {
    if m == map[] then 0 else |m[Pick(m)].chain| + TotalLength(m - {Pick(m)})
  }

  lemma {:induction false} ObjectClusters(g: Geometry, s: State, L: Layout, m: map<nat, Node>)
    requires StructOk(g, s, L) && forall id :: id in m ==> id in L.nodes && m[id] == L.nodes[id]
    ensures |Inside(g, L, m)| == TotalLength(m)
    decreases |m|
  {
    if m == map[] {
      assert Inside(g, L, m) == {};
    } else {
      var k := Pick(m);
      ObjectClusters(g, s, L, m - {k});
      OwnedIsChain(g, s, L, k);
      InsideSplits(g, L, m, k);
    }
  }

  /** The clusters of the objects in `m`. */
  ghost function Inside(g: Geometry, L: Layout, m: map<nat, Node>): set<nat>
    requires g.K + 1 <= g.N && |L.owner| == g.N
  {
    set c | c in Range(g.K + 1, g.N) && L.owner[c] in m
  }

  lemma InsideSplits(g: Geometry, L: Layout, m: map<nat, Node>, k: nat)
    requires g.K + 1 <= g.N && |L.owner| == g.N && k in m
    ensures |Inside(g, L, m)| == |Inside(g, L, m - {k})| + |ClustersOf(g, L, k)|
  {
    var rest, own := Inside(g, L, m - {k}), ClustersOf(g, L, k);
    assert Inside(g, L, m) == rest + own;
    assert rest !! own;
  }

  lemma OwnedIsChain(g: Geometry, s: State, L: Layout, id: nat)
    requires StructOk(g, s, L) && id in L.nodes
    ensures |ClustersOf(g, L, id)| == |L.nodes[id].chain|
  {
    NodeOf(g, s, L, id);
    var C := L.nodes[id].chain;
    ChainIsAcyclic(s.fat, id, C);
    DistinctCount(C);
    assert Open(0);
    NodesOwnThemselves(g, s, L);
    forall c | c in ClustersOf(g, L, id)
      ensures c in C
    {
      assert OwnerOk(L, c);
    }
    assert ClustersOf(g, L, id) == Elements(C);
  }

  lemma OwnedIsFree(g: Geometry, s: State, L: Layout)
    requires StructOk(g, s, L)
    ensures |ClustersOf(g, L, FREE)| == |L.free|
  {
    FreeOf(g, s, L);
    ChainIsAcyclic(s.fat, s.head, L.free);
    DistinctCount(L.free);
    assert Open(0);
    forall c | c in ClustersOf(g, L, FREE)
      ensures c in L.free
    {
      assert OwnerOk(L, c);
    }
    assert ClustersOf(g, L, FREE) == Elements(L.free);
  }

  /** Free clusters, clusters of objects and orphans are all there are: together they make up
      the total that fat_statfs reports. */
  lemma ClustersAreConserved(g: Geometry, s: State, L: Layout)
    requires Inv(g, s, L)
    ensures |L.free| + TotalLength(L.nodes) + |Orphans(g, L)| == g.N - g.K - 1
  {
    ObjectClusters(g, s, L, L.nodes);
    OwnedIsFree(g, s, L);
    EveryClusterCounts(g, s, L);
    DisjointCount(ClustersOf(g, L, FREE), Inside(g, L, L.nodes), Orphans(g, L));
  }

  lemma DisjointCount(a: set<nat>, b: set<nat>, c: set<nat>)
    requires a !! b && (a + b) !! c
    ensures |a + b + c| == |a| + |b| + |c|
  {
  }

  lemma EveryClusterCounts(g: Geometry, s: State, L: Layout)
    requires StructOk(g, s, L)
    ensures var free, live, lost := ClustersOf(g, L, FREE), Inside(g, L, L.nodes), Orphans(g, L);
      free + live + lost == Range(g.K + 1, g.N) && free !! live && (free + live) !! lost
  {
    var free, live, lost := ClustersOf(g, L, FREE), Inside(g, L, L.nodes), Orphans(g, L);
    var all := Range(g.K + 1, g.N);
    OwnersOf(g, s, L);
    forall c | c in all
      ensures c in free + live + lost
    {
      assert OwnerOk(L, c);
    }
    assert free + live + lost <= all;
    NoNodeIsATag(g, s, L);
  }

  lemma NoNodeIsATag(g: Geometry, s: State, L: Layout)
    requires StructOk(g, s, L)
    ensures FREE !in L.nodes && ORPHAN !in L.nodes
  {
    NodesOwnThemselves(g, s, L);
  }

  // ---- Orphans ----

  /** Whether an operation is a mknod or mkdir that takes a cluster but fails to enter it into
      the parent: name too long, or parent full and no free cluster left. The operation
      reports success nevertheless. */
  ghost predicate LosesACluster(g: Geometry, s: State, L: Layout, op: Op)
    requires g.Valid() && Inv(g, s, L) && Admissible(g, s, L, op)
  {
    && (op.Mknod? || op.Mkdir?) && L.free != []
    && SLASH in op.path && ParentDir(g, s, L, op.path).Some?
    && var d := ParentDir(g, s, L, op.path).value;
    && d in L.nodes && !MakeOk(g, s, L, d, TargetOf(op.path))
  }

  ghost predicate SameOrphans(g: Geometry, L: Layout, L': Layout) {
    && |L.owner| == |L'.owner| == g.N
    && forall c :: g.K < c < g.N ==> (L'.owner[c] == ORPHAN <==> L.owner[c] == ORPHAN)
  }

  lemma GrowOrphans(g: Geometry, s: State, L: Layout, f: nat, need: nat)
    requires StructOk(g, s, L) && f in L.nodes
    ensures SameOrphans(g, L, GrowLayout(L, f, need))
  {
    FreeOf(g, s, L);
    NodesOwnThemselves(g, s, L);
  }

  lemma ShrinkOrphans(g: Geometry, s: State, L: Layout, f: nat, k: nat)
    requires StructOk(g, s, L) && f in L.nodes && k <= |L.nodes[f].chain|
    ensures SameOrphans(g, L, ShrinkLayout(L, f, k))
  {
    NodeOf(g, s, L, f);
    NodesOwnThemselves(g, s, L);
  }

  lemma RemoveOrphans(g: Geometry, s: State, L: Layout, f: nat)
    requires StructOk(g, s, L) && f in L.nodes
    ensures SameOrphans(g, L, RemoveLayout(L, f))
  {
    NodeOf(g, s, L, f);
    NodesOwnThemselves(g, s, L);
  }

  lemma UpdateOrphans(g: Geometry, s: State, L: Layout, d: nat, j: nat,
                      buf: seq<byte>, off: nat, time: seq<byte>)
    requires Inv(g, s, L) && ObjectSlot(s, L, d, j) && 0 < g.B
    requires buf != [] && End(off, buf) < U32 && |time| == 8
    ensures SameOrphans(g, L, PlanUpdate(g, s, L, d, j, buf, off, time).L)
  {
    ObjectSlotNode(g, s, L, d, j);
    GrowOrphans(g, s, L, DirOf(s, L, d)[j].first, SpotOf(g, off, |buf|).need);
  }

  lemma TruncateOrphans(g: Geometry, s: State, L: Layout, d: nat, j: nat, size: nat, time: seq<byte>)
    requires Inv(g, s, L) && ObjectSlot(s, L, d, j) && 0 < g.B && size < U32 && |time| == 8
    ensures SameOrphans(g, L, PlanTruncate(g, s, L, d, j, size, time).L)
  {
    ObjectSlotNode(g, s, L, d, j);
    var e := DirOf(s, L, d)[j];
    if size > e.size {
      ExtendOrphans(g, s, L, d, j, size, time);
    } else if size < e.size {
      ShrinkPlan(g, s, L, d, j, size, time);
      ShrinkOrphans(g, s, L, e.first, CutOf(g, size));
    }
  }

  lemma ExtendOrphans(g: Geometry, s: State, L: Layout, d: nat, j: nat, size: nat, time: seq<byte>)
    requires Inv(g, s, L) && ObjectSlot(s, L, d, j) && 0 < g.B && |time| == 8 && DirOf(s, L, d)[j].size < size < U32
    ensures SameOrphans(g, L, PlanTruncate(g, s, L, d, j, size, time).L)
  {
    ExtendPlan(g, s, L, d, j, size, time);
    UpdateOrphans(g, s, L, d, j, Fill(DirOf(s, L, d)[j].size, size), DirOf(s, L, d)[j].size, time);
  }

  lemma TargetOpOrphans(g: Geometry, s: State, L: Layout, op: Op, d: nat, name: Name)
    requires g.Valid() && Inv(g, s, L) && Sane(op) && !op.Mknod? && !op.Mkdir?
    requires d in L.nodes && L.nodes[d].isDir && TargetName(name)
    ensures SameOrphans(g, L, PlanTarget(g, s, L, op, d, name).L)
  {
    TargetIsObject(g, s, L, d, name);
    var j := FindIndex(DirOf(s, L, d), name);
    if j < |DirOf(s, L, d)| {
      if op.Write? {
        UpdateOrphans(g, s, L, d, j, op.buf, op.off, op.time);
      } else if op.Truncate? {
        TruncateOrphans(g, s, L, d, j, op.size, op.time);
      } else {
        ObjectSlotNode(g, s, L, d, j);
        RemoveOrphans(g, s, L, DirOf(s, L, d)[j].first);
      }
    }
  }

  lemma MakeOrphans(g: Geometry, s: State, L: Layout, d: nat, name: Name, isDir: bool)
    requires Inv(g, s, L) && L.free != [] && d in L.nodes
    ensures var L', o := MakeLayout(g, s, L, d, name, isDir), L.free[0];
      && |L'.owner| == g.N && g.K < o < g.N && L.owner[o] != ORPHAN
      && forall c :: g.K < c < g.N ==> (L'.owner[c] == ORPHAN <==>
           L.owner[c] == ORPHAN || (!MakeOk(g, s, L, d, name) && c == o))
  {
    var s1, L1, o := TakenState(g, s, L), Taken(L, 1), L.free[0];
    FreeOf(g, s, L);
    assert L.free[..1] == [o];
    TakenIsNewborn(g, s, L, d);
    if MakeOk(g, s, L, d, name) {
      NodeOf(g, s1, L1, d);
      GrowOrphans(g, s1, L1, d, |L1.nodes[d].chain| + 1);
    }
  }

  /** No operation but such a one makes an orphan, and such a one makes exactly one. (For an allocation short
      by one cluster, see ShortByOneExactly.) */
  lemma OrphansGrowExactly(g: Geometry, s: State, L: Layout, op: Op)
    requires g.Valid() && Inv(g, s, L) && Admissible(g, s, L, op) && !PlanOf(g, s, L, op).reply.Wild?
    ensures var plan := PlanOf(g, s, L, op);
      && |plan.L.owner| == g.N
      && |Orphans(g, plan.L)| == |Orphans(g, L)| + (if LosesACluster(g, s, L, op) then 1 else 0)
      && (LosesACluster(g, s, L, op) ==> plan.reply == Done(0))
  {
    if op.Mknod? || op.Mkdir? {
      MakeOpOrphans(g, s, L, op);
    } else {
      OtherOpOrphans(g, s, L, op);
    }
  }

  lemma OtherOpOrphans(g: Geometry, s: State, L: Layout, op: Op)
    requires g.Valid() && Inv(g, s, L) && Admissible(g, s, L, op) && !op.Mknod? && !op.Mkdir?
    requires !PlanOf(g, s, L, op).reply.Wild?
    ensures |PlanOf(g, s, L, op).L.owner| == g.N && Orphans(g, PlanOf(g, s, L, op).L) == Orphans(g, L)
  {
    ParentIsNormal(op.path);
    ParentIsInTree(g, s, L, op.path);
    var d := ParentDir(g, s, L, op.path);
    if d.Some? {
      TargetOpOrphans(g, s, L, op, d.value, TargetOf(op.path));
    }
  }

  lemma MakeOpOrphans(g: Geometry, s: State, L: Layout, op: Op)
    requires g.Valid() && Inv(g, s, L) && Admissible(g, s, L, op) && (op.Mknod? || op.Mkdir?)
    ensures var plan := PlanOf(g, s, L, op);
      && |plan.L.owner| == g.N
      && |Orphans(g, plan.L)| == |Orphans(g, L)| + (if LosesACluster(g, s, L, op) then 1 else 0)
      && (LosesACluster(g, s, L, op) ==> plan.reply == Done(0))
  {
    ParentIsNormal(op.path);
    ParentIsInTree(g, s, L, op.path);
    var d := ParentDir(g, s, L, op.path);
    if d.Some? && L.free != [] {
      MakeOrphanCount(g, s, L, d.value, TargetOf(op.path), op.Mkdir?);
    }
  }

  lemma MakeOrphanCount(g: Geometry, s: State, L: Layout, d: nat, name: Name, isDir: bool)
    requires Inv(g, s, L) && L.free != [] && d in L.nodes
    ensures var L' := MakeLayout(g, s, L, d, name, isDir);
      && |L'.owner| == g.N
      && |Orphans(g, L')| == |Orphans(g, L)| + (if MakeOk(g, s, L, d, name) then 0 else 1)
  {
    MakeOrphans(g, s, L, d, name, isDir);
    var L' := MakeLayout(g, s, L, d, name, isDir);
    if MakeOk(g, s, L, d, name) {
      assert Orphans(g, L') == Orphans(g, L);
    } else {
      assert Orphans(g, L') == Orphans(g, L) + {L.free[0]};
    }
  }

  /** How many operations of a run lose a cluster. */
  ghost function LostCount(g: Geometry, s: State, L: Layout, ops: seq<Op>): nat
    requires g.Valid() && Inv(g, s, L) && IsRun(g, s, L, ops)
    decreases |ops|
  {
    if ops == [] then 0
    else
      var plan := PlanOf(g, s, L, ops[0]);
      OperationKeepsInv(g, s, L, ops[0]);
      (if LosesACluster(g, s, L, ops[0]) then 1 else 0) + LostCount(g, ApplyAll(s, plan.ws), plan.L, ops[1..])
  }

  /** Over every run, the orphans are the clusters that its failed creations lost. */
  lemma {:induction false} OrphansOverRun(g: Geometry, s: State, L: Layout, ops: seq<Op>)
    requires g.Valid() && Inv(g, s, L) && IsRun(g, s, L, ops)
    ensures var L' := RunFrom(g, s, L, ops).1;
      |Orphans(g, L')| == |Orphans(g, L)| + LostCount(g, s, L, ops)
    decreases |ops|
  {
    if ops != [] {
      var plan := PlanOf(g, s, L, ops[0]);
      OperationKeepsInv(g, s, L, ops[0]);
      OrphansGrowExactly(g, s, L, ops[0]);
      OrphansOverRun(g, ApplyAll(s, plan.ws), plan.L, ops[1..]);
    }
  }

  lemma NoOrphansYet(g: Geometry)
    requires g.Valid()
    ensures |FreshLayout(g).owner| == g.N && Orphans(g, FreshLayout(g)) == {}
  {
  }

  // ---- An allocation short by one ----

  /** What the disk is worth after an allocation short by exactly one cluster: it lost nothing but free
      clusters exactly if the read for cluster 0 ended the program, or found 0 or a free cluster. The free
      clusters before the one found, all of them for 0, are then lost. */
  lemma ShortByOneExactly(g: Geometry, s: State, L: Layout, op: Op)
    requires g.Valid() && Inv(g, s, L) && Admissible(g, s, L, op) && PlanOf(g, s, L, op).reply.Wild?
    ensures op.Write? || op.Truncate?
    ensures var s' := ApplyAll(s, PlanOf(g, s, L, op).ws);
      && (Recoverable(g, s', L) <==> op.stray.None? || op.stray.value == 0 || op.stray.value in L.free)
      && (forall n :: 0 <= n <= |L.free| && op.stray == Some(At(L.free, n)) ==> Inv(g, s', Taken(L, n)))
  {
    WildWrites(g, s, L, op);
    if op.stray.None? {
      assert Survives(L, L);
    } else {
      ApplyOne(s, Head(op.stray.value));
      StrayHeadExactly(g, s, L, op.stray.value);
    }
  }

  lemma StrayHeadExactly(g: Geometry, s: State, L: Layout, w: nat)
    requires Inv(g, s, L)
    ensures Recoverable(g, Apply(s, Head(w)), L) <==> w == 0 || w in L.free
    ensures forall n :: 0 <= n <= |L.free| && w == At(L.free, n) ==> Inv(g, Apply(s, Head(w)), Taken(L, n))
  {
    var s' := Apply(s, Head(w));
    forall n | 0 <= n <= |L.free| && w == At(L.free, n)
      ensures Inv(g, s', Taken(L, n)) && Recoverable(g, s', L)
    {
      TakeKeepsInv(g, s, L, n);
      TakenSurvives(L, n);
    }
    assert At(L.free, |L.free|) == 0;
    if w in L.free {
      var n :| 0 <= n < |L.free| && L.free[n] == w;
      assert At(L.free, n) == w;
    }
    if Recoverable(g, s', L) && w != 0 {
      var L' :| Inv(g, s', L') && Survives(L, L');
      FreeOf(g, s', L');
      assert L'.free[0] == w;
    }
  }

  // ---- The tree ----

  /** One step down: the object in slot `j` of `d`. */
  ghost function Below(s: State, L: Layout, d: nat, j: nat): Option<nat> {
    if d in L.nodes && L.nodes[d].isDir && 2 <= j < |DirOf(s, L, d)| && Live(DirOf(s, L, d)[j])
    then Some(DirOf(s, L, d)[j].first) else None
  }

  /** Following a list of slots down from `d`. */
  ghost function Follow(s: State, L: Layout, d: nat, path: seq<nat>): Option<nat> {
    if path == [] then Some(d)
    else
      match Follow(s, L, d, path[..|path| - 1])
      case None => None
      case Some(x) => Below(s, L, x, path[|path| - 1])
  }

  /** The slots that lead from the root to an object, read off its chain of parents. */
  ghost function RouteTo(g: Geometry, s: State, L: Layout, id: nat): seq<nat>
    requires TreeOk(g, s, L) && id in L.nodes
    decreases L.nodes[id].depth
  {
    if id == g.Root() then []
    else
      assert ChildOk(s, L, id);
      RouteTo(g, s, L, L.nodes[id].parent) + [L.nodes[id].slot]
  }

  /** The live entries form a tree: every object is reached from the root by exactly one list
      of slots. */
  lemma {:induction false} RouteLeadsThere(g: Geometry, s: State, L: Layout, id: nat)
    requires Inv(g, s, L) && id in L.nodes
    ensures Follow(s, L, g.Root(), RouteTo(g, s, L, id)) == Some(id)
    decreases L.nodes[id].depth
  {
    if id != g.Root() {
      assert ChildOk(s, L, id);
      var up := RouteTo(g, s, L, L.nodes[id].parent);
      RouteLeadsThere(g, s, L, L.nodes[id].parent);
      assert (up + [L.nodes[id].slot])[..|up|] == up;
    }
  }

  lemma {:induction false} RouteIsUnique(g: Geometry, s: State, L: Layout, path: seq<nat>, id: nat)
    requires Inv(g, s, L) && Follow(s, L, g.Root(), path) == Some(id)
    ensures id in L.nodes && path == RouteTo(g, s, L, id)
    decreases |path|
  {
    if path != [] {
      var up, j := path[..|path| - 1], path[|path| - 1];
      var x := Follow(s, L, g.Root(), up).value;
      RouteIsUnique(g, s, L, up, x);
      assert DirOk(g, s, L, x) && EntryOk(g, L.nodes, x, j, DirOf(s, L, x)[j]);
      assert path == up + [j];
    }
  }

  /** Every subdirectory's ".." names the directory that holds it, its "." itself, and every
      live entry names an object, never a free cluster. */
  lemma DotsNameParents(g: Geometry, s: State, L: Layout, d: nat)
    requires Inv(g, s, L) && d in L.nodes && L.nodes[d].isDir
    ensures Lookup(DirOf(s, L, d), [46]).Some? && Lookup(DirOf(s, L, d), [46]).value.first == d
    ensures Lookup(DirOf(s, L, d), [46, 46]).Some?
         && Lookup(DirOf(s, L, d), [46, 46]).value.first == L.nodes[d].parent
    ensures d != g.Root() ==> exists j :: Below(s, L, L.nodes[d].parent, j) == Some(d)
    ensures forall j :: 2 <= j < |DirOf(s, L, d)| && Live(DirOf(s, L, d)[j]) ==>
      var c := DirOf(s, L, d)[j].first;
      c in L.nodes && c < |L.owner| && L.owner[c] == c && c !in L.free
  {
    assert DirOk(g, s, L, d);
    var ss := DirOf(s, L, d);
    FindIndexIs(ss, DOT, 0);
    FindIndexIs(ss, DOTDOT, 1);
    if d != g.Root() {
      assert ChildOk(s, L, d);
      assert Below(s, L, L.nodes[d].parent, L.nodes[d].slot) == Some(d);
    }
    NodesOwnThemselves(g, s, L);
    FreeOf(g, s, L);
    forall j | 2 <= j < |ss| && Live(ss[j])
      ensures ss[j].first in L.nodes && L.owner[ss[j].first] == ss[j].first && ss[j].first !in L.free
    {
      assert EntryOk(g, L.nodes, d, j, ss[j]);
    }
  }

  /** Every file fits its chain, which is never empty. */
  lemma FilesFit(g: Geometry, s: State, L: Layout, d: nat, j: nat)
    requires Inv(g, s, L) && Below(s, L, d, j).Some?
    requires DirOf(s, L, d)[j].kind == KIND_FILE
    ensures var e := DirOf(s, L, d)[j];
      && e.first in L.nodes && 1 <= |L.nodes[e.first].chain|
      && e.size <= Times(|L.nodes[e.first].chain|, g.B) == |Contents(s.data, L.nodes[e.first].chain)|
  {
    assert DirOk(g, s, L, d) && EntryOk(g, L.nodes, d, j, DirOf(s, L, d)[j]);
    var f := DirOf(s, L, d)[j].first;
    NodeOf(g, s, L, f);
    FlattenLength(Blocks(s.data, L.nodes[f].chain), g.B);
  }
}
