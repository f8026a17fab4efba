/** Whole runs: the disk follows the flat filesystem, operation by operation. */
module Refinement {
  import opened Bytes
  import opened States
  import opened Entries
  import opened Layouts
  import opened Trees
  import opened Files
  import opened Update
  import opened Make
  import opened Release
  import opened Paths
  import opened Machine
  import opened FlatModel
  import opened Theorems

  // ---- Paths in the flat filesystem ----

  ghost function FlatWalk(A: Flat, d: nat, names: seq<Name>): Option<nat>
    decreases |names|
  {
    if !A.IsDir(d) then None
    else if names == [] then Some(d)
    else
      match Lookup(A.objs[d].slots, names[0])
      case None => None
      case Some(e) => if e.kind != KIND_DIR then None else FlatWalk(A, e.first, names[1..])
  }

  ghost function FlatFind(g: Geometry, A: Flat, path: Path): Option<Entry>
    requires SLASH in path
  {
    if !AfterSlash(path) then None
    else
      match FlatWalk(A, g.Root(), Components(ParentPath(path)))
      case None => None
      case Some(d) => if A.IsDir(d) then Lookup(A.objs[d].slots, TargetOf(path)) else None
  }

  ghost function FlatParent(g: Geometry, A: Flat, path: Path): Option<nat>
    requires SLASH in path
  {
    var parent := ParentPath(path);
    if !AfterSlash(parent) || SLASH !in parent then Some(g.Root())
    else
      match FlatFind(g, A, parent)
      case None => None
      case Some(e) => Some(e.first)
  }

  lemma {:induction false} WalkIsFlat(g: Geometry, s: State, L: Layout, d: nat, names: seq<Name>)
    requires Inv(g, s, L) && d in L.nodes && L.nodes[d].isDir
    requires forall i :: 0 <= i < |names| ==> names[i] != []
    ensures FlatWalk(FlatOf(s, L), d, names) == WalkDirs(s, L, d, names)
    decreases |names|
  {
    if names != [] {
      LookupStaysInTree(g, s, L, d, names[0]);
      var found := Lookup(DirOf(s, L, d), names[0]);
      if found.Some? && found.value.kind == KIND_DIR {
        WalkIsFlat(g, s, L, found.value.first, names[1..]);
      }
    }
  }

  lemma ParentIsFlat(g: Geometry, s: State, L: Layout, path: Path)
    requires Inv(g, s, L) && NormalPath(path)
    ensures SLASH in path && FlatParent(g, FlatOf(s, L), path) == ParentDir(g, s, L, path)
  {
    ParentIsNormal(path);
    var parent := ParentPath(path);
    if parent != [] {
      ParentIsNormal(parent);
      var names := Components(ParentPath(parent));
      WalkIsFlat(g, s, L, g.Root(), names);
      WalkStaysInTree(g, s, L, g.Root(), names);
    }
  }

  /** Path lookup on the disk is path lookup in the flat filesystem. */
  lemma FindIsFlat(g: Geometry, s: State, L: Layout, path: Path)
    requires Inv(g, s, L) && NormalPath(path)
    ensures SLASH in path && FlatFind(g, FlatOf(s, L), path) == FindPath(g, s, L, path)
  {
    ParentIsNormal(path);
    var names := Components(ParentPath(path));
    WalkIsFlat(g, s, L, g.Root(), names);
    WalkStaysInTree(g, s, L, g.Root(), names);
  }

  // ---- One operation ----

  /** An operation on an existing target, once the parent is known. */
  ghost function FlatTarget(g: Geometry, A: Flat, op: Op, d: nat, name: Name): (Flat, Reply)
    requires g.Valid() && Sane(op) && !op.Mknod? && !op.Mkdir? && A.IsDir(d)
  {
    var j := FindIndex(A.objs[d].slots, name);
    if j == |A.objs[d].slots| then (A, Aborted)
    else if op.Write? then FlatUpdate(g, A, d, j, op.buf, op.off, op.time)
    else if op.Truncate? then FlatTruncate(g, A, d, j, op.size, op.time)
    else FlatRemove(A, d, j, op.Rmdir?)
  }

  /** What `op` does to the flat filesystem; `o` names the object it may create. */
  ghost function FlatStep(g: Geometry, A: Flat, op: Op, o: nat): (Flat, Reply)
    requires g.Valid() && Sane(op) && SLASH in op.path && o < U32
  {
    var parent, name := FlatParent(g, A, op.path), TargetOf(op.path);
    if (op.Mknod? || op.Mkdir?) && A.free == 0 then (A, NoMemory)
    else if parent.None? || !A.IsDir(parent.value) || parent.value >= U32 then (A, Aborted)
    else
      var d := parent.value;
      if op.Mknod? || op.Mkdir? then FlatMake(g, A, d, name, op.Mkdir?, op.time, o)
      else FlatTarget(g, A, op, d, name)
  }

  /** The object a creation would make: the head of the free list. */
  function NewId(L: Layout): nat {
    if L.free == [] then 0 else L.free[0]
  }

  /** The directory and slot of the target of `op`. */
  ghost function TargetSlot(g: Geometry, A: Flat, op: Op): (r: Option<(nat, nat)>)
    requires SLASH in op.path
    ensures r.Some? ==> A.HasSlot(r.value.0, r.value.1)
  {
    match FlatParent(g, A, op.path)
    case None => None
    case Some(d) =>
      if A.IsDir(d) && d < U32 && FindIndex(A.objs[d].slots, TargetOf(op.path)) < |A.objs[d].slots|
      then Some((d, FindIndex(A.objs[d].slots, TargetOf(op.path)))) else None
  }

  /** The two cases in which the program does not give the reply of the flat filesystem. */
  ghost predicate Misreports(g: Geometry, A: Flat, op: Op)
    requires g.Valid() && SLASH in op.path
  {
    match TargetSlot(g, A, op)
    case None => false
    case Some((d, j)) =>
      (op.Truncate? && FalseSuccess(g, A, d, j, op.size)) || (op.Rmdir? && LooksFull(g, A, d, j))
  }

  /** What the program answers. */
  ghost function Answer(g: Geometry, A: Flat, op: Op, o: nat): Reply
    requires g.Valid() && Sane(op) && SLASH in op.path && o < U32
  {
    if Misreports(g, A, op) then if op.Truncate? then Done(0) else NotEmpty
    else FlatStep(g, A, op, o).1
  }

  /** Its answer differs from that of the flat filesystem exactly in these cases. */
  lemma AnswerDiffersExactly(g: Geometry, A: Flat, op: Op, o: nat)
    requires g.Valid() && Sane(op) && SLASH in op.path && o < U32
    ensures Answer(g, A, op, o) != FlatStep(g, A, op, o).1 <==> Misreports(g, A, op)
    ensures Misreports(g, A, op) ==> FlatStep(g, A, op, o) == (A, if op.Truncate? then Failed else NotDirectory)
  {
  }

  lemma NewIdIsNew(g: Geometry, s: State, L: Layout)
    requires g.Valid() && Inv(g, s, L)
    ensures NewId(L) !in L.nodes && NewId(L) < U32
  {
    FreeOf(g, s, L);
    NodesOwnThemselves(g, s, L);
    TimesTwice(g.N, g.B);
  }

  lemma NodeIsWord(g: Geometry, s: State, L: Layout, id: nat)
    requires g.Valid() && StructOk(g, s, L) && id in L.nodes
    ensures id < U32
  {
    TimesTwice(g.N, g.B);
    NodesOwnThemselves(g, s, L);
  }

  lemma MakeOpIsFlat(g: Geometry, s: State, L: Layout, op: Op)
    requires g.Valid() && Inv(g, s, L) && Admissible(g, s, L, op) && (op.Mknod? || op.Mkdir?)
    requires SLASH in op.path && NewId(L) < U32
    ensures var plan := PlanOf(g, s, L, op);
      FlatStep(g, FlatOf(s, L), op, NewId(L)) == (FlatOf(ApplyAll(s, plan.ws), plan.L), plan.reply)
  {
    var parent := ParentFound(g, s, L, op);
    if L.free != [] && parent.Some? {
      MakeInIsFlat(g, s, L, op, parent.value);
      StepIsMake(g, FlatOf(s, L), op, NewId(L), parent.value);
    } else {
      StepIsNothing(g, FlatOf(s, L), op, NewId(L));
    }
  }

  /** The parent that the disk finds is the one that the flat filesystem finds. */
  lemma ParentFound(g: Geometry, s: State, L: Layout, op: Op) returns (parent: Option<nat>)
    requires g.Valid() && Inv(g, s, L) && Admissible(g, s, L, op)
    ensures SLASH in op.path && TargetName(TargetOf(op.path))
    ensures parent == ParentDir(g, s, L, op.path) == FlatParent(g, FlatOf(s, L), op.path)
    ensures parent.Some? ==> parent.value in L.nodes && L.nodes[parent.value].isDir && parent.value < U32
    ensures parent.Some? ==> FlatOf(s, L).IsDir(parent.value)
  {
    ParentIsNormal(op.path);
    ParentIsFlat(g, s, L, op.path);
    ParentIsInTree(g, s, L, op.path);
    parent := ParentDir(g, s, L, op.path);
    if parent.Some? {
      NodeIsWord(g, s, L, parent.value);
    }
  }

  lemma StepIsMake(g: Geometry, A: Flat, op: Op, o: nat, d: nat)
    requires g.Valid() && Sane(op) && SLASH in op.path && o < U32 && (op.Mknod? || op.Mkdir?) && A.free != 0
    requires FlatParent(g, A, op.path) == Some(d) && A.IsDir(d) && d < U32
    ensures FlatStep(g, A, op, o) == FlatMake(g, A, d, TargetOf(op.path), op.Mkdir?, op.time, o)
  {
  }

  lemma StepIsNothing(g: Geometry, A: Flat, op: Op, o: nat)
    requires g.Valid() && Sane(op) && SLASH in op.path && o < U32 && (op.Mknod? || op.Mkdir?)
    requires A.free == 0 || FlatParent(g, A, op.path).None?
    ensures FlatStep(g, A, op, o) == (A, if A.free == 0 then NoMemory else Aborted)
  {
  }

  lemma MakeInIsFlat(g: Geometry, s: State, L: Layout, op: Op, d: nat)
    requires g.Valid() && Inv(g, s, L) && Admissible(g, s, L, op) && (op.Mknod? || op.Mkdir?)
    requires SLASH in op.path && L.free != [] && L.free[0] < U32 && d < U32 && d in L.nodes && L.nodes[d].isDir
    requires ParentDir(g, s, L, op.path) == Some(d)
    ensures var plan, A := PlanOf(g, s, L, op), FlatOf(s, L);
      && A.IsDir(d)
      && FlatMake(g, A, d, TargetOf(op.path), op.Mkdir?, op.time, L.free[0]) == (FlatOf(ApplyAll(s, plan.ws),
          plan.L), plan.reply)
  {
    ParentIsNormal(op.path);
    MakeIsPossible(g, s, L, d, TargetOf(op.path), op.time);
    MakeIsFlat(g, s, L, d, TargetOf(op.path), op.Mkdir?, op.time);
  }

  /** What the program answers about slot `j` of `d` when the flat filesystem answers `reply`. */
  ghost function SlotAnswer(g: Geometry, A: Flat, op: Op, d: nat, j: nat, reply: Reply): Reply
    requires g.Valid()
  {
    if !A.HasSlot(d, j) then reply
    else if op.Truncate? && FalseSuccess(g, A, d, j, op.size) then Done(0)
    else if op.Rmdir? && LooksFull(g, A, d, j) then NotEmpty
    else reply
  }

  lemma TargetIsFlat(g: Geometry, s: State, L: Layout, op: Op, d: nat, name: Name)
    requires g.Valid() && Inv(g, s, L) && Sane(op) && !op.Mknod? && !op.Mkdir?
    requires d in L.nodes && L.nodes[d].isDir && TargetName(name)
    ensures var plan, A := PlanTarget(g, s, L, op, d, name), FlatOf(s, L);
      && A.IsDir(d)
      && var (A', reply) := FlatTarget(g, A, op, d, name);
      && plan.reply == SlotAnswer(g, A, op, d, FindIndex(A.objs[d].slots, name), reply)
      && (!plan.reply.Wild? ==> A' == FlatOf(ApplyAll(s, plan.ws), plan.L))
  {
    TargetIsObject(g, s, L, d, name);
    var j := FindIndex(DirOf(s, L, d), name);
    if j < |DirOf(s, L, d)| {
      if op.Write? {
        UpdateIsFlat(g, s, L, d, j, op.buf, op.off, op.time);
      } else if op.Truncate? {
        TruncateIsFlat(g, s, L, d, j, op.size, op.time);
      } else {
        RemoveIsFlat(g, s, L, d, j, op.Rmdir?);
      }
    }
  }

  /** With the parent known, step and answer are those of the target. */
  lemma StepIsTarget(g: Geometry, A: Flat, op: Op, o: nat, d: nat)
    requires g.Valid() && Sane(op) && SLASH in op.path && o < U32 && !op.Mknod? && !op.Mkdir?
    requires FlatParent(g, A, op.path) == Some(d) && A.IsDir(d) && d < U32
    ensures var (A', reply) := FlatTarget(g, A, op, d, TargetOf(op.path));
      && FlatStep(g, A, op, o) == (A', reply)
      && Answer(g, A, op, o) == SlotAnswer(g, A, op, d, FindIndex(A.objs[d].slots, TargetOf(op.path)), reply)
  {
  }

  lemma TargetOpIsFlat(g: Geometry, s: State, L: Layout, op: Op, o: nat)
    requires g.Valid() && Inv(g, s, L) && Admissible(g, s, L, op) && !op.Mknod? && !op.Mkdir?
    requires SLASH in op.path && o < U32
    ensures var plan, A := PlanOf(g, s, L, op), FlatOf(s, L);
      && plan.reply == Answer(g, A, op, o)
      && (!plan.reply.Wild? ==> FlatStep(g, A, op, o).0 == FlatOf(ApplyAll(s, plan.ws), plan.L))
  {
    var parent := ParentFound(g, s, L, op);
    if parent.Some? {
      TargetIsFlat(g, s, L, op, parent.value, TargetOf(op.path));
      StepIsTarget(g, FlatOf(s, L), op, o, parent.value);
    }
  }

  /** The disk simulates the flat filesystem: the reply is the one foretold by Answer and, unless an allocation
      is short by exactly one cluster, the effect is the same. */
  lemma OperationIsFlat(g: Geometry, s: State, L: Layout, op: Op)
    requires g.Valid() && Inv(g, s, L) && Admissible(g, s, L, op)
    ensures SLASH in op.path && NewId(L) !in FlatOf(s, L).objs && NewId(L) < U32
    ensures var plan, A := PlanOf(g, s, L, op), FlatOf(s, L);
      && plan.reply == Answer(g, A, op, NewId(L))
      && (!plan.reply.Wild? ==> FlatStep(g, A, op, NewId(L)).0 == FlatOf(ApplyAll(s, plan.ws), plan.L))
  {
    ParentIsNormal(op.path);
    NewIdIsNew(g, s, L);
    if op.Mknod? || op.Mkdir? {
      MakeOpIsFlat(g, s, L, op);
    } else {
      TargetOpIsFlat(g, s, L, op, NewId(L));
    }
  }

  /** When fat_truncate answers success, the file has the size asked for exactly unless the success is false:
      an extension by 2^32 - 12 bytes for which more than one cluster is missing. Then nothing has changed. */
  lemma TruncateIsTrueExactly(g: Geometry, s: State, L: Layout, op: Op)
    requires g.Valid() && Inv(g, s, L) && Admissible(g, s, L, op)
    requires op.Truncate? && PlanOf(g, s, L, op).reply == Done(0)
    ensures SLASH in op.path && TargetSlot(g, FlatOf(s, L), op).Some?
    ensures var plan, A := PlanOf(g, s, L, op), FlatOf(s, L);
      var (d, j), A' := TargetSlot(g, A, op).value, FlatOf(ApplyAll(s, plan.ws), plan.L);
      && A'.HasSlot(d, j)
      && (A'.objs[d].slots[j].size == op.size <==> !FalseSuccess(g, A, d, j, op.size))
      && (FalseSuccess(g, A, d, j, op.size) ==> A' == A)
  {
    OperationIsFlat(g, s, L, op);
    var A := FlatOf(s, L);
    AnswerDiffersExactly(g, A, op, NewId(L));
    var (d, j) := TargetSlot(g, A, op).value;
    assert A.IsFile(A.objs[d].slots[j].first) ==> A.objs[d].slots[j].first != d;
    TruncatedSize(g, A, d, j, op.size, op.time);
  }

  // ---- Whole runs ----

  /** Arguments of a run of the flat filesystem: `ids` are the names of the objects created on the way. */
  ghost predicate RunArgs(ops: seq<Op>, ids: seq<nat>) {
    |ids| == |ops| && forall i :: 0 <= i < |ops| ==> Sane(ops[i]) && SLASH in ops[i].path && ids[i] < U32
  }

  /** A run of the flat filesystem: where it ends, and what the program answers on the way. */
  ghost function FlatRun(g: Geometry, A: Flat, ops: seq<Op>, ids: seq<nat>): (r: (Flat, seq<Reply>))
    requires g.Valid() && RunArgs(ops, ids)
    ensures |r.1| == |ops|
    decreases |ops|
  {
    if ops == [] then (A, [])
    else
      var (A2, replies) := FlatRun(g, FlatStep(g, A, ops[0], ids[0]).0, ops[1..], ids[1..]);
      (A2, [Answer(g, A, ops[0], ids[0])] + replies)
  }

  /** Every object is created under a name that was not in use. */
  ghost predicate NewIds(g: Geometry, A: Flat, ops: seq<Op>, ids: seq<nat>)
    requires g.Valid() && RunArgs(ops, ids)
    decreases |ops|
  {
    ops == [] || (ids[0] !in A.objs && NewIds(g, FlatStep(g, A, ops[0], ids[0]).0, ops[1..], ids[1..]))
  }

  /** Every run of the disk is a run of the flat filesystem: same end, same replies. */
  lemma {:induction false} RunIsFlat(g: Geometry, s: State, L: Layout, ops: seq<Op>) returns (ids: seq<nat>)
    requires g.Valid() && Inv(g, s, L) && IsRun(g, s, L, ops)
    ensures RunArgs(ops, ids) && NewIds(g, FlatOf(s, L), ops, ids)
    ensures var (s', L') := RunFrom(g, s, L, ops);
      var (A', replies) := FlatRun(g, FlatOf(s, L), ops, ids);
      FlatOf(s', L') == A' && RunReplies(g, s, L, ops) == replies
    decreases |ops|
  {
    if ops == [] {
      ids := [];
    } else {
      var plan := PlanOf(g, s, L, ops[0]);
      OperationKeepsInv(g, s, L, ops[0]);
      OperationIsFlat(g, s, L, ops[0]);
      var rest := RunIsFlat(g, ApplyAll(s, plan.ws), plan.L, ops[1..]);
      ids := [NewId(L)] + rest;
      assert ids[1..] == rest;
      ArgsCons(ops, NewId(L), rest);
    }
  }

  lemma ArgsCons(ops: seq<Op>, id: nat, rest: seq<nat>)
    requires ops != [] && Sane(ops[0]) && SLASH in ops[0].path && id < U32 && RunArgs(ops[1..], rest)
    ensures RunArgs(ops, [id] + rest)
  {
    forall i | 0 <= i < |ops|
      ensures Sane(ops[i]) && SLASH in ops[i].path && ([id] + rest)[i] < U32
    {
      if i > 0 {
        assert ops[i] == ops[1..][i - 1];
      }
    }
  }

  /** A run from a fresh format. */
  ghost predicate FreshRun(g: Geometry, time: seq<byte>, ops: seq<Op>)
    requires g.Valid() && g.N < U32 && |time| == 8
  {
    FreshIsConsistent(g, time);
    IsRun(g, FreshState(g, time), FreshLayout(g), ops)
  }

  ghost function FreshRunEnd(g: Geometry, time: seq<byte>, ops: seq<Op>): (r: (State, Layout))
    requires g.Valid() && g.N < U32 && |time| == 8 && FreshRun(g, time, ops)
    ensures Inv(g, r.0, r.1)
  {
    FreshIsConsistent(g, time);
    RunFrom(g, FreshState(g, time), FreshLayout(g), ops)
  }

  lemma FreshLeads(g: Geometry, time: seq<byte>, ops: seq<Op>, s: State, L: Layout)
    requires g.Valid() && g.N < U32 && |time| == 8 && Leads(g, FreshState(g, time), FreshLayout(g), ops, s, L)
    ensures FreshRun(g, time, ops) && FreshRunEnd(g, time, ops) == (s, L)
  {
  }

  /** The flat filesystem of a fresh format: an empty root. */
  ghost function FreshFlat(g: Geometry, time: seq<byte>): Flat
    requires g.Valid() && g.N < U32 && |time| == 8
  {
    FlatOf(FreshState(g, time), FreshLayout(g))
  }

  /** What the operations of a run from a fresh format return. */
  ghost function FreshReplies(g: Geometry, time: seq<byte>, ops: seq<Op>): seq<Reply>
    requires g.Valid() && g.N < U32 && |time| == 8 && FreshRun(g, time, ops)
  {
    FreshIsConsistent(g, time);
    RunReplies(g, FreshState(g, time), FreshLayout(g), ops)
  }

  /** How many of them lose a cluster. */
  ghost function FreshLosses(g: Geometry, time: seq<byte>, ops: seq<Op>): nat
    requires g.Valid() && g.N < U32 && |time| == 8 && FreshRun(g, time, ops)
  {
    FreshIsConsistent(g, time);
    LostCount(g, FreshState(g, time), FreshLayout(g), ops)
  }

  /** From a fresh format, every run stays consistent, conserves the clusters, loses one for every creation
      that could not be entered and follows the flat filesystem that starts with an empty root. */
  lemma EveryRunIsSafe(g: Geometry, time: seq<byte>, ops: seq<Op>) returns (ids: seq<nat>)
    requires g.Valid() && g.N < U32 && |time| == 8 && FreshRun(g, time, ops)
    ensures RunArgs(ops, ids) && NewIds(g, FreshFlat(g, time), ops, ids)
    ensures var (s, L) := FreshRunEnd(g, time, ops);
      && Inv(g, s, L)
      && FlatOf(s, L) == FlatRun(g, FreshFlat(g, time), ops, ids).0
      && |L.free| + TotalLength(L.nodes) + |Orphans(g, L)| == g.N - g.K - 1
      && |Orphans(g, L)| == FreshLosses(g, time, ops)
  {
    FreshIsConsistent(g, time);
    ids := RunIsFlat(g, FreshState(g, time), FreshLayout(g), ops);
    var (s, L) := FreshRunEnd(g, time, ops);
    ClustersAreConserved(g, s, L);
    NoOrphansYet(g);
    OrphansOverRun(g, FreshState(g, time), FreshLayout(g), ops);
  }

  // ---- What a reader of the file sees ----

  /** The bytes of the file in slot `j` of `d`, up to its size. */
  ghost function Visible(A: Flat, d: nat, j: nat): seq<byte>
    requires A.HasSlot(d, j) && A.IsFile(A.objs[d].slots[j].first)
  {
    var e := A.objs[d].slots[j];
    Prefix(A.objs[e.first].bytes, e.size)
  }

  /** What the invariant says about that slot. */
  ghost predicate FileHere(g: Geometry, A: Flat, d: nat, j: nat) {
    && A.HasSlot(d, j)
    && var e := A.objs[d].slots[j];
    && e.first != d && A.IsFile(e.first)
    && var f := A.objs[e.first];
    && |f.bytes| == Times(f.n, g.B) && e.size <= |f.bytes|
  }

  lemma FilesAreHere(g: Geometry, s: State, L: Layout, d: nat, j: nat)
    requires Inv(g, s, L) && FileSlot(s, L, d, j)
    ensures FileHere(g, FlatOf(s, L), d, j)
  {
    FlatSlot(g, s, L, d, j);
    FileSlotNode(g, s, L, d, j);
    ContentsLength(g, s.data, L.nodes[DirOf(s, L, d)[j].first].chain);
  }

  /** A successful write at or before the end of the file is seen as a splice, possibly longer
      than the file was. Past the end, the gap shows the bytes of the file's last cluster that
      lie behind its end, then zeros: they are zero exactly if those bytes were. */
  lemma WriteIsSeen(g: Geometry, A: Flat, d: nat, j: nat, buf: seq<byte>, off: nat, time: seq<byte>)
    requires FileHere(g, A, d, j) && 0 < g.B && buf != []
    requires FlatUpdate(g, A, d, j, buf, off, time).1.Done?
    ensures var A' := FlatUpdate(g, A, d, j, buf, off, time).0;
      && FileHere(g, A', d, j)
      && var e := A.objs[d].slots[j];
      var bytes, old', new' := A.objs[e.first].bytes, Visible(A, d, j), Visible(A', d, j);
      && |new'| == Max(e.size, End(off, buf))
      && new'[off..End(off, buf)] == buf
      && (forall i :: 0 <= i < e.size && !(off <= i < End(off, buf)) ==> new'[i] == old'[i])
      && (forall i :: e.size <= i < off ==> new'[i] == if i < |bytes| then bytes[i] else 0)
      && A'.objs[d].slots[j] == if off + |buf| > e.size then e.(size := off + |buf|, time := time) else e
  {
    var e := A.objs[d].slots[j];
    SpotOfIs(g, off, |buf|);
    var f, p := A.objs[e.first], SpotOf(g, off, |buf|);
    var n, A' := Max(f.n, p.need), FlatUpdate(g, A, d, j, buf, off, time).0;
    var grown := f.bytes + Zeros(Times(n - f.n, g.B));
    assert End(off, buf) <= |grown| == Times(n, g.B) by {
      TimesPlus(f.n, n - f.n, g.B);
      TimesMono(p.need, n, g.B);
    }
    assert A'.objs[e.first] == FileObj(Splice(grown, off, buf), n);
    assert A'.objs[d].slots[j] == UpdatedEntry(e, End(off, buf), time);
    SpliceIsSeen(f.bytes, Times(n - f.n, g.B), e.size, buf, off);
  }

  /** A write succeeds exactly if the clusters of the file and the free ones hold its end; it then returns its length
      and takes as few clusters as hold the end. It ends the program exactly if one cluster is missing, and answers
      "no memory" exactly if more are. */
  lemma WriteSpaceExactly(g: Geometry, A: Flat, d: nat, j: nat, buf: seq<byte>, off: nat, time: seq<byte>)
    requires FileHere(g, A, d, j) && 0 < g.B && buf != []
    ensures var (A', reply), f, end := FlatUpdate(g, A, d, j, buf, off, time), A.objs[A.objs[d].slots[j].first],
        off + |buf|;
      && (reply == Done(|buf|) <==> end <= Times(f.n + A.free, g.B))
      && (reply == Reply.Wild <==> Times(f.n + A.free, g.B) < end <= Times(f.n + A.free + 1, g.B))
      && (reply == NoMemory <==> Times(f.n + A.free + 1, g.B) < end)
      && (reply != Done(|buf|) ==> A' == A)
      && (reply == Done(|buf|) ==> SpaceTaken(g, A, A', A.objs[d].slots[j].first, end))
  {
    SpotOfIs(g, off, |buf|);
    var f, need := A.objs[A.objs[d].slots[j].first], SpotOf(g, off, |buf|).need;
    var room := f.n + A.free;
    TimesMono(need, Max(f.n, need), g.B);
    NeedAgainst(g, off, |buf|, need, room);
    NeedAgainst(g, off, |buf|, need, room + 1);
  }

  lemma NeedAgainst(g: Geometry, off: nat, n: nat, need: nat, room: nat)
    requires 0 < g.B && 0 < need && Times(need - 1, g.B) < off + n <= Times(need, g.B)
    ensures need <= room <==> off + n <= Times(room, g.B)
  {
    if need <= room {
      TimesMono(need, room, g.B);
    } else {
      TimesMono(room, need - 1, g.B);
    }
  }

  /** File `f` grew from what `A` has of it, at the cost of free clusters, by no more than `end` bytes need. */
  ghost predicate SpaceTaken(g: Geometry, A: Flat, A': Flat, f: nat, end: nat) {
    && A.IsFile(f) && A'.IsFile(f) && A'.objs[f].n + A'.free == A.objs[f].n + A.free
    && A.objs[f].n <= A'.objs[f].n && end <= Times(A'.objs[f].n, g.B)
    && (A.objs[f].n < A'.objs[f].n ==> Times(A'.objs[f].n - 1, g.B) < end)
  }

  /** The first bytes of a splice into `bytes` followed by `z` zeros. */
  lemma SpliceIsSeen(bytes: seq<byte>, z: nat, size: nat, buf: seq<byte>, off: nat)
    requires size <= |bytes| && End(off, buf) <= |bytes| + z
    ensures var seen := Prefix(Splice(bytes + Zeros(z), off, buf), Max(size, End(off, buf)));
      && |seen| == Max(size, End(off, buf))
      && seen[off..End(off, buf)] == buf
      && (forall i :: 0 <= i < size && !(off <= i < End(off, buf)) ==> seen[i] == Prefix(bytes, size)[i])
      && (forall i :: size <= i < off ==> seen[i] == if i < |bytes| then bytes[i] else 0)
  {
    var spliced, n := Splice(bytes + Zeros(z), off, buf), Max(size, End(off, buf));
    assert Prefix(spliced, n) == spliced[..n];
    assert forall k :: 0 <= k < |buf| ==> spliced[off + k] == buf[k];
    assert spliced[..n][off..End(off, buf)] == buf;
    assert forall i :: 0 <= i < n && !(off <= i < End(off, buf)) ==> spliced[..n][i] == (bytes + Zeros(z))[i];
  }

  /** A successful extension shows the old contents, then bytes 0 up to the new size, whatever lay behind the
      end; the entry gets the new size and the time and keeps the rest. */
  lemma ExtensionIsSeen(g: Geometry, A: Flat, d: nat, j: nat, size: nat, time: seq<byte>)
    requires FileHere(g, A, d, j) && 0 < g.B && A.objs[d].slots[j].size < size
    requires FlatTruncate(g, A, d, j, size, time).1 == Done(0)
    ensures var e, A' := A.objs[d].slots[j], FlatTruncate(g, A, d, j, size, time).0;
      && FileHere(g, A', d, j) && |Visible(A', d, j)| == size && Visible(A', d, j)[..e.size] == Visible(A, d, j)
      && (forall i :: e.size <= i < size ==> Visible(A', d, j)[i] == 0)
      && A'.objs[d].slots[j] == e.(size := size, time := time)
  {
    var e, z := A.objs[d].slots[j], Fill(A.objs[d].slots[j].size, size);
    WriteIsSeen(g, A, d, j, z, e.size, time);
    var v := Visible(FlatTruncate(g, A, d, j, size, time).0, d, j);
    forall i | e.size <= i < size
      ensures v[i] == 0
    {
      assert v[e.size..size][i - e.size] == z[i - e.size];
    }
  }

  /** A shrink is seen as the first bytes, and keeps as few clusters as hold them and the byte
      after them. */
  lemma ShrinkIsSeen(g: Geometry, A: Flat, d: nat, j: nat, size: nat, time: seq<byte>)
    requires FileHere(g, A, d, j) && 0 < g.B && size < A.objs[d].slots[j].size
    ensures var (A', reply) := FlatTruncate(g, A, d, j, size, time);
      && FileHere(g, A', d, j) && reply == Done(0)
      && Visible(A', d, j) == Visible(A, d, j)[..size]
      && A'.objs[d].slots[j] == A.objs[d].slots[j].(size := size)
      && IsCut(g, size, A'.objs[A.objs[d].slots[j].first].n)
  {
    CutOfIs(g, size);
    var e, k := A.objs[d].slots[j], CutOf(g, size);
    var f := A.objs[e.first];
    if f.n < k {
      TimesMono(f.n, k - 1, g.B);
    }
    TimesMono(k, f.n, g.B);
  }
}
