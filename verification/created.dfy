/** What a creation leaves under its path, for every state, and that a new directory can be removed again. */
module Created {
  import opened Bytes
  import opened States
  import opened Entries
  import opened Layouts
  import opened Trees
  import opened Make
  import opened Release
  import opened Effects
  import opened DirMap
  import opened Paths
  import opened Machine
  import opened FlatModel
  import opened Theorems
  import opened Refinement
  import opened Stale

  // ---- The parent is where the walk ends ----

  /** One name further. */
  ghost function Down(s: State, L: Layout, x: nat, name: Name): Option<nat> {
    if x !in L.nodes then None
    else
      match Lookup(DirOf(s, L, x), name)
      case None => None
      case Some(e) => if e.kind == KIND_DIR && e.first in L.nodes then Some(e.first) else None
  }

  lemma {:induction false} WalkSnoc(s: State, L: Layout, d: nat, names: seq<Name>, name: Name)
    ensures WalkDirs(s, L, d, names + [name])
         == match WalkDirs(s, L, d, names)
            case None => None
            case Some(x) => Down(s, L, x, name)
    decreases |names|
  {
    var all := names + [name];
    if names == [] {
      assert all[0] == name && all[1..] == [];
    } else if d in L.nodes {
      assert all[0] == names[0] && all[1..] == names[1..] + [name];
      var found := Lookup(DirOf(s, L, d), names[0]);
      if found.Some? && found.value.kind == KIND_DIR {
        WalkSnoc(s, L, found.value.first, names[1..], name);
      }
    }
  }

  lemma ParentIsWalk(g: Geometry, s: State, L: Layout, path: Path)
    requires Inv(g, s, L) && KernelPath(g, s, L, path)
    ensures SLASH in path
    ensures ParentDir(g, s, L, path) == WalkDirs(s, L, g.Root(), Components(ParentPath(path)))
  {
    ParentIsNormal(path);
    ParentIsInTree(g, s, L, path);
    var parent := ParentPath(path);
    if parent != [] {
      ParentIsNormal(parent);
      var names := Components(ParentPath(parent));
      WalkSnoc(s, L, g.Root(), names, TargetOf(parent));
      assert Components(parent) == names + [TargetOf(parent)];
    }
  }

  // ---- Lookups that a creation keeps ----

  /** Every name that is found in a directory of `A` is found there in `A'`, with the same entry. */
  ghost predicate KeepsFinds(A: Flat, A': Flat) {
    && (forall x: nat :: A.IsDir(x) ==> A'.IsDir(x))
    && (forall x: nat, name :: A.IsDir(x) && name != [] && Lookup(A.objs[x].slots, name).Some? ==>
        A'.IsDir(x) && Lookup(A'.objs[x].slots, name) == Lookup(A.objs[x].slots, name))
  }

  lemma {:induction false} WalkKept(A: Flat, A': Flat, d: nat, names: seq<Name>)
    requires KeepsFinds(A, A') && FlatWalk(A, d, names).Some?
    requires forall i :: 0 <= i < |names| ==> names[i] != []
    ensures FlatWalk(A', d, names) == FlatWalk(A, d, names)
    decreases |names|
  {
    if names != [] {
      var e := Lookup(A.objs[d].slots, names[0]).value;
      WalkKept(A, A', e.first, names[1..]);
    }
  }

  lemma MadeKeepsFinds(g: Geometry, A: Flat, d: nat, name: Name, isDir: bool, time: seq<byte>, o: nat, free: nat)
    requires A.IsDir(d) && o !in A.objs && o < U32 && d < U32 && |time| == 8 && 2 * ENTRY_SIZE <= g.B
    requires TargetName(name) && |name| <= MAX_NAME && Lookup(A.objs[d].slots, name).None?
    ensures var A' := Flat(Made(g, A, d, name, isDir, time, o), free);
      && KeepsFinds(A, A') && A'.IsDir(d)
      && Lookup(A'.objs[d].slots, name) == Some(NewEntry(name, o, isDir, time))
  {
    NewEntryIsFresh(name, o, isDir, time);
    InsertedIsFound(g, A.objs[d].slots, NewEntry(name, o, isDir, time));
  }

  // ---- What is found after a creation ----

  /** The record of a new object, byte by byte. */
  ghost predicate NewRecord(e: Entry, name: Name, kind: nat, first: nat, time: seq<byte>) {
    && |e.name| == 22 && |name| <= 21 && e.name[..|name|] == name
    && (forall i :: |name| <= i < 22 ==> e.name[i] == 0)
    && e.kind == kind && e.size == 0 && e.first == first && e.time == time
  }

  /** A slot whose name is empty. */
  ghost predicate HasFreeSlot(ss: seq<Entry>) {
    exists j :: 0 <= j < |ss| && (ss[j].name == [] || ss[j].name[0] == 0)
  }

  lemma FreeSlotFound(ss: seq<Entry>)
    ensures HasFreeSlot(ss) <==> FindIndex(ss, []) < |ss|
  {
    forall j | 0 <= j < |ss|
      ensures CName(ss[j].name) == [] <==> ss[j].name == [] || ss[j].name[0] == 0
    {
    }
  }

  /** A creation in the flat filesystem: the new name is found exactly if it has at most 21 bytes and the
      directory has a free slot or a second cluster is free. */
  lemma FlatCreation(g: Geometry, A: Flat, d: nat, name: Name, isDir: bool, time: seq<byte>, o: nat)
    requires A.IsDir(d) && o !in A.objs && o < U32 && d < U32 && |time| == 8 && 2 * ENTRY_SIZE <= g.B
    requires TargetName(name) && Lookup(A.objs[d].slots, name).None? && A.free > 0
    ensures var (A', reply) := FlatMake(g, A, d, name, isDir, time, o);
      && reply == Done(0) && KeepsFinds(A, A') && A'.IsDir(d)
      && var found := Lookup(A'.objs[d].slots, name);
      && (found.Some? <==> |name| <= 21 && (HasFreeSlot(A.objs[d].slots) || 2 <= A.free))
      && (found.Some? ==> NewRecord(found.value, name, if isDir then 1 else 0, o, time))
      && (found.None? ==> A'.objs == A.objs)
  {
    FreeSlotFound(A.objs[d].slots);
    if |name| <= MAX_NAME && !(FullDir(A, d) && A.free == 1) {
      MadeKeepsFinds(g, A, d, name, isDir, time, o, FlatMake(g, A, d, name, isDir, time, o).0.free);
    }
  }

  /** A creation on the disk, with its parent `d`: what it leaves of the flat filesystem. */
  lemma DiskCreation(g: Geometry, s: State, L: Layout, op: Op) returns (d: nat, s': State, L': Layout)
    requires g.Valid() && Inv(g, s, L) && Admissible(g, s, L, op) && (op.Mknod? || op.Mkdir?) && SLASH in op.path
    requires L.free != [] && ParentDir(g, s, L, op.path).Some?
    ensures var plan := PlanOf(g, s, L, op); s' == ApplyAll(s, plan.ws) && L' == plan.L && Inv(g, s', L')
    ensures Some(d) == ParentDir(g, s, L, op.path) == FlatWalk(FlatOf(s, L), g.Root(), Components(ParentPath(op.path)))
    ensures d in L.nodes && L.nodes[d].isDir && FlatOf(s, L).IsDir(d) && d < U32 && L.free[0] < U32
    ensures L.free[0] !in FlatOf(s, L).objs && TargetName(TargetOf(op.path))
    ensures FlatMake(g, FlatOf(s, L), d, TargetOf(op.path), op.Mkdir?, op.time, L.free[0])
         == (FlatOf(s', L'), PlanOf(g, s, L, op).reply)
  {
    var parent := ParentFound(g, s, L, op);
    d := parent.value;
    s', L' := ApplyAll(s, PlanOf(g, s, L, op).ws), PlanOf(g, s, L, op).L;
    NewIdIsNew(g, s, L);
    OperationKeepsInv(g, s, L, op);
    MakeInIsFlat(g, s, L, op, d);
    ParentIsWalk(g, s, L, op.path);
    ParentIsNormal(op.path);
    WalkIsFlat(g, s, L, g.Root(), Components(ParentPath(op.path)));
  }

  /** After a mknod or mkdir under a name that was not there the path leads to the new record exactly if the name
      has at most 21 bytes and the parent has a free slot or a second cluster is free; else to nothing. */
  lemma CreationIsFound(g: Geometry, s: State, L: Layout, op: Op)
    requires g.Valid() && Inv(g, s, L) && Admissible(g, s, L, op) && (op.Mknod? || op.Mkdir?) && SLASH in op.path
    requires L.free != [] && ParentDir(g, s, L, op.path).Some? && FindPath(g, s, L, op.path).None?
    ensures var plan, d, name := PlanOf(g, s, L, op), ParentDir(g, s, L, op.path).value, TargetOf(op.path);
      && plan.reply == Done(0) && d in L.nodes
      && var found := FindPath(g, ApplyAll(s, plan.ws), plan.L, op.path);
      && (found.Some? <==> |name| <= 21 && (HasFreeSlot(DirOf(s, L, d)) || 2 <= |L.free|))
      && (found.Some? ==> NewRecord(found.value, name, if op.Mkdir? then 1 else 0, L.free[0], op.time))
  {
    var d, s', L' := DiskCreation(g, s, L, op);
    var A, A', name := FlatOf(s, L), FlatOf(s', L'), TargetOf(op.path);
    FindIsFlat(g, s, L, op.path);
    FindIsFlat(g, s', L', op.path);
    FlatCreation(g, A, d, name, op.Mkdir?, op.time, L.free[0]);
    ParentIsNormal(op.path);
    WalkKept(A, A', g.Root(), Components(ParentPath(op.path)));
  }

  /** Every path that led somewhere before still leads there. */
  lemma CreationKeepsPaths(g: Geometry, s: State, L: Layout, op: Op, path: Path)
    requires g.Valid() && Inv(g, s, L) && Admissible(g, s, L, op) && (op.Mknod? || op.Mkdir?) && SLASH in op.path
    requires L.free != [] && ParentDir(g, s, L, op.path).Some? && FindPath(g, s, L, op.path).None?
    requires NormalPath(path) && SLASH in path && FindPath(g, s, L, path).Some?
    ensures var plan := PlanOf(g, s, L, op);
      FindPath(g, ApplyAll(s, plan.ws), plan.L, path) == FindPath(g, s, L, path)
  {
    var d, s', L' := DiskCreation(g, s, L, op);
    var A, A', name := FlatOf(s, L), FlatOf(s', L'), TargetOf(op.path);
    FindIsFlat(g, s, L, op.path);
    FlatCreation(g, A, d, name, op.Mkdir?, op.time, L.free[0]);
    FindKept(g, s, L, s', L', path);
  }

  lemma FindKept(g: Geometry, s: State, L: Layout, s': State, L': Layout, path: Path)
    requires Inv(g, s, L) && Inv(g, s', L') && KeepsFinds(FlatOf(s, L), FlatOf(s', L'))
    requires NormalPath(path) && SLASH in path && FindPath(g, s, L, path).Some?
    ensures FindPath(g, s', L', path) == FindPath(g, s, L, path)
  {
    FindIsFlat(g, s, L, path);
    FindIsFlat(g, s', L', path);
    ParentIsNormal(path);
    WalkKept(FlatOf(s, L), FlatOf(s', L'), g.Root(), Components(ParentPath(path)));
  }

  // ---- The new object ----

  /** A new directory shows "." and "..", which name it and its parent, and free slots. */
  ghost predicate NewDots(ss: seq<Entry>, o: nat, d: nat, time: seq<byte>) {
    && 2 <= |ss| && NewRecord(ss[0], [46], 1, o, time) && NewRecord(ss[1], [46, 46], 1, d, time)
    && forall i :: 2 <= i < |ss| ==> ss[i].name == [] || ss[i].name[0] == 0
  }

  lemma DotRecords(g: Geometry, o: nat, d: nat, time: seq<byte>)
    requires 512 <= g.B && o < U32 && d < U32 && |time| == 8
    ensures NewDots(Slots(DotsBlock(g, o, d, time)), o, d, time)
  {
    DotsAreFresh(g, o, d, time);
    SlotsAfterSet(Zeros(g.B), 0, NewEntry(DOT, o, true, time));
    SlotsAfterSet(DotBlock(g, o, time), 1, NewEntry(DOTDOT, d, true, time));
  }

  /** What a creation that is found has made: a file of one cluster of bytes 0, or a directory with its dots. */
  lemma CreatedObject(g: Geometry, s: State, L: Layout, op: Op)
    requires g.Valid() && Inv(g, s, L) && Admissible(g, s, L, op) && (op.Mknod? || op.Mkdir?) && SLASH in op.path
    requires L.free != [] && ParentDir(g, s, L, op.path).Some? && FindPath(g, s, L, op.path).None?
    requires var plan := PlanOf(g, s, L, op); FindPath(g, ApplyAll(s, plan.ws), plan.L, op.path).Some?
    ensures var plan, o, d := PlanOf(g, s, L, op), L.free[0], ParentDir(g, s, L, op.path).value;
      var A' := FlatOf(ApplyAll(s, plan.ws), plan.L);
      o in A'.objs && IsNewObject(g, A'.objs[o], op.Mkdir?, o, d, op.time)
  {
    CreationIsFound(g, s, L, op);
    var d, s', L' := DiskCreation(g, s, L, op);
    FreeSlotFound(DirOf(s, L, d));
    assert FlatOf(s, L).objs[d] == ObjOf(s, L, d);
    MadeObject(g, FlatOf(s, L), d, TargetOf(op.path), op.Mkdir?, op.time, L.free[0]);
  }

  lemma MadeObject(g: Geometry, A: Flat, d: nat, name: Name, isDir: bool, time: seq<byte>, o: nat)
    requires A.IsDir(d) && o !in A.objs && o < U32 && d < U32 && |time| == 8 && 512 <= g.B
    requires |name| <= MAX_NAME && A.free > 0 && !(FullDir(A, d) && A.free == 1)
    ensures o in FlatMake(g, A, d, name, isDir, time, o).0.objs
    ensures IsNewObject(g, FlatMake(g, A, d, name, isDir, time, o).0.objs[o], isDir, o, d, time)
  {
    if isDir {
      DotRecords(g, o, d, time);
    }
  }

  /** A file of one cluster of bytes 0, or a directory with its dots. */
  ghost predicate IsNewObject(g: Geometry, x: Obj, isDir: bool, o: nat, d: nat, time: seq<byte>) {
    && x.n == 1
    && if isDir then x.DirObj? && NewDots(x.slots, o, d, time)
       else x.FileObj? && |x.bytes| == g.B && forall i :: 0 <= i < g.B ==> x.bytes[i] == 0
  }

  // ---- mkdir, then rmdir ----

  /** A new directory shows its dots only. */
  lemma NewDirShows(g: Geometry, A: Flat, d: nat, name: Name, time: seq<byte>, o: nat, s': State, L': Layout)
    requires A.IsDir(d) && o < U32 && d < U32 && d != o && |time| == 8 && 512 <= g.B && |name| <= MAX_NAME
    requires FlatOf(s', L').objs == Made(g, A, d, name, true, time, o)
    ensures o in L'.nodes && L'.nodes[o].isDir
    ensures forall n :: n != [] && Lookup(DirOf(s', L', o), n).Some? ==> n in {[46], [46, 46]}
  {
    SlotNames(g, o, d, time);
    assert FlatOf(s', L').objs[o] == ObjOf(s', L', o);
    assert DotNames(DirOf(s', L', o));
  }

  /** The path stays one that the kernel passes down, and its parent the same. */
  lemma PathStays(g: Geometry, s: State, L: Layout, s': State, L': Layout, path: Path)
    requires Inv(g, s, L) && Inv(g, s', L') && KeepsFinds(FlatOf(s, L), FlatOf(s', L'))
    requires KernelPath(g, s, L, path) && SLASH in path && ParentDir(g, s, L, path).Some?
    ensures KernelPath(g, s', L', path) && ParentDir(g, s', L', path) == ParentDir(g, s, L, path)
  {
    ParentIsNormal(path);
    var parent := ParentPath(path);
    if parent != [] {
      ParentIsNormal(parent);
      FindKept(g, s, L, s', L', parent);
    }
  }

  /** `op` makes a directory under a name that is not there yet and can be entered. */
  ghost predicate MakesDir(g: Geometry, s: State, L: Layout, op: Op) {
    && g.Valid() && Inv(g, s, L) && Admissible(g, s, L, op) && op.Mkdir? && SLASH in op.path && L.free != []
    && ParentDir(g, s, L, op.path).Some? && FindPath(g, s, L, op.path).None?
    && ParentDir(g, s, L, op.path).value in L.nodes && |TargetOf(op.path)| <= 21
    && (HasFreeSlot(DirOf(s, L, ParentDir(g, s, L, op.path).value)) || 2 <= |L.free|)
  }

  /** Object `o` is a directory that is found under `name` in `d` and shows only its dots. */
  ghost predicate EmptyUnder(s: State, L: Layout, d: nat, name: Name, o: nat) {
    && d in L.nodes && L.nodes[d].isDir && TargetName(name) && o in L.nodes
    && var found := Lookup(DirOf(s, L, d), name);
    && found.Some? && found.value.kind == 1 && found.value.first == o
    && forall n :: n != [] && Lookup(DirOf(s, L, o), n).Some? ==> n in {[46], [46, 46]}
  }

  /** A directory that was just made can be removed again. */
  lemma MkdirThenRmdir(g: Geometry, s: State, L: Layout, op: Op)
    requires MakesDir(g, s, L, op)
    ensures var plan := PlanOf(g, s, L, op);
      var s' := ApplyAll(s, plan.ws);
      && plan.reply == Done(0) && Inv(g, s', plan.L) && Admissible(g, s', plan.L, Rmdir(op.path))
      && PlanOf(g, s', plan.L, Rmdir(op.path)).reply == Done(0)
  {
    var d, s', L' := MadeDirectory(g, s, L, op);
    PathStays(g, s, L, s', L', op.path);
    RemovableAt(g, s', L', op.path, d, L.free[0]);
  }

  /** The new directory, found in its parent. */
  lemma MadeDirectory(g: Geometry, s: State, L: Layout, op: Op) returns (d: nat, s': State, L': Layout)
    requires MakesDir(g, s, L, op)
    ensures var plan := PlanOf(g, s, L, op);
      plan.reply == Done(0) && s' == ApplyAll(s, plan.ws) && L' == plan.L && Inv(g, s', L')
    ensures ParentDir(g, s, L, op.path) == Some(d) && KeepsFinds(FlatOf(s, L), FlatOf(s', L'))
    ensures EmptyUnder(s', L', d, TargetOf(op.path), L.free[0])
  {
    d, s', L' := DiskCreation(g, s, L, op);
    FindIsFlat(g, s, L, op.path);
    MadeIsEmpty(g, s, L, d, TargetOf(op.path), op.time, s', L');
  }

  lemma MadeIsEmpty(g: Geometry, s: State, L: Layout, d: nat, name: Name, time: seq<byte>, s': State, L': Layout)
    requires d in L.nodes && L.nodes[d].isDir && L.free != [] && L.free[0] !in L.nodes && L.free[0] < U32 && d < U32
    requires |time| == 8 && 512 <= g.B && TargetName(name) && |name| <= 21 && Lookup(DirOf(s, L, d), name).None?
    requires HasFreeSlot(DirOf(s, L, d)) || 2 <= |L.free|
    requires FlatMake(g, FlatOf(s, L), d, name, true, time, L.free[0]).0 == FlatOf(s', L')
    ensures KeepsFinds(FlatOf(s, L), FlatOf(s', L')) && EmptyUnder(s', L', d, name, L.free[0])
  {
    var A := FlatOf(s, L);
    FlatCreation(g, A, d, name, true, time, L.free[0]);
    FreeSlotFound(A.objs[d].slots);
    NewDirShows(g, A, d, name, time, L.free[0], s', L');
    assert FlatOf(s', L').objs[d] == ObjOf(s', L', d);
  }

  lemma RemovableAt(g: Geometry, s: State, L: Layout, path: Path, d: nat, o: nat)
    requires g.Valid() && Inv(g, s, L) && Admissible(g, s, L, Rmdir(path)) && SLASH in path
    requires ParentDir(g, s, L, path) == Some(d) && EmptyUnder(s, L, d, TargetOf(path), o)
    ensures PlanOf(g, s, L, Rmdir(path)).reply == Done(0)
  {
    TargetIsObject(g, s, L, d, TargetOf(path));
    RmdirExactly(g, s, L, d, FindIndex(DirOf(s, L, d), TargetOf(path)));
  }

  function ThereAndBack(time: seq<byte>): seq<Op> {
    [Mkdir(PATH, time), Rmdir(PATH)]
  }

  /** On every disk: a mkdir and an rmdir of the same name both succeed. */
  lemma ThereAndBackHappens(g: Geometry, time: seq<byte>)
    requires g.Valid() && g.N < U32 && |time| == 8
    ensures FreshRun(g, time, ThereAndBack(time)) && FreshReplies(g, time, ThereAndBack(time)) == [Done(0), Done(0)]
  {
    var s, L, op := FreshState(g, time), FreshLayout(g), Mkdir(PATH, time);
    FreshIsConsistent(g, time);
    PathParts();
    PathIsAdmissible(g, s, L);
    FindIsFlat(g, s, L, PATH);
    FreshSlots(g, time);
    MkdirThenRmdir(g, s, L, op);
    TwoReplies(g, s, L, op, Rmdir(PATH));
  }

  lemma TwoReplies(g: Geometry, s: State, L: Layout, a: Op, b: Op)
    requires g.Valid() && Inv(g, s, L) && Admissible(g, s, L, a) && PlanOf(g, s, L, a).reply == Done(0)
    requires var s', L' := ApplyAll(s, PlanOf(g, s, L, a).ws), PlanOf(g, s, L, a).L;
      Inv(g, s', L') && Admissible(g, s', L', b) && PlanOf(g, s', L', b).reply == Done(0)
    ensures IsRun(g, s, L, [a, b]) && RunReplies(g, s, L, [a, b]) == [Done(0), Done(0)]
  {
    var s', L' := ApplyAll(s, PlanOf(g, s, L, a).ws), PlanOf(g, s, L, a).L;
    OneReply(g, s', L', b);
    assert [a, b][1..] == [b];
  }

  lemma OneReply(g: Geometry, s: State, L: Layout, op: Op)
    requires g.Valid() && Inv(g, s, L) && Admissible(g, s, L, op) && PlanOf(g, s, L, op).reply == Done(0)
    ensures IsRun(g, s, L, [op]) && RunReplies(g, s, L, [op]) == [Done(0)]
  {
    OperationKeepsInv(g, s, L, op);
    assert [op][1..] == [];
  }
}
