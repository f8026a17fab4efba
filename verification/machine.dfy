/** The filesystem as a state machine over its operations. */
module Machine {
  import opened Bytes
  import opened States
  import opened Entries
  import opened Allocator
  import opened Layouts
  import opened Trees
  import opened Steps
  import opened Update
  import opened Make
  import opened Release
  import opened Paths

  /** A request. `time` is what the clock shows, `stray` the word a read for cluster 0 would find. */
  datatype Op =
    | Mknod(path: Path, time: seq<byte>)
    | Mkdir(path: Path, time: seq<byte>)
    | Write(path: Path, buf: seq<byte>, off: nat, time: seq<byte>, stray: Option<nat>)
    | Truncate(path: Path, size: nat, time: seq<byte>, stray: Option<nat>)
    | Unlink(path: Path)
    | Rmdir(path: Path)

  /** What an operation returns. `Aborted`: an assertion failed, before any write. `Wild`: the allocation
      was short by exactly one cluster. Either ends the program. */
  datatype Reply = Done(n: nat) | NoMemory | NotEmpty | NotDirectory | Denied | Failed | Aborted | Wild

  /** An operation: its cluster writes, the layout they lead to and what it returns. */
  datatype Plan = Plan(ws: seq<Write>, L: Layout, reply: Reply)

  const ENOMEM: nat := 12

  // ---- Finding the parent and the target ----

  /** find_first_cluster_by_path on the parent of a path; None when its assertion fails. */
  ghost function ParentDir(g: Geometry, s: State, L: Layout, path: Path): Option<nat>
    requires SLASH in path
  {
    var parent := ParentPath(path);
    if !AfterSlash(parent) || SLASH !in parent then Some(g.Root())
    else
      match FindPath(g, s, L, parent)
      case None => None
      case Some(e) => Some(e.first)
  }

  /** What the kernel guarantees about a path: it is normal, its target is a proper name, and
      its parent, if there is one, is a directory. */
  ghost predicate KernelPath(g: Geometry, s: State, L: Layout, path: Path) {
    && NormalPath(path)
    && (SLASH in path ==>
        && TargetOf(path) != DOT && TargetOf(path) != DOTDOT
        && var parent := ParentPath(path);
        && (SLASH in parent && FindPath(g, s, L, parent).Some? ==>
            FindPath(g, s, L, parent).value.kind == KIND_DIR))
  }

  /** It passes down every list of names joined by slashes whose last is no dot name and whose parent, if it
      exists, is a directory. */
  lemma KernelPaths(g: Geometry, s: State, L: Layout, names: seq<Name>)
    requires names != [] && forall i :: 0 <= i < |names| ==> names[i] != [] && 47 !in names[i] && NoNul(names[i])
    ensures var parent := Joined(names[..|names| - 1]);
      && (|names| > 1 ==> SLASH in parent)
      && (KernelPath(g, s, L, Joined(names)) <==>
          && names[|names| - 1] !in {[46], [46, 46]}
          && (|names| > 1 && FindPath(g, s, L, parent).Some? ==> FindPath(g, s, L, parent).value.kind == 1))
  {
    JoinedIsNormal(names);
    if |names| > 1 {
      JoinedIsNormal(names[..|names| - 1]);
    }
  }

  /** In a directory of the tree, a found subdirectory is a directory of the tree. */
  lemma LookupStaysInTree(g: Geometry, s: State, L: Layout, d: nat, name: Name)
    requires Inv(g, s, L) && d in L.nodes && L.nodes[d].isDir && name != []
    ensures match Lookup(DirOf(s, L, d), name)
      case None => true
      case Some(e) => e.kind == KIND_DIR ==> e.first in L.nodes && L.nodes[e.first].isDir
  {
    assert DirOk(g, s, L, d);
    var ss := DirOf(s, L, d);
    var j := FindIndex(ss, name);
    assert d != g.Root() ==> ChildOk(s, L, d);
    if 2 <= j < |ss| {
      DirSlotsWf(s.data, L.nodes[d].chain);
      DeadSlotIsFree(ss, j);
      assert EntryOk(g, L.nodes, d, j, ss[j]);
    }
  }

  lemma SubdirsAreKnown(g: Geometry, s: State, L: Layout)
    requires Inv(g, s, L)
    ensures SubdirsKnown(s, L)
  {
    forall d, name | d in L.nodes && L.nodes[d].isDir && name != []
      ensures match Lookup(DirOf(s, L, d), name)
        case None => true
        case Some(e) => e.kind == KIND_DIR ==> e.first in L.nodes && L.nodes[e.first].isDir
    {
      LookupStaysInTree(g, s, L, d, name);
    }
  }

  /** In a consistent filesystem find_dir_entry_by_path fails exactly when some name on the way is missing,
      or is no directory although more names follow. */
  lemma FindFailsExactly(g: Geometry, s: State, L: Layout, path: Path)
    requires Inv(g, s, L) && NormalPath(path)
    ensures SLASH in path && Components(path) != []
    ensures FindPath(g, s, L, path).None?
      <==> exists i :: 0 <= i < |Components(path)| && StopsAt(s, L, g.Root(), Components(path), i)
  {
    FindIsResolve(g, s, L, path);
    SubdirsAreKnown(g, s, L);
    ResolveFailsExactly(s, L, g.Root(), Components(path));
  }

  lemma {:induction false} WalkStaysInTree(g: Geometry, s: State, L: Layout, d: nat, names: seq<Name>)
    requires Inv(g, s, L) && d in L.nodes && L.nodes[d].isDir
    requires forall i :: 0 <= i < |names| ==> names[i] != []
    ensures match WalkDirs(s, L, d, names)
      case None => true
      case Some(x) => x in L.nodes && L.nodes[x].isDir
    decreases |names|
  {
    if names != [] {
      LookupStaysInTree(g, s, L, d, names[0]);
      var found := Lookup(DirOf(s, L, d), names[0]);
      if found.Some? && found.value.kind == KIND_DIR {
        WalkStaysInTree(g, s, L, found.value.first, names[1..]);
      }
    }
  }

  lemma ParentIsInTree(g: Geometry, s: State, L: Layout, path: Path)
    requires Inv(g, s, L) && KernelPath(g, s, L, path)
    ensures SLASH in path
    ensures match ParentDir(g, s, L, path)
      case None => true
      case Some(d) => d in L.nodes && L.nodes[d].isDir
  {
    ParentIsNormal(path);
    var parent := ParentPath(path);
    if parent != [] {
      ParentIsNormal(parent);
      WalkStaysInTree(g, s, L, g.Root(), Components(ParentPath(parent)));
      var w := WalkDirs(s, L, g.Root(), Components(ParentPath(parent)));
      if w.Some? {
        LookupStaysInTree(g, s, L, w.value, TargetOf(parent));
      }
    }
  }

  /** A proper name found in a directory is one of its objects. */
  lemma TargetIsObject(g: Geometry, s: State, L: Layout, d: nat, name: Name)
    requires Inv(g, s, L) && d in L.nodes && L.nodes[d].isDir && TargetName(name)
    ensures var j := FindIndex(DirOf(s, L, d), name);
      j < |DirOf(s, L, d)| ==> ObjectSlot(s, L, d, j) && WfEntry(DirOf(s, L, d)[j])
  {
    assert DirOk(g, s, L, d);
    DirSlotsWf(s.data, L.nodes[d].chain);
    var j := FindIndex(DirOf(s, L, d), name);
    if j < |DirOf(s, L, d)| {
      DeadSlotIsFree(DirOf(s, L, d), j);
    }
  }

  // ---- The operations, once parent and target are known ----

  /** Where a write falls; SpotOfIs says what is known of it. */
  ghost function SpotOf(g: Geometry, off: nat, n: nat): Spot
    requires 0 < g.B && 0 < n
  {
    SpotByDivision(g, off, n);
    var p :| forall u {:trigger Open(u)} :: Open(u) ==> IsSpot(g, off, n, p);
    p
  }

  lemma SpotOfIs(g: Geometry, off: nat, n: nat)
    requires 0 < g.B && 0 < n
    ensures IsSpot(g, off, n, SpotOf(g, off, n))
  {
    assert Open(0);
  }

  /** How many clusters a shrink keeps; CutOfIs says what is known of it. */
  ghost function CutOf(g: Geometry, size: nat): nat
    requires 0 < g.B
  {
    CutByDivision(g, size);
    var k: nat :| forall u {:trigger Open(u)} :: Open(u) ==> IsCut(g, size, k);
    k
  }

  lemma CutOfIs(g: Geometry, size: nat)
    requires 0 < g.B
    ensures IsCut(g, size, CutOf(g, size))
  {
    assert Open(0);
  }

  /** A plan that ends in the read for cluster 0, with what this read leads to. */
  function Strayed(plan: Plan, stray: Option<nat>): Plan {
    if plan.reply.Wild? then plan.(ws := StrayWrites(stray)) else plan
  }

  /** update_file, with every outcome of its allocation; short by one cluster, it is the plan up to the
      read for cluster 0. */
  ghost function PlanUpdate(g: Geometry, s: State, L: Layout, d: nat, j: nat,
                            buf: seq<byte>, off: nat, time: seq<byte>): Plan
    requires Inv(g, s, L) && ObjectSlot(s, L, d, j) && 0 < g.B
    requires buf != [] && End(off, buf) < U32 && |time| == 8
  {
    ObjectSlotNode(g, s, L, d, j);
    SpotOfIs(g, off, |buf|);
    var e := DirOf(s, L, d)[j];
    var p := SpotOf(g, off, |buf|);
    var room := |L.nodes[e.first].chain| + |L.free|;
    if e.kind != KIND_FILE then Plan([], L, Aborted)
    else if p.need <= room then
      Plan(UpdateWrites(g, s, L, d, j, buf, off, p, time), UpdateLayout(s, L, d, j, p), Done(|buf|))
    else if p.need == room + 1 then Plan([], L, Reply.Wild)
    else Plan([], L, NoMemory)
  }

  /** What fat_truncate makes of the reply of update_file to an extension by the zeros `fill`. */
  function ExtendReply(reply: Reply, fill: seq<byte>): Reply {
    match reply
    case Done(_) => Done(0)
    case NoMemory => if |fill| == U32 - ENOMEM then Done(0) else Failed
    case _ => reply
  }

  function Extended(plan: Plan, fill: seq<byte>): Plan {
    plan.(reply := ExtendReply(plan.reply, fill))
  }

  /** fat_truncate. An extension by 2^32 - 12 bytes that finds no space is mistaken for a
      success, since -ENOMEM then equals the number of bytes asked for. */
  ghost function PlanTruncate(g: Geometry, s: State, L: Layout, d: nat, j: nat,
                              size: nat, time: seq<byte>): Plan
    requires Inv(g, s, L) && ObjectSlot(s, L, d, j) && 0 < g.B && size < U32 && |time| == 8
  {
    ObjectSlotNode(g, s, L, d, j);
    var e := DirOf(s, L, d)[j];
    if size == e.size then Plan([], L, Done(0))
    else if size > e.size then
      Extended(PlanUpdate(g, s, L, d, j, Fill(e.size, size), e.size, time), Fill(e.size, size))
    else
      var k := CutOf(g, size);
      CutOfIs(g, size);
      assert DirOk(g, s, L, d) && EntryOk(g, L.nodes, d, j, e);
      CutFits(g, s, L, d, j, size, k);
      Plan(ShrinkWrites(s, L, d, j, size, k), ShrinkLayout(L, e.first, k), Done(0))
  }

  ghost predicate OnlyDots(ss: seq<Entry>) {
    forall j :: 0 <= j < |ss| ==>
      CName(ss[j].name) == [] || CName(ss[j].name) == DOT || CName(ss[j].name) == DOTDOT
  }

  ghost function PlanRemove(g: Geometry, s: State, L: Layout, d: nat, j: nat, isDir: bool): Plan
    requires Inv(g, s, L) && ObjectSlot(s, L, d, j)
  {
    ObjectSlotNode(g, s, L, d, j);
    var e := DirOf(s, L, d)[j];
    var remove := Plan(RemoveWrites(s, L, d, j), RemoveLayout(L, e.first), Done(0));
    if !isDir then
      if e.kind != KIND_FILE then Plan([], L, Failed) else remove
    else if !OnlyDots(DirOf(s, L, e.first)) then Plan([], L, NotEmpty)
    else if e.kind != KIND_DIR then Plan([], L, NotDirectory)
    else remove
  }

  // ---- The whole operations ----

  /** Arguments the C types and the kernel guarantee: a clock value, a buffer that is not
      empty, sizes below 2^32. */
  ghost predicate Sane(op: Op) {
    match op
    case Mknod(_, time) => |time| == 8
    case Mkdir(_, time) => |time| == 8
    case Write(_, buf, off, time, stray) =>
      buf != [] && End(off, buf) < U32 && |time| == 8 && (stray.Some? ==> stray.value < U32)
    case Truncate(_, size, time, stray) => size < U32 && |time| == 8 && (stray.Some? ==> stray.value < U32)
    case Unlink(_) => true
    case Rmdir(_) => true
  }

  /** Every write that is not empty and ends below 2^32 is taken, and every truncation to less. */
  lemma ArgumentBounds(path: Path, buf: seq<byte>, off: nat, size: nat, time: seq<byte>)
    requires |time| == 8
    ensures Sane(Op.Write(path, buf, off, time, None)) <==> buf != [] && off + |buf| < 4_294_967_296
    ensures Sane(Truncate(path, size, time, None)) <==> size < 4_294_967_296
    ensures Sane(Mknod(path, time)) && Sane(Mkdir(path, time)) && Sane(Unlink(path)) && Sane(Rmdir(path))
  {
  }

  ghost predicate Admissible(g: Geometry, s: State, L: Layout, op: Op) {
    KernelPath(g, s, L, op.path) && Sane(op)
  }

  ghost function PlanMake(g: Geometry, s: State, L: Layout, path: Path, isDir: bool, time: seq<byte>): Plan
    requires g.Valid() && Inv(g, s, L) && KernelPath(g, s, L, path) && |time| == 8
  {
    ParentIsNormal(path);
    ParentIsInTree(g, s, L, path);
    if L.free == [] then Plan([], L, NoMemory)
    else
      match ParentDir(g, s, L, path)
      case None => Plan([], L, Aborted)
      case Some(d) =>
        MakeIsPossible(g, s, L, d, TargetOf(path), time);
        Plan(MakeWrites(g, s, L, d, TargetOf(path), isDir, time),
             MakeLayout(g, s, L, d, TargetOf(path), isDir), Done(0))
  }

  lemma MakeIsPossible(g: Geometry, s: State, L: Layout, d: nat, name: Name, time: seq<byte>)
    requires g.Valid() && Inv(g, s, L) && d in L.nodes && L.nodes[d].isDir && L.free != []
    requires TargetName(name) && |time| == 8
    ensures CanMake(g, s, L, d, name, time)
  {
    TimesTwice(g.N, g.B);
    NodesOwnThemselves(g, s, L);
    FreeOf(g, s, L);
  }

  /** The operations on an existing target, once the parent is known. */
  ghost function PlanTarget(g: Geometry, s: State, L: Layout, op: Op, d: nat, name: Name): Plan
    requires g.Valid() && Inv(g, s, L) && Sane(op) && !op.Mknod? && !op.Mkdir?
    requires d in L.nodes && L.nodes[d].isDir && TargetName(name)
  {
    TargetIsObject(g, s, L, d, name);
    var j := FindIndex(DirOf(s, L, d), name);
    if j == |DirOf(s, L, d)| then Plan([], L, Aborted)
    else if op.Write? then Strayed(PlanUpdate(g, s, L, d, j, op.buf, op.off, op.time), op.stray)
    else if op.Truncate? then Strayed(PlanTruncate(g, s, L, d, j, op.size, op.time), op.stray)
    else PlanRemove(g, s, L, d, j, op.Rmdir?)
  }

  /** What operation `op` does to state `s` with layout `L`. */
  ghost function PlanOf(g: Geometry, s: State, L: Layout, op: Op): Plan
    requires g.Valid() && Inv(g, s, L) && Admissible(g, s, L, op)
  {
    ParentIsNormal(op.path);
    ParentIsInTree(g, s, L, op.path);
    if op.Mknod? || op.Mkdir? then PlanMake(g, s, L, op.path, op.Mkdir?, op.time)
    else
      match ParentDir(g, s, L, op.path)
      case None => Plan([], L, Aborted)
      case Some(d) => PlanTarget(g, s, L, op, d, TargetOf(op.path))
  }

  // ---- Every operation keeps the invariant ----

  lemma UpdateKeepsInv(g: Geometry, s: State, L: Layout, d: nat, j: nat,
                       buf: seq<byte>, off: nat, time: seq<byte>)
    requires Inv(g, s, L) && ObjectSlot(s, L, d, j) && 0 < g.B
    requires buf != [] && End(off, buf) < U32 && |time| == 8
    ensures var plan := PlanUpdate(g, s, L, d, j, buf, off, time);
      Inv(g, ApplyAll(s, plan.ws), plan.L) && CrashSafe(g, s, L, plan.ws)
  {
    ObjectSlotNode(g, s, L, d, j);
    SpotOfIs(g, off, |buf|);
    var p := SpotOf(g, off, |buf|);
    if DirOf(s, L, d)[j].kind == KIND_FILE && p.need <= |L.nodes[DirOf(s, L, d)[j].first].chain| + |L.free| {
      UpdateIsCrashSafe(g, s, L, d, j, buf, off, p, time);
    } else {
      NoRun(g, s, L);
    }
  }

  /** fat_truncate when the file is to become shorter. */
  lemma ShrinkPlan(g: Geometry, s: State, L: Layout, d: nat, j: nat, size: nat, time: seq<byte>)
    requires Inv(g, s, L) && ObjectSlot(s, L, d, j) && 0 < g.B && |time| == 8 && size < DirOf(s, L, d)[j].size < U32
    ensures var e, plan, k := DirOf(s, L, d)[j], PlanTruncate(g, s, L, d, j, size, time), CutOf(g, size);
      && CanShrink(g, s, L, d, j, size, k) && k <= |L.nodes[e.first].chain|
      && plan.ws == ShrinkWrites(s, L, d, j, size, k) && plan.L == ShrinkLayout(L, e.first, k)
  {
    ObjectSlotNode(g, s, L, d, j);
    CutOfIs(g, size);
    assert DirOk(g, s, L, d) && EntryOk(g, L.nodes, d, j, DirOf(s, L, d)[j]);
    CutFits(g, s, L, d, j, size, CutOf(g, size));
  }

  /** fat_truncate when the file is to become longer: update_file with zeros. */
  lemma ExtendPlan(g: Geometry, s: State, L: Layout, d: nat, j: nat, size: nat, time: seq<byte>)
    requires Inv(g, s, L) && ObjectSlot(s, L, d, j) && 0 < g.B && |time| == 8 && DirOf(s, L, d)[j].size < size < U32
    ensures var e := DirOf(s, L, d)[j];
      PlanTruncate(g, s, L, d, j, size, time)
      == Extended(PlanUpdate(g, s, L, d, j, Fill(e.size, size), e.size, time), Fill(e.size, size))
  {
  }

  lemma ExtendKeepsInv(g: Geometry, s: State, L: Layout, d: nat, j: nat, size: nat, time: seq<byte>)
    requires Inv(g, s, L) && ObjectSlot(s, L, d, j) && 0 < g.B && |time| == 8 && DirOf(s, L, d)[j].size < size < U32
    ensures var plan := PlanTruncate(g, s, L, d, j, size, time);
      Inv(g, ApplyAll(s, plan.ws), plan.L)
  {
    var e := DirOf(s, L, d)[j];
    var up := PlanUpdate(g, s, L, d, j, Fill(e.size, size), e.size, time);
    UpdateKeepsInv(g, s, L, d, j, Fill(e.size, size), e.size, time);
    ExtendPlan(g, s, L, d, j, size, time);
    PlanLeadsTo(g, s, Extended(up, Fill(e.size, size)), up.ws, up.L);
  }

  lemma TruncateKeepsInv(g: Geometry, s: State, L: Layout, d: nat, j: nat, size: nat, time: seq<byte>)
    requires Inv(g, s, L) && ObjectSlot(s, L, d, j) && 0 < g.B && size < U32 && |time| == 8
    ensures var plan := PlanTruncate(g, s, L, d, j, size, time);
      Inv(g, ApplyAll(s, plan.ws), plan.L)
  {
    var e, k := DirOf(s, L, d)[j], CutOf(g, size);
    if size > e.size {
      ExtendKeepsInv(g, s, L, d, j, size, time);
    } else if size < e.size {
      ObjectSlotNode(g, s, L, d, j);
      ShrinkPlan(g, s, L, d, j, size, time);
      ShrinkKeepsInv(g, s, L, d, j, size, k);
      PlanLeadsTo(g, s, PlanTruncate(g, s, L, d, j, size, time),
                  ShrinkWrites(s, L, d, j, size, k), ShrinkLayout(L, e.first, k));
    }
  }

  lemma PlanLeadsTo(g: Geometry, s: State, plan: Plan, ws: seq<Write>, L: Layout)
    requires plan.ws == ws && plan.L == L && Inv(g, ApplyAll(s, ws), L)
    ensures Inv(g, ApplyAll(s, plan.ws), plan.L)
  {
  }

  /** A directory that shows only dots holds nothing. */
  lemma OnlyDotsIsChildless(g: Geometry, s: State, L: Layout, id: nat)
    requires Inv(g, s, L) && id in L.nodes && (L.nodes[id].isDir ==> OnlyDots(DirOf(s, L, id)))
    ensures Childless(g, L, id)
  {
    if L.nodes[id].isDir {
      assert DirOk(g, s, L, id);
      var ss := DirOf(s, L, id);
      DirSlotsWf(s.data, L.nodes[id].chain);
      forall j | 2 <= j < |ss|
        ensures !Live(ss[j])
      {
        DeadSlotIsFree(ss, j);
        assert Live(ss[j]) ==> EntryOk(g, L.nodes, id, j, ss[j]);
      }
    }
    EmptyIsChildless(g, s, L, id);
  }

  /** A directory that holds no object shows only dots. */
  lemma ChildlessIsOnlyDots(g: Geometry, s: State, L: Layout, id: nat)
    requires Inv(g, s, L) && id in L.nodes && L.nodes[id].isDir && Childless(g, L, id)
    ensures OnlyDots(DirOf(s, L, id))
  {
    assert DirOk(g, s, L, id);
    var ss := DirOf(s, L, id);
    DirSlotsWf(s.data, L.nodes[id].chain);
    forall j | 2 <= j < |ss|
      ensures CName(ss[j].name) == []
    {
      DeadSlotIsFree(ss, j);
      assert Live(ss[j]) ==> EntryOk(g, L.nodes, id, j, ss[j]);
    }
  }

  /** The names in use are "." and "..". */
  lemma OnlyDotsExactly(ss: seq<Entry>)
    ensures OnlyDots(ss) <==> forall name :: name != [] && Lookup(ss, name).Some? ==> name in {[46], [46, 46]}
  {
    forall j | 0 <= j < |ss| && CName(ss[j].name) != []
      ensures Lookup(ss, CName(ss[j].name)).Some?
    {
    }
  }

  /** fat_rmdir removes a directory exactly if no object has it for a parent, that is, if no name but "." and ".."
      is found in it; otherwise it writes nothing and answers "not empty". */
  lemma RmdirExactly(g: Geometry, s: State, L: Layout, d: nat, j: nat)
    requires Inv(g, s, L) && ObjectSlot(s, L, d, j) && DirOf(s, L, d)[j].kind == 1
    ensures var id, plan := DirOf(s, L, d)[j].first, PlanRemove(g, s, L, d, j, true);
      && id in L.nodes && L.nodes[id].isDir
      && (plan.reply == Done(0) <==> forall x :: x in L.nodes && x != g.Root() ==> L.nodes[x].parent != id)
      && (plan.reply == Done(0) <==>
          forall name :: name != [] && Lookup(DirOf(s, L, id), name).Some? ==> name in {[46], [46, 46]})
      && (plan.reply != Done(0) ==> plan == Plan([], L, NotEmpty))
  {
    ObjectSlotNode(g, s, L, d, j);
    var id := DirOf(s, L, d)[j].first;
    OnlyDotsExactly(DirOf(s, L, id));
    if OnlyDots(DirOf(s, L, id)) {
      OnlyDotsIsChildless(g, s, L, id);
    }
    if Childless(g, L, id) {
      ChildlessIsOnlyDots(g, s, L, id);
    }
  }

  /** fat_unlink removes exactly the files. */
  lemma UnlinkExactly(g: Geometry, s: State, L: Layout, d: nat, j: nat)
    requires Inv(g, s, L) && ObjectSlot(s, L, d, j)
    ensures var e, plan := DirOf(s, L, d)[j], PlanRemove(g, s, L, d, j, false);
      && (plan.reply == Done(0) <==> e.kind == 0) && (e.kind == 0 || e.kind == 1)
      && (plan.reply != Done(0) ==> plan == Plan([], L, Failed))
  {
    ObjectSlotNode(g, s, L, d, j);
  }

  lemma PlanRemoveKeepsInv(g: Geometry, s: State, L: Layout, d: nat, j: nat, isDir: bool)
    requires Inv(g, s, L) && ObjectSlot(s, L, d, j)
    ensures var plan := PlanRemove(g, s, L, d, j, isDir);
      Inv(g, ApplyAll(s, plan.ws), plan.L)
  {
    ObjectSlotNode(g, s, L, d, j);
    var e := DirOf(s, L, d)[j];
    if PlanRemove(g, s, L, d, j, isDir).reply.Done? {
      OnlyDotsIsChildless(g, s, L, e.first);
      RemoveKeepsInv(g, s, L, d, j);
    }
  }

  lemma PlanMakeKeepsInv(g: Geometry, s: State, L: Layout, path: Path, isDir: bool, time: seq<byte>)
    requires g.Valid() && Inv(g, s, L) && KernelPath(g, s, L, path) && |time| == 8
    ensures var plan := PlanMake(g, s, L, path, isDir, time);
      Inv(g, ApplyAll(s, plan.ws), plan.L)
  {
    ParentIsNormal(path);
    ParentIsInTree(g, s, L, path);
    var d := ParentDir(g, s, L, path);
    if L.free != [] && d.Some? {
      MakeIsPossible(g, s, L, d.value, TargetOf(path), time);
      if isDir {
        MakeDirKeepsInv(g, s, L, d.value, TargetOf(path), time);
      } else {
        MakeFileIsCrashSafe(g, s, L, d.value, TargetOf(path), time);
      }
    }
  }

  lemma PlanTargetKeepsInv(g: Geometry, s: State, L: Layout, op: Op, d: nat, name: Name)
    requires g.Valid() && Inv(g, s, L) && Sane(op) && !op.Mknod? && !op.Mkdir?
    requires d in L.nodes && L.nodes[d].isDir && TargetName(name)
    ensures var plan := PlanTarget(g, s, L, op, d, name);
      !plan.reply.Wild? ==> Inv(g, ApplyAll(s, plan.ws), plan.L)
  {
    TargetIsObject(g, s, L, d, name);
    var j := FindIndex(DirOf(s, L, d), name);
    if j < |DirOf(s, L, d)| {
      if op.Write? {
        UpdateKeepsInv(g, s, L, d, j, op.buf, op.off, op.time);
      } else if op.Truncate? {
        TruncateKeepsInv(g, s, L, d, j, op.size, op.time);
      } else {
        PlanRemoveKeepsInv(g, s, L, d, j, op.Rmdir?);
      }
    }
  }

  /** Every operation leads from a consistent filesystem to a consistent one, unless its allocation is short
      by exactly one cluster. */
  lemma OperationKeepsInv(g: Geometry, s: State, L: Layout, op: Op)
    requires g.Valid() && Inv(g, s, L) && Admissible(g, s, L, op)
    ensures var plan := PlanOf(g, s, L, op);
      !plan.reply.Wild? ==> Inv(g, ApplyAll(s, plan.ws), plan.L)
  {
    ParentIsNormal(op.path);
    ParentIsInTree(g, s, L, op.path);
    if op.Mknod? || op.Mkdir? {
      PlanMakeKeepsInv(g, s, L, op.path, op.Mkdir?, op.time);
    } else if ParentDir(g, s, L, op.path).Some? {
      PlanTargetKeepsInv(g, s, L, op, ParentDir(g, s, L, op.path).value, TargetOf(op.path));
    }
  }

  /** The writes of an operation whose allocation is short by one. */
  lemma WildWrites(g: Geometry, s: State, L: Layout, op: Op)
    requires g.Valid() && Inv(g, s, L) && Admissible(g, s, L, op) && PlanOf(g, s, L, op).reply.Wild?
    ensures (op.Write? || op.Truncate?) && PlanOf(g, s, L, op).ws == StrayWrites(op.stray)
  {
    ParentIsNormal(op.path);
    ParentIsInTree(g, s, L, op.path);
    if !op.Mknod? && !op.Mkdir? {
      WildTarget(g, s, L, op, ParentDir(g, s, L, op.path).value, TargetOf(op.path));
    }
  }

  lemma WildTarget(g: Geometry, s: State, L: Layout, op: Op, d: nat, name: Name)
    requires g.Valid() && Inv(g, s, L) && Sane(op) && !op.Mknod? && !op.Mkdir?
    requires d in L.nodes && L.nodes[d].isDir && TargetName(name) && PlanTarget(g, s, L, op, d, name).reply.Wild?
    ensures (op.Write? || op.Truncate?) && PlanTarget(g, s, L, op, d, name).ws == StrayWrites(op.stray)
  {
    TargetIsObject(g, s, L, d, name);
  }

  // ---- Runs ----

  /** The operations of `ops`, in order, each admissible when its turn comes. No allocation is short by
      exactly one cluster, and a failed assertion ends the run. */
  ghost predicate IsRun(g: Geometry, s: State, L: Layout, ops: seq<Op>)
    requires g.Valid() && Inv(g, s, L)
    decreases |ops|
  {
    ops == [] ||
    (&& Admissible(g, s, L, ops[0])
     && var plan := PlanOf(g, s, L, ops[0]);
     OperationKeepsInv(g, s, L, ops[0]);
     && !plan.reply.Wild? && (plan.reply.Aborted? ==> |ops| == 1)
     && IsRun(g, ApplyAll(s, plan.ws), plan.L, ops[1..]))
  }

  /** State and layout at the end of a run. */
  ghost function RunFrom(g: Geometry, s: State, L: Layout, ops: seq<Op>): (r: (State, Layout))
    requires g.Valid() && Inv(g, s, L) && IsRun(g, s, L, ops)
    ensures Inv(g, r.0, r.1)
    decreases |ops|
  {
    if ops == [] then (s, L)
    else
      var plan := PlanOf(g, s, L, ops[0]);
      OperationKeepsInv(g, s, L, ops[0]);
      RunFrom(g, ApplyAll(s, plan.ws), plan.L, ops[1..])
  }

  /** What the operations of a run return. */
  ghost function RunReplies(g: Geometry, s: State, L: Layout, ops: seq<Op>): (r: seq<Reply>)
    requires g.Valid() && Inv(g, s, L) && IsRun(g, s, L, ops)
    ensures |r| == |ops|
    decreases |ops|
  {
    if ops == [] then []
    else
      var plan := PlanOf(g, s, L, ops[0]);
      OperationKeepsInv(g, s, L, ops[0]);
      [plan.reply] + RunReplies(g, ApplyAll(s, plan.ws), plan.L, ops[1..])
  }

  /** One successful operation. */
  ghost predicate Step(g: Geometry, s: State, L: Layout, op: Op, s': State, L': Layout) {
    && g.Valid() && Inv(g, s, L) && Inv(g, s', L') && Admissible(g, s, L, op)
    && var plan := PlanOf(g, s, L, op);
    && plan.reply.Done? && s' == ApplyAll(s, plan.ws) && L' == plan.L
  }

  /** A run and its end. */
  ghost predicate Leads(g: Geometry, s: State, L: Layout, ops: seq<Op>, s': State, L': Layout) {
    g.Valid() && Inv(g, s, L) && IsRun(g, s, L, ops) && RunFrom(g, s, L, ops) == (s', L')
  }

  lemma LeadsOne(g: Geometry, s: State, L: Layout, op: Op, s': State, L': Layout)
    requires Step(g, s, L, op, s', L')
    ensures Leads(g, s, L, [op], s', L')
  {
    assert [op][1..] == [];
  }

  /** An operation in front of a run. */
  lemma LeadsMore(g: Geometry, s: State, L: Layout, op: Op, s1: State, L1: Layout, ops: seq<Op>, s': State, L': Layout)
    requires Step(g, s, L, op, s1, L1) && Leads(g, s1, L1, ops, s', L')
    ensures Leads(g, s, L, [op] + ops, s', L')
  {
    assert ([op] + ops)[0] == op && ([op] + ops)[1..] == ops;
  }

  lemma LeadsTwo(g: Geometry, s: State, L: Layout, a: Op, s1: State, L1: Layout, b: Op, s': State, L': Layout)
    requires Step(g, s, L, a, s1, L1) && Step(g, s1, L1, b, s', L')
    ensures Leads(g, s, L, [a, b], s', L')
  {
    LeadsOne(g, s1, L1, b, s', L');
    LeadsMore(g, s, L, a, s1, L1, [b], s', L');
    assert [a, b] == [a] + [b];
  }
}
