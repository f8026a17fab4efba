/** A run that shows old bytes: on every disk, a write past the end of a file that was shrunk before reveals
    what the shrink had cut off. */
module Stale {
  import opened Bytes
  import opened States
  import opened Entries
  import opened Layouts
  import opened Trees
  import opened Update
  import opened Make
  import opened Effects
  import opened Paths
  import opened Machine
  import opened FlatModel
  import opened Theorems
  import opened Refinement
  import opened DirMap

  /** "/f". */
  const PATH: Path := [47, 102]
  const NAME: Name := [102]

  /** Make the file, write 7 at offset 1, cut the file to one byte, write 9 at offset 2. */
  function StaleOps(time: seq<byte>): seq<Op> {
    [Mknod(PATH, time)] + RestOps(time)
  }

  function RestOps(time: seq<byte>): seq<Op> {
    [Op.Write(PATH, [7], 1, time, None), Truncate(PATH, 1, time, None), Op.Write(PATH, [9], 2, time, None)]
  }

  lemma PathParts()
    ensures SLASH in PATH && ParentPath(PATH) == [] && TargetOf(PATH) == NAME && NormalPath(PATH)
  {
    assert PATH == [SLASH] + NAME;
    TopLevelPath(NAME);
  }

  /** The path of an object in the root. */
  lemma TopLevelPath(name: Name)
    requires name != [] && NoNul(name) && SLASH !in name
    ensures var path := [SLASH] + name;
      SLASH in path && ParentPath(path) == [] && TargetOf(path) == name && NormalPath(path)
  {
    var path := [SLASH] + name;
    assert path == [] + [SLASH] + name;
    SplitIsUnique(path, [], name);
    TokensOfPath([], name);
    assert Tokens([]) == [[]];
    assert Components(path) == [name];
  }

  lemma PathIsAdmissible(g: Geometry, s: State, L: Layout)
    ensures KernelPath(g, s, L, PATH)
  {
    PathParts();
  }

  /** The file is found in slot `j` of the root, has one cluster and the given size and bytes. */
  ghost predicate Holding(g: Geometry, A: Flat, j: nat, size: nat, bytes: seq<byte>) {
    && A.HasSlot(g.Root(), j) && j == FindIndex(A.objs[g.Root()].slots, NAME)
    && var e := A.objs[g.Root()].slots[j];
    && e.size == size && e.first != g.Root() && A.IsFile(e.first) && A.objs[e.first] == FileObj(bytes, 1)
  }

  lemma OneCluster(g: Geometry, off: nat, n: nat)
    requires 512 <= g.B && 0 < n && off + n <= 4
    ensures SpotOf(g, off, n).need == 1 && CutOf(g, off) == 1
  {
    SpotOfIs(g, off, n);
    CutOfIs(g, off);
    var p, k := SpotOf(g, off, n), CutOf(g, off);
    TimesUnique(p.need - 1, 0, g.B, off + n - 1);
    TimesUnique(k - 1, 0, g.B, off);
  }

  /** A write into the first cluster. */
  lemma WriteHere(g: Geometry, A: Flat, j: nat, size: nat, bytes: seq<byte>, x: byte, off: nat, time: seq<byte>, o: nat)
    requires g.Valid() && g.N < U32 && Holding(g, A, j, size, bytes) && |bytes| == g.B && off + 1 <= 4
        && |time| == 8 && o < U32
    ensures SLASH in PATH
    ensures var (A', reply) := FlatStep(g, A, Op.Write(PATH, [x], off, time, None), o);
      reply == Done(1) && Holding(g, A', j, Max(size, off + 1), Splice(bytes, off, [x]))
  {
    PathParts();
    OneCluster(g, off, 1);
    var r := g.Root();
    var e := A.objs[r].slots[j];
    var e' := UpdatedEntry(e, off + 1, time);
    UpdatedIsFound(A.objs[r].slots, NAME, e');
    FindIndexIs(A.objs[r].slots[j := e'], NAME, j);
    assert Times(0, g.B) == 0;
    assert bytes + Zeros(0) == bytes;
    assert FlatStep(g, A, Op.Write(PATH, [x], off, time, None), o) == FlatUpdate(g, A, r, j, [x], off, time);
  }

  /** A shrink inside the first cluster. */
  lemma ShrinkHere(g: Geometry, A: Flat, j: nat, was: nat, bytes: seq<byte>, size: nat, time: seq<byte>, o: nat)
    requires g.Valid() && g.N < U32 && Holding(g, A, j, was, bytes) && |bytes| == g.B && size < was <= 4
        && |time| == 8 && o < U32
    ensures SLASH in PATH
    ensures var (A', reply) := FlatStep(g, A, Truncate(PATH, size, time, None), o);
      reply == Done(0) && Holding(g, A', j, size, bytes)
  {
    PathParts();
    OneCluster(g, size, 1);
    var r := g.Root();
    var e := A.objs[r].slots[j];
    FindIndexIs(A.objs[r].slots[j := e.(size := size)], NAME, j);
    assert Times(1, g.B) == g.B;
    assert bytes[..g.B] == bytes;
    assert FlatStep(g, A, Truncate(PATH, size, time, None), o) == FlatTruncate(g, A, r, j, size, time);
  }

  /** The new file. */
  lemma MakeHere(g: Geometry, time: seq<byte>, o: nat) returns (j: nat)
    requires g.Valid() && g.N < U32 && |time| == 8 && o < U32 && o != g.Root()
    ensures SLASH in PATH
    ensures var (A', reply) := FlatStep(g, FreshFlat(g, time), Mknod(PATH, time), o);
      reply == Done(0) && Holding(g, A', j, 0, Zeros(g.B)) && A'.free == g.N - g.K - 3
  {
    PathParts();
    var A, r, e := FreshFlat(g, time), g.Root(), NewEntry(NAME, o, false, time);
    var ss := A.objs[r].slots;
    FreshSlots(g, time);
    NewEntryIsFresh(NAME, o, false, time);
    InsertedIsFound(g, ss, e);
    j := FindIndex(Inserted(g, ss, e), NAME);
  }

  lemma FreshSlots(g: Geometry, time: seq<byte>)
    requires g.Valid() && g.N < U32 && |time| == 8
    ensures var A := FreshFlat(g, time);
      && A.IsDir(g.Root()) && A.free == g.N - g.K - 2 && !FullDir(A, g.Root())
      && Lookup(A.objs[g.Root()].slots, NAME).None?
  {
    var ss := FreshRoot(g, time);
    SlotNames(g, g.Root(), g.Root(), time);
    OnlyDotNames(ss);
  }

  /** Behind the two dot entries all names are empty. */
  ghost predicate DotNames(ss: seq<Entry>) {
    && 3 <= |ss| && CName(ss[0].name) == DOT && CName(ss[1].name) == DOTDOT
    && forall i :: 2 <= i < |ss| ==> CName(ss[i].name) == []
  }

  lemma OnlyDotNames(ss: seq<Entry>)
    requires DotNames(ss)
    ensures Lookup(ss, NAME).None? && FindIndex(ss, []) < |ss|
  {
    FindIndexIs(ss, NAME, |ss|);
    assert CName(ss[2].name) == [];
  }

  lemma FreshRoot(g: Geometry, time: seq<byte>) returns (ss: seq<Entry>)
    requires g.Valid() && g.N < U32 && |time| == 8
    ensures var r, A := g.Root(), FreshFlat(g, time);
      && ss == Slots(DotsBlock(g, r, r, time)) && r in A.objs && A.objs[r] == DirObj(ss, 1) && A.free == g.N - g.K - 2
  {
    var r, s := g.Root(), FreshState(g, time);
    ss := Slots(DotsBlock(g, r, r, time));
    assert DirSlots(s.data, []) == [];
    assert DirSlots(s.data, [r]) == ss + DirSlots(s.data, []);
  }

  lemma SlotNames(g: Geometry, o: nat, d: nat, time: seq<byte>)
    requires 512 <= g.B && o < U32 && d < U32 && |time| == 8
    ensures DotNames(Slots(DotsBlock(g, o, d, time)))
  {
    var ss := Slots(DotsBlock(g, o, d, time));
    DotsAreFresh(g, o, d, time);
    forall i | 2 <= i < |ss|
      ensures CName(ss[i].name) == []
    {
      assert ss[i] == Slot(DotsBlock(g, o, d, time), i);
      DeadSlotIsFree(ss, i);
    }
  }

  /** One step of a run: the disk does what the flat filesystem does. */
  lemma DiskStep(g: Geometry, s: State, L: Layout, op: Op) returns (s': State, L': Layout)
    requires g.Valid() && Inv(g, s, L) && op.path == PATH && Sane(op) && SLASH in PATH && NewId(L) < U32
    requires FlatStep(g, FlatOf(s, L), op, NewId(L)).1.Done?
    ensures Step(g, s, L, op, s', L') && FlatOf(s', L') == FlatStep(g, FlatOf(s, L), op, NewId(L)).0
  {
    PathIsAdmissible(g, s, L);
    OperationIsFlat(g, s, L, op);
    AnswerDiffersExactly(g, FlatOf(s, L), op, NewId(L));
    OperationKeepsInv(g, s, L, op);
    s', L' := ApplyAll(s, PlanOf(g, s, L, op).ws), PlanOf(g, s, L, op).L;
  }

  /** The creation of the file. */
  lemma DiskMake(g: Geometry, time: seq<byte>) returns (s': State, L': Layout, j: nat)
    requires g.Valid() && g.N < U32 && |time| == 8
    ensures Step(g, FreshState(g, time), FreshLayout(g), Mknod(PATH, time), s', L')
    ensures Holding(g, FlatOf(s', L'), j, 0, Zeros(g.B)) && |L'.free| == g.N - g.K - 3
  {
    FreshIsConsistent(g, time);
    PathParts();
    j := MakeHere(g, time, NewId(FreshLayout(g)));
    s', L' := DiskStep(g, FreshState(g, time), FreshLayout(g), Mknod(PATH, time));
  }

  /** A write into the first cluster, on the disk. */
  lemma DiskWrite(g: Geometry, s: State, L: Layout, j: nat, size: nat, bytes: seq<byte>, x: byte, off: nat,
      time: seq<byte>) returns (s': State, L': Layout)
    requires g.Valid() && g.N < U32 && Inv(g, s, L) && Holding(g, FlatOf(s, L), j, size, bytes)
    requires |bytes| == g.B && off + 1 <= 4 && |time| == 8
    ensures Step(g, s, L, Op.Write(PATH, [x], off, time, None), s', L')
    ensures Holding(g, FlatOf(s', L'), j, Max(size, off + 1), Splice(bytes, off, [x]))
  {
    PathParts();
    NewIdIsNew(g, s, L);
    WriteHere(g, FlatOf(s, L), j, size, bytes, x, off, time, NewId(L));
    s', L' := DiskStep(g, s, L, Op.Write(PATH, [x], off, time, None));
  }

  /** A shrink inside the first cluster, on the disk. */
  lemma DiskShrink(g: Geometry, s: State, L: Layout, j: nat, was: nat, bytes: seq<byte>, size: nat, time: seq<byte>)
    returns (s': State, L': Layout)
    requires g.Valid() && g.N < U32 && Inv(g, s, L) && Holding(g, FlatOf(s, L), j, was, bytes)
    requires |bytes| == g.B && size < was <= 4 && |time| == 8
    ensures Step(g, s, L, Truncate(PATH, size, time, None), s', L')
    ensures Holding(g, FlatOf(s', L'), j, size, bytes)
  {
    PathParts();
    NewIdIsNew(g, s, L);
    ShrinkHere(g, FlatOf(s, L), j, was, bytes, size, time, NewId(L));
    s', L' := DiskStep(g, s, L, Truncate(PATH, size, time, None));
  }

  /** The three bytes that are read at the end. */
  ghost predicate ShowsSeven(g: Geometry, A: Flat, j: nat) {
    && FileHere(g, A, g.Root(), j) && CName(A.objs[g.Root()].slots[j].name) == NAME
    && Visible(A, g.Root(), j) == [0, 7, 9]
  }

  lemma SeenAtEnd(g: Geometry, A: Flat, j: nat, bytes: seq<byte>)
    requires 512 <= g.B && bytes == Splice(Zeros(g.B), 1, [7]) && Holding(g, A, j, 3, Splice(bytes, 2, [9]))
    ensures ShowsSeven(g, A, j)
  {
    assert Times(1, g.B) == g.B;
    assert Splice(bytes, 2, [9])[..3] == [0, 7, 9];
  }

  /** The run from the new file on. */
  lemma RestOfRun(g: Geometry, time: seq<byte>, j: nat, s1: State, L1: Layout) returns (s: State, L: Layout)
    requires g.Valid() && g.N < U32 && |time| == 8 && Inv(g, s1, L1) && Holding(g, FlatOf(s1, L1), j, 0, Zeros(g.B))
    ensures Leads(g, s1, L1, RestOps(time), s, L) && ShowsSeven(g, FlatOf(s, L), j)
  {
    var bytes := Splice(Zeros(g.B), 1, [7]);
    var s2, L2 := DiskWrite(g, s1, L1, j, 0, Zeros(g.B), 7, 1, time);
    var s3, L3 := DiskShrink(g, s2, L2, j, 2, bytes, 1, time);
    s, L := DiskWrite(g, s3, L3, j, 1, bytes, 9, 2, time);
    SeenAtEnd(g, FlatOf(s, L), j, bytes);
    var a, b := Op.Write(PATH, [7], 1, time, None), Truncate(PATH, 1, time, None);
    var c := Op.Write(PATH, [9], 2, time, None);
    ThreeSteps(g, s1, L1, a, s2, L2, b, s3, L3, c, s, L);
  }

  lemma ThreeSteps(g: Geometry, s1: State, L1: Layout, a: Op, s2: State, L2: Layout, b: Op, s3: State, L3: Layout,
      c: Op, s: State, L: Layout)
    requires Step(g, s1, L1, a, s2, L2) && Step(g, s2, L2, b, s3, L3) && Step(g, s3, L3, c, s, L)
    ensures Leads(g, s1, L1, [a, b, c], s, L)
  {
    LeadsTwo(g, s2, L2, b, s3, L3, c, s, L);
    LeadsMore(g, s1, L1, a, s2, L2, [b, c], s, L);
    assert [a, b, c] == [a] + [b, c];
  }

  /** From a fresh format of any geometry the run is possible, and at its end a reader of the three bytes of
      the file sees the 7 that the shrink had cut off. */
  lemma OldByteShows(g: Geometry, time: seq<byte>) returns (j: nat)
    requires g.Valid() && g.N < U32 && |time| == 8
    ensures FreshRun(g, time, StaleOps(time))
    ensures var (s, L) := FreshRunEnd(g, time, StaleOps(time)); ShowsSeven(g, FlatOf(s, L), j)
  {
    var s1, L1;
    s1, L1, j := DiskMake(g, time);
    var s, L := RestOfRun(g, time, j, s1, L1);
    LeadsMore(g, FreshState(g, time), FreshLayout(g), Mknod(PATH, time), s1, L1, RestOps(time), s, L);
    FreshLeads(g, time, StaleOps(time), s, L);
  }
}
