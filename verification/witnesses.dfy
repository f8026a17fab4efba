/** Runs that reach the exceptional cases, on every disk: the allocation short by one cluster, the false
    success of a truncate, the file taken for a directory in use, and the lost cluster. */
module Witnesses {
  import opened Bytes
  import opened States
  import opened Entries
  import opened Layouts
  import opened Trees
  import opened Paths
  import opened Machine
  import opened FlatModel
  import opened Theorems
  import opened Refinement
  import opened Stale

  // ---- A disk with one new file ----

  function MakeOps(time: seq<byte>): seq<Op> {
    [Mknod(PATH, time)]
  }

  /** After the creation of one file from a fresh format. */
  lemma OneFile(g: Geometry, time: seq<byte>) returns (s: State, L: Layout, j: nat)
    requires g.Valid() && g.N < U32 && |time| == 8
    ensures FreshRun(g, time, MakeOps(time)) && (s, L) == FreshRunEnd(g, time, MakeOps(time)) && Inv(g, s, L)
    ensures Holding(g, FlatOf(s, L), j, 0, Zeros(g.B)) && |L.free| == g.N - g.K - 3
  {
    s, L, j := DiskMake(g, time);
    LeadsOne(g, FreshState(g, time), FreshLayout(g), Mknod(PATH, time), s, L);
    FreshLeads(g, time, MakeOps(time), s, L);
  }

  // ---- Short by one ----

  /** The first byte behind the space that the file and the free clusters make up. */
  lemma BeyondAll(g: Geometry)
    requires g.Valid()
    ensures Times(g.N - g.K - 2, g.B) + 1 < U32
    ensures SpotOf(g, Times(g.N - g.K - 2, g.B), 1).need == g.N - g.K - 1
  {
    var n := g.N - g.K - 2;
    var off := Times(n, g.B);
    TimesMono(n, g.N, g.B);
    SpotOfIs(g, off, 1);
    var p := SpotOf(g, off, 1);
    TimesUnique(p.need - 1, n, g.B, off);
  }

  /** An allocation short by exactly one cluster can be asked for on every disk: write the first byte that the
      free clusters do not reach. */
  lemma ShortByOneHappens(g: Geometry, time: seq<byte>, stray: Option<nat>) returns (s: State, L: Layout)
    requires g.Valid() && g.N < U32 && |time| == 8 && (stray.Some? ==> stray.value < U32)
    ensures FreshRun(g, time, MakeOps(time)) && (s, L) == FreshRunEnd(g, time, MakeOps(time)) && Inv(g, s, L)
    ensures var op := Op.Write(PATH, [7], Times(g.N - g.K - 2, g.B), time, stray);
      Admissible(g, s, L, op) && PlanOf(g, s, L, op).reply.Wild?
  {
    var j;
    s, L, j := OneFile(g, time);
    PathParts();
    BeyondAll(g);
    var A, off := FlatOf(s, L), Times(g.N - g.K - 2, g.B);
    var op := Op.Write(PATH, [7], off, time, stray);
    PathIsAdmissible(g, s, L);
    OperationIsFlat(g, s, L, op);
    BeyondIsWild(g, A, j, op, NewId(L));
  }

  lemma BeyondIsWild(g: Geometry, A: Flat, j: nat, op: Op, o: nat)
    requires g.Valid() && g.N < U32 && Holding(g, A, j, 0, Zeros(g.B)) && A.free == g.N - g.K - 3 && o < U32
    requires op.Write? && op.path == PATH && op.buf == [7] && Sane(op)
    requires SpotOf(g, op.off, 1).need == g.N - g.K - 1
    ensures SLASH in PATH && FlatStep(g, A, op, o).1.Wild?
  {
    PathParts();
    assert FlatStep(g, A, op, o) == FlatUpdate(g, A, g.Root(), j, [7], op.off, op.time);
  }

  // ---- The false success ----

  /** More clusters than any disk has. */
  lemma TooMuch(g: Geometry)
    requires g.Valid()
    ensures SpotOf(g, 0, U32 - ENOMEM).need > g.N - g.K - 1
  {
    SpotOfIs(g, 0, U32 - ENOMEM);
    var p, n := SpotOf(g, 0, U32 - ENOMEM), g.N - g.K - 1;
    if p.need <= n {
      TimesMono(p.need, n, g.B);
      TimesMono(n, g.N, g.B);
    }
  }

  /** On every disk an extension of a new file to 2^32 - 12 bytes answers success and does nothing. */
  lemma FalseSuccessHappens(g: Geometry, time: seq<byte>) returns (s: State, L: Layout, j: nat)
    requires g.Valid() && g.N < U32 && |time| == 8
    ensures FreshRun(g, time, MakeOps(time)) && (s, L) == FreshRunEnd(g, time, MakeOps(time)) && Inv(g, s, L)
    ensures var op, A := Truncate(PATH, U32 - ENOMEM, time, None), FlatOf(s, L);
      && Admissible(g, s, L, op)
      && var plan := PlanOf(g, s, L, op);
      && plan.reply == Done(0) && FlatOf(ApplyAll(s, plan.ws), plan.L) == A
      && A.HasSlot(g.Root(), j) && CName(A.objs[g.Root()].slots[j].name) == NAME && A.objs[g.Root()].slots[j].size == 0
  {
    s, L, j := OneFile(g, time);
    PathParts();
    TooMuch(g);
    var op, A := Truncate(PATH, U32 - ENOMEM, time, None), FlatOf(s, L);
    PathIsAdmissible(g, s, L);
    assert FalseSuccess(g, A, g.Root(), j, op.size);
    assert TargetSlot(g, A, op) == Some((g.Root(), j));
    OperationIsFlat(g, s, L, op);
    AnswerDiffersExactly(g, A, op, NewId(L));
  }

  // ---- The file taken for a directory ----

  function SevenOps(time: seq<byte>): seq<Op> {
    [Mknod(PATH, time), Op.Write(PATH, [7], 0, time, None)]
  }

  /** A byte that is not zero at the start of a file looks like an entry. */
  lemma SevenLooksFull(g: Geometry)
    requires 512 <= g.B
    ensures !OnlyDots(FileSlots(Splice(Zeros(g.B), 0, [7]), g.B))
  {
    var bytes := Splice(Zeros(g.B), 0, [7]);
    assert bytes[..g.B] == bytes;
    var ss := FileSlots(bytes, g.B);
    assert ss[0] == Slots(bytes)[0] == Slot(bytes, 0);
    assert ss[0].name == bytes[0..40][..22];
    assert CName(ss[0].name)[0] == 7;
  }

  lemma SevenRun(g: Geometry, time: seq<byte>) returns (s: State, L: Layout, j: nat)
    requires g.Valid() && g.N < U32 && |time| == 8
    ensures FreshRun(g, time, SevenOps(time)) && (s, L) == FreshRunEnd(g, time, SevenOps(time))
    ensures Holding(g, FlatOf(s, L), j, 1, Splice(Zeros(g.B), 0, [7]))
  {
    var s1, L1;
    s1, L1, j := DiskMake(g, time);
    s, L := DiskWrite(g, s1, L1, j, 0, Zeros(g.B), 7, 0, time);
    var op := Op.Write(PATH, [7], 0, time, None);
    LeadsTwo(g, FreshState(g, time), FreshLayout(g), Mknod(PATH, time), s1, L1, op, s, L);
    FreshLeads(g, time, SevenOps(time), s, L);
  }

  /** On every disk an rmdir of a file that holds one byte answers "not empty". */
  lemma FileTakenForDirectory(g: Geometry, time: seq<byte>) returns (s: State, L: Layout, j: nat)
    requires g.Valid() && g.N < U32 && |time| == 8
    ensures FreshRun(g, time, SevenOps(time)) && (s, L) == FreshRunEnd(g, time, SevenOps(time)) && Inv(g, s, L)
    ensures var op, A := Rmdir(PATH), FlatOf(s, L);
      && Admissible(g, s, L, op) && PlanOf(g, s, L, op).reply == NotEmpty
      && A.HasSlot(g.Root(), j) && CName(A.objs[g.Root()].slots[j].name) == NAME
      && A.IsFile(A.objs[g.Root()].slots[j].first)
  {
    s, L, j := SevenRun(g, time);
    SevenLooksFull(g);
    NotADirectory(g, s, L, j, Splice(Zeros(g.B), 0, [7]));
  }

  lemma NotADirectory(g: Geometry, s: State, L: Layout, j: nat, bytes: seq<byte>)
    requires g.Valid() && g.N < U32 && Inv(g, s, L) && Holding(g, FlatOf(s, L), j, 1, bytes)
    requires !OnlyDots(FileSlots(bytes, g.B))
    ensures Admissible(g, s, L, Rmdir(PATH)) && PlanOf(g, s, L, Rmdir(PATH)).reply == NotEmpty
  {
    PathParts();
    var op, A := Rmdir(PATH), FlatOf(s, L);
    PathIsAdmissible(g, s, L);
    assert LooksFull(g, A, g.Root(), j);
    assert TargetSlot(g, A, op) == Some((g.Root(), j));
    OperationIsFlat(g, s, L, op);
  }

  // ---- The lost cluster ----

  /** A name of 22 bytes. */
  function LongName(): (name: Name)
    ensures |name| == 22 && NoNul(name) && SLASH !in name
  {
    seq(22, i => 97)
  }

  function LostOps(time: seq<byte>): seq<Op> {
    [Mknod([SLASH] + LongName(), time)]
  }

  /** On every disk a mknod with a name of 22 bytes answers success and loses a cluster. */
  lemma LostClusterHappens(g: Geometry, time: seq<byte>) returns (s: State, L: Layout)
    requires g.Valid() && g.N < U32 && |time| == 8
    ensures FreshRun(g, time, LostOps(time)) && (s, L) == FreshRunEnd(g, time, LostOps(time)) && Inv(g, s, L)
    ensures FreshReplies(g, time, LostOps(time)) == [Done(0)]
    ensures |L.owner| == g.N && |Orphans(g, L)| == 1
  {
    FreshIsConsistent(g, time);
    var s0, L0, op := FreshState(g, time), FreshLayout(g), LostOps(time)[0];
    LongNameIsLost(g, time);
    NoOrphansYet(g);
    OrphansGrowExactly(g, s0, L0, op);
    OperationKeepsInv(g, s0, L0, op);
    s, L := ApplyAll(s0, PlanOf(g, s0, L0, op).ws), PlanOf(g, s0, L0, op).L;
    LeadsOne(g, s0, L0, op, s, L);
    FreshLeads(g, time, [op], s, L);
    assert LostOps(time) == [op];
  }

  lemma LongNameIsLost(g: Geometry, time: seq<byte>)
    requires g.Valid() && g.N < U32 && |time| == 8 && Inv(g, FreshState(g, time), FreshLayout(g))
    ensures var s, L, op := FreshState(g, time), FreshLayout(g), LostOps(time)[0];
      Admissible(g, s, L, op) && LosesACluster(g, s, L, op) && !PlanOf(g, s, L, op).reply.Wild?
  {
    TopLevelPath(LongName());
  }
}
