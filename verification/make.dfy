/** add_dir_entry: a new file or directory under a parent. */
module Make {
  import opened Bytes
  import opened States
  import opened Entries
  import opened Allocator
  import opened Layouts
  import opened Trees
  import opened Steps
  import opened Update

  /** The entry that add_dir_entry_to_cluster writes. */
  function NewEntry(name: Name, first: nat, isDir: bool, time: seq<byte>): Entry
    requires |name| <= MAX_NAME
  {
    Entry(NameField(name), if isDir then KIND_DIR else KIND_FILE, 0, first, time)
  }

  /** The writes of add_dir_entry_to_cluster on a chain `C`: into the first free slot, or into
      a new cluster when there is none. */
  ghost function AddWrites(g: Geometry, s: State, C: seq<nat>, F: seq<nat>, e: Entry): seq<Write>
    requires WfEntry(e)
  {
    var ss := DirSlots(s.data, C);
    var j := FindIndex(ss, []);
    if j < |ss| then SlotWrite(s.data, C, j, e)
    else if C != [] && F != [] then AddInNew(g, s, C, F, j, e)
    else []
  }

  ghost function AddInNew(g: Geometry, s: State, C: seq<nat>, F: seq<nat>, j: nat, e: Entry): seq<Write>
    requires WfEntry(e) && C != [] && F != []
  {
    var grow := GrowWrites(g, C, F, 1);
    grow + SlotWrite(ApplyAll(s, grow).data, C + [F[0]], j, e)
  }

  /** When it succeeds: the name fits, and there is a free slot or a free cluster. */
  ghost predicate AddOk(s: State, C: seq<nat>, F: seq<nat>, name: Name) {
    && 0 < |name| <= MAX_NAME
    && (FindIndex(DirSlots(s.data, C), []) < |DirSlots(s.data, C)| || F != [])
  }

  /** A target name the kernel may pass down: any length, but no NUL and not a dot name. */
  ghost predicate TargetName(name: Name) {
    NoNul(name) && name != [] && name != DOT && name != DOTDOT
  }

  lemma NewEntryIsFresh(name: Name, o: nat, isDir: bool, time: seq<byte>)
    requires TargetName(name) && |name| <= MAX_NAME && o < U32 && |time| == 8
    ensures WfEntry(NewEntry(name, o, isDir, time))
    ensures FreshEntry(NewEntry(name, o, isDir, time), o, isDir)
    ensures CName(NewEntry(name, o, isDir, time).name) == name
  {
    CNameOfPadded(name, NAME_FIELD - |name|);
  }

  // ---- Entering an orphan into a directory ----

  /** A full directory first gains a cluster. */
  ghost predicate Roomy(s: State, L: Layout, d: nat)
    requires d in L.nodes
  {
    FindIndex(DirOf(s, L, d), []) < |DirOf(s, L, d)|
  }

  ghost function RoomWrites(g: Geometry, s: State, L: Layout, d: nat): seq<Write>
    requires d in L.nodes
  {
    var C := L.nodes[d].chain;
    if Roomy(s, L, d) || C == [] || L.free == [] then [] else GrowWrites(g, C, L.free, 1)
  }

  ghost function RoomLayout(s: State, L: Layout, d: nat): Layout
    requires d in L.nodes
  {
    if Roomy(s, L, d) || L.free == [] then L else Grown(L, d, 1)
  }

  lemma DeadSlotIsFree(ss: seq<Entry>, j: nat)
    requires j < |ss| && WfEntry(ss[j])
    ensures Live(ss[j]) <==> CName(ss[j].name) != []
  {
  }

  /** The slots of a directory after it was given one more, zeroed cluster. */
  lemma GrownDir(g: Geometry, s: State, L: Layout, d: nat)
    requires Inv(g, s, L) && d in L.nodes && L.free != []
    ensures L.nodes[d].chain != []
    ensures var s1 := ApplyAll(s, GrowWrites(g, L.nodes[d].chain, L.free, 1));
      && Grown(L, d, 1).nodes[d].chain == L.nodes[d].chain + [L.free[0]]
      && DirOf(s1, Grown(L, d, 1), d) == DirOf(s, L, d) + Slots(Zeros(g.B))
      && OthersUntouched(s, s1, L, d, d)
  {
    NodeOf(g, s, L, d);
    var C, z := L.nodes[d].chain, L.free[0];
    var s1 := ApplyAll(s, GrowWrites(g, C, L.free, 1));
    FreeOf(g, s, L);
    GrowEffect(g, s, L, C, 1);
    ObjectsKept(g, s, s1, L);
    assert L.free[..1] == [z];
    GrownSlots(s.data, s1.data, C, z);
  }

  lemma GrownSlots(data: seq<Block>, data1: seq<Block>, C: seq<nat>, z: nat)
    requires Agree(data, data1, C)
    ensures DirSlots(data1, C + [z]) == DirSlots(data, C) + Slots(Get(data1, z))
  {
    DirSlotsFrame(data, data1, C);
    DirSlotsConcat(data1, C, [z]);
    assert DirSlots(data1, []) == [];
    assert DirSlots(data1, [z]) == Slots(Get(data1, z)) + DirSlots(data1, []);
  }

  /** Where the new entry goes, and that the slot there is free. */
  lemma RoomFound(g: Geometry, s: State, L: Layout, d: nat, e: Entry)
    requires Inv(g, s, L) && d in L.nodes && L.nodes[d].isDir && WfEntry(e) && 2 * ENTRY_SIZE <= g.B
    requires Roomy(s, L, d) || L.free != []
    ensures var a, L1, j := RoomWrites(g, s, L, d), RoomLayout(s, L, d), FindIndex(DirOf(s, L, d), []);
      var s1 := ApplyAll(s, a);
      && AddWrites(g, s, L.nodes[d].chain, L.free, e) == a + SlotWrite(s1.data, L1.nodes[d].chain, j, e)
      && Runs(g, s, L, a, L1) && OthersUntouched(s, s1, L, d, d)
      && DirOf(s, L, d) <= DirOf(s1, L1, d)
      && 2 <= j < |DirOf(s1, L1, d)| && !Live(DirOf(s1, L1, d)[j])
      && (forall k :: |DirOf(s, L, d)| <= k < |DirOf(s1, L1, d)| ==> !Live(DirOf(s1, L1, d)[k]))
  {
    var ss := DirOf(s, L, d);
    var j := FindIndex(ss, []);
    assert DirOk(g, s, L, d);
    if j < |ss| {
      NoRun(g, s, L);
      DirSlotsWf(s.data, L.nodes[d].chain);
      DeadSlotIsFree(ss, j);
    } else {
      GrowRuns(g, s, L, d, 1);
      GrownDir(g, s, L, d);
      forall k | 0 <= k < g.B / ENTRY_SIZE
        ensures !Live(Slots(Zeros(g.B))[k])
      {
        ZeroSlots(g.B, k);
      }
    }
  }

  /** Giving a directory a cluster does not concern an orphan. */
  lemma RoomKeepsOrphan(g: Geometry, s: State, L: Layout, d: nat, o: nat)
    requires StructOk(g, s, L) && d in L.nodes && g.K < o < g.N && L.owner[o] == ORPHAN
    ensures var s1, L1 := ApplyAll(s, RoomWrites(g, s, L, d)), RoomLayout(s, L, d);
      && |s1.fat| == g.N && |s1.data| == g.N && |L1.owner| == g.N
      && s1.fat[o] == s.fat[o] && s1.data[o] == s.data[o] && L1.owner[o] == ORPHAN
  {
    NodeOf(g, s, L, d);
    NodesOwnThemselves(g, s, L);
    FreeOf(g, s, L);
    var C, F := L.nodes[d].chain, L.free;
    if !Roomy(s, L, d) && F != [] {
      assert L.owner[F[0]] == FREE && L.owner[C[|C| - 1]] == d;
      PopSparesOthers(g, s, F, C[|C| - 1], o);
    }
  }

  lemma PopSparesOthers(g: Geometry, s: State, F: seq<nat>, last: nat, o: nat)
    requires WfState(g, s) && InData(g, F) && F != [] && last < g.N && g.K < o < g.N && o != F[0] && o != last
    ensures var s1 := ApplyAll(s, PopWrites(g, F, 1) + [Fat(last, F[0])]);
      |s1.fat| == g.N && |s1.data| == g.N && s1.fat[o] == s.fat[o] && s1.data[o] == s.data[o]
  {
    assert F[..1] == [F[0]];
    PopEffect(g, s, F, 1);
    ApplySnoc(s, PopWrites(g, F, 1), Fat(last, F[0]));
  }

  /** An orphan that is ready to become an object of the tree. */
  ghost predicate Newborn(g: Geometry, s: State, L: Layout, o: nat, isDir: bool, d: nat) {
    && g.Root() < o < g.N && o < |L.owner| && L.owner[o] == ORPHAN
    && o < |s.fat| && s.fat[o] == 0 && FreshObject(s, o, isDir, d)
  }

  /** Entering it keeps the invariant after every write. */
  lemma InsertRuns(g: Geometry, s: State, L: Layout, d: nat, e: Entry, isDir: bool)
    requires Inv(g, s, L) && d in L.nodes && L.nodes[d].isDir && WfEntry(e) && 2 * ENTRY_SIZE <= g.B
    requires Roomy(s, L, d) || L.free != []
    requires FreshEntry(e, e.first, isDir) && Newborn(g, s, L, e.first, isDir, d)
    ensures Runs(g, s, L, AddWrites(g, s, L.nodes[d].chain, L.free, e),
                 Adopted(RoomLayout(s, L, d), e.first, isDir, d, FindIndex(DirOf(s, L, d), [])))
  {
    var a, L1, j := RoomWrites(g, s, L, d), RoomLayout(s, L, d), FindIndex(DirOf(s, L, d), []);
    var s1 := ApplyAll(s, a);
    RoomFound(g, s, L, d, e);
    RoomKeepsOrphan(g, s, L, d, e.first);
    DirSlotsFrame(s.data, s1.data, [e.first]);
    AdoptRuns(g, s1, L1, d, j, e, isDir);
    RunsConcat(g, s, L, a, L1, SlotWrite(s1.data, L1.nodes[d].chain, j, e), Adopted(L1, e.first, isDir, d, j));
  }

  lemma AdoptRuns(g: Geometry, s: State, L: Layout, d: nat, j: nat, e: Entry, isDir: bool)
    requires Inv(g, s, L) && d in L.nodes && L.nodes[d].isDir && WfEntry(e)
    requires 2 <= j < |DirOf(s, L, d)| && !Live(DirOf(s, L, d)[j])
    requires FreshEntry(e, e.first, isDir) && Newborn(g, s, L, e.first, isDir, d)
    ensures Runs(g, s, L, SlotWrite(s.data, L.nodes[d].chain, j, e), Adopted(L, e.first, isDir, d, j))
  {
    var w := PutSlot(g, s, L, d, j, e);
    AdoptKeepsInv(g, s, L, d, j, e, w, isDir);
    NodesOwnThemselves(g, s, L);
    OneRun(g, s, L, w, Adopted(L, e.first, isDir, d, j));
  }

  // ---- The whole operation ----

  /** "." and ".." of a new directory `o` under `d`, written into its zeroed cluster. */
  ghost function DotBlock(g: Geometry, o: nat, time: seq<byte>): (b: Block)
    requires o < U32 && |time| == 8 && 2 * ENTRY_SIZE <= g.B
    ensures |b| == g.B
  {
    SetSlot(Zeros(g.B), 0, NewEntry(DOT, o, true, time))
  }

  ghost function DotsBlock(g: Geometry, o: nat, d: nat, time: seq<byte>): (b: Block)
    requires o < U32 && d < U32 && |time| == 8 && 2 * ENTRY_SIZE <= g.B
    ensures |b| == g.B
  {
    SetSlot(DotBlock(g, o, time), 1, NewEntry(DOTDOT, d, true, time))
  }

  ghost function DotWrites(g: Geometry, o: nat, d: nat, time: seq<byte>): seq<Write>
    requires o < U32 && d < U32 && |time| == 8 && 2 * ENTRY_SIZE <= g.B
  {
    [Data(o, DotBlock(g, o, time))] + [Data(o, DotsBlock(g, o, d, time))]
  }

  /** What the callers of add_dir_entry provide: a parent directory, a name, a free cluster
      (checked by has_free_cluster) and the time. */
  ghost predicate CanMake(g: Geometry, s: State, L: Layout, d: nat, name: Name, time: seq<byte>) {
    && Inv(g, s, L) && d in L.nodes && L.nodes[d].isDir && L.free != []
    && TargetName(name) && |time| == 8 && 2 * ENTRY_SIZE <= g.B && g.N < U32
    && g.K < d < g.N && g.Root() < L.free[0] < g.N
  }

  /** The state and layout once the first cluster of the new object is taken. */
  ghost function TakenState(g: Geometry, s: State, L: Layout): State
    requires L.free != []
  {
    ApplyAll(s, PopWrites(g, L.free, 1))
  }

  /** Whether the insertion into the parent succeeds. */
  ghost predicate MakeOk(g: Geometry, s: State, L: Layout, d: nat, name: Name)
    requires L.free != [] && d in L.nodes
  {
    AddOk(TakenState(g, s, L), L.nodes[d].chain, L.free[1..], name)
  }

  ghost function EntryWrites(g: Geometry, s: State, L: Layout, d: nat, name: Name, isDir: bool,
      time: seq<byte>): seq<Write>
    requires CanMake(g, s, L, d, name, time)
  {
    if MakeOk(g, s, L, d, name) then
      AddWrites(g, TakenState(g, s, L), L.nodes[d].chain, L.free[1..], NewEntry(name, L.free[0], isDir, time))
    else []
  }

  ghost function MakeWrites(g: Geometry, s: State, L: Layout, d: nat, name: Name, isDir: bool,
      time: seq<byte>): seq<Write>
    requires CanMake(g, s, L, d, name, time)
  {
    PopWrites(g, L.free, 1) + EntryWrites(g, s, L, d, name, isDir, time)
    + if isDir then DotWrites(g, L.free[0], d, time) else []
  }

  /** The new object, or one orphan more. */
  ghost function MakeLayout(g: Geometry, s: State, L: Layout, d: nat, name: Name, isDir: bool): Layout
    requires L.free != [] && d in L.nodes
  {
    var s1, L1 := TakenState(g, s, L), Taken(L, 1);
    if MakeOk(g, s, L, d, name) then
      Adopted(RoomLayout(s1, L1, d), L.free[0], isDir, d, FindIndex(DirOf(s1, L1, d), []))
    else L1
  }

  /** The taken cluster is a zeroed orphan that ends its chain. */
  lemma TakenIsNewborn(g: Geometry, s: State, L: Layout, d: nat)
    requires Inv(g, s, L) && L.free != []
    ensures var s1, L1 := TakenState(g, s, L), Taken(L, 1);
      && Inv(g, s1, L1) && L1.free == L.free[1..]
      && Newborn(g, s1, L1, L.free[0], false, d)
      && Get(s1.data, L.free[0]) == Zeros(g.B)
  {
    PopRuns(g, s, L, 1);
    FreeOf(g, s, L);
    PopEffect(g, s, L.free, 1);
    assert L.free[..1] == [L.free[0]];
  }

  /** Creating a file: consistent after every write, whether or not the insertion succeeds. */
  lemma MakeFileIsCrashSafe(g: Geometry, s: State, L: Layout, d: nat, name: Name, time: seq<byte>)
    requires CanMake(g, s, L, d, name, time)
    ensures Runs(g, s, L, MakeWrites(g, s, L, d, name, false, time), MakeLayout(g, s, L, d, name, false))
  {
    var a, b := PopWrites(g, L.free, 1), EntryWrites(g, s, L, d, name, false, time);
    var s1, L1 := TakenState(g, s, L), Taken(L, 1);
    PopRuns(g, s, L, 1);
    TakenIsNewborn(g, s, L, d);
    if MakeOk(g, s, L, d, name) {
      NewEntryIsFresh(name, L.free[0], false, time);
      InsertRuns(g, s1, L1, d, NewEntry(name, L.free[0], false, time), false);
    } else {
      NoRun(g, s1, L1);
    }
    RunsConcat(g, s, L, a, L1, b, MakeLayout(g, s, L, d, name, false));
    assert a + b + [] == a + b;
  }

  // ---- Directories: the dot entries are written last, but may as well come first ----

  ghost predicate Avoids(ws: seq<Write>, o: nat) {
    forall i :: 0 <= i < |ws| ==> ws[i].Data? ==> ws[i].c != o
  }

  /** A data write commutes with writes of other clusters. */
  lemma {:induction false} DataCommutes(s: State, ws: seq<Write>, o: nat, b: Block)
    requires Avoids(ws, o)
    ensures ApplyAll(Apply(s, Data(o, b)), ws) == Apply(ApplyAll(s, ws), Data(o, b))
    decreases |ws|
  {
    if ws != [] {
      var ws0, w := ws[..|ws| - 1], ws[|ws| - 1];
      DataCommutes(s, ws0, o, b);
      var s0 := ApplyAll(s, ws0);
      assert Apply(Apply(s0, Data(o, b)), w) == Apply(Apply(s0, w), Data(o, b));
    }
  }

  lemma {:induction false} SlotWriteFrame(data: seq<Block>, data': seq<Block>, C: seq<nat>, j: nat, e: Entry)
    requires WfEntry(e) && Agree(data, data', C)
    ensures SlotWrite(data, C, j, e) == SlotWrite(data', C, j, e)
    ensures forall o :: o !in C ==> Avoids(SlotWrite(data, C, j, e), o)
    decreases |C|
  {
    if C != [] {
      assert Get(data, C[0]) == Get(data', C[0]);
      var n := |Get(data, C[0])| / ENTRY_SIZE;
      if j >= n {
        SlotWriteFrame(data, data', C[1..], j - n, e);
      }
    }
  }

  lemma GrowAvoids(g: Geometry, C: seq<nat>, F: seq<nat>, o: nat)
    requires C != [] && F != [] && o != F[0]
    ensures Avoids(GrowWrites(g, C, F, 1), o)
  {
    assert F[..1] == [F[0]];
    assert ZeroWrites(g, [F[0]]) == ZeroWrites(g, [F[0]][..0]) + [Data(F[0], Zeros(g.B))];
  }

  /** The writes of an insertion do not depend on an unrelated cluster, nor touch it. */
  lemma AddWritesFrame(g: Geometry, s: State, b: Block, C: seq<nat>, F: seq<nat>, e: Entry, o: nat)
    requires WfEntry(e) && C != [] && o < |s.data| && o !in C && (F != [] ==> o != F[0])
    ensures AddWrites(g, Apply(s, Data(o, b)), C, F, e) == AddWrites(g, s, C, F, e)
    ensures Avoids(AddWrites(g, s, C, F, e), o)
  {
    var s' := Apply(s, Data(o, b));
    var j := FindIndex(DirSlots(s.data, C), []);
    DirSlotsFrame(s.data, s'.data, C);
    SlotWriteFrame(s.data, s'.data, C, j, e);
    if F != [] {
      var grow := GrowWrites(g, C, F, 1);
      var s1 := ApplyAll(s, grow);
      GrowAvoids(g, C, F, o);
      DataCommutes(s, grow, o, b);
      AgreeElsewhere(s1, o, b, C + [F[0]]);
      SlotWriteFrame(s1.data, ApplyAll(s', grow).data, C + [F[0]], j, e);
      AvoidsConcat(grow, SlotWrite(s1.data, C + [F[0]], j, e), o);
    }
  }

  lemma AgreeElsewhere(s: State, o: nat, b: Block, C: seq<nat>)
    requires o !in C
    ensures Agree(s.data, Apply(s, Data(o, b)).data, C)
  {
  }

  lemma AvoidsConcat(a: seq<Write>, b: seq<Write>, o: nat)
    requires Avoids(a, o) && Avoids(b, o)
    ensures Avoids(a + b, o)
  {
  }

  lemma DotsAreFresh(g: Geometry, o: nat, d: nat, time: seq<byte>)
    requires o < U32 && d < U32 && |time| == 8 && 2 * ENTRY_SIZE <= g.B
    ensures var ss := Slots(DotsBlock(g, o, d, time));
      && 2 <= |ss| && DotOk(ss[0], DOT, o) && DotOk(ss[1], DOTDOT, d)
      && forall j :: 2 <= j < |ss| ==> !Live(ss[j])
  {
    CNameOfPadded(DOT, NAME_FIELD - 1);
    CNameOfPadded(DOTDOT, NAME_FIELD - 2);
    SlotsAfterSet(Zeros(g.B), 0, NewEntry(DOT, o, true, time));
    SlotsAfterSet(DotBlock(g, o, time), 1, NewEntry(DOTDOT, d, true, time));
    forall j | 2 <= j < g.B / ENTRY_SIZE
      ensures !Live(Slots(Zeros(g.B))[j])
    {
      ZeroSlots(g.B, j);
    }
  }

  /** A newborn directory with its dot entries in place. */
  lemma DottedIsNewborn(g: Geometry, s: State, L: Layout, d: nat, o: nat, time: seq<byte>)
    requires Inv(g, s, L) && Newborn(g, s, L, o, false, d) && d < U32 && o < U32
    requires |time| == 8 && 2 * ENTRY_SIZE <= g.B
    ensures var s' := Apply(s, Data(o, DotsBlock(g, o, d, time)));
      Inv(g, s', L) && Newborn(g, s', L, o, true, d)
  {
    var b := DotsBlock(g, o, d, time);
    NodesOwnThemselves(g, s, L);
    DataKeepsInv(g, s, L, o, b);
    DotsAreFresh(g, o, d, time);
    var s' := Apply(s, Data(o, b));
    assert DirSlots(s'.data, [o]) == Slots(b) + DirSlots(s'.data, []);
  }

  /** Inserting first and writing the dots then, as the code does, ends in the state reached
      by writing the dots first. */
  lemma DotsLastOrFirst(s: State, ws: seq<Write>, o: nat, b1: Block, b2: Block)
    requires Avoids(ws, o)
    ensures ApplyAll(s, ws + ([Data(o, b1)] + [Data(o, b2)])) == ApplyAll(Apply(s, Data(o, b2)), ws)
  {
    var s1 := ApplyAll(s, ws);
    ApplyConcat(s, ws, [Data(o, b1)] + [Data(o, b2)]);
    ApplyTwo(s1, Data(o, b1), Data(o, b2));
    DataCommutes(s, ws, o, b2);
    if o < |s1.data| {
      assert s1.data[o := b1][o := b2] == s1.data[o := b2];
    }
  }

  /** Creating a directory keeps the invariant. */
  lemma MakeDirKeepsInv(g: Geometry, s: State, L: Layout, d: nat, name: Name, time: seq<byte>)
    requires CanMake(g, s, L, d, name, time)
    ensures Inv(g, ApplyAll(s, MakeWrites(g, s, L, d, name, true, time)), MakeLayout(g, s, L, d, name, true))
  {
    var o, s1, L1 := L.free[0], TakenState(g, s, L), Taken(L, 1);
    var b, c := EntryWrites(g, s, L, d, name, true, time), DotWrites(g, o, d, time);
    TakenIsNewborn(g, s, L, d);
    DottedIsNewborn(g, s1, L1, d, o, time);
    DirEntryGoesIn(g, s, L, d, name, time);
    DotsLastOrFirst(s1, b, o, DotBlock(g, o, time), DotsBlock(g, o, d, time));
    ApplyConcat(s, PopWrites(g, L.free, 1), b + c);
    assert PopWrites(g, L.free, 1) + b + c == PopWrites(g, L.free, 1) + (b + c);
  }

  lemma DirEntryGoesIn(g: Geometry, s: State, L: Layout, d: nat, name: Name, time: seq<byte>)
    requires CanMake(g, s, L, d, name, time)
    ensures var s1 := Apply(TakenState(g, s, L), Data(L.free[0], DotsBlock(g, L.free[0], d, time)));
      var b := EntryWrites(g, s, L, d, name, true, time);
      && Avoids(b, L.free[0])
      && Inv(g, ApplyAll(s1, b), MakeLayout(g, s, L, d, name, true))
  {
    var o, s0, L1 := L.free[0], TakenState(g, s, L), Taken(L, 1);
    TakenIsNewborn(g, s, L, d);
    DottedIsNewborn(g, s0, L1, d, o, time);
    if MakeOk(g, s, L, d, name) {
      NewEntryIsFresh(name, o, true, time);
      InsertWithDots(g, s0, L1, d, NewEntry(name, o, true, time), DotsBlock(g, o, d, time));
    }
  }

  lemma InsertWithDots(g: Geometry, s: State, L: Layout, d: nat, e: Entry, b: Block)
    requires Inv(g, s, L) && d in L.nodes && L.nodes[d].isDir && WfEntry(e) && 2 * ENTRY_SIZE <= g.B
    requires Roomy(s, L, d) || L.free != []
    requires FreshEntry(e, e.first, true) && g.K < e.first < g.N && L.owner[e.first] == ORPHAN
    requires var s1 := Apply(s, Data(e.first, b)); Inv(g, s1, L) && Newborn(g, s1, L, e.first, true, d)
    ensures var ws := AddWrites(g, s, L.nodes[d].chain, L.free, e);
      && Avoids(ws, e.first)
      && Inv(g, ApplyAll(Apply(s, Data(e.first, b)), ws),
             Adopted(RoomLayout(s, L, d), e.first, true, d, FindIndex(DirOf(s, L, d), [])))
  {
    var o, s1, C := e.first, Apply(s, Data(e.first, b)), L.nodes[d].chain;
    OrphanIsElsewhere(g, s, L, d, o);
    AddWritesFrame(g, s, b, C, L.free, e, o);
    AgreeElsewhere(s, o, b, C);
    DirSlotsFrame(s.data, s1.data, C);
    InsertRuns(g, s1, L, d, e, true);
  }

  lemma OrphanIsElsewhere(g: Geometry, s: State, L: Layout, d: nat, o: nat)
    requires StructOk(g, s, L) && d in L.nodes && g.K < o < g.N && L.owner[o] == ORPHAN
    ensures L.nodes[d].chain != [] && o !in L.nodes[d].chain && o !in L.free
  {
    NodeOf(g, s, L, d);
    NodesOwnThemselves(g, s, L);
    FreeOf(g, s, L);
  }
}
