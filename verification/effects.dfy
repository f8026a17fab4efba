/** What removal, shrinking and creation do to the bytes and slots of every object. */
module Effects {
  import opened Bytes
  import opened States
  import opened Entries
  import opened Allocator
  import opened Layouts
  import opened Trees
  import opened Files
  import opened Update
  import opened Make
  import opened Release

  /** From `s` to `s'`, slot `j` of directory `d` became `e` and every other object kept its
      bytes. */
  ghost predicate OnlySlot(s: State, s': State, L: Layout, d: nat, j: nat, e: Entry) {
    && d in L.nodes && j < |DirOf(s, L, d)|
    && DirOf(s', L, d) == DirOf(s, L, d)[j := e]
    && OthersUntouched(s, s', L, d, d)
  }

  lemma SlotPutIsOnlySlot(g: Geometry, s: State, L: Layout, d: nat, j: nat, e: Entry, w: Write)
    requires StructOk(g, s, L) && SlotPut(g, s, L, d, j, e, w)
    ensures OnlySlot(s, Apply(s, w), L, d, j, e)
  {
    SlotPutEffect(g, s, L, d, j, e, w);
    OtherDirsKept(g, s, L, d, w.c, w.block);
  }

  /** Writes of FAT and superblock leave the data alone. */
  lemma {:induction false} MetaWrites(s: State, ws: seq<Write>)
    requires forall i :: 0 <= i < |ws| ==> !ws[i].Data?
    ensures ApplyAll(s, ws).data == s.data
    decreases |ws|
  {
    if ws != [] {
      MetaWrites(s, ws[..|ws| - 1]);
    }
  }

  lemma SameData(s: State, s1: State, s2: State, L: Layout, d: nat, j: nat, e: Entry)
    requires OnlySlot(s, s1, L, d, j, e) && s2.data == s1.data
    ensures OnlySlot(s, s2, L, d, j, e)
  {
    forall x | x in L.nodes && x != d
      ensures Agree(s.data, s2.data, L.nodes[x].chain)
    {
      assert Agree(s.data, s1.data, L.nodes[x].chain);
    }
  }

  lemma RemoveEffect(g: Geometry, s: State, L: Layout, d: nat, j: nat)
    requires Inv(g, s, L) && ObjectSlot(s, L, d, j)
    requires DirOf(s, L, d)[j].first in L.nodes && WfEntry(DirOf(s, L, d)[j])
    requires L.nodes[DirOf(s, L, d)[j].first].chain != []
    ensures OnlySlot(s, ApplyAll(s, RemoveWrites(s, L, d, j)), L, d, j, Killed(DirOf(s, L, d)[j]))
  {
    var e := DirOf(s, L, d)[j];
    var C := L.nodes[e.first].chain;
    var w := PutSlot(g, s, L, d, j, Killed(e));
    SlotPutIsOnlySlot(g, s, L, d, j, Killed(e), w);
    RemoveReordered(s, C, w);
    MetaWrites(Apply(s, w), FreeWrites(C, s.head));
    SameData(s, Apply(s, w), ApplyAll(s, RemoveWrites(s, L, d, j)), L, d, j, Killed(e));
  }

  lemma ShrinkEffect(g: Geometry, s: State, L: Layout, d: nat, j: nat, size: nat, k: nat)
    requires CanShrink(g, s, L, d, j, size, k) && k <= |L.nodes[DirOf(s, L, d)[j].first].chain|
    ensures OnlySlot(s, ApplyAll(s, ShrinkWrites(s, L, d, j, size, k)), L, d, j, DirOf(s, L, d)[j].(size := size))
  {
    var e := DirOf(s, L, d)[j];
    var C, e' := L.nodes[e.first].chain, e.(size := size);
    var w := PutSlot(g, s, L, d, j, e');
    SlotPutIsOnlySlot(g, s, L, d, j, e', w);
    assert ShrinkWrites(s, L, d, j, size, k) == CutWrites(C, k, s.head) + [w];
    ShrinkReordered(s, C, k, w);
    MetaWrites(Apply(s, w), CutWrites(C, k, s.head));
    SameData(s, Apply(s, w), ApplyAll(s, ShrinkWrites(s, L, d, j, size, k)), L, d, j, e');
  }

  /** The kept clusters of a shrunk file hold the first bytes of its contents. */
  lemma KeptContents(g: Geometry, s: State, s': State, C: seq<nat>, k: nat)
    requires Full(g, s.data, C) && Agree(s.data, s'.data, C) && k <= |C|
    ensures Times(k, g.B) <= |Contents(s.data, C)|
    ensures Contents(s'.data, C[..k]) == Contents(s.data, C)[..Times(k, g.B)]
  {
    ContentsFrame(s.data, s'.data, C[..k]);
    assert C == C[..k] + C[k..];
    ContentsConcat(s.data, C[..k], C[k..]);
    ContentsLength(g, s.data, C[..k]);
  }

  // ---- Creation ----

  /** Taking a cluster off the free list changes no object. */
  lemma TakenUntouched(g: Geometry, s: State, L: Layout)
    requires Inv(g, s, L) && L.free != []
    ensures var s1, L1 := TakenState(g, s, L), Taken(L, 1);
      && (forall x :: x in L.nodes ==> Agree(s.data, s1.data, L.nodes[x].chain))
      && (forall x :: x in L.nodes ==> DirOf(s1, L1, x) == DirOf(s, L, x))
  {
    var s1 := TakenState(g, s, L);
    FreeOf(g, s, L);
    PopEffect(g, s, L.free, 1);
    assert L.free[..1] == [L.free[0]];
    ObjectsKept(g, s, s1, L);
    forall x | x in L.nodes
      ensures DirOf(s1, Taken(L, 1), x) == DirOf(s, L, x)
    {
      DirSlotsFrame(s.data, s1.data, L.nodes[x].chain);
    }
  }

  /** The slots of a directory after an insertion: those it had, one blank cluster more if it
      was full, and the new entry in the first free one. */
  ghost function Inserted(g: Geometry, ss: seq<Entry>, e: Entry): seq<Entry>
    requires ENTRY_SIZE <= g.B
  {
    var j := FindIndex(ss, []);
    if j < |ss| then ss[j := e] else ss + Slots(Zeros(g.B))[0 := e]
  }

  lemma InsertEffect(g: Geometry, s: State, L: Layout, d: nat, e: Entry)
    requires Inv(g, s, L) && d in L.nodes && L.nodes[d].isDir && WfEntry(e) && 2 * ENTRY_SIZE <= g.B
    requires Roomy(s, L, d) || L.free != []
    ensures var s' := ApplyAll(s, AddWrites(g, s, L.nodes[d].chain, L.free, e));
      && DirOf(s', RoomLayout(s, L, d), d) == Inserted(g, DirOf(s, L, d), e)
      && OthersUntouched(s, s', L, d, d)
  {
    var ss, L1, a := DirOf(s, L, d), RoomLayout(s, L, d), RoomWrites(g, s, L, d);
    var s1, j := ApplyAll(s, a), FindIndex(ss, []);
    RoomFound(g, s, L, d, e);
    var w := PutSlot(g, s1, L1, d, j, e);
    SlotPutIsOnlySlot(g, s1, L1, d, j, e, w);
    ApplyConcat(s, a, SlotWrite(s1.data, L1.nodes[d].chain, j, e));
    ApplyOne(s1, w);
    UntouchedTwice(s, s1, Apply(s1, w), L, L1, d, d, d);
    RoomSlots(g, s, L, d, e);
  }

  /** Filling the slot found is the insertion. */
  lemma RoomSlots(g: Geometry, s: State, L: Layout, d: nat, e: Entry)
    requires Inv(g, s, L) && d in L.nodes && 2 * ENTRY_SIZE <= g.B
    requires Roomy(s, L, d) || L.free != []
    ensures var ss, L1 := DirOf(s, L, d), RoomLayout(s, L, d);
      var ss1, j := DirOf(ApplyAll(s, RoomWrites(g, s, L, d)), L1, d), FindIndex(ss, []);
      j < |ss1| && ss1[j := e] == Inserted(g, ss, e)
  {
    var ss := DirOf(s, L, d);
    if !Roomy(s, L, d) {
      GrownDir(g, s, L, d);
      var zs := Slots(Zeros(g.B));
      assert (ss + zs)[|ss| := e] == ss + zs[0 := e];
    }
  }

  lemma {:induction false} AvoidedIsKept(s: State, ws: seq<Write>, o: nat)
    requires Avoids(ws, o)
    ensures Get(ApplyAll(s, ws).data, o) == Get(s.data, o)
    decreases |ws|
  {
    if ws != [] {
      AvoidedIsKept(s, ws[..|ws| - 1], o);
    }
  }

  /** The state after the insertion of a new object's entry, before its dot entries. */
  ghost function EnteredState(g: Geometry, s: State, L: Layout, d: nat, name: Name, isDir: bool, time: seq<byte>): State
    requires CanMake(g, s, L, d, name, time)
  {
    ApplyAll(TakenState(g, s, L), EntryWrites(g, s, L, d, name, isDir, time))
  }

  lemma EnteredEffect(g: Geometry, s: State, L: Layout, d: nat, name: Name, isDir: bool, time: seq<byte>)
    requires CanMake(g, s, L, d, name, time)
    ensures var s2, L2 := EnteredState(g, s, L, d, name, isDir, time), MakeLayout(g, s, L, d, name, isDir);
      && OthersUntouched(s, s2, L, d, d)
      && Get(s2.data, L.free[0]) == Zeros(g.B)
      && L.free[0] !in L.nodes && d in L2.nodes
      && DirOf(s2, L2, d) ==
         if MakeOk(g, s, L, d, name) then Inserted(g, DirOf(s, L, d), NewEntry(name, L.free[0], isDir, time))
         else DirOf(s, L, d)
  {
    var s1, L1, o := TakenState(g, s, L), Taken(L, 1), L.free[0];
    TakenUntouched(g, s, L);
    TakenIsNewborn(g, s, L, d);
    assert o !in L.nodes by { NodesOwnThemselves(g, s1, L1); }
    if MakeOk(g, s, L, d, name) {
      var e := NewEntry(name, o, isDir, time);
      NewEntryIsFresh(name, o, isDir, time);
      InsertEffect(g, s1, L1, d, e);
      EntryAvoidsObject(g, s, L, d, name, isDir, time);
      AvoidedIsKept(s1, EntryWrites(g, s, L, d, name, isDir, time), o);
      UntouchedTwice(s, s1, EnteredState(g, s, L, d, name, isDir, time), L, L1, d, d, d);
    }
  }

  /** The insertion into the parent leaves the new cluster alone. */
  lemma EntryAvoidsObject(g: Geometry, s: State, L: Layout, d: nat, name: Name, isDir: bool, time: seq<byte>)
    requires CanMake(g, s, L, d, name, time) && MakeOk(g, s, L, d, name)
    ensures Avoids(EntryWrites(g, s, L, d, name, isDir, time), L.free[0])
  {
    var s1, L1, o := TakenState(g, s, L), Taken(L, 1), L.free[0];
    TakenIsNewborn(g, s, L, d);
    NewEntryIsFresh(name, o, isDir, time);
    OrphanIsElsewhere(g, s1, L1, d, o);
    AddWritesFrame(g, s1, [], L.nodes[d].chain, L1.free, NewEntry(name, o, isDir, time), o);
  }

  /** The dot entries go into the new cluster only. */
  lemma DotsEffect(s: State, o: nat, b1: Block, b2: Block, C: seq<nat>)
    requires o < |s.data|
    ensures var s' := ApplyAll(s, [Data(o, b1)] + [Data(o, b2)]);
      && (o !in C ==> Agree(s.data, s'.data, C))
      && Get(s'.data, o) == b2
  {
    ApplyTwo(s, Data(o, b1), Data(o, b2));
  }
}
