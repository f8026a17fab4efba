/** The directory routines, cluster by cluster, against the flat list of slots. */
module Directory {
  import opened Bytes
  import opened Chains
  import opened States
  import opened Entries
  import opened Volumes
  import opened Allocator
  import opened Make
  import opened Machine

  // ---- One cluster ----

  /** The loop over the slots of one cluster in find_dir_entry_by_name, update_dir_entry and
      add_dir_entry_to_cluster (where the name sought is empty). */
  method FindInCluster(block: Block, name: Name) returns (j: nat)
    requires |block| % ENTRY_SIZE == 0
    ensures j == FindIndex(Slots(block), name)
  {
    j := 0;
    var offset := 0;
    while offset < |block|
      invariant offset == ENTRY_SIZE * j && j <= |block| / ENTRY_SIZE
      invariant forall i :: 0 <= i < j ==> CName(Slots(block)[i].name) != name
    {
      var e := Decode(block[offset..offset + ENTRY_SIZE]);
      assert Slots(block)[j] == Slot(block, j) == e;
      if CName(e.name) == name {
        break;
      }
      j, offset := j + 1, offset + ENTRY_SIZE;
    }
    FindIndexIs(Slots(block), name, j);
  }

  /** The loop over the slots of one cluster in is_dir_empty. */
  method OnlyDotsInCluster(block: Block) returns (empty: bool)
    requires |block| % ENTRY_SIZE == 0
    ensures empty == OnlyDots(Slots(block))
  {
    var j, offset := 0, 0;
    while offset < |block|
      invariant offset == ENTRY_SIZE * j && j <= |block| / ENTRY_SIZE
      invariant OnlyDots(Slots(block)[..j])
    {
      var e := Decode(block[offset..offset + ENTRY_SIZE]);
      assert Slots(block)[j] == Slot(block, j) == e;
      var name := CName(e.name);
      if name != DOT && name != DOTDOT && name != [] {
        return false;
      }
      j, offset := j + 1, offset + ENTRY_SIZE;
    }
    assert Slots(block)[..j] == Slots(block);
    return true;
  }

  // ---- A chain ----

  ghost predicate OnChain(vol: Volume, c: nat, C: seq<nat>)
    reads vol, vol.fatTable
  {
    && vol.Coherent() && Slotted(vol.g)
    && C != [] && InData(vol.g, C) && IsChain(vol.v.fat, c, C)
  }

  lemma NextOnChain(fat: seq<nat>, c: nat, C: seq<nat>)
    requires C != [] && IsChain(fat, c, C)
    ensures c == C[0] && IsChain(fat, fat[c], C[1..]) && (fat[c] == 0 <==> C[1..] == [])
  {
    SuffixIsChain(fat, c, C, 1);
    assert fat[C[0]] == At(C, 1);
  }

  /** find_dir_entry_by_name. */
  method FindDirEntryByName(vol: Volume, c: nat, name: Name, ghost C: seq<nat>) returns (r: Option<Entry>)
    requires OnChain(vol, c, C)
    ensures r == Lookup(DirSlots(vol.v.data, C), name)
    decreases |C|
  {
    NextOnChain(vol.v.fat, c, C);
    var block := vol.ReadCluster(c);
    var j := FindInCluster(block, name);
    ghost var rest := DirSlots(vol.v.data, C[1..]);
    FindConcat(Slots(block), rest, name);
    if j < |block| / ENTRY_SIZE {
      var offset := ENTRY_SIZE * j;
      assert Slots(block)[j] == Slot(block, j);
      return Some(Decode(block[offset..offset + ENTRY_SIZE]));
    }
    var next := vol.ReadFatEntry(c);
    if next == 0 {
      return None;
    }
    r := FindDirEntryByName(vol, next, name, C[1..]);
  }

  /** is_dir_empty. */
  method IsDirEmpty(vol: Volume, c: nat, ghost C: seq<nat>) returns (empty: bool)
    requires OnChain(vol, c, C)
    ensures empty == OnlyDots(DirSlots(vol.v.data, C))
    decreases |C|
  {
    NextOnChain(vol.v.fat, c, C);
    var block := vol.ReadCluster(c);
    ghost var a, b := Slots(block), DirSlots(vol.v.data, C[1..]);
    OnlyDotsConcat(a, b);
    empty := OnlyDotsInCluster(block);
    if !empty {
      return;
    }
    var next := vol.ReadFatEntry(c);
    if next == 0 {
      return true;
    }
    empty := IsDirEmpty(vol, next, C[1..]);
  }

  lemma OnlyDotsConcat(a: seq<Entry>, b: seq<Entry>)
    ensures OnlyDots(a + b) <==> OnlyDots(a) && OnlyDots(b)
  {
    if OnlyDots(a + b) {
      assert forall j :: 0 <= j < |a| ==> a[j] == (a + b)[j];
      assert forall j :: 0 <= j < |b| ==> b[j] == (a + b)[|a| + j];
    }
  }

  /** update_dir_entry: the first slot with the name of `e` is overwritten, or emptied. */
  method UpdateDirEntry(vol: Volume, c: nat, e: Entry, remove: bool, ghost C: seq<nat>) returns (ok: bool)
    requires OnChain(vol, c, C) && WfEntry(e)
    modifies vol
    ensures vol.Coherent()
    ensures var ss := DirSlots(old(vol.v.data), C);
      var j := FindIndex(ss, CName(e.name));
      && ok == (j < |ss|)
      && (ok ==> WfEntry(ss[j]) && vol.Wrote(SlotWrite(old(vol.v.data), C, j, if remove then Killed(ss[j]) else e)))
      && (!ok ==> vol.Wrote([]))
    decreases |C|, 1
  {
    NextOnChain(vol.v.fat, c, C);
    var block := vol.ReadCluster(c);
    var j := FindInCluster(block, CName(e.name));
    if j < |block| / ENTRY_SIZE {
      var offset := ENTRY_SIZE * j;
      KillIsByteWrite(block, j);
      FoundHere(vol.v.data, C, CName(e.name), if remove then Killed(Slot(block, j)) else e);
      vol.WriteCluster(c, if remove then block[offset := 0] else Splice(block, offset, Encode(e)));
      return true;
    }
    ok := UpdateBeyond(vol, c, e, remove, C);
  }

  /** Its second half: cluster `c` does not hold the name. */
  method UpdateBeyond(vol: Volume, c: nat, e: Entry, remove: bool, ghost C: seq<nat>) returns (ok: bool)
    requires OnChain(vol, c, C) && WfEntry(e)
    requires var a := Slots(vol.v.data[C[0]]); FindIndex(a, CName(e.name)) == |a|
    modifies vol
    ensures vol.Coherent()
    ensures var ss := DirSlots(old(vol.v.data), C);
      var j := FindIndex(ss, CName(e.name));
      && ok == (j < |ss|)
      && (ok ==> WfEntry(ss[j]) && vol.Wrote(SlotWrite(old(vol.v.data), C, j, if remove then Killed(ss[j]) else e)))
      && (!ok ==> vol.Wrote([]))
    decreases |C|, 0
  {
    NextOnChain(vol.v.fat, c, C);
    FoundBeyond(vol.v.data, C, CName(e.name));
    var next := vol.ReadFatEntry(c);
    if next == 0 {
      return false;
    }
    ghost var data, rest := vol.v.data, DirSlots(vol.v.data, C[1..]);
    ghost var k := FindIndex(rest, CName(e.name));
    if k < |rest| {
      DirSlotsWf(data, C[1..]);
      SlotBeyondFirst(data, C, |Slots(data[c])|, k, if remove then Killed(rest[k]) else e);
    }
    ok := UpdateDirEntry(vol, next, e, remove, C[1..]);
  }

  /** The first match of a chain is in its first cluster. */
  lemma FoundHere(data: seq<Block>, C: seq<nat>, name: Name, e: Entry)
    requires C != [] && FindIndex(Slots(Get(data, C[0])), name) < |Slots(Get(data, C[0]))| && WfEntry(e)
    ensures var block, ss := Get(data, C[0]), DirSlots(data, C);
      var j := FindIndex(Slots(block), name);
      && FindIndex(ss, name) == j && j < |ss| && ss[j] == Slot(block, j)
      && SlotWrite(data, C, j, e) == [Data(C[0], SetSlot(block, j, e))]
  {
    var a := Slots(Get(data, C[0]));
    FindConcat(a, DirSlots(data, C[1..]), name);
    assert a[FindIndex(a, name)] == Slot(Get(data, C[0]), FindIndex(a, name));
  }

  /** It is in the clusters after the first, or nowhere. */
  lemma FoundBeyond(data: seq<Block>, C: seq<nat>, name: Name)
    requires C != [] && FindIndex(Slots(Get(data, C[0])), name) == |Slots(Get(data, C[0]))|
    ensures var n, ss, rest := |Slots(Get(data, C[0]))|, DirSlots(data, C), DirSlots(data, C[1..]);
      && |ss| == n + |rest| && FindIndex(ss, name) == n + FindIndex(rest, name)
      && (FindIndex(rest, name) < |rest| ==> ss[n + FindIndex(rest, name)] == rest[FindIndex(rest, name)])
  {
    FindConcat(Slots(Get(data, C[0])), DirSlots(data, C[1..]), name);
  }

  lemma SlotBeyondFirst(data: seq<Block>, C: seq<nat>, n: nat, j: nat, e: Entry)
    requires WfEntry(e) && C != [] && n == |Slots(Get(data, C[0]))|
    ensures SlotWrite(data, C, n + j, e) == SlotWrite(data, C[1..], j, e)
  {
  }

  // ---- Insertion ----

  ghost predicate FullCluster(s: State, c: nat) {
    FindIndex(Slots(Get(s.data, c)), []) == |Slots(Get(s.data, c))|
  }

  /** A free slot in the first cluster is taken. */
  lemma AddHere(g: Geometry, s: State, C: seq<nat>, F: seq<nat>, e: Entry, name: Name)
    requires WfEntry(e) && C != [] && !FullCluster(s, C[0]) && 0 < |name| <= MAX_NAME
    ensures var block := Get(s.data, C[0]);
      var j := FindIndex(Slots(block), []);
      && j < |block| / ENTRY_SIZE
      && AddOk(s, C, F, name) && AddWrites(g, s, C, F, e) == [Data(C[0], SetSlot(block, j, e))]
  {
    FindConcat(Slots(Get(s.data, C[0])), DirSlots(s.data, C[1..]), []);
  }

  lemma FullClusterShifts(s: State, C: seq<nat>)
    requires C != [] && FullCluster(s, C[0])
    ensures var a, rest := Slots(Get(s.data, C[0])), DirSlots(s.data, C[1..]);
      && |DirSlots(s.data, C)| == |a| + |rest|
      && FindIndex(DirSlots(s.data, C), []) == |a| + FindIndex(rest, [])
  {
    FoundBeyond(s.data, C, []);
  }

  /** A full first cluster is passed over. */
  lemma AddSkipsFull(g: Geometry, s: State, C: seq<nat>, F: seq<nat>, e: Entry)
    requires WfEntry(e) && |C| >= 2 && WfState(g, s) && InData(g, C) && InData(g, F)
    requires FullCluster(s, C[0]) && (F != [] ==> F[0] !in C)
    ensures AddWrites(g, s, C, F, e) == AddWrites(g, s, C[1..], F, e)
  {
    if FindIndex(DirSlots(s.data, C[1..]), []) < |DirSlots(s.data, C[1..])| {
      AddSkipsToSlot(g, s, C, F, e);
    } else if F != [] {
      AddSkipsToNew(g, s, C, F, e);
    } else {
      FullClusterShifts(s, C);
      AddsNowhere(g, s, C, e);
      AddsNowhere(g, s, C[1..], e);
    }
  }

  lemma AddSkipsToSlot(g: Geometry, s: State, C: seq<nat>, F: seq<nat>, e: Entry)
    requires WfEntry(e) && C != [] && FullCluster(s, C[0])
    requires FindIndex(DirSlots(s.data, C[1..]), []) < |DirSlots(s.data, C[1..])|
    ensures AddWrites(g, s, C, F, e) == AddWrites(g, s, C[1..], F, e)
  {
    FullClusterShifts(s, C);
    var n, j := |Slots(Get(s.data, C[0]))|, FindIndex(DirSlots(s.data, C[1..]), []);
    AddsToSlot(g, s, C, F, n + j, e);
    AddsToSlot(g, s, C[1..], F, j, e);
    SlotBeyondFirst(s.data, C, n, j, e);
  }

  lemma AddSkipsToNew(g: Geometry, s: State, C: seq<nat>, F: seq<nat>, e: Entry)
    requires WfEntry(e) && |C| >= 2 && WfState(g, s) && InData(g, C) && InData(g, F) && F != [] && F[0] !in C
    requires FullCluster(s, C[0]) && FindIndex(DirSlots(s.data, C[1..]), []) == |DirSlots(s.data, C[1..])|
    ensures AddWrites(g, s, C, F, e) == AddWrites(g, s, C[1..], F, e)
  {
    var n := |DirSlots(s.data, C[1..])|;
    assert AddWrites(g, s, C, F, e) == AddInNew(g, s, C, F, |Slots(Get(s.data, C[0]))| + n, e) by {
      FullClusterShifts(s, C);
      AddsToNew(g, s, C, F, e);
    }
    assert AddWrites(g, s, C[1..], F, e) == AddInNew(g, s, C[1..], F, n, e) by { AddsToNew(g, s, C[1..], F, e); }
    AddSkipsToGrow(g, s, C, F, e, n);
  }

  lemma AddsNowhere(g: Geometry, s: State, C: seq<nat>, e: Entry)
    requires WfEntry(e) && FindIndex(DirSlots(s.data, C), []) == |DirSlots(s.data, C)|
    ensures AddWrites(g, s, C, [], e) == []
  {
  }

  lemma AddsToSlot(g: Geometry, s: State, C: seq<nat>, F: seq<nat>, j: nat, e: Entry)
    requires WfEntry(e) && j == FindIndex(DirSlots(s.data, C), []) && j < |DirSlots(s.data, C)|
    ensures AddWrites(g, s, C, F, e) == SlotWrite(s.data, C, j, e)
  {
  }

  lemma AddsToNew(g: Geometry, s: State, C: seq<nat>, F: seq<nat>, e: Entry)
    requires WfEntry(e) && C != [] && F != [] && FindIndex(DirSlots(s.data, C), []) == |DirSlots(s.data, C)|
    ensures AddWrites(g, s, C, F, e) == AddInNew(g, s, C, F, |DirSlots(s.data, C)|, e)
  {
  }

  lemma AddSkipsToGrow(g: Geometry, s: State, C: seq<nat>, F: seq<nat>, e: Entry, n: nat)
    requires WfEntry(e) && |C| >= 2 && WfState(g, s) && InData(g, C) && InData(g, F) && F != [] && F[0] !in C
    ensures AddInNew(g, s, C, F, |Slots(Get(s.data, C[0]))| + n, e) == AddInNew(g, s, C[1..], F, n, e)
  {
    var grow, k := GrowWrites(g, C, F, 1), |Slots(Get(s.data, C[0]))|;
    var data := ApplyAll(s, grow).data;
    assert GrowWrites(g, C[1..], F, 1) == grow;
    assert Get(data, C[0]) == Get(s.data, C[0]) by { GrowKeepsBlock(g, s, C, F, C[0]); }
    assert (C + [F[0]])[1..] == C[1..] + [F[0]];
    SlotBeyondFirst(data, C + [F[0]], k, n, e);
  }

  lemma GrowKeepsBlock(g: Geometry, s: State, C: seq<nat>, F: seq<nat>, c: nat)
    requires C != [] && F != [] && WfState(g, s) && InData(g, F) && g.K < c < g.N
    ensures var data := ApplyAll(s, GrowWrites(g, C, F, 1)).data;
      Get(data, c) == if c == F[0] then Zeros(g.B) else s.data[c]
  {
    PopEffect(g, s, F, 1);
    ApplySnoc(s, PopWrites(g, F, 1), Fat(C[|C| - 1], F[0]));
    assert F[..1] == [F[0]];
  }

  lemma OkSkipsFull(s: State, C: seq<nat>, F: seq<nat>, name: Name)
    requires C != [] && FullCluster(s, C[0])
    ensures AddOk(s, C, F, name) == AddOk(s, C[1..], F, name)
  {
    FullClusterShifts(s, C);
  }

  /** With the last cluster full, it takes a free cluster. */
  lemma OkAtEnd(g: Geometry, s: State, c: nat, F: seq<nat>, e: Entry, name: Name)
    requires WfEntry(e) && FullCluster(s, c) && 0 < |name| <= MAX_NAME
    ensures AddOk(s, [c], F, name) <==> F != []
    ensures F == [] ==> AddWrites(g, s, [c], F, e) == []
  {
    FullClusterShifts(s, [c]);
    assert [c][1..] == [];
  }

  /** With the last cluster full, the entry goes into slot 0 of a new one. */
  lemma AddAtEnd(g: Geometry, s: State, c: nat, F: seq<nat>, e: Entry)
    requires WfEntry(e) && WfState(g, s) && InData(g, [c]) && InData(g, F) && F != [] && F[0] != c
    requires ENTRY_SIZE <= g.B
    requires FullCluster(s, c)
    ensures AddWrites(g, s, [c], F, e)
         == GrowWrites(g, [c], F, 1) + [Data(F[0], SetSlot(Zeros(g.B), 0, e))]
  {
    var a, z := Slots(Get(s.data, c)), F[0];
    var data := ApplyAll(s, GrowWrites(g, [c], F, 1)).data;
    assert DirSlots(s.data, [c]) == a + DirSlots(s.data, []) == a;
    GrowKeepsBlock(g, s, [c], F, c);
    GrowKeepsBlock(g, s, [c], F, z);
    assert ([c] + [z])[1..] == [z];
    assert SlotWrite(data, [c] + [z], |a|, e) == SlotWrite(data, [z], 0, e);
  }

  ghost predicate FreeListIs(vol: Volume, F: seq<nat>)
    requires vol.Coherent()
    reads vol, vol.fatTable
  {
    InData(vol.g, F) && vol.g.Root() !in F && IsChain(vol.v.fat, vol.v.head, F)
  }

  /** add_dir_entry_to_cluster. */
  method AddDirEntryToCluster(vol: Volume, c: nat, name: Name, first: nat, isDir: bool, time: seq<byte>,
                              ghost C: seq<nat>, ghost F: seq<nat>) returns (ok: bool)
    requires OnChain(vol, c, C) && vol.g.K < first < vol.g.N && |time| == 8
    requires FreeListIs(vol, F) && Disjoint(C, F)
    modifies vol, vol.fatTable
    ensures vol.Coherent()
    ensures ok == AddOk(old(vol.v), C, F, name)
    ensures ok ==> vol.Wrote(AddWrites(vol.g, old(vol.v), C, F, NewEntry(name, first, isDir, time)))
    ensures !ok ==> vol.Wrote([])
    decreases |C|, 1
  {
    if |name| > MAX_NAME || |name| == 0 {
      return false;
    }
    assert c == C[0];
    var e := NewEntry(name, first, isDir, time);
    var block := vol.ReadCluster(c);
    var j := FindInCluster(block, []);
    if j < |block| / ENTRY_SIZE {
      AddHere(vol.g, vol.v, C, F, e, name);
      vol.WriteCluster(c, Splice(block, ENTRY_SIZE * j, Encode(e)));
      return true;
    }
    ok := AddBeyond(vol, c, name, first, isDir, time, C, F);
  }

  /** Its second half: cluster `c` is full. */
  method AddBeyond(vol: Volume, c: nat, name: Name, first: nat, isDir: bool, time: seq<byte>,
                   ghost C: seq<nat>, ghost F: seq<nat>) returns (ok: bool)
    requires OnChain(vol, c, C) && vol.g.K < first < vol.g.N && |time| == 8
    requires FreeListIs(vol, F) && Disjoint(C, F)
    requires 0 < |name| <= MAX_NAME && FullCluster(vol.v, c)
    modifies vol, vol.fatTable
    ensures vol.Coherent()
    ensures ok == AddOk(old(vol.v), C, F, name)
    ensures ok ==> vol.Wrote(AddWrites(vol.g, old(vol.v), C, F, NewEntry(name, first, isDir, time)))
    ensures !ok ==> vol.Wrote([])
    decreases |C|, 0
  {
    NextOnChain(vol.v.fat, c, C);
    var next := vol.ReadFatEntry(c);
    if next != 0 {
      AddSkipsFull(vol.g, vol.v, C, F, NewEntry(name, first, isDir, time));
      OkSkipsFull(vol.v, C, F, name);
      ok := AddDirEntryToCluster(vol, next, name, first, isDir, time, C[1..], F);
      return;
    }
    assert C == [c];
    OkAtEnd(vol.g, vol.v, c, F, NewEntry(name, first, isDir, time), name);
    if vol.freeStart <= vol.g.Root() {
      return false;
    }
    ok := AddInNewCluster(vol, c, NewEntry(name, first, isDir, time), F);
  }

  /** The end of add_dir_entry_to_cluster, when the chain is full. */
  method AddInNewCluster(vol: Volume, c: nat, e: Entry, ghost F: seq<nat>) returns (ok: bool)
    requires OnChain(vol, c, [c]) && WfEntry(e)
    requires InData(vol.g, F) && F != [] && IsChain(vol.v.fat, vol.v.head, F) && c !in F
    requires FullCluster(vol.v, c)
    modifies vol, vol.fatTable
    ensures vol.Coherent() && ok
    ensures vol.Wrote(AddWrites(vol.g, old(vol.v), [c], F, e))
  {
    ghost var v0, t0 := vol.v, vol.trace;
    AddAtEnd(vol.g, v0, c, F, e);
    var z := AddFreeCluster(vol, c, [c], F);
    var block := Splice(Zeros(vol.g.B), 0, Encode(e));
    vol.WriteCluster(z, block);
    Compose(v0, t0, GrowWrites(vol.g, [c], F, 1), [Data(z, block)]);
    return true;
  }
}
