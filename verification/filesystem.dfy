/** The operations of the filesystem, on the volume. Each issues exactly the cluster writes, and
    returns exactly the reply, that the state machine prescribes. */
module Filesystem {
  import opened Bytes
  import opened Chains
  import opened States
  import opened Entries
  import opened Volumes
  import opened Allocator
  import opened Layouts
  import opened Trees
  import opened Update
  import opened Make
  import opened Release
  import opened Effects
  import opened FlatModel
  import opened Paths
  import opened Machine
  import opened Directory
  import opened Writing

  // ---- Finding ----

  /** The strsep loop of find_dir_entry_by_path, over the parent path. */
  method WalkParent(vol: Volume, parent: Path, ghost L: Layout) returns (r: Option<nat>)
    requires Mounted(vol, L) && forall i :: 0 <= i < |Components(parent)| ==> Components(parent)[i] != []
    ensures r == WalkDirs(vol.v, L, vol.g.Root(), Components(parent))
    ensures r.Some? ==> r.value in L.nodes && L.nodes[r.value].isDir
  {
    var cluster, remainder := vol.g.Root(), Some(parent);
    StrsepYieldsTokens(remainder);
    var (tok, rest) := Strsep(remainder);
    remainder := rest;
    assert Remaining(remainder) == Components(parent);
    ghost var names := Components(parent);
    while true
      invariant cluster in L.nodes && L.nodes[cluster].isDir
      invariant names == Remaining(remainder) && forall i :: 0 <= i < |names| ==> names[i] != []
      invariant WalkDirs(vol.v, L, cluster, names) == WalkDirs(vol.v, L, vol.g.Root(), Components(parent))
      decreases |names|
    {
      StrsepYieldsTokens(remainder);
      var (name, after) := Strsep(remainder);
      if name.None? {
        return Some(cluster);
      }
      DirChain(vol, L, cluster);
      var found := FindDirEntryByName(vol, cluster, name.value, L.nodes[cluster].chain);
      if found.None? || found.value.kind != KIND_DIR {
        return None;
      }
      LookupStaysInTree(vol.g, vol.v, L, cluster, names[0]);
      cluster, remainder, names := found.value.first, after, names[1..];
    }
  }

  /** find_dir_entry_by_path: component by component from the root. */
  method FindDirEntryByPath(vol: Volume, path: Path, ghost L: Layout) returns (r: Option<Entry>)
    requires Mounted(vol, L) && (AfterSlash(path) ==> NormalPath(path))
    ensures !AfterSlash(path) ==> r.None?
    ensures AfterSlash(path) ==>
      && SLASH in path && Components(path) != []
      && r == FindPath(vol.g, vol.v, L, path) == Resolve(vol.v, L, vol.g.Root(), Components(path))
  {
    if !AfterSlash(path) {
      return None;
    }
    ParentIsNormal(path);
    FindIsResolve(vol.g, vol.v, L, path);
    var parent := GetParentPath(path);
    var target := GetTargetName(path);
    var d := WalkParent(vol, parent, L);
    if d.None? {
      return None;
    }
    DirChain(vol, L, d.value);
    r := FindDirEntryByName(vol, d.value, target, L.nodes[d.value].chain);
  }

  /** find_first_cluster_by_path on the parent of a path; None: its assertion fails. */
  method FindParent(vol: Volume, path: Path, ghost L: Layout) returns (r: Option<nat>)
    requires Mounted(vol, L) && NormalPath(path)
    ensures SLASH in path && r == ParentDir(vol.g, vol.v, L, path)
  {
    ParentIsNormal(path);
    var parent := GetParentPath(path);
    if !AfterSlash(parent) {
      return Some(vol.g.Root());
    }
    ParentIsNormal(parent);
    var e := FindDirEntryByPath(vol, parent, L);
    return if e.None? then None else Some(e.value.first);
  }

  // ---- Writes that leave a chain alone ----

  ghost predicate Spares(ws: seq<Write>, D: seq<nat>) {
    forall i :: 0 <= i < |ws| ==> !ws[i].Data? && (ws[i].Fat? ==> ws[i].c !in D)
  }

  /** Writes of the superblock and of FAT entries outside a chain keep it and its slots. */
  lemma {:induction false} SparedChain(s: State, ws: seq<Write>, d: nat, D: seq<nat>)
    requires IsChain(s.fat, d, D) && Spares(ws, D)
    ensures IsChain(ApplyAll(s, ws).fat, d, D) && ApplyAll(s, ws).data == s.data
    decreases |ws|
  {
    if ws != [] {
      SparedChain(s, ws[..|ws| - 1], d, D);
      var s1, w := ApplyAll(s, ws[..|ws| - 1]), ws[|ws| - 1];
      if w.Fat? && w.c < |s1.fat| {
        ChainFrame(s1.fat, d, D, w.c, w.next);
      }
    }
  }

  /** Two different objects have no cluster in common. */
  lemma ApartFrom(g: Geometry, s: State, L: Layout, f: nat, d: nat)
    requires StructOk(g, s, L) && f in L.nodes && d in L.nodes && f != d
    ensures forall c :: c in L.nodes[f].chain ==> c !in L.nodes[d].chain
  {
    NodeOf(g, s, L, f);
    NodeOf(g, s, L, d);
  }

  // ---- Shrinking ----

  lemma CutIsUnique(g: Geometry, size: nat, k: nat, i: nat, within: nat)
    requires IsCut(g, size, k) && within < g.B && size == Times(i, g.B) + within
    ensures k == i + 1
  {
    assert Times(k, g.B) == Times(k - 1, g.B) + g.B;
    TimesUnique(k - 1, i, g.B, size);
  }

  /** Lines 936-953 of FAT/fat.c: the chain is cut behind its first `k` clusters. */
  method CutChain(vol: Volume, first: nat, i: nat, ghost C: seq<nat>)
    requires vol.Coherent() && i < |C| && InData(vol.g, C) && IsChain(vol.v.fat, first, C)
    modifies vol, vol.fatTable
    ensures vol.Coherent() && vol.Wrote(CutWrites(C, i + 1, old(vol.v.head)))
  {
    ghost var v0, t0 := vol.v, vol.trace;
    var last := WalkChain(vol, first, i, C);
    var after := vol.ReadFatEntry(last);
    vol.UpdateFatEntry(last, 0);
    ApplyOne(v0, Fat(last, 0));
    ghost var tail := CutParts(vol.g, v0.fat, first, C, i, v0.head);
    if after != 0 {
      FreeClusterChain(vol, after, tail);
      Compose(v0, t0, [Fat(last, 0)], FreeWrites(tail, v0.head));
    }
  }

  /** What is cut off, and the writes that do it. */
  lemma CutParts(g: Geometry, fat: seq<nat>, first: nat, C: seq<nat>, i: nat, head: nat) returns (tail: seq<nat>)
    requires i < |C| && InData(g, C) && IsChain(fat, first, C)
    ensures C[i] < |fat| && (fat[C[i]] == 0 <==> tail == []) && InData(g, tail)
    ensures IsChain(fat[C[i] := 0], fat[C[i]], tail)
    ensures CutWrites(C, i + 1, head) == [Fat(C[i], 0)] + (if tail == [] then [] else FreeWrites(tail, head))
  {
    tail := C[i + 1..];
    ChainCut(fat, first, C, i + 1);
  }

  lemma CutSpares(C: seq<nat>, k: nat, head: nat, D: seq<nat>)
    requires 0 < k <= |C| && forall c :: c in C ==> c !in D
    ensures Spares(CutWrites(C, k, head), D)
  {
  }

  /** The slot of an object, as update_dir_entry needs it: found by the object's own name. */
  ghost predicate OwnSlot(vol: Volume, L: Layout, d: nat, j: nat, e: Entry)
    reads vol, vol.fatTable
  {
    && Mounted(vol, L) && ObjectSlot(vol.v, L, d, j) && e == DirOf(vol.v, L, d)[j]
    && j == FindIndex(DirOf(vol.v, L, d), CName(e.name))
  }

  /** After writes that spare the directory, update_dir_entry still finds the slot. */
  method RewriteSlot(vol: Volume, d: nat, e: Entry, e': Entry, remove: bool, ghost s: State, ghost t: seq<Write>,
                     ghost ws: seq<Write>, ghost D: seq<nat>, ghost j: nat) returns (ok: bool)
    requires vol.Coherent() && Slotted(vol.g) && D != [] && InData(vol.g, D) && IsChain(s.fat, d, D)
    requires Spares(ws, D) && vol.v == ApplyAll(s, ws) && vol.trace == t + ws
    requires j < |DirSlots(s.data, D)| && e == DirSlots(s.data, D)[j]
        && j == FindIndex(DirSlots(s.data, D), CName(e.name))
    requires WfEntry(e') && CName(e'.name) == CName(e.name) && (remove ==> e' == e)
    modifies vol
    ensures vol.Coherent() && vol.start == old(vol.start) && ok && WfEntry(Killed(e))
    ensures vol.trace == t + (ws + SlotWrite(s.data, D, j, if remove then Killed(e) else e'))
    ensures vol.v == ApplyAll(s, ws + SlotWrite(s.data, D, j, if remove then Killed(e) else e'))
  {
    SparedChain(s, ws, d, D);
    DirSlotsWf(s.data, D);
    ok := UpdateDirEntry(vol, d, e', remove, D);
    Compose(s, t, ws, SlotWrite(s.data, D, j, if remove then Killed(e) else e'));
  }

  /** The shrinking half of fat_truncate. */
  method ShrinkFile(vol: Volume, d: nat, e: Entry, size: nat, ghost L: Layout, ghost j: nat)
    requires OwnSlot(vol, L, d, j, e) && e.kind == KIND_FILE && size < e.size && WfEntry(e)
    modifies vol, vol.fatTable
    ensures vol.Coherent() && CanShrink(vol.g, old(vol.v), L, d, j, size, CutOf(vol.g, size))
    ensures CutOf(vol.g, size) <= |L.nodes[e.first].chain|
    ensures vol.Wrote(ShrinkWrites(old(vol.v), L, d, j, size, CutOf(vol.g, size)))
  {
    ghost var s, t, k := vol.v, vol.trace, CutOf(vol.g, size);
    CutOfIs(vol.g, size);
    assert FileSlot(s, L, d, j) && e.first in L.nodes && e.first != d by { FileSlotNode(vol.g, s, L, d, j); }
    ghost var C, D := L.nodes[e.first].chain, L.nodes[d].chain;
    assert k <= |C| by { CutFits(vol.g, s, L, d, j, size, k); }
    var i, lo, within := Locate(size, vol.g.B);
    assert k == i + 1 by { CutIsUnique(vol.g, size, k, i, within); }
    DirChain(vol, L, d);
    DirChain(vol, L, e.first);
    CutChain(vol, e.first, i, C);
    assert Spares(CutWrites(C, k, s.head), D) by {
      ApartFrom(vol.g, s, L, e.first, d);
      CutSpares(C, k, s.head, D);
    }
    var ok := RewriteSlot(vol, d, e, e.(size := size), false, s, t, CutWrites(C, k, s.head), D, j);
  }

  // ---- Removal ----

  /** The end of fat_unlink and fat_rmdir: the chain is freed, the slot emptied. */
  method RemoveObject(vol: Volume, d: nat, e: Entry, ghost L: Layout, ghost j: nat) returns (ok: bool)
    requires OwnSlot(vol, L, d, j, e) && WfEntry(e) && e.first in L.nodes && L.nodes[e.first].chain != []
        && e.first != d
    modifies vol, vol.fatTable
    ensures vol.Coherent() && ok && vol.Wrote(RemoveWrites(old(vol.v), L, d, j))
  {
    ghost var s, t, C, D := vol.v, vol.trace, L.nodes[e.first].chain, L.nodes[d].chain;
    DirChain(vol, L, d);
    DirChain(vol, L, e.first);
    FreeClusterChain(vol, e.first, C);
    assert Spares(FreeWrites(C, s.head), D) by { ApartFrom(vol.g, s, L, e.first, d); }
    ok := RewriteSlot(vol, d, e, e, true, s, t, FreeWrites(C, s.head), D, j);
  }

  // ---- The operations on an existing target ----

  /** Lines 895-906 of FAT/fat.c, shared by fat_write, fat_truncate, fat_unlink and fat_rmdir: the parent and
      the entry of the target. None: an assertion of the code fails. */
  method FindTarget(vol: Volume, path: Path, ghost L: Layout) returns (r: Option<(nat, Entry)>, ghost j: nat)
    requires Mounted(vol, L) && KernelPath(vol.g, vol.v, L, path)
    ensures SLASH in path && TargetName(TargetOf(path))
    ensures var d := ParentDir(vol.g, vol.v, L, path);
      && (d.None? ==> r.None?)
      && (d.Some? ==>
          && d.value in L.nodes && L.nodes[d.value].isDir
          && j == FindIndex(DirOf(vol.v, L, d.value), TargetOf(path))
          && (r.None? <==> j == |DirOf(vol.v, L, d.value)|)
          && (r.Some? ==> r.value.0 == d.value && OwnSlot(vol, L, d.value, j, r.value.1)))
  {
    ParentIsNormal(path);
    ParentIsInTree(vol.g, vol.v, L, path);
    var d := FindParent(vol, path, L);
    if d.None? {
      return None, 0;
    }
    var target := GetTargetName(path);
    DirChain(vol, L, d.value);
    j := FindIndex(DirOf(vol.v, L, d.value), target);
    TargetIsObject(vol.g, vol.v, L, d.value, target);
    var e := FindDirEntryByName(vol, d.value, target, L.nodes[d.value].chain);
    r := if e.None? then None else Some((d.value, e.value));
  }

  /** fat_write. */
  method FatWrite(vol: Volume, path: Path, buf: seq<byte>, off: nat, time: seq<byte>, stray: Option<nat>,
      ghost L: Layout)
    returns (r: Reply)
    requires Mounted(vol, L) && Admissible(vol.g, vol.v, L, Op.Write(path, buf, off, time, stray))
    modifies vol, vol.fatTable
    ensures vol.Coherent()
    ensures var plan := PlanOf(vol.g, old(vol.v), L, Op.Write(path, buf, off, time, stray));
      r == plan.reply && vol.Wrote(plan.ws)
  {
    var target, j := FindTarget(vol, path, L);
    if target.None? {
      return Aborted;
    }
    r := UpdateFile(vol, target.value.0, target.value.1, buf, off, time, stray, L, j);
  }

  /** The target of fat_truncate is known. */
  method TruncateTarget(vol: Volume, d: nat, e: Entry, size: nat, time: seq<byte>, stray: Option<nat>,
                        ghost L: Layout, ghost j: nat) returns (r: Reply)
    requires OwnSlot(vol, L, d, j, e) && size < U32 && |time| == 8 && (stray.Some? ==> stray.value < U32)
    modifies vol, vol.fatTable
    ensures vol.Coherent()
    ensures var plan := Strayed(PlanTruncate(vol.g, old(vol.v), L, d, j, size, time), stray);
      r == plan.reply && vol.Wrote(plan.ws)
  {
    if size == e.size {
      return Done(0);
    }
    if size > e.size {
      var zeros := Fill(e.size, size);
      r := UpdateFile(vol, d, e, zeros, e.size, time, stray, L, j);
      if r.Aborted? || r.Wild? {
        return r;
      }
      var result := if r.Done? then r.n else U32 - ENOMEM;
      return if result == size - e.size then Done(0) else Failed;
    }
    assert e.kind == KIND_FILE && WfEntry(e) by {
      ObjectSlotNode(vol.g, vol.v, L, d, j);
      assert DirOk(vol.g, vol.v, L, d) && EntryOk(vol.g, L.nodes, d, j, e);
    }
    ShrinkFile(vol, d, e, size, L, j);
    return Done(0);
  }

  /** fat_truncate. */
  method FatTruncate(vol: Volume, path: Path, size: nat, time: seq<byte>, stray: Option<nat>, ghost L: Layout)
    returns (r: Reply)
    requires Mounted(vol, L) && Admissible(vol.g, vol.v, L, Truncate(path, size, time, stray))
    modifies vol, vol.fatTable
    ensures vol.Coherent()
    ensures var plan := PlanOf(vol.g, old(vol.v), L, Truncate(path, size, time, stray));
      r == plan.reply && vol.Wrote(plan.ws)
  {
    var target, j := FindTarget(vol, path, L);
    if target.None? {
      return Aborted;
    }
    r := TruncateTarget(vol, target.value.0, target.value.1, size, time, stray, L, j);
  }

  /** fat_unlink. */
  method FatUnlink(vol: Volume, path: Path, ghost L: Layout) returns (r: Reply)
    requires Mounted(vol, L) && Admissible(vol.g, vol.v, L, Unlink(path))
    modifies vol, vol.fatTable
    ensures vol.Coherent()
    ensures var plan := PlanOf(vol.g, old(vol.v), L, Unlink(path));
      r == plan.reply && vol.Wrote(plan.ws)
  {
    var target, j := FindTarget(vol, path, L);
    if target.None? {
      return Aborted;
    }
    var (d, e) := target.value;
    if e.kind != KIND_FILE {
      return Failed;
    }
    SlotOfObject(vol, L, d, j, e);
    var ok := RemoveObject(vol, d, e, L, j);
    return if ok then Done(0) else Failed;
  }

  lemma SlotOfObject(vol: Volume, L: Layout, d: nat, j: nat, e: Entry)
    requires OwnSlot(vol, L, d, j, e)
    ensures WfEntry(e) && e.first in L.nodes && L.nodes[e.first].chain != [] && e.first != d
    ensures OnChain(vol, e.first, L.nodes[e.first].chain)
  {
    ObjectSlotNode(vol.g, vol.v, L, d, j);
    assert ChildOk(vol.v, L, e.first);
    DirChain(vol, L, e.first);
  }

  /** fat_rmdir; the emptiness check comes before the check that it is a directory. */
  method FatRmdir(vol: Volume, path: Path, ghost L: Layout) returns (r: Reply)
    requires Mounted(vol, L) && Admissible(vol.g, vol.v, L, Rmdir(path))
    modifies vol, vol.fatTable
    ensures vol.Coherent()
    ensures var plan := PlanOf(vol.g, old(vol.v), L, Rmdir(path));
      r == plan.reply && vol.Wrote(plan.ws)
  {
    var target, j := FindTarget(vol, path, L);
    if target.None? {
      return Aborted;
    }
    r := RemoveDir(vol, target.value.0, target.value.1, L, j);
  }

  /** Its part behind the lookup. */
  method RemoveDir(vol: Volume, d: nat, e: Entry, ghost L: Layout, ghost j: nat) returns (r: Reply)
    requires OwnSlot(vol, L, d, j, e)
    modifies vol, vol.fatTable
    ensures vol.Coherent()
    ensures var plan := PlanRemove(vol.g, old(vol.v), L, d, j, true); r == plan.reply && vol.Wrote(plan.ws)
  {
    SlotOfObject(vol, L, d, j, e);
    var empty := IsDirEmpty(vol, e.first, L.nodes[e.first].chain);
    if !empty {
      return NotEmpty;
    }
    if e.kind != KIND_DIR {
      return NotDirectory;
    }
    var ok := RemoveObject(vol, d, e, L, j);
    return if ok then Done(0) else Failed;
  }

  // ---- Creation ----

  /** has_free_cluster. */
  method HasFreeCluster(vol: Volume, ghost L: Layout) returns (r: bool)
    requires Mounted(vol, L)
    ensures r == (L.free != [])
  {
    FreeOf(vol.g, vol.v, L);
    r := vol.freeStart > vol.g.Root();
  }

  /** The first free slot of a blank cluster is slot 0, and after "." is there it is slot 1. */
  lemma BlankHasRoom(g: Geometry, o: nat, time: seq<byte>)
    requires o < U32 && |time| == 8 && 2 * ENTRY_SIZE <= g.B
    ensures FindIndex(Slots(Zeros(g.B)), []) == 0
    ensures FindIndex(Slots(DotBlock(g, o, time)), []) == 1
  {
    ZeroSlots(g.B, 0);
    ZeroSlots(g.B, 1);
    assert Slots(Zeros(g.B))[0] == Slot(Zeros(g.B), 0) && Slots(Zeros(g.B))[1] == Slot(Zeros(g.B), 1);
    FindIndexIs(Slots(Zeros(g.B)), [], 0);
    var e := NewEntry(DOT, o, true, time);
    CNameOfPadded(DOT, NAME_FIELD - 1);
    SlotsAfterSet(Zeros(g.B), 0, e);
    FindIndexIs(Slots(DotBlock(g, o, time)), [], 1);
  }

  lemma AddToOne(g: Geometry, s: State, o: nat, F: seq<nat>, e: Entry, name: Name, b: Block, j: nat)
    requires WfEntry(e) && 0 < |name| <= MAX_NAME && Get(s.data, o) == b
    requires j == FindIndex(Slots(b), []) && j < |b| / ENTRY_SIZE
    ensures AddOk(s, [o], F, name) && AddWrites(g, s, [o], F, e) == [Data(o, SetSlot(b, j, e))]
  {
    AddHere(g, s, [o], F, e, name);
  }

  /** "." and "..", into a blank cluster. */
  method AddDots(vol: Volume, o: nat, d: nat, time: seq<byte>, ghost F: seq<nat>)
    requires OnChain(vol, o, [o]) && FreeListIs(vol, F) && o !in F && vol.v.data[o] == Zeros(vol.g.B)
    requires vol.g.K < d < vol.g.N && |time| == 8
    modifies vol, vol.fatTable
    ensures vol.Coherent() && vol.Wrote(DotWrites(vol.g, o, d, time))
  {
    ghost var v0, t0, b := vol.v, vol.trace, DotBlock(vol.g, o, time);
    BlankHasRoom(vol.g, o, time);
    AddToOne(vol.g, v0, o, F, NewEntry(DOT, o, true, time), DOT, Zeros(vol.g.B), 0);
    var ok := AddDirEntryToCluster(vol, o, DOT, o, true, time, [o], F);
    ApplyOne(v0, Data(o, b));
    AddToOne(vol.g, vol.v, o, F, NewEntry(DOTDOT, d, true, time), DOTDOT, b, 1);
    ok := AddDirEntryToCluster(vol, o, DOTDOT, d, true, time, [o], F);
    Compose(v0, t0, [Data(o, b)], [Data(o, DotsBlock(vol.g, o, d, time))]);
  }

  /** Between the insertion and the dot entries the free list is intact and the new cluster is
      blank and ends its chain. */
  lemma BeforeDots(g: Geometry, s: State, L: Layout, d: nat, name: Name, time: seq<byte>)
    requires CanMake(g, s, L, d, name, time)
    ensures var s2, o, F := EnteredState(g, s, L, d, name, true, time), L.free[0], MakeLayout(g, s, L, d, name,
        true).free;
      && IsChain(s2.fat, o, [o]) && Get(s2.data, o) == Zeros(g.B)
      && InData(g, F) && g.Root() !in F && IsChain(s2.fat, s2.head, F) && o !in F
  {
    var s2, o, L' := EnteredState(g, s, L, d, name, true, time), L.free[0], MakeLayout(g, s, L, d, name, true);
    EnteredEffect(g, s, L, d, name, true, time);
    var s' := DottedState(g, s, L, d, name, time);
    FreeOf(g, s', L');
    TakenIsNewborn(g, s, L, d);
    if MakeOk(g, s, L, d, name) {
      NodeOf(g, s', L', o);
    }
  }

  /** The dot entries change neither FAT nor free list. */
  lemma DottedState(g: Geometry, s: State, L: Layout, d: nat, name: Name, time: seq<byte>) returns (s': State)
    requires CanMake(g, s, L, d, name, time)
    ensures var s2 := EnteredState(g, s, L, d, name, true, time);
      && s'.fat == s2.fat && s'.head == s2.head && Inv(g, s', MakeLayout(g, s, L, d, name, true))
  {
    var s2, o := EnteredState(g, s, L, d, name, true, time), L.free[0];
    s' := ApplyAll(s, MakeWrites(g, s, L, d, name, true, time));
    MakeDirKeepsInv(g, s, L, d, name, time);
    DotsApart(g, s, L, d, name, true, time);
    ApplyTwo(s2, Data(o, DotBlock(g, o, time)), Data(o, DotsBlock(g, o, d, time)));
  }

  /** Lines 508-509 of FAT/fat.c: the first cluster of the new object, and its entry in the parent; whether the
      insertion succeeded is not looked at. */
  method TakeAndEnter(vol: Volume, d: nat, name: Name, isDir: bool, time: seq<byte>, ghost L: Layout) returns (o: nat)
    requires Mounted(vol, L) && CanMake(vol.g, vol.v, L, d, name, time)
    modifies vol, vol.fatTable
    ensures vol.Coherent() && o == L.free[0]
    ensures vol.Wrote(PopWrites(vol.g, L.free, 1) + EntryWrites(vol.g, old(vol.v), L, d, name, isDir, time))
    ensures vol.v == EnteredState(vol.g, old(vol.v), L, d, name, isDir, time)
  {
    ghost var s, t, L1 := vol.v, vol.trace, Taken(L, 1);
    DirChain(vol, L, d);
    var popped := PopFreeClusters(vol, 1, None, L.free);
    o := popped.first;
    TakenIsNewborn(vol.g, s, L, d);
    DirChain(vol, L1, d);
    assert Disjoint(L.nodes[d].chain, L1.free) by { NotFreeAll(vol.g, vol.v, L1, d); }
    var ok := AddDirEntryToCluster(vol, d, name, o, isDir, time, L.nodes[d].chain, L1.free);
    Compose(s, t, PopWrites(vol.g, L.free, 1), EntryWrites(vol.g, s, L, d, name, isDir, time));
  }

  lemma NotFreeAll(g: Geometry, s: State, L: Layout, d: nat)
    requires StructOk(g, s, L) && d in L.nodes
    ensures Disjoint(L.nodes[d].chain, L.free)
  {
    forall i, j | 0 <= i < |L.nodes[d].chain| && 0 <= j < |L.free|
      ensures L.nodes[d].chain[i] != L.free[j]
    {
      NotFree(g, s, L, d, L.free[j]);
    }
  }

  /** add_dir_entry, once the parent is known. */
  method MakeIn(vol: Volume, d: nat, name: Name, isDir: bool, time: seq<byte>, ghost L: Layout)
    requires Mounted(vol, L) && CanMake(vol.g, vol.v, L, d, name, time)
    modifies vol, vol.fatTable
    ensures vol.Coherent() && vol.Wrote(MakeWrites(vol.g, old(vol.v), L, d, name, isDir, time))
  {
    ghost var s, t := vol.v, vol.trace;
    var o := TakeAndEnter(vol, d, name, isDir, time, L);
    ghost var ws := PopWrites(vol.g, L.free, 1) + EntryWrites(vol.g, s, L, d, name, isDir, time);
    if isDir {
      BeforeDots(vol.g, s, L, d, name, time);
      AddDots(vol, o, d, time, MakeLayout(vol.g, s, L, d, name, true).free);
      Compose(s, t, ws, DotWrites(vol.g, o, d, time));
    } else {
      assert ws + [] == ws;
    }
  }

  /** add_dir_entry; its callers have checked that a cluster is free. */
  method AddDirEntry(vol: Volume, path: Path, isDir: bool, time: seq<byte>, ghost L: Layout) returns (r: Reply)
    requires Mounted(vol, L) && KernelPath(vol.g, vol.v, L, path) && |time| == 8 && L.free != []
    modifies vol, vol.fatTable
    ensures vol.Coherent()
    ensures var plan := PlanMake(vol.g, old(vol.v), L, path, isDir, time);
      r == plan.reply && vol.Wrote(plan.ws)
  {
    ParentIsNormal(path);
    ParentIsInTree(vol.g, vol.v, L, path);
    var target := GetTargetName(path);
    var d := FindParent(vol, path, L);
    if d.None? {
      return Aborted;
    }
    MakeIsPossible(vol.g, vol.v, L, d.value, target, time);
    MakeIn(vol, d.value, target, isDir, time, L);
    return Done(0);
  }

  /** fat_mknod: only regular files are made. */
  method FatMknod(vol: Volume, path: Path, regular: bool, time: seq<byte>, ghost L: Layout) returns (r: Reply)
    requires Mounted(vol, L) && Admissible(vol.g, vol.v, L, Mknod(path, time))
    modifies vol, vol.fatTable
    ensures vol.Coherent()
    ensures !regular ==> r == Denied && vol.Wrote([])
    ensures var plan := PlanOf(vol.g, old(vol.v), L, Mknod(path, time));
      regular ==> r == plan.reply && vol.Wrote(plan.ws)
  {
    if !regular {
      return Denied;
    }
    var free := HasFreeCluster(vol, L);
    if !free {
      return NoMemory;
    }
    r := AddDirEntry(vol, path, false, time, L);
  }

  /** fat_mkdir. */
  method FatMkdir(vol: Volume, path: Path, time: seq<byte>, ghost L: Layout) returns (r: Reply)
    requires Mounted(vol, L) && Admissible(vol.g, vol.v, L, Mkdir(path, time))
    modifies vol, vol.fatTable
    ensures vol.Coherent()
    ensures var plan := PlanOf(vol.g, old(vol.v), L, Mkdir(path, time));
      r == plan.reply && vol.Wrote(plan.ws)
  {
    var free := HasFreeCluster(vol, L);
    if !free {
      return NoMemory;
    }
    r := AddDirEntry(vol, path, true, time, L);
  }

  // ---- The request loop ----

  method Perform(vol: Volume, op: Op, ghost L: Layout) returns (r: Reply)
    requires Mounted(vol, L) && Admissible(vol.g, vol.v, L, op)
    modifies vol, vol.fatTable
    ensures var plan := PlanOf(vol.g, old(vol.v), L, op);
      r == plan.reply && vol.Coherent() && vol.Wrote(plan.ws) && (!r.Wild? ==> Mounted(vol, plan.L))
  {
    OperationKeepsInv(vol.g, vol.v, L, op);
    match op
    case Mknod(path, time) => r := FatMknod(vol, path, true, time, L);
    case Mkdir(path, time) => r := FatMkdir(vol, path, time, L);
    case Write(path, buf, off, time, stray) => r := FatWrite(vol, path, buf, off, time, stray, L);
    case Truncate(path, size, time, stray) => r := FatTruncate(vol, path, size, time, stray, L);
    case Unlink(path) => r := FatUnlink(vol, path, L);
    case Rmdir(path) => r := FatRmdir(vol, path, L);
  }

  /** fuse_main with one thread: requests are served one after another, until one ends the program. Memory
      and disk agree after every one of them, and volume and replies follow the state machine. */
  method Serve(vol: Volume, ops: seq<Op>, ghost L: Layout) returns (replies: seq<Reply>, ghost L': Layout)
    requires Mounted(vol, L) && IsRun(vol.g, vol.v, L, ops)
    modifies vol, vol.fatTable
    ensures Mounted(vol, L') && vol.start == old(vol.start)
    ensures (vol.v, L') == RunFrom(vol.g, old(vol.v), L, ops) && replies == RunReplies(vol.g, old(vol.v), L, ops)
  {
    replies, L' := [], L;
    assert ops[0..] == ops;
    for i := 0 to |ops|
      invariant Mounted(vol, L') && vol.start == old(vol.start)
      invariant Served(vol.g, old(vol.v), L, ops, vol.v, L', i, replies)
    {
      ServeStep(vol.g, vol.v, L, old(vol.v), L', ops, i, replies);
      ghost var plan := PlanOf(vol.g, vol.v, L', ops[i]);
      var reply := Perform(vol, ops[i], L');
      replies, L' := replies + [reply], plan.L;
    }
  }

  /** The run of `ops` from `s0` is in state `s` after `i` operations, which returned `replies`. */
  ghost predicate Served(g: Geometry, s0: State, L0: Layout, ops: seq<Op>, s: State, L: Layout, i: nat,
      replies: seq<Reply>) {
    && g.Valid() && Inv(g, s0, L0) && Inv(g, s, L) && i <= |ops|
    && IsRun(g, s0, L0, ops) && IsRun(g, s, L, ops[i..])
    && RunFrom(g, s, L, ops[i..]) == RunFrom(g, s0, L0, ops)
    && replies + RunReplies(g, s, L, ops[i..]) == RunReplies(g, s0, L0, ops)
  }

  lemma ServeStep(g: Geometry, s: State, L0: Layout, s0: State, L: Layout, ops: seq<Op>, i: nat, replies: seq<Reply>)
    requires Served(g, s0, L0, ops, s, L, i, replies) && i < |ops|
    ensures Admissible(g, s, L, ops[i])
    ensures var plan := PlanOf(g, s, L, ops[i]);
      !plan.reply.Wild? && Served(g, s0, L0, ops, ApplyAll(s, plan.ws), plan.L, i + 1, replies + [plan.reply])
  {
    assert ops[i..][0] == ops[i] && ops[i..][1..] == ops[i + 1..];
    OperationKeepsInv(g, s, L, ops[i]);
    var plan := PlanOf(g, s, L, ops[i]);
    Assoc(replies, [plan.reply], RunReplies(g, ApplyAll(s, plan.ws), plan.L, ops[i + 1..]));
  }
}
