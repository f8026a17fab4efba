/** Interruptions of the operations that free clusters or make directories: exactly when they do harm. */
module Crashes {
  import opened Bytes
  import opened Chains
  import opened States
  import opened Entries
  import opened Allocator
  import opened Layouts
  import opened Trees
  import opened Steps
  import opened Update
  import opened Make
  import opened Release
  import opened Effects
  import opened FlatModel
  import opened Theorems

  // ---- unlink and rmdir ----

  /** The chain of an object, linked to the free list as the first write of a removal does. */
  lemma JoinedChains(g: Geometry, s: State, L: Layout, f: nat)
    requires Inv(g, s, L) && f in L.nodes
    ensures var C := L.nodes[f].chain; C != [] && C[|C| - 1] < |s.fat|
    ensures var C, F := L.nodes[f].chain, L.free;
      var fat := s.fat[C[|C| - 1] := s.head];
      IsChain(fat, f, C + F) && IsChain(fat, s.head, F)
  {
    NodeOf(g, s, L, f);
    FreeOf(g, s, L);
    var C, F := L.nodes[f].chain, L.free;
    assert Disjoint(C, F) by {
      ChainsAreSeparate(g, s, L);
    }
    ChainJoin(s.fat, C, s.head, F);
    ChainFrame(s.fat, s.head, F, C[|C| - 1], s.head);
  }

  /** A consistent state in which an object's chain runs into the free list does not exist. */
  lemma NoChainInFreeList(g: Geometry, s: State, L: Layout, f: nat, C: seq<nat>, F: seq<nat>, c: nat)
    requires Inv(g, s, L) && IsChain(s.fat, f, C) && IsChain(s.fat, s.head, F) && c in C && c in F
    ensures f !in L.nodes
  {
    ChainsAreSeparate(g, s, L);
    ChainIsUnique(s.fat, s.head, F, L.free);
    if f in L.nodes {
      ChainIsUnique(s.fat, f, C, L.nodes[f].chain);
    }
  }

  /** After the first write of a removal the disk is consistent, with nothing but free clusters lost,
      exactly if the free list was empty. */
  lemma FirstFreeWriteExactly(g: Geometry, s: State, L: Layout, f: nat)
    requires Inv(g, s, L) && f in L.nodes && L.nodes[f].chain != []
    ensures Recoverable(g, Apply(s, FreeWrites(L.nodes[f].chain, s.head)[0]), L) <==> L.free == []
  {
    var C, F := L.nodes[f].chain, L.free;
    var last := C[|C| - 1];
    var s1 := Apply(s, Fat(last, s.head));
    JoinedChains(g, s, L, f);
    NodeOf(g, s, L, f);
    FreeOf(g, s, L);
    if F == [] {
      assert s.fat[last] == At(C, |C|) == 0;
      assert s1.fat == s.fat;
      assert Survives(L, L);
    } else {
      assert (C + F)[|C|] == F[0];
      forall L' | Inv(g, s1, L')
        ensures !Survives(L, L')
      {
        NoChainInFreeList(g, s1, L', f, C + F, F, F[0]);
      }
    }
  }

  /** After the second it never is: the chain of a live object heads the free list. */
  lemma FreedIsInconsistent(g: Geometry, s: State, L: Layout, f: nat)
    requires Inv(g, s, L) && f in L.nodes && L.nodes[f].chain != []
    ensures !Recoverable(g, ApplyAll(s, FreeWrites(L.nodes[f].chain, s.head)), L)
  {
    var C, F := L.nodes[f].chain, L.free;
    var s2 := ApplyAll(s, FreeWrites(C, s.head));
    ApplyTwo(s, Fat(C[|C| - 1], s.head), Head(C[0]));
    JoinedChains(g, s, L, f);
    NodeOf(g, s, L, f);
    assert (C + F)[0] == f;
    forall L' | Inv(g, s2, L')
      ensures !Survives(L, L')
    {
      NoChainInFreeList(g, s2, L', f, C + F, C + F, f);
    }
  }

  /** So no removal is crash safe. */
  lemma RemovalIsNeverCrashSafe(g: Geometry, s: State, L: Layout, d: nat, j: nat)
    requires Inv(g, s, L) && ObjectSlot(s, L, d, j)
    ensures var e := DirOf(s, L, d)[j];
      && e.first in L.nodes && WfEntry(e) && L.nodes[e.first].chain != []
      && !CrashSafe(g, s, L, RemoveWrites(s, L, d, j))
  {
    ObjectSlotNode(g, s, L, d, j);
    var f, ws := DirOf(s, L, d)[j].first, RemoveWrites(s, L, d, j);
    FreedIsInconsistent(g, s, L, f);
    assert ws[..2] == FreeWrites(L.nodes[f].chain, s.head);
    assert !SafeAt(g, s, L, ws, 2);
  }

  // ---- Shrinking ----

  /** Some layout with `d` as a directory makes the state consistent. */
  ghost predicate Consistent(g: Geometry, s: State, d: nat) {
    exists L :: Inv(g, s, L) && d in L.nodes && L.nodes[d].isDir
  }

  ghost predicate SoundAt(g: Geometry, s: State, ws: seq<Write>, d: nat, n: nat)
    requires n <= |ws|
  {
    Consistent(g, ApplyAll(s, ws[..n]), d)
  }

  /** So it stays after every one of the writes. */
  ghost predicate Steady(g: Geometry, s: State, ws: seq<Write>, d: nat) {
    forall n {:trigger SoundAt(g, s, ws, d, n)} :: 0 <= n <= |ws| ==> SoundAt(g, s, ws, d, n)
  }

  lemma SteadyOne(g: Geometry, s: State, w: Write, d: nat)
    requires Consistent(g, s, d) && Consistent(g, Apply(s, w), d)
    ensures Steady(g, s, [w], d)
  {
    ApplyOne(s, w);
    forall n | 0 <= n <= |[w]|
      ensures SoundAt(g, s, [w], d, n)
    {
      assert [w][..n] == if n == 0 then [] else [w];
    }
  }

  lemma SteadyConcat(g: Geometry, s: State, a: seq<Write>, b: seq<Write>, d: nat)
    requires Steady(g, s, a, d) && Steady(g, ApplyAll(s, a), b, d)
    ensures Steady(g, s, a + b, d)
  {
    forall n | 0 <= n <= |a + b|
      ensures SoundAt(g, s, a + b, d, n)
    {
      if n <= |a| {
        assert (a + b)[..n] == a[..n];
        assert SoundAt(g, s, a, d, n);
      } else {
        assert (a + b)[..n] == a + b[..n - |a|];
        ApplyConcat(s, a, b[..n - |a|]);
        assert SoundAt(g, ApplyAll(s, a), b, d, n - |a|);
      }
    }
  }

  /** With the chain cut behind `k` clusters, the entry must fit these. */
  lemma CutNeedsRoom(g: Geometry, s: State, L: Layout, d: nat, j: nat, k: nat, L': Layout)
    requires Inv(g, s, L) && FileSlot(s, L, d, j) && DirOf(s, L, d)[j].first in L.nodes
    requires 0 < k <= |L.nodes[DirOf(s, L, d)[j].first].chain|
    requires Inv(g, Apply(s, Fat(L.nodes[DirOf(s, L, d)[j].first].chain[k - 1], 0)), L')
    requires d in L'.nodes && L'.nodes[d].isDir
    ensures DirOf(s, L, d)[j].size <= Times(k, g.B)
  {
    var e := DirOf(s, L, d)[j];
    var C, D := L.nodes[e.first].chain, L.nodes[d].chain;
    var s1 := Apply(s, Fat(C[k - 1], 0));
    FileSlotNode(g, s, L, d, j);
    assert C[k - 1] !in D;
    ChainFrame(s.fat, d, D, C[k - 1], 0);
    ChainCut(s.fat, e.first, C, k);
    SameDirectory(g, s1, L', d, D);
    assert DirOk(g, s1, L', d);
    assert EntryOk(g, L'.nodes, d, j, e);
    NodeOf(g, s1, L', e.first);
    ChainIsUnique(s1.fat, e.first, C[..k], L'.nodes[e.first].chain);
  }

  /** The chain of an object is the one the FAT gives. */
  lemma SameDirectory(g: Geometry, s: State, L: Layout, d: nat, D: seq<nat>)
    requires Inv(g, s, L) && d in L.nodes && IsChain(s.fat, d, D)
    ensures L.nodes[d].chain == D
  {
    NodeOf(g, s, L, d);
    ChainIsUnique(s.fat, d, D, L.nodes[d].chain);
  }

  lemma CutIsSteady(g: Geometry, s: State, L: Layout, d: nat, j: nat, f: nat, k: nat)
    requires Inv(g, s, L) && FileSlot(s, L, d, j) && f == DirOf(s, L, d)[j].first && f in L.nodes
    requires 0 < k <= |L.nodes[f].chain| && DirOf(s, L, d)[j].size <= Times(k, g.B)
    ensures Steady(g, s, CutWrites(L.nodes[f].chain, k, s.head), d)
  {
    var C := L.nodes[f].chain;
    var s1, L1 := Apply(s, Fat(C[k - 1], 0)), Detached(L, f, k);
    FileSlotNode(g, s, L, d, j);
    DetachKeepsInv(g, s, L, f, k);
    ApplyOne(s, Fat(C[k - 1], 0));
    SteadyOne(g, s, Fat(C[k - 1], 0), d);
    if k < |C| {
      NodeOf(g, s, L, f);
      ChainCut(s.fat, f, C, k);
      TailIsOrphaned(g, s, L, f, k);
      FreeIsSteady(g, s1, L1, C[k..], d);
      SteadyConcat(g, s, [Fat(C[k - 1], 0)], FreeWrites(C[k..], s.head), d);
    } else {
      assert [Fat(C[k - 1], 0)] + [] == [Fat(C[k - 1], 0)];
    }
  }

  /** Giving a chain of orphans back does no harm. */
  lemma FreeIsSteady(g: Geometry, s: State, L: Layout, o: seq<nat>, d: nat)
    requires Inv(g, s, L) && d in L.nodes && L.nodes[d].isDir
    requires o != [] && Owned(g, L, o, ORPHAN) && g.Root() !in o && IsChain(s.fat, o[0], o)
    ensures Steady(g, s, FreeWrites(o, s.head), d)
  {
    var w1, w2 := Fat(o[|o| - 1], s.head), Head(o[0]);
    FreeOf(g, s, L);
    assert s.head == At(L.free, 0);
    OrphanLinkKeepsInv(g, s, L, o[|o| - 1], s.head);
    SteadyOne(g, s, w1, d);
    ApplyOne(s, w1);
    FreeKeepsInv(g, s, L, o);
    ApplyTwo(s, w1, w2);
    SteadyOne(g, Apply(s, w1), w2, d);
    SteadyConcat(g, s, [w1], [w2], d);
  }

  /** A shrink leaves the disk consistent after every write exactly if the clusters it keeps held the whole
      file already; otherwise the entry claims more bytes than the chain has until the last write. */
  lemma ShrinkIsSteadyExactly(g: Geometry, s: State, L: Layout, d: nat, j: nat, size: nat, k: nat)
    requires CanShrink(g, s, L, d, j, size, k)
    ensures k <= |L.nodes[DirOf(s, L, d)[j].first].chain|
    ensures Steady(g, s, ShrinkWrites(s, L, d, j, size, k), d) <==> DirOf(s, L, d)[j].size <= Times(k, g.B)
  {
    CutFits(g, s, L, d, j, size, k);
    FileSlotNode(g, s, L, d, j);
    var e, ws := DirOf(s, L, d)[j], ShrinkWrites(s, L, d, j, size, k);
    var C := L.nodes[e.first].chain;
    if e.size <= Times(k, g.B) {
      CutIsSteady(g, s, L, d, j, e.first, k);
      ShrinkEndIsSteady(g, s, L, d, j, size, k);
      SteadyConcat(g, s, CutWrites(C, k, s.head), SlotWrite(s.data, L.nodes[d].chain, j, e.(size := size)), d);
    } else {
      assert ws[..1] == [Fat(C[k - 1], 0)];
      ApplyOne(s, Fat(C[k - 1], 0));
      forall L' | Inv(g, ApplyAll(s, ws[..1]), L') && d in L'.nodes
        ensures !L'.nodes[d].isDir
      {
        if L'.nodes[d].isDir {
          CutNeedsRoom(g, s, L, d, j, k, L');
        }
      }
      assert !SoundAt(g, s, ws, d, 1);
    }
  }

  lemma ShrinkEndIsSteady(g: Geometry, s: State, L: Layout, d: nat, j: nat, size: nat, k: nat)
    requires CanShrink(g, s, L, d, j, size, k) && k <= |L.nodes[DirOf(s, L, d)[j].first].chain|
    requires DirOf(s, L, d)[j].size <= Times(k, g.B)
    ensures var e := DirOf(s, L, d)[j];
      var cut := CutWrites(L.nodes[e.first].chain, k, s.head);
      Steady(g, ApplyAll(s, cut), SlotWrite(s.data, L.nodes[d].chain, j, e.(size := size)), d)
  {
    FileSlotNode(g, s, L, d, j);
    var e := DirOf(s, L, d)[j];
    var cut := CutWrites(L.nodes[e.first].chain, k, s.head);
    var w := PutSlot(g, s, L, d, j, e.(size := size));
    CutKeepsInv(g, s, L, e.first, k);
    ShrinkKeepsInv(g, s, L, d, j, size, k);
    ApplySnoc(s, cut, w);
    var L1 := ShrinkLayout(L, e.first, k);
    assert L1.nodes[d].isDir;
    SteadyOne(g, ApplyAll(s, cut), w, d);
  }

  // ---- mkdir ----

  /** The entry of a directory leads to a cluster that starts with ".". */
  lemma DirectoryHasDot(g: Geometry, s: State, L: Layout, d: nat, D: seq<nat>, j: nat, o: nat)
    requires Inv(g, s, L) && d in L.nodes && L.nodes[d].isDir && IsChain(s.fat, d, D)
    requires 2 <= j < |DirSlots(s.data, D)| && Live(DirSlots(s.data, D)[j])
    requires DirSlots(s.data, D)[j].first == o && DirSlots(s.data, D)[j].kind == KIND_DIR
    requires IsChain(s.fat, o, [o])
    ensures DirSlots(s.data, [o]) != [] && CName(DirSlots(s.data, [o])[0].name) == DOT
  {
    SameDirectory(g, s, L, d, D);
    assert DirOk(g, s, L, d);
    assert EntryOk(g, L.nodes, d, j, DirOf(s, L, d)[j]);
    SameDirectory(g, s, L, o, [o]);
    assert DirOk(g, s, L, o);
  }

  lemma BlankHasNoDot(g: Geometry, data: seq<Block>, o: nat)
    requires Get(data, o) == Zeros(g.B) && ENTRY_SIZE <= g.B
    ensures DirSlots(data, [o]) != [] && CName(DirSlots(data, [o])[0].name) == []
  {
    ZeroSlots(g.B, 0);
    assert DirSlots(data, [o]) == Slots(Zeros(g.B)) + DirSlots(data, []);
    assert Slots(Zeros(g.B))[0] == Slot(Zeros(g.B), 0);
  }

  /** The new directory in its parent, before its dot entries. */
  lemma EnteredDirectory(g: Geometry, s: State, L: Layout, d: nat, name: Name, time: seq<byte>)
    requires CanMake(g, s, L, d, name, time) && MakeOk(g, s, L, d, name)
    ensures !Recoverable(g, EnteredState(g, s, L, d, name, true, time), L)
  {
    var s2, L2, o := EnteredState(g, s, L, d, name, true, time), MakeLayout(g, s, L, d, name, true), L.free[0];
    var ss, e := DirOf(s, L, d), NewEntry(name, o, true, time);
    var j := FindIndex(ss, []);
    EnteredEffect(g, s, L, d, name, true, time);
    assert Live(e) by { NewEntryIsFresh(name, o, true, time); }
    EnteredChains(g, s, L, d, name, time);
    assert 2 <= j by { assert DirOk(g, s, L, d); }
    InsertedThere(g, ss, e);
    BlankHasNoDot(g, s2.data, o);
    forall L' | Inv(g, s2, L')
      ensures !Survives(L, L')
    {
      if Survives(L, L') {
        DirectoryHasDot(g, s2, L', d, L2.nodes[d].chain, j, o);
      }
    }
  }

  lemma InsertedThere(g: Geometry, ss: seq<Entry>, e: Entry)
    requires ENTRY_SIZE <= g.B
    ensures var j := FindIndex(ss, []); j < |Inserted(g, ss, e)| && Inserted(g, ss, e)[j] == e
  {
  }

  lemma EnteredChains(g: Geometry, s: State, L: Layout, d: nat, name: Name, time: seq<byte>)
    requires CanMake(g, s, L, d, name, time) && MakeOk(g, s, L, d, name)
    ensures var s2, L2, o := EnteredState(g, s, L, d, name, true, time), MakeLayout(g, s, L, d, name, true), L.free[0];
      && d in L2.nodes && IsChain(s2.fat, d, L2.nodes[d].chain) && IsChain(s2.fat, o, [o])
  {
    var s2, L2, o := EnteredState(g, s, L, d, name, true, time), MakeLayout(g, s, L, d, name, true), L.free[0];
    var s' := ApplyAll(s, MakeWrites(g, s, L, d, name, true, time));
    assert Inv(g, s', L2) by { MakeDirKeepsInv(g, s, L, d, name, time); }
    assert s'.fat == s2.fat by { SameFatBeforeDots(g, s, L, d, name, time); }
    assert d in L2.nodes && o in L2.nodes && L2.nodes[o].chain == [o] by { MakeShape(g, s, L, d, name, true); }
    NodeOf(g, s', L2, d);
    NodeOf(g, s', L2, o);
  }

  lemma SameFatBeforeDots(g: Geometry, s: State, L: Layout, d: nat, name: Name, time: seq<byte>)
    requires CanMake(g, s, L, d, name, time)
    ensures ApplyAll(s, MakeWrites(g, s, L, d, name, true, time)).fat == EnteredState(g, s, L, d, name, true, time).fat
  {
    var s2, o := EnteredState(g, s, L, d, name, true, time), L.free[0];
    DotsApart(g, s, L, d, name, true, time);
    ApplyTwo(s2, Data(o, DotBlock(g, o, time)), Data(o, DotsBlock(g, o, d, time)));
  }

  /** A directory is made crash safely exactly if it is not made: if its insertion into the parent fails. */
  lemma MkdirIsCrashSafeExactly(g: Geometry, s: State, L: Layout, d: nat, name: Name, time: seq<byte>)
    requires CanMake(g, s, L, d, name, time)
    ensures CrashSafe(g, s, L, MakeWrites(g, s, L, d, name, true, time)) <==> !MakeOk(g, s, L, d, name)
  {
    if MakeOk(g, s, L, d, name) {
      var a, b := PopWrites(g, L.free, 1), EntryWrites(g, s, L, d, name, true, time);
      var ws, c := MakeWrites(g, s, L, d, name, true, time), DotWrites(g, L.free[0], d, time);
      assert ws == a + b + c;
      assert ws[..|a + b|] == a + b;
      ApplyConcat(s, a, b);
      EnteredDirectory(g, s, L, d, name, time);
      assert !SafeAt(g, s, L, ws, |a + b|);
    } else {
      LostDirectory(g, s, L, d, name, time);
    }
  }

  /** What an orphan holds does not matter. */
  lemma OrphanDataRuns(g: Geometry, s: State, L: Layout, o: nat, block: Block)
    requires Inv(g, s, L) && g.K < o < g.N && L.owner[o] == ORPHAN && |block| == g.B
    ensures Runs(g, s, L, [Data(o, block)], L)
  {
    NodesOwnThemselves(g, s, L);
    DataKeepsInv(g, s, L, o, block);
    OneRun(g, s, L, Data(o, block), L);
  }

  lemma LostDirectory(g: Geometry, s: State, L: Layout, d: nat, name: Name, time: seq<byte>)
    requires CanMake(g, s, L, d, name, time) && !MakeOk(g, s, L, d, name)
    ensures CrashSafe(g, s, L, MakeWrites(g, s, L, d, name, true, time))
  {
    var a, o, s1, L1 := PopWrites(g, L.free, 1), L.free[0], TakenState(g, s, L), Taken(L, 1);
    var w1, w2 := Data(o, DotBlock(g, o, time)), Data(o, DotsBlock(g, o, d, time));
    PopRuns(g, s, L, 1);
    TakenIsNewborn(g, s, L, d);
    OrphanDataRuns(g, s1, L1, o, w1.block);
    ApplyOne(s1, w1);
    OrphanDataRuns(g, Apply(s1, w1), L1, o, w2.block);
    RunsConcat(g, s1, L1, [w1], L1, [w2], L1);
    RunsConcat(g, s, L, a, L1, [w1] + [w2], L1);
    assert a + [] == a;
  }
}
