/** The bytes behind the end of a file: zero in a new file, kept so by writes and extensions, and spoilt by a
    shrink exactly if it drops bytes that are not zero from the last cluster it keeps. */
module Tails {
  import opened Bytes
  import opened States
  import opened Entries
  import opened Layouts
  import opened Trees
  import opened Update
  import opened Make
  import opened Effects
  import opened Paths
  import opened Machine
  import opened FlatModel
  import opened Theorems
  import opened Refinement

  // ---- Files and their tails ----

  /** Slot `j` of directory `d` is a file. */
  ghost predicate FileAt(A: Flat, d: nat, j: nat) {
    A.HasSlot(d, j) && Live(A.objs[d].slots[j]) && A.IsFile(A.objs[d].slots[j].first)
  }

  ghost predicate ZeroFrom(bytes: seq<byte>, lo: nat) {
    forall i :: lo <= i < |bytes| ==> bytes[i] == 0
  }

  /** From its end to the end of its last cluster the file holds zeros. */
  ghost predicate ZeroTail(A: Flat, d: nat, j: nat)
    requires FileAt(A, d, j)
  {
    ZeroFrom(A.objs[A.objs[d].slots[j].first].bytes, A.objs[d].slots[j].size)
  }

  ghost predicate ZeroTails(A: Flat) {
    forall d: nat, j: nat {:trigger FileAt(A, d, j)} :: FileAt(A, d, j) ==> ZeroTail(A, d, j)
  }

  /** What consistency means for the flat filesystem: every live slot names an object, files fit their
      clusters, and no file has two slots. */
  ghost predicate FlatOk(g: Geometry, A: Flat) {
    && (forall d: nat, j: nat {:trigger A.HasSlot(d, j)} :: A.HasSlot(d, j) && Live(A.objs[d].slots[j]) ==>
        A.objs[d].slots[j].first in A.objs)
    && (forall d: nat, j: nat {:trigger FileAt(A, d, j)} :: FileAt(A, d, j) ==> FileHere(g, A, d, j))
    && (forall d: nat, j: nat, d': nat, j': nat {:trigger FileAt(A, d, j), FileAt(A, d', j')} ::
        FileAt(A, d, j) && FileAt(A, d', j') && A.objs[d].slots[j].first == A.objs[d'].slots[j'].first ==>
        d == d' && j == j')
  }

  lemma SlotIsKnown(g: Geometry, s: State, L: Layout, d: nat, j: nat)
    requires Inv(g, s, L) && FlatOf(s, L).HasSlot(d, j) && Live(DirOf(s, L, d)[j])
    ensures var e := DirOf(s, L, d)[j];
      && e.first in L.nodes
      && (!L.nodes[e.first].isDir ==>
          FileSlot(s, L, d, j) && L.nodes[e.first].parent == d && L.nodes[e.first].slot == j)
  {
    assert DirOk(g, s, L, d);
    assert d != g.Root() ==> ChildOk(s, L, d);
    if j >= 2 {
      assert EntryOk(g, L.nodes, d, j, DirOf(s, L, d)[j]);
    }
  }

  lemma FlatIsOk(g: Geometry, s: State, L: Layout)
    requires Inv(g, s, L)
    ensures FlatOk(g, FlatOf(s, L))
  {
    var A := FlatOf(s, L);
    forall d: nat, j: nat | A.HasSlot(d, j) && Live(A.objs[d].slots[j])
      ensures A.objs[d].slots[j].first in A.objs
    {
      SlotIsKnown(g, s, L, d, j);
    }
    forall d: nat, j: nat | FileAt(A, d, j)
      ensures FileHere(g, A, d, j)
    {
      SlotIsKnown(g, s, L, d, j);
      FilesAreHere(g, s, L, d, j);
    }
    forall d: nat, j: nat, d': nat, j': nat | FileAt(A, d, j) && FileAt(A, d', j')
        && A.objs[d].slots[j].first == A.objs[d'].slots[j'].first
      ensures d == d' && j == j'
    {
      SlotIsKnown(g, s, L, d, j);
      SlotIsKnown(g, s, L, d', j');
    }
  }

  // ---- One slot and one file changed ----

  /** From `A` to `A'` slot `j` of `d` became `e` and the file it names became `f`; nothing else changed. */
  ghost predicate OneFile(A: Flat, A': Flat, d: nat, j: nat, e: Entry, f: Obj) {
    && FileAt(A, d, j) && Live(e) && f.FileObj? && e.first == A.objs[d].slots[j].first != d
    && A'.objs == WithSlot(A, d, j, e)[e.first := f]
  }

  lemma OtherFile(g: Geometry, A: Flat, A': Flat, d: nat, j: nat, e: Entry, f: Obj, x: nat, i: nat)
    requires FlatOk(g, A) && OneFile(A, A', d, j, e, f) && FileAt(A', x, i) && !(x == d && i == j)
    ensures FileAt(A, x, i) && A'.objs[x].slots[i] == A.objs[x].slots[i]
    ensures A'.objs[A'.objs[x].slots[i].first] == A.objs[A'.objs[x].slots[i].first]
  {
    assert x != e.first && A'.objs[x].slots[i] == A.objs[x].slots[i];
    var c := A.objs[x].slots[i].first;
    assert c != d;
    assert A.IsFile(c);
    assert FileAt(A, x, i);
  }

  /** The tails after such a change are zero exactly if the one of the changed file is. */
  lemma OneFileTails(g: Geometry, A: Flat, A': Flat, d: nat, j: nat, e: Entry, f: Obj)
    requires FlatOk(g, A) && ZeroTails(A) && OneFile(A, A', d, j, e, f)
    ensures ZeroTails(A') <==> ZeroFrom(f.bytes, e.size)
  {
    assert FileAt(A', d, j);
    if ZeroFrom(f.bytes, e.size) {
      forall x: nat, i: nat | FileAt(A', x, i)
        ensures ZeroTail(A', x, i)
      {
        if !(x == d && i == j) {
          OtherFile(g, A, A', d, j, e, f, x, i);
        }
      }
    }
  }

  // ---- The operations ----

  lemma SplicedTail(bytes: seq<byte>, z: nat, size: nat, buf: seq<byte>, off: nat)
    requires ZeroFrom(bytes, size) && End(off, buf) <= |bytes| + z
    ensures ZeroFrom(Splice(bytes + Zeros(z), off, buf), Max(size, End(off, buf)))
  {
  }

  /** A write keeps zero tails, wherever it starts. */
  lemma UpdateKeepsTails(g: Geometry, A: Flat, d: nat, j: nat, buf: seq<byte>, off: nat, time: seq<byte>)
    requires FlatOk(g, A) && ZeroTails(A) && A.HasSlot(d, j) && Live(A.objs[d].slots[j]) && 0 < g.B && buf != []
    ensures ZeroTails(FlatUpdate(g, A, d, j, buf, off, time).0)
  {
    var e := A.objs[d].slots[j];
    var A' := FlatUpdate(g, A, d, j, buf, off, time).0;
    if FlatUpdate(g, A, d, j, buf, off, time).1.Done? {
      assert FileAt(A, d, j);
      var f := A.objs[e.first];
      var n, e' := Max(f.n, SpotOf(g, off, |buf|).need), UpdatedEntry(e, End(off, buf), time);
      WrittenTail(g, f, e.size, buf, off, n);
      OneFileTails(g, A, A', d, j, e', WrittenFile(g, f, buf, off, n));
    }
  }

  lemma WrittenTail(g: Geometry, f: Obj, size: nat, buf: seq<byte>, off: nat, n: nat)
    requires 0 < g.B && buf != [] && f.FileObj? && |f.bytes| == Times(f.n, g.B) && ZeroFrom(f.bytes, size)
    requires f.n <= n && SpotOf(g, off, |buf|).need <= n
    ensures ZeroFrom(WrittenFile(g, f, buf, off, n).bytes, Max(size, End(off, buf)))
  {
    SpotOfIs(g, off, |buf|);
    TimesPlus(f.n, n - f.n, g.B);
    TimesMono(SpotOf(g, off, |buf|).need, n, g.B);
    SplicedTail(f.bytes, Times(n - f.n, g.B), size, buf, off);
  }

  /** A shrink of the file in slot `j` of `d` to `size` drops a byte that is not zero from the last cluster it
      keeps; a reader of the file sees this byte before the call. */
  ghost predicate DropsBytes(g: Geometry, A: Flat, d: nat, j: nat, size: nat)
    requires FileAt(A, d, j) && 0 < g.B
  {
    exists i :: size <= i < |Visible(A, d, j)| && i < Times(CutOf(g, size), g.B) && Visible(A, d, j)[i] != 0
  }

  lemma CutTail(bytes: seq<byte>, size: nat, was: nat, hi: nat)
    requires size < was <= |bytes| && ZeroFrom(bytes, was)
    ensures ZeroFrom(Prefix(bytes, hi), size) <==> forall i :: size <= i < was && i < hi ==> bytes[i] == 0
  {
    var b := Prefix(bytes, hi);
    assert forall i :: 0 <= i < |b| ==> b[i] == bytes[i];
  }

  /** A shrink keeps zero tails exactly if it drops no such byte. */
  lemma ShrinkTailsExactly(g: Geometry, A: Flat, d: nat, j: nat, size: nat, time: seq<byte>)
    requires FlatOk(g, A) && ZeroTails(A) && FileAt(A, d, j) && 0 < g.B && size < A.objs[d].slots[j].size
    ensures ZeroTails(FlatTruncate(g, A, d, j, size, time).0) <==> !DropsBytes(g, A, d, j, size)
  {
    CutOfIs(g, size);
    var e, k := A.objs[d].slots[j], CutOf(g, size);
    var f, A' := A.objs[e.first], FlatTruncate(g, A, d, j, size, time).0;
    if f.n < k {
      TimesMono(f.n, k - 1, g.B);
    }
    CutTail(f.bytes, size, e.size, Times(k, g.B));
    assert forall i :: 0 <= i < e.size ==> Visible(A, d, j)[i] == f.bytes[i];
    OneFileTails(g, A, A', d, j, e.(size := size), FileObj(Prefix(f.bytes, Times(k, g.B)), k));
  }

  lemma RemoveKeepsTails(g: Geometry, A: Flat, d: nat, j: nat, isDir: bool)
    requires FlatOk(g, A) && ZeroTails(A) && A.HasSlot(d, j)
    ensures ZeroTails(FlatRemove(A, d, j, isDir).0)
  {
    var A' := FlatRemove(A, d, j, isDir).0;
    forall x: nat, i: nat | FileAt(A', x, i)
      ensures ZeroTail(A', x, i)
    {
      assert FileAt(A, x, i);
    }
  }

  lemma MakeKeepsTails(g: Geometry, A: Flat, d: nat, name: Name, isDir: bool, time: seq<byte>, o: nat)
    requires FlatOk(g, A) && ZeroTails(A) && A.IsDir(d) && o !in A.objs && o < U32 && d < U32
    requires |time| == 8 && 2 * ENTRY_SIZE <= g.B
    ensures ZeroTails(FlatMake(g, A, d, name, isDir, time, o).0)
  {
    var A' := FlatMake(g, A, d, name, isDir, time, o).0;
    if A'.objs != A.objs {
      forall x: nat, i: nat | FileAt(A', x, i)
        ensures ZeroTail(A', x, i)
      {
        MadeTail(g, A, A', d, name, isDir, time, o, x, i);
      }
    } else {
      forall x: nat, i: nat | FileAt(A', x, i)
        ensures ZeroTail(A', x, i)
      {
        assert FileAt(A, x, i);
      }
    }
  }

  lemma MadeTail(g: Geometry, A: Flat, A': Flat, d: nat, name: Name, isDir: bool, time: seq<byte>, o: nat, x: nat,
      i: nat)
    requires FlatOk(g, A) && ZeroTails(A) && A.IsDir(d) && o !in A.objs && o < U32 && d < U32
    requires |time| == 8 && 2 * ENTRY_SIZE <= g.B && |name| <= MAX_NAME
    requires A'.objs == Made(g, A, d, name, isDir, time, o) && FileAt(A', x, i)
    ensures ZeroTail(A', x, i)
  {
    var e, ss := NewEntry(name, o, isDir, time), A.objs[d].slots;
    if x == o {
      DotsAreFresh(g, o, d, time);
    } else if x == d {
      InsertedSlot(g, ss, e, i);
      assert i < |ss| && A'.objs[x].slots[i] == ss[i] ==> A.HasSlot(x, i) && FileAt(A, x, i);
    } else {
      assert A.HasSlot(x, i) && FileAt(A, x, i);
    }
  }

  /** A live slot after an insertion is one from before or the new one. */
  lemma InsertedSlot(g: Geometry, ss: seq<Entry>, e: Entry, i: nat)
    requires ENTRY_SIZE <= g.B && i < |Inserted(g, ss, e)| && Live(Inserted(g, ss, e)[i])
    ensures Inserted(g, ss, e)[i] == e || (i < |ss| && Inserted(g, ss, e)[i] == ss[i])
  {
    if i >= |ss| {
      ZeroSlots(g.B, i - |ss|);
    }
  }

  // ---- Every step, every run ----

  /** On slot `j` of `d`, `op` shrinks a file and drops bytes as above. */
  ghost predicate DirtyAt(g: Geometry, A: Flat, op: Op, d: nat, j: nat)
    requires 0 < g.B
  {
    op.Truncate? && FileAt(A, d, j) && op.size < A.objs[d].slots[j].size && DropsBytes(g, A, d, j, op.size)
  }

  ghost predicate DirtyShrink(g: Geometry, A: Flat, op: Op)
    requires g.Valid() && SLASH in op.path
  {
    match FlatParent(g, A, op.path)
    case None => false
    case Some(d) => A.IsDir(d) && d < U32 && DirtyAt(g, A, op, d, FindIndex(A.objs[d].slots, TargetOf(op.path)))
  }

  lemma TruncateTailsExactly(g: Geometry, A: Flat, d: nat, j: nat, size: nat, time: seq<byte>)
    requires FlatOk(g, A) && ZeroTails(A) && A.HasSlot(d, j) && Live(A.objs[d].slots[j]) && 0 < g.B
    requires !A.IsFile(A.objs[d].slots[j].first) ==> A.objs[d].slots[j].size == 0
    ensures ZeroTails(FlatTruncate(g, A, d, j, size, time).0)
      <==> !(FileAt(A, d, j) && size < A.objs[d].slots[j].size && DropsBytes(g, A, d, j, size))
  {
    var e := A.objs[d].slots[j];
    if size > e.size {
      UpdateKeepsTails(g, A, d, j, Fill(e.size, size), e.size, time);
    } else if size < e.size && FileAt(A, d, j) {
      ShrinkTailsExactly(g, A, d, j, size, time);
    }
  }

  lemma SlotTailsExactly(g: Geometry, A: Flat, op: Op, d: nat, j: nat, name: Name)
    requires g.Valid() && FlatOk(g, A) && ZeroTails(A) && Sane(op) && !op.Mknod? && !op.Mkdir?
    requires A.HasSlot(d, j) && Live(A.objs[d].slots[j]) && j == FindIndex(A.objs[d].slots, name)
    requires !A.IsFile(A.objs[d].slots[j].first) ==> A.objs[d].slots[j].size == 0
    ensures ZeroTails(FlatTarget(g, A, op, d, name).0) <==> !DirtyAt(g, A, op, d, j)
  {
    if op.Write? {
      UpdateKeepsTails(g, A, d, j, op.buf, op.off, op.time);
    } else if op.Truncate? {
      TruncateTailsExactly(g, A, d, j, op.size, op.time);
    } else {
      RemoveKeepsTails(g, A, d, j, op.Rmdir?);
    }
  }

  lemma TargetTailsExactly(g: Geometry, s: State, L: Layout, op: Op, d: nat, name: Name)
    requires g.Valid() && Inv(g, s, L) && Sane(op) && !op.Mknod? && !op.Mkdir? && TargetName(name)
    requires ZeroTails(FlatOf(s, L)) && d in L.nodes && L.nodes[d].isDir
    ensures FlatOf(s, L).IsDir(d)
    ensures ZeroTails(FlatTarget(g, FlatOf(s, L), op, d, name).0)
      <==> !DirtyAt(g, FlatOf(s, L), op, d, FindIndex(DirOf(s, L, d), name))
  {
    FlatIsOk(g, s, L);
    TargetIsObject(g, s, L, d, name);
    var j := FindIndex(DirOf(s, L, d), name);
    if j < |DirOf(s, L, d)| {
      FlatSlot(g, s, L, d, j);
      assert DirOk(g, s, L, d) && EntryOk(g, L.nodes, d, j, DirOf(s, L, d)[j]);
      SlotTailsExactly(g, FlatOf(s, L), op, d, j, name);
    }
  }

  lemma MakeOpKeepsTails(g: Geometry, s: State, L: Layout, d: nat, name: Name, isDir: bool, time: seq<byte>)
    requires g.Valid() && Inv(g, s, L) && ZeroTails(FlatOf(s, L)) && d in L.nodes && L.nodes[d].isDir && d < U32
    requires |time| == 8 && NewId(L) < U32
    ensures FlatOf(s, L).IsDir(d)
    ensures ZeroTails(FlatMake(g, FlatOf(s, L), d, name, isDir, time, NewId(L)).0)
  {
    FlatIsOk(g, s, L);
    NewIdIsNew(g, s, L);
    MakeKeepsTails(g, FlatOf(s, L), d, name, isDir, time, NewId(L));
  }

  /** Every operation keeps zero tails, except a shrink that drops bytes that are not zero from the last
      cluster it keeps. */
  lemma StepTailsExactly(g: Geometry, s: State, L: Layout, op: Op)
    requires g.Valid() && Inv(g, s, L) && Admissible(g, s, L, op) && !PlanOf(g, s, L, op).reply.Wild?
    requires ZeroTails(FlatOf(s, L))
    ensures SLASH in op.path
    ensures var plan := PlanOf(g, s, L, op);
      ZeroTails(FlatOf(ApplyAll(s, plan.ws), plan.L)) <==> !DirtyShrink(g, FlatOf(s, L), op)
  {
    OperationIsFlat(g, s, L, op);
    var parent := ParentFound(g, s, L, op);
    if parent.Some? {
      if op.Mknod? || op.Mkdir? {
        MakeOpKeepsTails(g, s, L, parent.value, TargetOf(op.path), op.Mkdir?, op.time);
      } else {
        TargetTailsExactly(g, s, L, op, parent.value, TargetOf(op.path));
      }
    }
  }

  /** A run without such shrinks. */
  ghost predicate CleanRun(g: Geometry, s: State, L: Layout, ops: seq<Op>)
    requires g.Valid() && Inv(g, s, L) && IsRun(g, s, L, ops)
    decreases |ops|
  {
    ops == [] ||
    (var plan := PlanOf(g, s, L, ops[0]);
     OperationKeepsInv(g, s, L, ops[0]);
     && (SLASH in ops[0].path ==> !DirtyShrink(g, FlatOf(s, L), ops[0]))
     && CleanRun(g, ApplyAll(s, plan.ws), plan.L, ops[1..]))
  }

  lemma {:induction false} CleanRunKeepsTails(g: Geometry, s: State, L: Layout, ops: seq<Op>)
    requires g.Valid() && Inv(g, s, L) && IsRun(g, s, L, ops) && CleanRun(g, s, L, ops) && ZeroTails(FlatOf(s, L))
    ensures var (s', L') := RunFrom(g, s, L, ops); ZeroTails(FlatOf(s', L'))
    decreases |ops|
  {
    if ops != [] {
      var plan := PlanOf(g, s, L, ops[0]);
      OperationKeepsInv(g, s, L, ops[0]);
      StepTailsExactly(g, s, L, ops[0]);
      CleanRunKeepsTails(g, ApplyAll(s, plan.ws), plan.L, ops[1..]);
    }
  }

  lemma FreshHasNoFiles(g: Geometry, time: seq<byte>)
    requires g.Valid() && g.N < U32 && |time| == 8
    ensures ZeroTails(FreshFlat(g, time))
  {
    var A, s, L := FreshFlat(g, time), FreshState(g, time), FreshLayout(g);
    assert A.objs[g.Root()] == ObjOf(s, L, g.Root());
    assert forall x :: !A.IsFile(x);
  }

  ghost predicate FreshClean(g: Geometry, time: seq<byte>, ops: seq<Op>)
    requires g.Valid() && g.N < U32 && |time| == 8 && FreshRun(g, time, ops)
  {
    FreshIsConsistent(g, time);
    CleanRun(g, FreshState(g, time), FreshLayout(g), ops)
  }

  /** In every state a clean run from a fresh format reaches, a write past the end of any file leaves a gap of
      zeros. */
  lemma GapsAreZero(g: Geometry, time: seq<byte>, ops: seq<Op>, d: nat, j: nat, buf: seq<byte>, off: nat,
      now: seq<byte>)
    requires g.Valid() && g.N < U32 && |time| == 8 && FreshRun(g, time, ops) && FreshClean(g, time, ops) && buf != []
    requires var (s, L) := FreshRunEnd(g, time, ops);
      FileAt(FlatOf(s, L), d, j) && FlatUpdate(g, FlatOf(s, L), d, j, buf, off, now).1.Done?
    ensures var (s, L) := FreshRunEnd(g, time, ops);
      var A, A' := FlatOf(s, L), FlatUpdate(g, FlatOf(s, L), d, j, buf, off, now).0;
      && FileHere(g, A', d, j) && off <= |Visible(A', d, j)|
      && forall i :: A.objs[d].slots[j].size <= i < off ==> Visible(A', d, j)[i] == 0
  {
    FreshIsConsistent(g, time);
    FreshHasNoFiles(g, time);
    CleanRunKeepsTails(g, FreshState(g, time), FreshLayout(g), ops);
    var (s, L) := FreshRunEnd(g, time, ops);
    FlatIsOk(g, s, L);
    WriteIsSeen(g, FlatOf(s, L), d, j, buf, off, now);
  }
}
