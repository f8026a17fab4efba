/** The filesystem without clusters: files as flat bytes, directories as lists of slots, and a
    number of free clusters. Every operation on the disk is an operation here. */
module FlatModel {
  import opened Bytes
  import opened States
  import opened Entries
  import opened Allocator
  import opened Layouts
  import opened Trees
  import opened Files
  import opened Update
  import opened Make
  import opened Release
  import opened Effects
  import opened Machine

  /** A file is all bytes of its `n` clusters (its size is in its directory entry); a
      directory is the slots of its `n` clusters. */
  datatype Obj = FileObj(bytes: seq<byte>, n: nat) | DirObj(slots: seq<Entry>, n: nat)

  datatype Flat = Flat(objs: map<nat, Obj>, free: nat) {
    ghost predicate IsDir(x: nat) {
      x in objs && objs[x].DirObj?
    }

    ghost predicate IsFile(x: nat) {
      x in objs && objs[x].FileObj?
    }

    ghost predicate HasSlot(d: nat, j: nat) {
      IsDir(d) && j < |objs[d].slots|
    }
  }

  // ---- Abstraction ----

  ghost function ObjOf(s: State, L: Layout, x: nat): Obj
    requires x in L.nodes
  {
    var C := L.nodes[x].chain;
    if L.nodes[x].isDir then DirObj(DirOf(s, L, x), |C|) else FileObj(Contents(s.data, C), |C|)
  }

  ghost function ObjsOf(s: State, L: Layout): map<nat, Obj> {
    map x | x in L.nodes :: ObjOf(s, L, x)
  }

  ghost function FlatOf(s: State, L: Layout): Flat {
    Flat(ObjsOf(s, L), |L.free|)
  }

  // ---- The flat operations ----

  function Put(bytes: seq<byte>, off: nat, buf: seq<byte>): seq<byte> {
    if End(off, buf) <= |bytes| then Splice(bytes, off, buf) else bytes
  }

  function Prefix<T>(s: seq<T>, n: nat): seq<T> {
    if n <= |s| then s[..n] else s
  }

  /** Slot `j` of `d` rewritten. */
  ghost function WithSlot(A: Flat, d: nat, j: nat, e: Entry): map<nat, Obj>
    requires A.HasSlot(d, j)
  {
    A.objs[d := DirObj(A.objs[d].slots[j := e], A.objs[d].n)]
  }

  /** A file given `n` clusters, the new ones zero, and written to. */
  ghost function WrittenFile(g: Geometry, f: Obj, buf: seq<byte>, off: nat, n: nat): Obj
    requires f.FileObj? && f.n <= n
  {
    FileObj(Put(f.bytes + Zeros(Times(n - f.n, g.B)), off, buf), n)
  }

  /** A write splices the bytes, after as many zeros as whole clusters need. */
  ghost function FlatUpdate(g: Geometry, A: Flat, d: nat, j: nat,
                            buf: seq<byte>, off: nat, time: seq<byte>): (Flat, Reply)
    requires A.HasSlot(d, j) && 0 < g.B && buf != []
  {
    var e := A.objs[d].slots[j];
    if !A.IsFile(e.first) then (A, Aborted)
    else
      var f, need := A.objs[e.first], SpotOf(g, off, |buf|).need;
      var n := Max(f.n, need);
      if need <= f.n + A.free then
        (Flat(WithSlot(A, d, j, UpdatedEntry(e, End(off, buf), time))[e.first := WrittenFile(g, f, buf, off, n)],
              f.n + A.free - n), Done(|buf|))
      else if need == f.n + A.free + 1 then (A, Reply.Wild)
      else (A, NoMemory)
  }

  /** The answer to an extension: success, or the failure that update_file met. */
  function PlainReply(reply: Reply): Reply {
    match reply
    case Done(_) => Done(0)
    case NoMemory => Failed
    case _ => reply
  }

  /** The program takes an extension for a success that found no space: the number of zeros asked for, as a C
      `int`, is the error code. */
  ghost predicate FalseSuccess(g: Geometry, A: Flat, d: nat, j: nat, size: nat)
    requires A.HasSlot(d, j) && 0 < g.B
  {
    var e := A.objs[d].slots[j];
    && A.IsFile(e.first) && e.size < size && |Fill(e.size, size)| == U32 - ENOMEM
    && SpotOf(g, e.size, |Fill(e.size, size)|).need > A.objs[e.first].n + A.free + 1
  }

  /** The slots that the bytes of a file would show if it were a directory. */
  ghost function FileSlots(bytes: seq<byte>, B: nat): seq<Entry>
    decreases |bytes|
  {
    if B == 0 || |bytes| < B then [] else Slots(bytes[..B]) + FileSlots(bytes[B..], B)
  }

  /** The program takes a file for a directory that is not empty: its bytes show an entry. */
  ghost predicate LooksFull(g: Geometry, A: Flat, d: nat, j: nat)
    requires A.HasSlot(d, j)
  {
    var e := A.objs[d].slots[j];
    A.IsFile(e.first) && !OnlyDots(FileSlots(A.objs[e.first].bytes, g.B))
  }

  /** A shrink cuts the bytes behind the last cluster still needed. */
  ghost function FlatTruncate(g: Geometry, A: Flat, d: nat, j: nat, size: nat, time: seq<byte>): (Flat, Reply)
    requires A.HasSlot(d, j) && 0 < g.B
  {
    var e := A.objs[d].slots[j];
    if size == e.size then (A, Done(0))
    else if size > e.size then
      var (A', reply) := FlatUpdate(g, A, d, j, Fill(e.size, size), e.size, time);
      (A', PlainReply(reply))
    else if !A.IsFile(e.first) || A.objs[e.first].n < CutOf(g, size) then (A, Aborted)
    else (FlatCut(g, A, d, j, size, CutOf(g, size)), Done(0))
  }

  /** The file in slot `j` cut to `size` bytes and `k` clusters. */
  ghost function FlatCut(g: Geometry, A: Flat, d: nat, j: nat, size: nat, k: nat): Flat
    requires A.HasSlot(d, j) && A.IsFile(A.objs[d].slots[j].first) && k <= A.objs[A.objs[d].slots[j].first].n
  {
    var e := A.objs[d].slots[j];
    var f := A.objs[e.first];
    Flat(WithSlot(A, d, j, e.(size := size))[e.first := FileObj(Prefix(f.bytes, Times(k, g.B)), k)], A.free + f.n - k)
  }

  /** A removal empties the slot and gives the clusters back. */
  ghost function FlatRemove(A: Flat, d: nat, j: nat, isDir: bool): (Flat, Reply)
    requires A.HasSlot(d, j)
  {
    var e := A.objs[d].slots[j];
    if e.first !in A.objs then (A, Aborted)
    else
      var gone := Flat(WithSlot(A, d, j, Killed(e)) - {e.first}, A.free + A.objs[e.first].n);
      if !isDir then if A.IsFile(e.first) then (gone, Done(0)) else (A, Failed)
      else if A.IsFile(e.first) then (A, NotDirectory)
      else if OnlyDots(A.objs[e.first].slots) then (gone, Done(0))
      else (A, NotEmpty)
  }

  ghost predicate FullDir(A: Flat, d: nat)
    requires A.IsDir(d)
  {
    FindIndex(A.objs[d].slots, []) == |A.objs[d].slots|
  }

  /** Object `o` entered into `d`, which grows by a cluster if it was full. */
  ghost function Made(g: Geometry, A: Flat, d: nat, name: Name, isDir: bool, time: seq<byte>, o: nat): map<nat, Obj>
    requires A.IsDir(d) && o < U32 && d < U32 && |time| == 8 && 2 * ENTRY_SIZE <= g.B && |name| <= MAX_NAME
  {
    var dir := A.objs[d];
    var dir' := DirObj(Inserted(g, dir.slots, NewEntry(name, o, isDir, time)), dir.n + if FullDir(A, d) then 1 else 0);
    A.objs[d := dir'][o := if isDir then DirObj(Slots(DotsBlock(g, o, d, time)), 1) else FileObj(Zeros(g.B), 1)]
  }

  /** A creation enters the new object `o`, or loses a cluster: when the name is too long, or
      the directory is full and the last free cluster has just been taken. */
  ghost function FlatMake(g: Geometry, A: Flat, d: nat, name: Name, isDir: bool, time: seq<byte>, o: nat): (Flat, Reply)
    requires A.IsDir(d) && o < U32 && d < U32 && |time| == 8 && 2 * ENTRY_SIZE <= g.B
  {
    if A.free == 0 then (A, NoMemory)
    else if |name| > MAX_NAME || (FullDir(A, d) && A.free == 1) then (A.(free := A.free - 1), Done(0))
    else (Flat(Made(g, A, d, name, isDir, time, o), A.free - if FullDir(A, d) then 2 else 1), Done(0))
  }

  // ---- Simulation ----

  /** The objects other than `f` and `d` look the same. */
  ghost predicate SameView(s: State, s': State, L: Layout, L': Layout, f: nat, d: nat) {
    forall x :: x in L.nodes && x in L'.nodes && x != f && x != d ==> ObjOf(s', L', x) == ObjOf(s, L, x)
  }

  lemma KeptView(s: State, s': State, L: Layout, L': Layout, f: nat, d: nat)
    requires OthersUntouched(s, s', L, f, d)
    requires forall x :: x in L.nodes && x in L'.nodes && x != f && x != d ==> L'.nodes[x] == L.nodes[x]
    ensures SameView(s, s', L, L', f, d)
  {
    forall x | x in L.nodes && x in L'.nodes && x != f && x != d
      ensures ObjOf(s', L', x) == ObjOf(s, L, x)
    {
      ContentsFrame(s.data, s'.data, L.nodes[x].chain);
      DirSlotsFrame(s.data, s'.data, L.nodes[x].chain);
    }
  }

  /** Two objects changed, none came or went. */
  lemma TwoChanged(s: State, s': State, L: Layout, L': Layout, f: nat, d: nat)
    requires SameView(s, s', L, L', f, d) && L'.nodes.Keys == L.nodes.Keys && f in L.nodes && d in L.nodes
    ensures ObjsOf(s', L') == ObjsOf(s, L)[d := ObjOf(s', L', d)][f := ObjOf(s', L', f)]
  {
  }

  /** One object changed and one went. */
  lemma OneWent(s: State, s': State, L: Layout, L': Layout, id: nat, d: nat)
    requires SameView(s, s', L, L', id, d) && L'.nodes.Keys == L.nodes.Keys - {id} && d in L'.nodes
    ensures ObjsOf(s', L') == ObjsOf(s, L)[d := ObjOf(s', L', d)] - {id}
  {
  }

  /** One object changed and one came. */
  lemma OneCame(s: State, s': State, L: Layout, L': Layout, o: nat, d: nat)
    requires SameView(s, s', L, L', o, d) && L'.nodes.Keys == L.nodes.Keys + {o} && o !in L.nodes && d in L.nodes
    ensures ObjsOf(s', L') == ObjsOf(s, L)[d := ObjOf(s', L', d)][o := ObjOf(s', L', o)]
  {
  }

  lemma SlotView(s: State, s': State, L: Layout, L': Layout, d: nat, j: nat, e: Entry)
    requires d in L.nodes && d in L'.nodes && L.nodes[d].isDir && L'.nodes[d].isDir
    requires |L'.nodes[d].chain| == |L.nodes[d].chain|
    requires j < |DirOf(s, L, d)| && DirOf(s', L', d) == DirOf(s, L, d)[j := e]
    ensures FlatOf(s, L).HasSlot(d, j)
    ensures ObjsOf(s, L)[d := ObjOf(s', L', d)] == WithSlot(FlatOf(s, L), d, j, e)
  {
  }

  /** What a slot of a live object shows in the flat view. */
  lemma FlatSlot(g: Geometry, s: State, L: Layout, d: nat, j: nat)
    requires Inv(g, s, L) && ObjectSlot(s, L, d, j)
    ensures var A, e := FlatOf(s, L), DirOf(s, L, d)[j];
      && A.HasSlot(d, j) && A.objs[d] == ObjOf(s, L, d) && A.objs[d].slots[j] == e && e.first != d
      && e.first in A.objs && A.objs[e.first] == ObjOf(s, L, e.first) && L.nodes[e.first].chain != []
      && (e.kind == KIND_FILE <==> A.IsFile(e.first)) && (e.kind == KIND_DIR <==> A.IsDir(e.first))
  {
    ObjectSlotNode(g, s, L, d, j);
    assert DirOk(g, s, L, d);
    var f := DirOf(s, L, d)[j].first;
    assert ChildOk(s, L, f);
  }

  lemma GrowShape(L: Layout, f: nat, need: nat)
    requires f in L.nodes && L.nodes[f].chain != [] && need <= |L.nodes[f].chain| + |L.free|
    ensures var L', n := GrowLayout(L, f, need), Max(|L.nodes[f].chain|, need);
      && |L'.free| == |L.nodes[f].chain| + |L.free| - n && |L'.nodes[f].chain| == n
      && L'.nodes.Keys == L.nodes.Keys && L'.nodes[f].isDir == L.nodes[f].isDir
      && (forall x :: x in L.nodes && x != f ==> L'.nodes[x] == L.nodes[x])
  {
  }

  lemma WriteIsFlat(g: Geometry, s: State, L: Layout, d: nat, j: nat,
                    buf: seq<byte>, off: nat, p: Spot, time: seq<byte>)
    requires CanUpdate(g, s, L, d, j, buf, off, p, time)
    ensures var e, A := DirOf(s, L, d)[j], FlatOf(s, L);
      && A.HasSlot(d, j) && A.IsFile(e.first)
      && var f, n := A.objs[e.first], Max(|L.nodes[e.first].chain|, p.need);
      && f.n == |L.nodes[e.first].chain| <= n
      && FlatOf(ApplyAll(s, UpdateWrites(g, s, L, d, j, buf, off, p, time)), UpdateLayout(s, L, d, j, p))
         == Flat(WithSlot(A, d, j, UpdatedEntry(e, End(off, buf), time))[e.first := WrittenFile(g, f, buf, off, n)],
                 f.n + A.free - n)
  {
    FlatSlot(g, s, L, d, j);
    var e := DirOf(s, L, d)[j];
    var s', L' := ApplyAll(s, UpdateWrites(g, s, L, d, j, buf, off, p, time)), UpdateLayout(s, L, d, j, p);
    var n, e' := Max(|L.nodes[e.first].chain|, p.need), UpdatedEntry(e, End(off, buf), time);
    UpdateIsSplice(g, s, L, d, j, buf, off, p, time);
    GrowShape(L, e.first, p.need);
    assert ObjOf(s', L', e.first) == WrittenFile(g, ObjOf(s, L, e.first), buf, off, n) by {
      WrittenView(g, s, s', L, L', e.first, buf, off, n);
    }
    assert ObjsOf(s', L') == ObjsOf(s, L)[d := ObjOf(s', L', d)][e.first := ObjOf(s', L', e.first)] by {
      KeptView(s, s', L, L', e.first, d);
      TwoChanged(s, s', L, L', e.first, d);
    }
    assert ObjsOf(s, L)[d := ObjOf(s', L', d)] == WithSlot(FlatOf(s, L), d, j, e') by {
      SlotView(s, s', L, L', d, j, e');
    }
  }

  lemma WrittenView(g: Geometry, s: State, s': State, L: Layout, L': Layout, f: nat, buf: seq<byte>, off: nat, n: nat)
    requires f in L.nodes && f in L'.nodes && !L.nodes[f].isDir && !L'.nodes[f].isDir
    requires |L.nodes[f].chain| <= n == |L'.nodes[f].chain|
    requires var grown := Contents(s.data, L.nodes[f].chain) + Zeros(Times(n - |L.nodes[f].chain|, g.B));
      End(off, buf) <= |grown| && Contents(s'.data, L'.nodes[f].chain) == Splice(grown, off, buf)
    ensures ObjOf(s', L', f) == WrittenFile(g, ObjOf(s, L, f), buf, off, n)
  {
  }

  lemma UpdateIsFlat(g: Geometry, s: State, L: Layout, d: nat, j: nat,
                     buf: seq<byte>, off: nat, time: seq<byte>)
    requires Inv(g, s, L) && ObjectSlot(s, L, d, j) && 0 < g.B
    requires buf != [] && End(off, buf) < U32 && |time| == 8
    ensures var plan := PlanUpdate(g, s, L, d, j, buf, off, time);
      && FlatOf(s, L).HasSlot(d, j)
      && FlatUpdate(g, FlatOf(s, L), d, j, buf, off, time) == (FlatOf(ApplyAll(s, plan.ws), plan.L), plan.reply)
  {
    FlatSlot(g, s, L, d, j);
    ObjectSlotNode(g, s, L, d, j);
    SpotOfIs(g, off, |buf|);
    var e, p := DirOf(s, L, d)[j], SpotOf(g, off, |buf|);
    if e.kind == KIND_FILE && p.need <= |L.nodes[e.first].chain| + |L.free| {
      WriteIsFlat(g, s, L, d, j, buf, off, p, time);
    }
  }

  lemma CutIsFlat(g: Geometry, s: State, L: Layout, d: nat, j: nat, size: nat, k: nat)
    requires CanShrink(g, s, L, d, j, size, k) && k <= |L.nodes[DirOf(s, L, d)[j].first].chain|
    ensures var e, A := DirOf(s, L, d)[j], FlatOf(s, L);
      && A.HasSlot(d, j) && A.objs[d].slots[j] == e && A.IsFile(e.first) && k <= A.objs[e.first].n
      && FlatOf(ApplyAll(s, ShrinkWrites(s, L, d, j, size, k)), ShrinkLayout(L, e.first, k))
         == FlatCut(g, A, d, j, size, k)
  {
    FlatSlot(g, s, L, d, j);
    var e := DirOf(s, L, d)[j];
    var C := L.nodes[e.first].chain;
    var s', L' := ApplyAll(s, ShrinkWrites(s, L, d, j, size, k)), ShrinkLayout(L, e.first, k);
    ShrinkEffect(g, s, L, d, j, size, k);
    CutContents(g, s, s', L, e.first, k);
    ShrinkShape(L, e.first, k);
    KeptView(s, s', L, L', e.first, d);
    TwoChanged(s, s', L, L', e.first, d);
    SlotView(s, s', L, L', d, j, e.(size := size));
  }

  lemma ShrinkShape(L: Layout, f: nat, k: nat)
    requires f in L.nodes && k <= |L.nodes[f].chain|
    ensures var L' := ShrinkLayout(L, f, k);
      && |L'.free| == |L.free| + |L.nodes[f].chain| - k && L'.nodes[f].chain == L.nodes[f].chain[..k]
      && L'.nodes.Keys == L.nodes.Keys && L'.nodes[f].isDir == L.nodes[f].isDir
      && (forall x :: x in L.nodes && x != f ==> L'.nodes[x] == L.nodes[x])
  {
  }

  lemma CutContents(g: Geometry, s: State, s': State, L: Layout, f: nat, k: nat)
    requires StructOk(g, s, L) && f in L.nodes && k <= |L.nodes[f].chain|
    requires Agree(s.data, s'.data, L.nodes[f].chain)
    ensures Contents(s'.data, L.nodes[f].chain[..k]) == Prefix(Contents(s.data, L.nodes[f].chain), Times(k, g.B))
  {
    NodeOf(g, s, L, f);
    KeptContents(g, s, s', L.nodes[f].chain, k);
  }

  /** fat_truncate has the effect of the flat one, and its reply but for the false success. */
  lemma TruncateIsFlat(g: Geometry, s: State, L: Layout, d: nat, j: nat, size: nat, time: seq<byte>)
    requires Inv(g, s, L) && ObjectSlot(s, L, d, j) && 0 < g.B && size < U32 && |time| == 8
    ensures var plan, A := PlanTruncate(g, s, L, d, j, size, time), FlatOf(s, L);
      && A.HasSlot(d, j)
      && var (A', reply) := FlatTruncate(g, A, d, j, size, time);
      && A' == FlatOf(ApplyAll(s, plan.ws), plan.L)
      && plan.reply == if FalseSuccess(g, A, d, j, size) then Done(0) else reply
  {
    FlatSlot(g, s, L, d, j);
    var e := DirOf(s, L, d)[j];
    if size > e.size {
      ExtendIsFlat(g, s, L, d, j, size, time);
    } else if size < e.size {
      ShrinkIsFlat(g, s, L, d, j, size, time);
    }
  }

  lemma ExtendIsFlat(g: Geometry, s: State, L: Layout, d: nat, j: nat, size: nat, time: seq<byte>)
    requires Inv(g, s, L) && ObjectSlot(s, L, d, j) && 0 < g.B && |time| == 8 && DirOf(s, L, d)[j].size < size < U32
    ensures var plan, A := PlanTruncate(g, s, L, d, j, size, time), FlatOf(s, L);
      && A.HasSlot(d, j)
      && var (A', reply) := FlatTruncate(g, A, d, j, size, time);
      && A' == FlatOf(ApplyAll(s, plan.ws), plan.L)
      && plan.reply == if FalseSuccess(g, A, d, j, size) then Done(0) else reply
  {
    var A, e := FlatOf(s, L), DirOf(s, L, d)[j];
    assert A.HasSlot(d, j) && A.objs[d].slots[j] == e by { FlatSlot(g, s, L, d, j); }
    var up := PlanUpdate(g, s, L, d, j, Fill(e.size, size), e.size, time);
    UpdateIsFlat(g, s, L, d, j, Fill(e.size, size), e.size, time);
    ExtendPlan(g, s, L, d, j, size, time);
    ExtendFlat(g, A, d, j, size, time, FlatOf(ApplyAll(s, up.ws), up.L), up.reply);
    assert FlatOf(ApplyAll(s, Extended(up, Fill(e.size, size)).ws), up.L) == FlatOf(ApplyAll(s, up.ws), up.L);
  }

  lemma ExtendFlat(g: Geometry, A: Flat, d: nat, j: nat, size: nat, time: seq<byte>, A': Flat, reply: Reply)
    requires A.HasSlot(d, j) && 0 < g.B && A.objs[d].slots[j].size < size
    requires FlatUpdate(g, A, d, j, Fill(A.objs[d].slots[j].size, size), A.objs[d].slots[j].size, time) == (A', reply)
    ensures FlatTruncate(g, A, d, j, size, time) == (A', PlainReply(reply))
    ensures ExtendReply(reply, Fill(A.objs[d].slots[j].size, size))
         == if FalseSuccess(g, A, d, j, size) then Done(0) else PlainReply(reply)
  {
  }

  /** A truncate that answers success has given the file the size asked for, exactly unless the success is
      false; then it has changed nothing. */
  lemma TruncatedSize(g: Geometry, A: Flat, d: nat, j: nat, size: nat, time: seq<byte>)
    requires A.HasSlot(d, j) && 0 < g.B && (A.IsFile(A.objs[d].slots[j].first) ==> A.objs[d].slots[j].first != d)
    requires FlatTruncate(g, A, d, j, size, time).1 == Done(0) || FalseSuccess(g, A, d, j, size)
    ensures var A' := FlatTruncate(g, A, d, j, size, time).0;
      && A'.HasSlot(d, j)
      && (A'.objs[d].slots[j].size == size <==> !FalseSuccess(g, A, d, j, size))
      && (FalseSuccess(g, A, d, j, size) ==> A' == A)
  {
  }

  lemma ShrinkIsFlat(g: Geometry, s: State, L: Layout, d: nat, j: nat, size: nat, time: seq<byte>)
    requires Inv(g, s, L) && ObjectSlot(s, L, d, j) && 0 < g.B && size < U32 && |time| == 8
    requires size < DirOf(s, L, d)[j].size
    ensures var plan := PlanTruncate(g, s, L, d, j, size, time);
      && FlatOf(s, L).HasSlot(d, j)
      && FlatTruncate(g, FlatOf(s, L), d, j, size, time) == (FlatOf(ApplyAll(s, plan.ws), plan.L), plan.reply)
  {
    FlatSlot(g, s, L, d, j);
    ObjectSlotNode(g, s, L, d, j);
    var A, e, k, plan := FlatOf(s, L), DirOf(s, L, d)[j], CutOf(g, size), PlanTruncate(g, s, L, d, j, size, time);
    assert plan.ws == ShrinkWrites(s, L, d, j, size, k) && plan.L == ShrinkLayout(L, e.first, k) by {
      ShrinkPlan(g, s, L, d, j, size, time);
    }
    assert FlatOf(ApplyAll(s, plan.ws), plan.L) == FlatCut(g, A, d, j, size, k) by {
      ShrinkPlan(g, s, L, d, j, size, time);
      CutIsFlat(g, s, L, d, j, size, k);
    }
    assert k <= |L.nodes[e.first].chain| by { ShrinkPlan(g, s, L, d, j, size, time); }
  }

  lemma GoneIsFlat(g: Geometry, s: State, L: Layout, d: nat, j: nat)
    requires Inv(g, s, L) && ObjectSlot(s, L, d, j)
    requires DirOf(s, L, d)[j].first in L.nodes && WfEntry(DirOf(s, L, d)[j])
    requires L.nodes[DirOf(s, L, d)[j].first].chain != []
    ensures var e, A := DirOf(s, L, d)[j], FlatOf(s, L);
      && A.HasSlot(d, j) && e.first in A.objs
      && FlatOf(ApplyAll(s, RemoveWrites(s, L, d, j)), RemoveLayout(L, e.first))
         == Flat(WithSlot(A, d, j, Killed(e)) - {e.first}, A.free + A.objs[e.first].n)
  {
    FlatSlot(g, s, L, d, j);
    var e := DirOf(s, L, d)[j];
    var s', L' := ApplyAll(s, RemoveWrites(s, L, d, j)), RemoveLayout(L, e.first);
    RemoveEffect(g, s, L, d, j);
    KeptView(s, s', L, L', e.first, d);
    OneWent(s, s', L, L', e.first, d);
    SlotView(s, s', L, L', d, j, Killed(e));
  }

  /** rmdir of a file is refused either way; which error it gives depends on its bytes. */
  /** The slots of a chain are the slots its bytes show. */
  lemma {:induction false} SlotsInBytes(g: Geometry, data: seq<Block>, C: seq<nat>)
    requires Full(g, data, C) && 0 < g.B
    ensures DirSlots(data, C) == FileSlots(Contents(data, C), g.B)
  {
    if C != [] {
      var bytes := Contents(data, C);
      ContentsCons(data, C);
      SlotsInBytes(g, data, C[1..]);
      assert bytes[..g.B] == Get(data, C[0]) && bytes[g.B..] == Contents(data, C[1..]);
    }
  }

  lemma FileLooksLike(g: Geometry, s: State, L: Layout, f: nat)
    requires StructOk(g, s, L) && f in L.nodes && 0 < g.B
    ensures DirOf(s, L, f) == FileSlots(Contents(s.data, L.nodes[f].chain), g.B)
  {
    NodeOf(g, s, L, f);
    SlotsInBytes(g, s.data, L.nodes[f].chain);
  }

  /** fat_unlink and fat_rmdir have the effect of the flat ones, and their reply but for a file that looks
      like a directory in use. */
  lemma RemoveIsFlat(g: Geometry, s: State, L: Layout, d: nat, j: nat, isDir: bool)
    requires Inv(g, s, L) && ObjectSlot(s, L, d, j) && 0 < g.B
    ensures var plan, A := PlanRemove(g, s, L, d, j, isDir), FlatOf(s, L);
      && A.HasSlot(d, j)
      && var (A', reply) := FlatRemove(A, d, j, isDir);
      && FlatOf(ApplyAll(s, plan.ws), plan.L) == A'
      && plan.reply == if isDir && LooksFull(g, A, d, j) then NotEmpty else reply
  {
    FlatSlot(g, s, L, d, j);
    ObjectSlotNode(g, s, L, d, j);
    FileLooksLike(g, s, L, DirOf(s, L, d)[j].first);
    if PlanRemove(g, s, L, d, j, isDir).reply.Done? {
      GoneIsFlat(g, s, L, d, j);
    }
  }

  // ---- Creation ----

  /** When an insertion succeeds, seen from the outside. */
  lemma MakeOkMeans(g: Geometry, s: State, L: Layout, d: nat, name: Name)
    requires Inv(g, s, L) && L.free != [] && d in L.nodes && name != []
    ensures MakeOk(g, s, L, d, name) <==> |name| <= MAX_NAME && !(!Roomy(s, L, d) && |L.free| == 1)
    ensures Roomy(TakenState(g, s, L), Taken(L, 1), d) <==> Roomy(s, L, d)
  {
    TakenUntouched(g, s, L);
    assert DirOf(TakenState(g, s, L), Taken(L, 1), d) == DirOf(s, L, d);
  }

  /** How a creation changes chains and free list. */
  lemma MakeShape(g: Geometry, s: State, L: Layout, d: nat, name: Name, isDir: bool)
    requires Inv(g, s, L) && L.free != [] && d in L.nodes && name != []
    ensures var L', o, full := MakeLayout(g, s, L, d, name, isDir), L.free[0], !Roomy(s, L, d);
      && (MakeOk(g, s, L, d, name) <==> |name| <= MAX_NAME && !(full && |L.free| == 1))
      && (if MakeOk(g, s, L, d, name) then
            && |L'.free| == |L.free| - (if full then 2 else 1)
            && L'.nodes.Keys == L.nodes.Keys + {o}
            && L'.nodes[o].chain == [o] && L'.nodes[o].isDir == isDir
            && (d != o ==> |L'.nodes[d].chain| == |L.nodes[d].chain| + (if full then 1 else 0)
                           && L'.nodes[d].isDir == L.nodes[d].isDir)
            && (forall x :: x in L.nodes && x != o && x != d ==> L'.nodes[x] == L.nodes[x])
          else
            L'.nodes == L.nodes && |L'.free| == |L.free| - 1)
  {
    MakeOkMeans(g, s, L, d, name);
  }

  /** The new cluster belongs to the new object, or to none. */
  lemma NewOwner(g: Geometry, s: State, L: Layout, d: nat, name: Name, isDir: bool)
    requires Inv(g, s, L) && L.free != [] && d in L.nodes
    ensures var L', o := MakeLayout(g, s, L, d, name, isDir), L.free[0];
      && o < |L'.owner|
      && L'.owner[o] == if MakeOk(g, s, L, d, name) then o else ORPHAN
  {
    FreeOf(g, s, L);
  }

  lemma NotInOtherChain(g: Geometry, s: State, L: Layout, o: nat, x: nat)
    requires StructOk(g, s, L) && o < g.N && (L.owner[o] == o || L.owner[o] == ORPHAN)
    requires x in L.nodes && x != o
    ensures o !in L.nodes[x].chain
  {
    NodesOwnThemselves(g, s, L);
    NodeOf(g, s, L, x);
  }

  lemma OnlyClusterChanged(g: Geometry, s: State, s': State, L: Layout, o: nat)
    requires StructOk(g, s', L) && o < g.N && (L.owner[o] == o || L.owner[o] == ORPHAN)
    requires forall C: seq<nat> {:trigger Agree(s.data, s'.data, C)} :: o !in C ==> Agree(s.data, s'.data, C)
    ensures OthersUntouched(s, s', L, o, o)
  {
    forall x | x in L.nodes && x != o
      ensures Agree(s.data, s'.data, L.nodes[x].chain)
    {
      NotInOtherChain(g, s', L, o, x);
    }
  }

  lemma DotsApart(g: Geometry, s: State, L: Layout, d: nat, name: Name, isDir: bool, time: seq<byte>)
    requires CanMake(g, s, L, d, name, time)
    ensures ApplyAll(s, MakeWrites(g, s, L, d, name, isDir, time)) ==
      ApplyAll(EnteredState(g, s, L, d, name, isDir, time), if isDir then DotWrites(g, L.free[0], d, time) else [])
  {
    var a, b := PopWrites(g, L.free, 1), EntryWrites(g, s, L, d, name, isDir, time);
    ApplyConcat(s, a, b);
    ApplyConcat(s, a + b, if isDir then DotWrites(g, L.free[0], d, time) else []);
  }

  /** The dot entries, written last, concern the new cluster only. */
  lemma DotsLast(g: Geometry, s: State, L: Layout, d: nat, name: Name, isDir: bool, time: seq<byte>)
    requires CanMake(g, s, L, d, name, time)
    ensures var s2, L' := EnteredState(g, s, L, d, name, isDir, time), MakeLayout(g, s, L, d, name, isDir);
      var s', o := ApplyAll(s, MakeWrites(g, s, L, d, name, isDir, time)), L.free[0];
      o < |s2.data| ==>
        && OthersUntouched(s2, s', L', o, o)
        && Get(s'.data, o) == if isDir then DotsBlock(g, o, d, time) else Get(s2.data, o)
  {
    var s2, L' := EnteredState(g, s, L, d, name, isDir, time), MakeLayout(g, s, L, d, name, isDir);
    var s', o := ApplyAll(s, MakeWrites(g, s, L, d, name, isDir, time)), L.free[0];
    DotsApart(g, s, L, d, name, isDir, time);
    if isDir && o < |s2.data| {
      MakeDirKeepsInv(g, s, L, d, name, time);
      NewOwner(g, s, L, d, name, isDir);
      forall C: seq<nat>
        ensures (o !in C ==> Agree(s2.data, s'.data, C)) && Get(s'.data, o) == DotsBlock(g, o, d, time)
      {
        DotsEffect(s2, o, DotBlock(g, o, time), DotsBlock(g, o, d, time), C);
      }
      OnlyClusterChanged(g, s2, s', L', o);
    }
  }

  lemma ViewThroughDots(s: State, s2: State, s': State, L: Layout, L': Layout, d: nat, o: nat)
    requires OthersUntouched(s, s2, L, d, d) && OthersUntouched(s2, s', L', o, o)
    requires d in L'.nodes && d != o && o !in L.nodes
    requires forall x :: x in L.nodes && x != d ==> x in L'.nodes && L'.nodes[x] == L.nodes[x]
    ensures OthersUntouched(s, s', L, d, d) && DirOf(s', L', d) == DirOf(s2, L', d)
  {
    DirSlotsFrame(s2.data, s'.data, L'.nodes[d].chain);
    forall x | x in L.nodes && x != d
      ensures Agree(s.data, s'.data, L.nodes[x].chain)
    {
      assert Agree(s.data, s2.data, L.nodes[x].chain) && Agree(s2.data, s'.data, L'.nodes[x].chain);
    }
  }

  /** What a creation leaves: the parent's slots and the new cluster. */
  lemma MakeView(g: Geometry, s: State, L: Layout, d: nat, name: Name, isDir: bool, time: seq<byte>)
    requires CanMake(g, s, L, d, name, time)
    ensures var s', L' := ApplyAll(s, MakeWrites(g, s, L, d, name, isDir, time)), MakeLayout(g, s, L, d, name, isDir);
      && L.free[0] !in L.nodes && d in L'.nodes
      && OthersUntouched(s, s', L, d, d)
      && Get(s'.data, L.free[0]) == (if isDir then DotsBlock(g, L.free[0], d, time) else Zeros(g.B))
      && DirOf(s', L', d) ==
         if MakeOk(g, s, L, d, name) then Inserted(g, DirOf(s, L, d), NewEntry(name, L.free[0], isDir, time))
         else DirOf(s, L, d)
  {
    var s2, L' := EnteredState(g, s, L, d, name, isDir, time), MakeLayout(g, s, L, d, name, isDir);
    var s', o := ApplyAll(s, MakeWrites(g, s, L, d, name, isDir, time)), L.free[0];
    MakeShape(g, s, L, d, name, isDir);
    EnteredEffect(g, s, L, d, name, isDir, time);
    DotsLast(g, s, L, d, name, isDir, time);
    ViewThroughDots(s, s2, s', L, L', d, o);
  }

  lemma NewObjectView(s: State, L: Layout, o: nat, b: Block)
    requires o in L.nodes && L.nodes[o].chain == [o] && Get(s.data, o) == b
    ensures ObjOf(s, L, o) == if L.nodes[o].isDir then DirObj(Slots(b), 1) else FileObj(b, 1)
  {
    ContentsCons(s.data, [o]);
    assert [o][1..] == [];
    assert Contents(s.data, []) == [] && DirSlots(s.data, []) == [];
  }

  lemma LostIsFlat(s: State, s': State, L: Layout, L': Layout, d: nat)
    requires d in L.nodes && L.nodes[d].isDir && L'.nodes == L.nodes
    requires OthersUntouched(s, s', L, d, d) && DirOf(s', L', d) == DirOf(s, L, d)
    ensures ObjsOf(s', L') == ObjsOf(s, L)
  {
    KeptView(s, s', L, L', d, d);
    assert ObjOf(s', L', d) == ObjOf(s, L, d);
  }

  lemma MadeIsFlat(g: Geometry, s: State, L: Layout, d: nat, name: Name, isDir: bool, time: seq<byte>)
    requires CanMake(g, s, L, d, name, time) && MakeOk(g, s, L, d, name)
    ensures FlatOf(s, L).IsDir(d) && |name| <= MAX_NAME
    ensures ObjsOf(ApplyAll(s, MakeWrites(g, s, L, d, name, isDir, time)), MakeLayout(g, s, L, d, name, isDir))
         == Made(g, FlatOf(s, L), d, name, isDir, time, L.free[0])
  {
    MakeShape(g, s, L, d, name, isDir);
    MakeView(g, s, L, d, name, isDir, time);
    var L', s' := MakeLayout(g, s, L, d, name, isDir), ApplyAll(s, MakeWrites(g, s, L, d, name, isDir, time));
    var o := L.free[0];
    NewObjectView(s', L', o, if isDir then DotsBlock(g, o, d, time) else Zeros(g.B));
    KeptView(s, s', L, L', o, d);
    OneCame(s, s', L, L', o, d);
    GrownParent(g, s, s', L, L', d, NewEntry(name, o, isDir, time));
  }

  lemma GrownParent(g: Geometry, s: State, s': State, L: Layout, L': Layout, d: nat, e: Entry)
    requires d in L.nodes && d in L'.nodes && L.nodes[d].isDir && L'.nodes[d].isDir && ENTRY_SIZE <= g.B
    requires |L'.nodes[d].chain| == |L.nodes[d].chain| + if !Roomy(s, L, d) then 1 else 0
    requires DirOf(s', L', d) == Inserted(g, DirOf(s, L, d), e)
    ensures var A := FlatOf(s, L);
      && A.IsDir(d)
      && ObjOf(s', L', d) == DirObj(Inserted(g, A.objs[d].slots, e), A.objs[d].n + if FullDir(A, d) then 1 else 0)
  {
    assert FlatOf(s, L).objs[d] == ObjOf(s, L, d);
  }

  lemma LostMakeIsFlat(g: Geometry, s: State, L: Layout, d: nat, name: Name, isDir: bool, time: seq<byte>)
    requires CanMake(g, s, L, d, name, time) && !MakeOk(g, s, L, d, name)
    ensures ObjsOf(ApplyAll(s, MakeWrites(g, s, L, d, name, isDir, time)), MakeLayout(g, s, L, d, name, isDir))
        == ObjsOf(s, L)
  {
    MakeView(g, s, L, d, name, isDir, time);
    MakeShape(g, s, L, d, name, isDir);
    LostIsFlat(s, ApplyAll(s, MakeWrites(g, s, L, d, name, isDir, time)), L, MakeLayout(g, s, L, d, name, isDir), d);
  }

  lemma MakeIsFlat(g: Geometry, s: State, L: Layout, d: nat, name: Name, isDir: bool, time: seq<byte>)
    requires CanMake(g, s, L, d, name, time)
    ensures FlatOf(s, L).IsDir(d) && L.free[0] !in L.nodes
    ensures FlatMake(g, FlatOf(s, L), d, name, isDir, time, L.free[0])
         == (FlatOf(ApplyAll(s, MakeWrites(g, s, L, d, name, isDir, time)), MakeLayout(g, s, L, d, name, isDir)),
             Done(0))
  {
    NewIsNew(g, s, L);
    if MakeOk(g, s, L, d, name) {
      MadeIsFlat(g, s, L, d, name, isDir, time);
    } else {
      LostMakeIsFlat(g, s, L, d, name, isDir, time);
    }
    MakeFree(g, s, L, d, name, isDir);
  }

  /** The free clusters that a creation leaves, in terms of the flat filesystem. */
  lemma MakeFree(g: Geometry, s: State, L: Layout, d: nat, name: Name, isDir: bool)
    requires Inv(g, s, L) && L.free != [] && d in L.nodes && L.nodes[d].isDir && name != []
    ensures FlatOf(s, L).IsDir(d)
    ensures var full := FullDir(FlatOf(s, L), d);
      && (MakeOk(g, s, L, d, name) <==> |name| <= MAX_NAME && !(full && |L.free| == 1))
      && |MakeLayout(g, s, L, d, name, isDir).free| == |L.free| - (if MakeOk(g, s, L, d, name) && full then 2 else 1)
  {
    MakeShape(g, s, L, d, name, isDir);
    assert FlatOf(s, L).objs[d] == ObjOf(s, L, d);
  }

  lemma NewIsNew(g: Geometry, s: State, L: Layout)
    requires Inv(g, s, L) && L.free != []
    ensures L.free[0] !in L.nodes
  {
    FreeOf(g, s, L);
    NodesOwnThemselves(g, s, L);
  }
}
