/** Formatting, mounting again, interruptions, and the operations that only read. */
module Mounting {
  import opened Bytes
  import opened Chains
  import opened States
  import opened Entries
  import opened Volumes
  import opened Allocator
  import opened Layouts
  import opened Trees
  import opened Steps
  import opened Update
  import opened Make
  import opened Release
  import opened Intactness
  import opened Paths
  import opened Machine
  import opened FlatModel
  import opened Theorems
  import opened Refinement
  import opened Reading
  import opened Writing
  import opened Filesystem

  /** fat_init on a new disk: an empty root, every other cluster free. */
  method FatInit(g: Geometry, time: seq<byte>) returns (vol: Volume)
    requires g.Valid() && Slotted(g) && |time| == 8
    ensures fresh(vol) && fresh(vol.fatTable) && vol.g == g && g.N < U32
    ensures vol.v == FreshState(g, time) && Mounted(vol, FreshLayout(g))
  {
    GeometryFits(g);
    vol := new Volume.Format(g);
    var r := g.Root();
    AddDots(vol, r, r, time, FreshFree(g));
    ApplyTwo(BlankState(g), Data(r, DotBlock(g, r, time)), Data(r, DotsBlock(g, r, r, time)));
    assert vol.v.data == FreshData(g, time);
    FreshIsConsistent(g, time);
  }

  /** Mounting the disk again, at any moment between two operations, gives back the superblock, the
      FAT and with them the free list, every chain and every lookup. */
  method Remount(vol: Volume, ghost L: Layout) returns (again: Volume)
    requires Mounted(vol, L)
    ensures fresh(again) && fresh(again.fatTable)
    ensures again.g == vol.g && again.freeStart == vol.freeStart && again.fatTable[..] == vol.fatTable[..]
    ensures again.v == vol.v && Mounted(again, L)
  {
    DiskIsFormatted(vol);
    again := new Volume.Mount(vol.disk, vol.g);
    SameDisk(vol, again);
  }

  lemma DiskIsFormatted(vol: Volume)
    requires vol.Coherent()
    ensures Formatted(vol.g, vol.disk)
  {
    assert Open(0);
    SuperFields(vol.g, vol.freeStart);
  }

  /** The disk fixes what is held in memory. */
  lemma SameDisk(vol: Volume, again: Volume)
    requires vol.Coherent() && again.Coherent() && again.g == vol.g && again.disk == vol.disk
    ensures again.freeStart == vol.freeStart && again.fatTable[..] == vol.fatTable[..] && again.v == vol.v
  {
    assert Open(0);
    SuperFields(vol.g, vol.freeStart);
    SuperFields(vol.g, again.freeStart);
  }

  // ---- Interruptions ----

  /** The disk after `k + 1` writes stands for the state reached by them. */
  lemma InterruptedImage(vol: Volume, t: seq<Write>, s: State, ws: seq<Write>, k: nat)
    requires vol.Coherent() && vol.trace == t + ws && s == ApplyAll(vol.start, t) && |t| <= k < |vol.trace|
    ensures Formatted(vol.g, vol.images[k]) && OnDisk(vol.g, vol.images[k]) == ApplyAll(s, ws[..k + 1 - |t|])
  {
    assert vol.trace[..k + 1] == t + ws[..k + 1 - |t|];
    ApplyConcat(vol.start, t, ws[..k + 1 - |t|]);
    assert Open(0);
  }

  /** After every cluster write of a crash-safe operation the bytes on the disk are a filesystem that
      lost nothing but free clusters: consistent, with every object where it was. */
  lemma InterruptedIsRecoverable(vol: Volume, t: seq<Write>, s: State, L: Layout, ws: seq<Write>, k: nat)
    requires vol.Coherent() && vol.trace == t + ws && s == ApplyAll(vol.start, t) && CrashSafe(vol.g, s, L, ws)
    requires |t| <= k < |vol.trace|
    ensures Formatted(vol.g, vol.images[k]) && Recoverable(vol.g, OnDisk(vol.g, vol.images[k]), L)
  {
    InterruptedImage(vol, t, s, ws, k);
    assert SafeAt(vol.g, s, L, ws, k + 1 - |t|);
  }

  /** What remains of a consistent filesystem when it is interrupted: free list and live chains are
      disjoint, and the size of every file fits its chain. */
  lemma RecoveredIsSound(g: Geometry, s: State, L: Layout) returns (L': Layout)
    requires Recoverable(g, s, L)
    ensures Inv(g, s, L') && Survives(L, L')
    ensures forall x :: x in L'.nodes ==> Disjoint(L'.nodes[x].chain, L'.free)
    ensures forall d: nat, j: nat :: FileSlot(s, L', d, j) ==>
      var e := DirOf(s, L', d)[j];
      e.first in L'.nodes && e.size <= Times(|L'.nodes[e.first].chain|, g.B)
  {
    L' :| Inv(g, s, L') && Survives(L, L');
    ChainsAreSeparate(g, s, L');
    forall d: nat, j: nat | FileSlot(s, L', d, j)
      ensures var e := DirOf(s, L', d)[j];
        e.first in L'.nodes && e.size <= Times(|L'.nodes[e.first].chain|, g.B)
    {
      FileSlotNode(g, s, L', d, j);
    }
  }

  /** The operations that only allocate. */
  ghost predicate Growing(g: Geometry, s: State, L: Layout, op: Op)
    requires g.Valid() && Inv(g, s, L) && Admissible(g, s, L, op) && SLASH in op.path
  {
    && !PlanOf(g, s, L, op).reply.Wild?
    && (|| op.Write? || op.Mknod?
    || (op.Truncate? &&
        match ParentDir(g, s, L, op.path)
        case None => true
        case Some(d) =>
          d in L.nodes ==>
            match Lookup(DirOf(s, L, d), TargetOf(op.path))
            case None => true
            case Some(e) => e.size <= op.size))
  }

  lemma ExtensionIsCrashSafe(g: Geometry, s: State, L: Layout, d: nat, j: nat, size: nat, time: seq<byte>)
    requires Inv(g, s, L) && ObjectSlot(s, L, d, j) && 0 < g.B && size < U32 && |time| == 8
    requires DirOf(s, L, d)[j].size <= size
    ensures CrashSafe(g, s, L, PlanTruncate(g, s, L, d, j, size, time).ws)
  {
    var e := DirOf(s, L, d)[j];
    if e.size < size {
      ExtendPlan(g, s, L, d, j, size, time);
      UpdateKeepsInv(g, s, L, d, j, Fill(e.size, size), e.size, time);
      ExtendedIsSafe(g, s, L, PlanTruncate(g, s, L, d, j, size, time),
                     PlanUpdate(g, s, L, d, j, Fill(e.size, size), e.size, time), Fill(e.size, size));
    } else {
      NoRun(g, s, L);
    }
  }

  lemma ExtendedIsSafe(g: Geometry, s: State, L: Layout, plan: Plan, up: Plan, z: seq<byte>)
    requires plan == Extended(up, z) && CrashSafe(g, s, L, up.ws)
    ensures CrashSafe(g, s, L, plan.ws)
  {
  }

  lemma ExtendedIsIntact(s: State, L: Layout, plan: Plan, up: Plan, z: seq<byte>, k: nat,
                         d: nat, j: nat, f: nat, off: nat, buf: seq<byte>)
    requires plan == Extended(up, z) && k <= |up.ws| && Intact(s, ApplyAll(s, up.ws[..k]), L, d, j, f, off, buf)
    ensures Intact(s, ApplyAll(s, plan.ws[..k]), L, d, j, f, off, buf)
  {
  }

  lemma GrowingIsCrashSafe(g: Geometry, s: State, L: Layout, op: Op)
    requires g.Valid() && Inv(g, s, L) && Admissible(g, s, L, op) && SLASH in op.path && Growing(g, s, L, op)
    ensures CrashSafe(g, s, L, PlanOf(g, s, L, op).ws)
  {
    NoRun(g, s, L);
    var parent := ParentFound(g, s, L, op);
    if parent.Some? {
      var d := parent.value;
      if op.Mknod? && L.free != [] {
        MakeIsPossible(g, s, L, d, TargetOf(op.path), op.time);
        MakeFileIsCrashSafe(g, s, L, d, TargetOf(op.path), op.time);
      } else if !op.Mknod? {
        GrowingTargetIsCrashSafe(g, s, L, op, d, TargetOf(op.path));
      }
    }
  }

  lemma GrowingTargetIsCrashSafe(g: Geometry, s: State, L: Layout, op: Op, d: nat, name: Name)
    requires g.Valid() && Inv(g, s, L) && Sane(op) && (op.Write? || op.Truncate?)
    requires d in L.nodes && L.nodes[d].isDir && TargetName(name) && !PlanTarget(g, s, L, op, d, name).reply.Wild?
    requires op.Truncate? && Lookup(DirOf(s, L, d), name).Some? ==> Lookup(DirOf(s, L, d), name).value.size <= op.size
    ensures CrashSafe(g, s, L, PlanTarget(g, s, L, op, d, name).ws)
  {
    NoRun(g, s, L);
    TargetIsObject(g, s, L, d, name);
    var j := FindIndex(DirOf(s, L, d), name);
    if j < |DirOf(s, L, d)| {
      if op.Write? {
        UpdateKeepsInv(g, s, L, d, j, op.buf, op.off, op.time);
      } else {
        ExtensionIsCrashSafe(g, s, L, d, j, op.size, op.time);
      }
    }
  }

  /** Between `s` and `s'`, interrupting `op` has harmed no name and no byte: see Intact. */
  ghost predicate Unharmed(g: Geometry, s: State, s': State, L: Layout, op: Op)
    requires SLASH in op.path
  {
    match ParentDir(g, s, L, op.path)
    case None => s' == s
    case Some(d) =>
      d in L.nodes ==>
        var ss := DirOf(s, L, d);
        var j := FindIndex(ss, TargetOf(op.path));
        if op.Mknod? then Intact(s, s', L, d, |ss|, FREE, 0, [])
        else if j == |ss| then s' == s
        else if op.Write? then Intact(s, s', L, d, j, ss[j].first, op.off, op.buf)
        else op.Truncate? ==> ss[j].size <= op.size ==>
          Intact(s, s', L, d, j, ss[j].first, ss[j].size, Fill(ss[j].size, op.size))
  }

  lemma UpdatePlanIsIntact(g: Geometry, s: State, L: Layout, d: nat, j: nat,
                           buf: seq<byte>, off: nat, time: seq<byte>, k: nat)
    requires Inv(g, s, L) && ObjectSlot(s, L, d, j) && 0 < g.B
    requires buf != [] && End(off, buf) < U32 && |time| == 8
    requires k <= |PlanUpdate(g, s, L, d, j, buf, off, time).ws|
    ensures Intact(s, ApplyAll(s, PlanUpdate(g, s, L, d, j, buf, off, time).ws[..k]), L,
                   d, j, DirOf(s, L, d)[j].first, off, buf)
  {
    ObjectSlotNode(g, s, L, d, j);
    SpotOfIs(g, off, |buf|);
    var e, p := DirOf(s, L, d)[j], SpotOf(g, off, |buf|);
    if e.kind == KIND_FILE && p.need <= |L.nodes[e.first].chain| + |L.free| {
      UpdateIsIntact(g, s, L, d, j, buf, off, p, time, k);
    } else {
      NothingHappened(g, s, L, d, j, e.first, off, buf);
    }
  }

  lemma ExtensionIsIntact(g: Geometry, s: State, L: Layout, d: nat, j: nat, size: nat, time: seq<byte>, k: nat)
    requires Inv(g, s, L) && ObjectSlot(s, L, d, j) && 0 < g.B && size < U32 && |time| == 8
    requires DirOf(s, L, d)[j].size <= size && k <= |PlanTruncate(g, s, L, d, j, size, time).ws|
    ensures var e := DirOf(s, L, d)[j];
      Intact(s, ApplyAll(s, PlanTruncate(g, s, L, d, j, size, time).ws[..k]), L, d, j, e.first, e.size, Fill(e.size,
          size))
  {
    var e := DirOf(s, L, d)[j];
    if e.size < size {
      var plan, up := PlanTruncate(g, s, L, d, j, size, time), PlanUpdate(g, s, L, d, j, Fill(e.size, size), e.size,
          time);
      ExtendPlan(g, s, L, d, j, size, time);
      UpdatePlanIsIntact(g, s, L, d, j, Fill(e.size, size), e.size, time, k);
      ExtendedIsIntact(s, L, plan, up, Fill(e.size, size), k, d, j, e.first, e.size, Fill(e.size, size));
    } else {
      NothingHappened(g, s, L, d, j, e.first, e.size, Zeros(0));
    }
  }

  lemma GrowingIsUnharmed(g: Geometry, s: State, L: Layout, op: Op, k: nat)
    requires g.Valid() && Inv(g, s, L) && Admissible(g, s, L, op) && SLASH in op.path && Growing(g, s, L, op)
    requires k <= |PlanOf(g, s, L, op).ws|
    ensures Unharmed(g, s, ApplyAll(s, PlanOf(g, s, L, op).ws[..k]), L, op)
  {
    ParentIsNormal(op.path);
    ParentIsInTree(g, s, L, op.path);
    var parent := ParentDir(g, s, L, op.path);
    if parent.Some? {
      if op.Mknod? {
        MakingIsUnharmed(g, s, L, op, parent.value, k);
      } else {
        TargetIsUnharmed(g, s, L, op, parent.value, k);
      }
    }
  }

  lemma MakingIsUnharmed(g: Geometry, s: State, L: Layout, op: Op, d: nat, k: nat)
    requires g.Valid() && Inv(g, s, L) && Admissible(g, s, L, op) && SLASH in op.path && op.Mknod?
    requires ParentDir(g, s, L, op.path) == Some(d) && d in L.nodes && L.nodes[d].isDir
    requires k <= |PlanOf(g, s, L, op).ws|
    ensures Intact(s, ApplyAll(s, PlanOf(g, s, L, op).ws[..k]), L, d, |DirOf(s, L, d)|, FREE, 0, [])
  {
    ParentIsNormal(op.path);
    if L.free != [] {
      MakeIsPossible(g, s, L, d, TargetOf(op.path), op.time);
      MakeIsIntact(g, s, L, d, TargetOf(op.path), op.time, k);
    } else {
      NothingHappened(g, s, L, d, |DirOf(s, L, d)|, FREE, 0, []);
    }
  }

  lemma TargetIsUnharmed(g: Geometry, s: State, L: Layout, op: Op, d: nat, k: nat)
    requires g.Valid() && Inv(g, s, L) && Admissible(g, s, L, op) && SLASH in op.path
    requires (op.Write? || op.Truncate?) && !PlanOf(g, s, L, op).reply.Wild?
    requires ParentDir(g, s, L, op.path) == Some(d) && d in L.nodes && L.nodes[d].isDir
    requires k <= |PlanOf(g, s, L, op).ws|
    ensures Unharmed(g, s, ApplyAll(s, PlanOf(g, s, L, op).ws[..k]), L, op)
  {
    ParentIsNormal(op.path);
    var name := TargetOf(op.path);
    TargetIsObject(g, s, L, d, name);
    var j := FindIndex(DirOf(s, L, d), name);
    if j < |DirOf(s, L, d)| {
      if op.Write? {
        UpdatePlanIsIntact(g, s, L, d, j, op.buf, op.off, op.time, k);
      } else if DirOf(s, L, d)[j].size <= op.size {
        ExtensionIsIntact(g, s, L, d, j, op.size, op.time, k);
      }
    }
  }

  /** The disk `image` can be mounted, is consistent, and has all that `s` had under `L`. */
  ghost predicate Unscathed(g: Geometry, image: seq<Block>, s: State, L: Layout, op: Op)
    requires SLASH in op.path
  {
    && Formatted(g, image) && Recoverable(g, OnDisk(g, image), L)
    && Unharmed(g, s, OnDisk(g, image), L, op)
  }

  /** A write, an extension or the creation of a file, interrupted after any of its cluster writes, leaves a
      disk that can be mounted and has lost nothing but free clusters: no object, no name and no byte except
      in the range being written. */
  method PerformGrowing(vol: Volume, op: Op, ghost L: Layout) returns (r: Reply)
    requires Mounted(vol, L) && Admissible(vol.g, vol.v, L, op)
    requires SLASH in op.path && Growing(vol.g, vol.v, L, op)
    modifies vol, vol.fatTable
    ensures vol.Coherent() && vol.Wrote(PlanOf(vol.g, old(vol.v), L, op).ws)
    ensures forall k :: |old(vol.trace)| <= k < |vol.trace| ==> Unscathed(vol.g, vol.images[k], old(vol.v), L, op)
  {
    ghost var s, t, ws := vol.v, vol.trace, PlanOf(vol.g, vol.v, L, op).ws;
    assert s == ApplyAll(vol.start, t) by { assert Open(0); }
    GrowingIsCrashSafe(vol.g, s, L, op);
    assert forall n :: 0 <= n <= |ws| ==> Unharmed(vol.g, s, ApplyAll(s, ws[..n]), L, op) by {
      forall n | 0 <= n <= |ws|
        ensures Unharmed(vol.g, s, ApplyAll(s, ws[..n]), L, op)
      {
        GrowingIsUnharmed(vol.g, s, L, op, n);
      }
    }
    r := Perform(vol, op, L);
    forall k | |t| <= k < |vol.trace|
      ensures Unscathed(vol.g, vol.images[k], s, L, op)
    {
      InterruptedImage(vol, t, s, ws, k);
      InterruptedIsRecoverable(vol, t, s, L, ws, k);
    }
  }

  /** Mounting what an interruption left. */
  method MountLeftover(image: seq<Block>, ghost g: Geometry, ghost L: Layout) returns (vol: Volume)
    requires Formatted(g, image) && Slotted(g) && Recoverable(g, OnDisk(g, image), L)
    ensures fresh(vol) && vol.g == g && vol.disk == image
    ensures exists L' :: Mounted(vol, L') && Survives(L, L')
  {
    vol := new Volume.Mount(image, g);
    ghost var L' :| Inv(g, OnDisk(g, image), L') && Survives(L, L');
    assert Mounted(vol, L');
  }

  // ---- Reading ----

  /** The entry a path leads to is a slot of a directory of the tree. */
  lemma FoundObject(g: Geometry, s: State, L: Layout, path: Path) returns (d: nat, j: nat)
    requires Inv(g, s, L) && KernelPath(g, s, L, path) && SLASH in path && FindPath(g, s, L, path).Some?
    ensures ObjectSlot(s, L, d, j) && DirOf(s, L, d)[j] == FindPath(g, s, L, path).value
  {
    ParentIsNormal(path);
    WalkStaysInTree(g, s, L, g.Root(), Components(ParentPath(path)));
    d := WalkDirs(s, L, g.Root(), Components(ParentPath(path))).value;
    TargetIsObject(g, s, L, d, TargetOf(path));
    j := FindIndex(DirOf(s, L, d), TargetOf(path));
  }

  /** What a file entry shows: the bytes of its chain up to its size. */
  ghost function FileBytes(s: State, L: Layout, e: Entry): seq<byte>
    requires e.first in L.nodes
  {
    Prefix(Contents(s.data, L.nodes[e.first].chain), e.size)
  }

  /** It is what the flat filesystem shows in the same slot. */
  lemma FileBytesAreVisible(g: Geometry, s: State, L: Layout, d: nat, j: nat)
    requires Inv(g, s, L) && FileSlot(s, L, d, j)
    ensures FileHere(g, FlatOf(s, L), d, j)
    ensures var e := DirOf(s, L, d)[j];
      && e.first in L.nodes && |FileBytes(s, L, e)| == e.size
      && Visible(FlatOf(s, L), d, j) == FileBytes(s, L, e)
  {
    FilesAreHere(g, s, L, d, j);
    FlatSlot(g, s, L, d, j);
  }

  lemma ReadyToRead(vol: Volume, L: Layout, d: nat, j: nat)
    requires Mounted(vol, L) && FileSlot(vol.v, L, d, j)
    ensures var e := DirOf(vol.v, L, d)[j];
      && e.first in L.nodes && L.nodes[e.first].chain != [] && L.nodes[e.first].chain[0] == e.first
      && Readable(vol, L.nodes[e.first].chain, Contents(vol.v.data, L.nodes[e.first].chain))
      && e.size <= |Contents(vol.v.data, L.nodes[e.first].chain)|
  {
    FileSlotNode(vol.g, vol.v, L, d, j);
    var f := DirOf(vol.v, L, d)[j].first;
    DirChain(vol, L, f);
    ContentsAreMade(vol.g, vol.v.data, L.nodes[f].chain);
  }

  lemma AlignedRead(bytes: seq<byte>, B: nat, size: nat, off: nat, n: nat, q: nat, w: nat)
    requires w < B && Times(q, B) + w == off < size <= |bytes|
    ensures Aligned(off, B) ==>
      ReadBytes(bytes, B, q, w, ReadLen(size, off, n)) == Prefix(bytes, size)[off..Min(off + n, size)]
  {
    if k: nat :| off == Times(k, B) {
      assert w == 0 by { TimesUnique(k, q, B, off); }
      AlignedReadIsExact(bytes, B, q, ReadLen(size, off, n));
      SliceOfPrefix(bytes, size, off, Min(off + n, size), ReadLen(size, off, n));
    }
  }

  lemma ReadIsMisplaced(bytes: seq<byte>, B: nat, size: nat, off: nat, n: nat, q: nat, w: nat)
    requires w < B && Times(q, B) + w == off < size <= |bytes|
    ensures MisplacedRead(bytes, B, size, off, n, ReadBytes(bytes, B, q, w, ReadLen(size, off, n)))
  {
    DivTimes(off, B);
    TimesUnique(q, off / B, B, off);
    assert w == off % B;
    ReadBytesAt(bytes, B, q, w, ReadLen(size, off, n));
  }

  lemma SliceOfPrefix(bytes: seq<byte>, size: nat, off: nat, hi: nat, len: nat)
    requires off <= hi <= size <= |bytes| && hi == off + len
    ensures Prefix(bytes, size)[off..hi] == bytes[off..off + len]
  {
  }

  /** `buf` is what fat_read returns for a file: nothing past the end; else as many bytes as asked for and as the
      file has, those of the first cluster taken from its start; at a multiple of the cluster size exactly the bytes
      of the range. */
  ghost predicate IsRead(vol: Volume, L: Layout, e: Entry, off: nat, n: nat, buf: seq<byte>)
    reads vol
    requires e.first in L.nodes
  {
    && (off >= e.size ==> buf == [])
    && (off < e.size && Aligned(off, vol.g.B) ==>
        && |FileBytes(vol.v, L, e)| == e.size
        && buf == FileBytes(vol.v, L, e)[off..Min(off + n, e.size)])
    && (off < e.size ==> MisplacedRead(Contents(vol.v.data, L.nodes[e.first].chain), vol.g.B, e.size, off, n, buf))
  }

  /** The first `B - off % B` bytes are read from `off % B` bytes before their place. */
  ghost predicate MisplacedRead(bytes: seq<byte>, B: nat, size: nat, off: nat, n: nat, buf: seq<byte>) {
    && 0 < B && off < size <= |bytes| && |buf| == Min(n, size - off)
    && forall i :: 0 <= i < |buf| ==> buf[i] == bytes[off + i - (if i < B - off % B then off % B else 0)]
  }

  ghost predicate Aligned(off: nat, B: nat) {
    exists k: nat :: off == Times(k, B)
  }

  lemma NothingRead(vol: Volume, L: Layout, d: nat, j: nat, off: nat, n: nat)
    requires Mounted(vol, L) && FileSlot(vol.v, L, d, j)
    requires off >= DirOf(vol.v, L, d)[j].size || n == 0
    ensures DirOf(vol.v, L, d)[j].first in L.nodes && IsRead(vol, L, DirOf(vol.v, L, d)[j], off, n, [])
  {
    FileBytesAreVisible(vol.g, vol.v, L, d, j);
    ReadyToRead(vol, L, d, j);
  }

  /** fat_read, once the file is found. */
  method ReadTarget(vol: Volume, e: Entry, n: nat, off: nat, ghost L: Layout, ghost d: nat, ghost j: nat)
      returns (buf: seq<byte>)
    requires Mounted(vol, L) && FileSlot(vol.v, L, d, j) && e == DirOf(vol.v, L, d)[j] && e.first in L.nodes
    ensures IsRead(vol, L, e, off, n, buf)
  {
    ReadyToRead(vol, L, d, j);
    SpotOfIs(vol.g, off, 1);
    ghost var bytes, p := Contents(vol.v.data, L.nodes[e.first].chain), SpotOf(vol.g, off, 1);
    buf := ReadFile(vol, e.first, e.size, off, n, L.nodes[e.first].chain, bytes, p.q, p.w);
    if off < e.size {
      AlignedRead(bytes, vol.g.B, e.size, off, n, p.q, p.w);
      ReadIsMisplaced(bytes, vol.g.B, e.size, off, n, p.q, p.w);
    }
  }

  /** fat_read. None: an assertion of the code fails. */
  method FatRead(vol: Volume, path: Path, n: nat, off: nat, ghost L: Layout) returns (r: Option<seq<byte>>)
    requires Mounted(vol, L) && KernelPath(vol.g, vol.v, L, path) && n < U32
    ensures SLASH in path && r.None? == FindPath(vol.g, vol.v, L, path).None?
    ensures r.Some? ==>
      var e := FindPath(vol.g, vol.v, L, path).value;
      e.first in L.nodes && if e.kind == KIND_FILE then IsRead(vol, L, e, off, n, r.value) else r.value == []
  {
    ParentIsNormal(path);
    var found := FindDirEntryByPath(vol, path, L);
    if found.None? {
      return None;
    }
    ghost var d, j := FoundObject(vol.g, vol.v, L, path);
    assert DirOk(vol.g, vol.v, L, d) && EntryOk(vol.g, L.nodes, d, j, found.value);
    if off >= found.value.size || n == 0 {
      if found.value.kind == KIND_FILE {
        NothingRead(vol, L, d, j, off, n);
      }
      return Some([]);
    }
    var buf := ReadTarget(vol, found.value, n, off, L, d, j);
    return Some(buf);
  }

  /** fat_statfs: free clusters, and the total that free, used and orphaned clusters make up. */
  method FatStatfs(vol: Volume, ghost L: Layout) returns (total: nat, free: nat)
    requires Mounted(vol, L)
    ensures free == |L.free| && free + TotalLength(L.nodes) + |Orphans(vol.g, L)| == total
  {
    FreeOf(vol.g, vol.v, L);
    ClustersAreConserved(vol.g, vol.v, L);
    free := CountClusterInChain(vol, vol.freeStart, L.free);
    total := vol.g.N - vol.g.K - 1;
  }
}
