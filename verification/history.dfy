/** From a fresh format through any history of requests, with remounts in between: what a reader gets is
    what the flat filesystem holds. */
module History {
  import opened Bytes
  import opened States
  import opened Entries
  import opened Volumes
  import opened Layouts
  import opened Trees
  import opened Release
  import opened Paths
  import opened Machine
  import opened FlatModel
  import opened Theorems
  import opened Refinement
  import opened Writing
  import opened Filesystem
  import opened Mounting

  /** Up to `n` elements from `lo` on. */
  function Slice<T>(s: seq<T>, lo: nat, n: nat): seq<T> {
    if lo >= |s| then [] else s[lo..Min(lo + n, |s|)]
  }

  /** A read of the flat filesystem: the file's bytes up to its size, cut to the range. */
  ghost function FlatRead(g: Geometry, A: Flat, path: Path, n: nat, off: nat): Option<seq<byte>>
    requires SLASH in path
  {
    match FlatFind(g, A, path)
    case None => None
    case Some(e) =>
      Some(if A.IsFile(e.first) then Slice(Prefix(A.objs[e.first].bytes, e.size), off, n) else [])
  }

  lemma ReadIsFlat(vol: Volume, L: Layout, path: Path, n: nat, off: nat, buf: seq<byte>, e: Entry)
    requires Mounted(vol, L) && KernelPath(vol.g, vol.v, L, path) && SLASH in path && Aligned(off, vol.g.B)
    requires FindPath(vol.g, vol.v, L, path) == Some(e) && e.first in L.nodes
    requires if e.kind == KIND_FILE then IsRead(vol, L, e, off, n, buf) else buf == []
    ensures FlatRead(vol.g, FlatOf(vol.v, L), path, n, off) == Some(buf)
  {
    FindIsFlat(vol.g, vol.v, L, path);
    var d, j := FoundObject(vol.g, vol.v, L, path);
    FlatSlot(vol.g, vol.v, L, d, j);
    ObjectSlotNode(vol.g, vol.v, L, d, j);
    if e.kind == KIND_FILE {
      FileBytesAreVisible(vol.g, vol.v, L, d, j);
    }
  }

  /** fat_read at a multiple of the cluster size is a read of the flat filesystem. */
  method ReadAligned(vol: Volume, path: Path, n: nat, off: nat, ghost L: Layout) returns (r: Option<seq<byte>>)
    requires Mounted(vol, L) && KernelPath(vol.g, vol.v, L, path) && n < U32 && Aligned(off, vol.g.B)
    ensures SLASH in path && r == FlatRead(vol.g, FlatOf(vol.v, L), path, n, off)
  {
    ParentIsNormal(path);
    r := FatRead(vol, path, n, off, L);
    FindIsFlat(vol.g, vol.v, L, path);
    if r.Some? {
      ReadIsFlat(vol, L, path, n, off, r.value, FindPath(vol.g, vol.v, L, path).value);
    }
  }

  /** Requests one after another; where `remounts` says so, an unmount and a mount come first. */
  method ServeRemounting(first: Volume, ops: seq<Op>, remounts: seq<bool>, ghost L: Layout)
    returns (vol: Volume, replies: seq<Reply>, ghost L': Layout)
    requires Mounted(first, L) && IsRun(first.g, first.v, L, ops) && |remounts| == |ops|
    modifies first, first.fatTable
    ensures vol.g == first.g && Mounted(vol, L')
    ensures (vol.v, L') == RunFrom(first.g, old(first.v), L, ops)
    ensures replies == RunReplies(first.g, old(first.v), L, ops)
  {
    vol, replies, L' := first, [], L;
    assert ops[0..] == ops;
    for i := 0 to |ops|
      invariant vol.g == first.g && Mounted(vol, L')
      invariant vol == first || (fresh(vol) && fresh(vol.fatTable))
      invariant Served(vol.g, old(first.v), L, ops, vol.v, L', i, replies)
    {
      if remounts[i] {
        vol := Remount(vol, L');
      }
      ServeStep(vol.g, vol.v, L, old(first.v), L', ops, i, replies);
      ghost var plan := PlanOf(vol.g, vol.v, L', ops[i]);
      var reply := Perform(vol, ops[i], L');
      replies, L' := replies + [reply], plan.L;
    }
  }

  /** A new disk, any run of requests with remounts anywhere between them, a last mount and a read: it returns
      what the flat filesystem holds after the same requests. */
  method ReadAfterHistory(g: Geometry, time: seq<byte>, ops: seq<Op>, remounts: seq<bool>, path: Path, n: nat, off: nat)
    returns (r: Option<seq<byte>>, replies: seq<Reply>, ghost ids: seq<nat>)
    requires g.Valid() && g.N < U32 && Slotted(g) && |time| == 8 && n < U32 && Aligned(off, g.B)
    requires FreshRun(g, time, ops) && |remounts| == |ops|
    requires var (s, L) := FreshRunEnd(g, time, ops); KernelPath(g, s, L, path)
    ensures SLASH in path && RunArgs(ops, ids) && NewIds(g, FreshFlat(g, time), ops, ids)
    ensures var (A, expected) := FlatRun(g, FreshFlat(g, time), ops, ids);
      r == FlatRead(g, A, path, n, off) && replies == expected
  {
    FreshIsConsistent(g, time);
    var first := FatInit(g, time);
    ids := RunIsFlat(g, FreshState(g, time), FreshLayout(g), ops);
    var vol;
    ghost var L;
    vol, replies, L := ServeRemounting(first, ops, remounts, FreshLayout(g));
    var again := Remount(vol, L);
    r := ReadAligned(again, path, n, off, L);
  }
}
