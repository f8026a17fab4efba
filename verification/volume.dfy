/** The bytes on the disk and the in-memory superblock and FAT that cache them. */
module Volumes {
  import opened Bytes
  import opened States

  const FAT_TYPE: nat := 32

  /** `sizeof(superblock)`: six words padded to 512 bytes. */
  const SUPERBLOCK_SIZE: nat := 512

  ghost predicate WfDisk(g: Geometry, disk: seq<Block>) {
    |disk| == g.N && Uniform(disk, g.B)
  }

  /** Cluster 0 as written by the program: the superblock, then zeros. */
  function SuperCluster(g: Geometry, free: nat): (r: Block)
    requires g.B < U32 && g.N < U32 && g.K < U32 - 1 && free < U32
    requires SUPERBLOCK_SIZE <= g.B
    ensures |r| == g.B
  {
    Le32(g.B) + Le32(g.N) + Le32(g.K) + Le32(FAT_TYPE) + Le32(g.Root()) + Le32(free)
    + Zeros(g.B - 24)
  }

  lemma GeometryFits(g: Geometry)
    requires g.Valid()
    ensures g.B < U32 && g.N < U32 && g.K < U32 - 1
  {
    TimesTwice(g.N, g.B);
    TimesMono(2, g.N, g.B);
    assert Times(2, g.B) == g.B + Times(1, g.B) == g.B + g.B;
  }

  /** A disk that holds a filesystem: its first cluster is a superblock with geometry `g`. */
  ghost predicate Formatted(g: Geometry, disk: seq<Block>) {
    && g.Valid() && WfDisk(g, disk) && g.B < U32 && g.N < U32 && g.K < U32 - 1
    && disk[0] == SuperCluster(g, FromLe32(disk[0][20..24]))
  }

  /** The six words of the superblock as init_superblock reads them back. */
  lemma SuperFields(g: Geometry, free: nat)
    requires g.Valid() && free < U32 && g.B < U32 && g.N < U32 && g.K < U32 - 1
    ensures var b := SuperCluster(g, free);
      && FromLe32(b[0..4]) == g.B && FromLe32(b[4..8]) == g.N && FromLe32(b[8..12]) == g.K
      && FromLe32(b[12..16]) == 32 && FromLe32(b[16..20]) == g.K + 1 && FromLe32(b[20..24]) == free
  {
    var b := SuperCluster(g, free);
    Le32RoundTrip(g.B);
    Le32RoundTrip(g.N);
    Le32RoundTrip(g.K);
    Le32RoundTrip(FAT_TYPE);
    Le32RoundTrip(g.Root());
    Le32RoundTrip(free);
    assert b[0..4] == Le32(g.B) && b[4..8] == Le32(g.N) && b[8..12] == Le32(g.K);
    assert b[12..16] == Le32(FAT_TYPE) && b[16..20] == Le32(g.Root()) && b[20..24] == Le32(free);
  }

  /** Where the entry of cluster `c` lies in the FAT. */
  function EntryOffset(g: Geometry, c: nat): nat
    requires g.K < c
  {
    4 * (c - 1 - g.K)
  }

  lemma EntryInTable(g: Geometry, c: nat)
    requires g.Valid() && g.K < c < g.N
    ensures EntryOffset(g, c) + 4 <= Times(g.K, g.B)
  {
  }

  function FatOf(g: Geometry, table: seq<byte>): (fat: seq<nat>)
    requires g.Valid() && |table| == Times(g.K, g.B)
    ensures |fat| == g.N
  {
    seq(g.N, c requires 0 <= c < g.N =>
      if c <= g.K then 0
      else FromLe32(table[EntryOffset(g, c)..EntryOffset(g, c) + 4]))
  }

  /** The state that the bytes of a disk stand for. */
  function OnDisk(g: Geometry, disk: seq<Block>): (s: State)
    requires g.Valid() && WfDisk(g, disk)
    ensures WfState(g, s)
  {
    FlattenLength(disk[1..g.K + 1], g.B);
    State(
      FromLe32(disk[0][20..24]),
      FatOf(g, Flatten(disk[1..g.K + 1])),
      seq(g.N, c requires 0 <= c < g.N => if c <= g.K then [] else disk[c]))
  }

  /** Writing the four bytes of one entry updates that entry and no other. */
  lemma FatOfUpdate(g: Geometry, table: seq<byte>, c: nat, value: nat)
    requires g.Valid() && |table| == Times(g.K, g.B) && g.K < c < g.N && value < U32
    ensures EntryOffset(g, c) + 4 <= |table|
    ensures FatOf(g, Splice(table, EntryOffset(g, c), Le32(value))) == FatOf(g, table)[c := value]
  {
    var off := EntryOffset(g, c);
    var table' := Splice(table, off, Le32(value));
    Le32RoundTrip(value);
    forall d | g.K < d < g.N
      ensures FatOf(g, table')[d] == FatOf(g, table)[c := value][d]
    {
      var o := EntryOffset(g, d);
      if d == c {
        assert table'[o..o + 4] == Le32(value);
      } else {
        assert table'[o..o + 4] == table[o..o + 4];
      }
    }
  }

  lemma MulFour(k: nat, m: nat)
    ensures k * (4 * m) == 4 * (k * m)
  {
  }

  /** A word at a multiple of 4 lies in one cluster, since 4 divides the cluster size. */
  lemma WordInOneCluster(k: nat, B: nat, off: nat, r: nat)
    requires B % 4 == 0 && off % 4 == 0 && off == Times(k, B) + r && r < B
    ensures r + 4 <= B
  {
    var m := B / 4;
    assert B == 4 * m;
    TimesIsProduct(k, B);
    MulFour(k, m);
    assert r == 4 * (off / 4 - k * m);
  }

  /** The FAT cluster that holds the entry of `c` starts at byte `lo` of the table. */
  ghost predicate HoldsEntry(g: Geometry, c: nat, k: nat, lo: nat)
    requires g.K < c
  {
    && k < g.K && lo == Times(k, g.B) && lo + g.B <= Times(g.K, g.B)
    && lo <= EntryOffset(g, c) && EntryOffset(g, c) + 4 <= lo + g.B
  }

  lemma LocateEntry(g: Geometry, c: nat, k: nat, r: nat)
    requires g.Valid() && g.K < c < g.N && r < g.B
    requires EntryOffset(g, c) == Times(k, g.B) + r
    ensures HoldsEntry(g, c, k, Times(k, g.B))
  {
    EntryInTable(g, c);
    WordInOneCluster(k, g.B, EntryOffset(g, c), r);
    if k >= g.K {
      TimesMono(g.K, k, g.B);
    } else {
      TimesMono(k, g.K, g.B);
    }
  }

  /** Writing back only the cluster that holds the updated word keeps the FAT area of the
      disk equal to the table in memory. */
  lemma FatWriteBack(area: seq<Block>, B: nat, k: nat, lo: nat, off: nat, part: seq<byte>)
    requires Uniform(area, B) && k < |area| && lo == Times(k, B)
    requires lo <= off && off + |part| <= lo + B
    ensures lo + B <= |Flatten(area)|
    ensures var table' := Splice(Flatten(area), off, part);
      Flatten(area[k := table'[lo..lo + B]]) == table'
  {
    FlattenAt(area, B, k);
    FlattenSplice(area, B, k, off - lo, part);
    var table' := Splice(Flatten(area), off, part);
    assert table'[lo..lo + B] == Splice(area[k], off - lo, part);
  }

  /** What that one cluster write does to the state the disk stands for. */
  lemma FatClusterWrite(g: Geometry, disk: seq<Block>, c: nat, value: nat, k: nat, lo: nat, table: seq<byte>,
      block: Block)
    requires g.Valid() && WfDisk(g, disk) && g.K < c < g.N && value < U32 && HoldsEntry(g, c, k, lo)
    requires |Flatten(disk[1..g.K + 1])| == Times(g.K, g.B)
    requires table == Splice(Flatten(disk[1..g.K + 1]), EntryOffset(g, c), Le32(value))
    requires block == table[lo..lo + g.B]
    ensures var disk' := disk[k + 1 := block];
      && WfDisk(g, disk')
      && Flatten(disk'[1..g.K + 1]) == table
      && OnDisk(g, disk') == Apply(OnDisk(g, disk), Fat(c, value))
  {
    var area, disk' := disk[1..g.K + 1], disk[k + 1 := block];
    assert Flatten(disk'[1..g.K + 1]) == table by {
      FatWriteBack(area, g.B, k, lo, EntryOffset(g, c), Le32(value));
      assert disk'[1..g.K + 1] == area[k := block];
    }
    FatOfUpdate(g, Flatten(area), c, value);
    SameDataArea(g, disk, k, block);
  }

  lemma SameDataArea(g: Geometry, disk: seq<Block>, k: nat, block: Block)
    requires g.Valid() && WfDisk(g, disk) && k < g.K && |block| == g.B
    ensures var disk' := disk[k + 1 := block];
      WfDisk(g, disk') && OnDisk(g, disk').head == OnDisk(g, disk).head && OnDisk(g, disk').data == OnDisk(g, disk).data
  {
  }

  // ---- A new disk ----

  /** init_fat: the root ends its chain, every later cluster but the last points at the next. */
  function FreshFat(g: Geometry): (fat: seq<nat>)
    requires g.K + 3 <= g.N
    ensures |fat| == g.N
  {
    FreshFatUpTo(g, g.N - 1)
  }

  /** The same when only the clusters before `i` have been linked. */
  function FreshFatUpTo(g: Geometry, i: nat): (fat: seq<nat>)
    requires g.K + 3 <= g.N && i < g.N
    ensures |fat| == g.N
    ensures forall c :: 0 <= c < g.N ==> fat[c] == if g.Root() < c < i then c + 1 else 0
  {
    seq(g.N, c requires 0 <= c < g.N => if g.Root() < c < i then c + 1 else 0)
  }

  lemma ZeroTable(g: Geometry, table: seq<byte>)
    requires g.Valid() && table == Zeros(Times(g.K, g.B))
    ensures FatOf(g, table) == FreshFatUpTo(g, g.Root() + 1)
  {
    forall c | g.K < c < g.N
      ensures FatOf(g, table)[c] == 0
    {
      EntryInTable(g, c);
      assert table[EntryOffset(g, c)..EntryOffset(g, c) + 4] == [0, 0, 0, 0];
    }
  }

  /** A new disk before the root has its dot entries: one chain of free, zeroed clusters. */
  function BlankState(g: Geometry): State
    requires g.K + 3 <= g.N
  {
    State(g.Root() + 1, FreshFat(g), seq(g.N, c => if c <= g.K then [] else Zeros(g.B)))
  }

  /** `bytes` cut into clusters of `n` bytes. */
  function Cut(bytes: seq<byte>, n: nat): seq<Block>
    requires 0 < n
    decreases |bytes|
  {
    if |bytes| < n then [] else [bytes[..n]] + Cut(bytes[n..], n)
  }

  lemma {:induction false} CutFlattens(bytes: seq<byte>, n: nat, k: nat)
    requires 0 < n && |bytes| == Times(k, n)
    ensures |Cut(bytes, n)| == k && Uniform(Cut(bytes, n), n) && Flatten(Cut(bytes, n)) == bytes
  {
    if k > 0 {
      CutFlattens(bytes[n..], n, k - 1);
      assert Cut(bytes, n)[1..] == Cut(bytes[n..], n);
    }
  }

  /** A disk of zeros but for superblock and FAT. */
  function BlankDisk(g: Geometry, table: seq<byte>): seq<Block>
    requires 512 <= g.B < U32 && g.N < U32 && g.K < U32 - 2
  {
    [SuperCluster(g, g.Root() + 1)] + Cut(table, g.B) + seq(Max(g.N, g.K + 1) - g.K - 1, _ => Zeros(g.B))
  }

  lemma BlankDiskIsFormatted(g: Geometry, table: seq<byte>)
    requires g.Valid() && |table| == Times(g.K, g.B) && FatOf(g, table) == FreshFat(g)
    requires g.B < U32 && g.N < U32 && g.K < U32 - 2
    ensures var disk := BlankDisk(g, table);
      Formatted(g, disk) && Flatten(disk[1..g.K + 1]) == table && OnDisk(g, disk) == BlankState(g)
  {
    var disk := BlankDisk(g, table);
    CutFlattens(table, g.B, g.K);
    assert disk[1..g.K + 1] == Cut(table, g.B);
    SuperFields(g, g.Root() + 1);
    assert OnDisk(g, disk).data == BlankState(g).data;
  }

  /** Writing the superblock changes the head of the free list and nothing else. */
  lemma SuperOnDisk(g: Geometry, disk: seq<Block>, value: nat)
    requires g.Valid() && WfDisk(g, disk) && value < U32 && g.B < U32 && g.N < U32 && g.K < U32 - 1
    ensures var disk' := disk[0 := SuperCluster(g, value)];
      && WfDisk(g, disk') && disk'[1..g.K + 1] == disk[1..g.K + 1]
      && OnDisk(g, disk') == Apply(OnDisk(g, disk), Head(value))
  {
    SuperFields(g, value);
    assert disk[0 := SuperCluster(g, value)][1..g.K + 1] == disk[1..g.K + 1];
  }

  /** After every cluster write of `trace` the disk image stood for the state reached by the trace up to it. */
  ghost predicate LogOk(g: Geometry, start: State, trace: seq<Write>, images: seq<seq<Block>>) {
    && |images| == |trace|
    && forall k :: 0 <= k < |trace| ==>
      Formatted(g, images[k]) && OnDisk(g, images[k]) == ApplyAll(start, trace[..k + 1])
  }

  lemma LogSnoc(g: Geometry, start: State, trace: seq<Write>, images: seq<seq<Block>>, w: Write, disk: seq<Block>)
    requires LogOk(g, start, trace, images)
    requires Formatted(g, disk) && OnDisk(g, disk) == ApplyAll(start, trace + [w])
    ensures LogOk(g, start, trace + [w], images + [disk])
  {
    var ws, ds := trace + [w], images + [disk];
    forall k | 0 <= k < |ws|
      ensures Formatted(g, ds[k]) && OnDisk(g, ds[k]) == ApplyAll(start, ws[..k + 1])
    {
      if k < |trace| {
        assert ws[..k + 1] == trace[..k + 1] && ds[k] == images[k];
      } else {
        assert ws[..k + 1] == ws;
      }
    }
  }

  /** The volume: `g` and `freeStart` are the superblock held in memory, `fatTable` the FAT
      held in memory, `disk` the clusters of the disk file.
      Ghost fields: `v` is the logical state, `trace` the cluster writes issued since the
      volume was opened in state `start`, `images` the disk after each of them. */
  class Volume {
    const g: Geometry
    var freeStart: nat
    const fatTable: array<byte>
    var disk: seq<Block>

    ghost var v: State
    ghost var start: State
    ghost var trace: seq<Write>
    ghost var images: seq<seq<Block>>

    /** Memory and disk agree byte for byte, and both stand for `v`. */
    ghost predicate Synced()
      reads this, fatTable
    {
      && g.Valid() && WfDisk(g, disk)
      && g.B < U32 && g.N < U32 && g.K < U32 - 1 && freeStart < U32
      && fatTable.Length == Times(g.K, g.B)
      && disk[0] == SuperCluster(g, freeStart)
      && Flatten(disk[1..g.K + 1]) == fatTable[..]
      && v == OnDisk(g, disk)
    }

    ghost predicate Recorded()
      reads this
    {
      v == ApplyAll(start, trace) && LogOk(g, start, trace, images)
    }

    /** Both, put behind `Open`, and what the operations need to know of them. */
    ghost predicate Coherent()
      reads this, fatTable
    {
      && g.Valid() && g.N < U32 && WfState(g, v) && v.head == freeStart < U32 && |images| == |trace|
      && forall u {:trigger Open(u)} :: Open(u) ==> Synced() && Recorded()
    }

    /** Since the old state exactly the writes `ws` were issued. */
    twostate predicate Wrote(ws: seq<Write>)
      reads this
    {
      && start == old(start)
      && trace == old(trace) + ws
      && v == ApplyAll(old(v), ws)
    }

    /** fat_init on a disk file that exists: superblock and FAT are read back. */
    constructor Mount(image: seq<Block>, ghost shape: Geometry)
      requires Formatted(shape, image)
      ensures Coherent() && g == shape && disk == image && fresh(fatTable)
      ensures v == OnDisk(shape, image) && start == v && trace == []
    {
      var super := image[0];
      SuperFields(shape, FromLe32(super[20..24]));
      var geometry := Geometry(FromLe32(super[0..4]), FromLe32(super[4..8]), FromLe32(super[8..12]));
      FlattenLength(image[1..geometry.K + 1], geometry.B);
      var table := Flatten(image[1..geometry.K + 1]);
      g := geometry;
      freeStart := FromLe32(super[20..24]);
      fatTable := new byte[|table|](i requires 0 <= i < |table| => table[i]);
      disk := image;
      v := OnDisk(geometry, image);
      start := OnDisk(geometry, image);
      trace, images := [], [];
      new;
      assert fatTable[..] == table;
    }

    /** fat_init on a new disk file, up to the dot entries of the root. */
    constructor Format(shape: Geometry)
      requires shape.Valid()
      ensures Coherent() && g == shape && fresh(fatTable)
      ensures v == BlankState(shape) && start == v && trace == []
    {
      TimesIsProduct(shape.K, shape.B);
      g := shape;
      freeStart := shape.Root() + 1;
      fatTable := new byte[shape.K * shape.B](_ => 0);
      disk := [];
      v := BlankState(shape);
      start := BlankState(shape);
      trace, images := [], [];
      new;
      GeometryFits(g);
      assert fatTable[..] == Zeros(Times(g.K, g.B));
      InitFat();
      disk := BlankDisk(g, fatTable[..]);
      BlankDiskIsFormatted(g, fatTable[..]);
      SuperFields(g, freeStart);
    }

    /** The loop of init_fat, in memory. */
    method InitFat()
      requires g.Valid() && g.N < U32 && fatTable[..] == Zeros(Times(g.K, g.B))
      modifies fatTable
      ensures fatTable.Length == Times(g.K, g.B) && FatOf(g, fatTable[..]) == FreshFat(g)
    {
      ZeroTable(g, fatTable[..]);
      SetInTable(g.Root(), 0);
      SetInTable(g.N - 1, 0);
      for i := g.Root() + 1 to g.N - 1
        invariant FatOf(g, fatTable[..]) == FreshFatUpTo(g, i)
      {
        SetInTable(i, i + 1);
        assert FreshFatUpTo(g, i)[i := i + 1] == FreshFatUpTo(g, i + 1);
      }
    }

    /** update_fat_entry without `write_to_disk`. */
    method SetInTable(c: nat, value: nat)
      requires g.Valid() && g.K < c < g.N && value < U32 && fatTable.Length == Times(g.K, g.B)
      modifies fatTable
      ensures FatOf(g, fatTable[..]) == old(FatOf(g, fatTable[..]))[c := value]
    {
      FatOfUpdate(g, fatTable[..], c, value);
      StoreEntry(EntryOffset(g, c), value);
    }

    /** read_fat_entry, on the entries that lie in the table. */
    function ReadFatEntry(c: nat): (next: nat)
      requires Coherent() && g.K < c < g.N
      reads this, fatTable
      ensures next == v.fat[c] && next < U32
    {
      assert Open(0);
      EntryInTable(g, c);
      FromLe32(fatTable[EntryOffset(g, c)..EntryOffset(g, c) + 4])
    }

    /** read_entire_cluster_from_disk, for a data cluster. */
    function ReadCluster(c: nat): (b: Block)
      requires Coherent() && g.K < c < g.N
      reads this, fatTable
      ensures b == v.data[c] && |b| == g.B
    {
      assert Open(0);
      disk[c]
    }

    /** Write `w` has reached the disk, which stood for `was` before it. */
    ghost method Record(w: Write, was: State)
      requires Synced() && LogOk(g, start, trace, images) && was == ApplyAll(start, trace) && v == Apply(was, w)
      modifies this`trace, this`images
      ensures Coherent() && trace == old(trace) + [w] && v == ApplyAll(was, [w])
    {
      SuperFields(g, freeStart);
      ApplySnoc(start, trace, w);
      ApplyOne(was, w);
      LogSnoc(g, start, trace, images, w, disk);
      images := images + [disk];
      trace := trace + [w];
    }

    /** The memcpy of one word into the table. */
    method StoreEntry(off: nat, value: nat)
      requires value < U32 && off + 4 <= fatTable.Length
      modifies fatTable
      ensures fatTable[..] == Splice(old(fatTable[..]), off, Le32(value))
    {
      var bytes := Le32(value);
      fatTable[off] := bytes[0];
      fatTable[off + 1] := bytes[1];
      fatTable[off + 2] := bytes[2];
      fatTable[off + 3] := bytes[3];
    }

    /** The one FAT cluster that holds the entry just stored is written to the disk. */
    method WriteBack(c: nat, value: nat, k: nat, lo: nat)
      requires Formatted(g, disk) && v == OnDisk(g, disk) && g.K < c < g.N && value < U32 && HoldsEntry(g, c, k, lo)
      requires freeStart < U32 && disk[0] == SuperCluster(g, freeStart)
      requires |Flatten(disk[1..g.K + 1])| == fatTable.Length == Times(g.K, g.B)
      requires fatTable[..] == Splice(Flatten(disk[1..g.K + 1]), EntryOffset(g, c), Le32(value))
      modifies this`disk, this`v
      ensures Synced() && v == Apply(old(v), Fat(c, value))
    {
      var block := fatTable[lo..lo + g.B];
      assert block == fatTable[..][lo..lo + g.B];
      FatClusterWrite(g, disk, c, value, k, lo, fatTable[..], block);
      disk := disk[k + 1 := block];
      v := Apply(v, Fat(c, value));
    }

    /** update_fat_entry with `write_to_disk` set. */
    method UpdateFatEntry(c: nat, value: nat)
      requires Coherent() && g.K < c < g.N && value < U32
      modifies this, fatTable
      ensures Coherent() && Wrote([Fat(c, value)])
      ensures freeStart == old(freeStart)
    {
      assert Open(0);
      var off := EntryOffset(g, c);
      var k, lo, r := Locate(off, g.B);
      LocateEntry(g, c, k, r);
      SuperFields(g, freeStart);
      StoreEntry(off, value);
      WriteBack(c, value, k, lo);
      Record(Fat(c, value), old(v));
    }

    /** Assigning `free_cluster_start` and write_superblock_to_disk. */
    method WriteFreeStart(value: nat)
      requires Coherent() && value < U32
      modifies this
      ensures Coherent() && Wrote([Head(value)])
      ensures freeStart == value
    {
      assert Open(0);
      freeStart := value;
      SuperOnDisk(g, disk, value);
      disk := disk[0 := SuperCluster(g, value)];
      v := OnDisk(g, disk);
      Record(Head(value), old(v));
    }

    /** write_cluster_to_disk, for a data cluster. */
    method WriteCluster(c: nat, block: Block)
      requires Coherent() && g.K < c < g.N && |block| == g.B
      modifies this
      ensures Coherent() && Wrote([Data(c, block)])
      ensures freeStart == old(freeStart)
    {
      assert Open(0);
      ghost var area := disk[1..g.K + 1];
      disk := disk[c := block];
      assert disk[1..g.K + 1] == area;
      v := OnDisk(g, disk);
      assert v == Apply(old(v), Data(c, block));
      Record(Data(c, block), old(v));
    }
  }
}
