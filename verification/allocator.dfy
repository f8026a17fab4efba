/** The free list: allocation, release and the walks along a chain. */
module Allocator {
  import opened Bytes
  import opened Chains
  import opened States
  import opened Volumes

  ghost predicate InData(g: Geometry, s: seq<nat>) {
    forall i :: 0 <= i < |s| ==> g.K < s[i] < g.N
  }

  // ---- Specification ----

  function ZeroWrites(g: Geometry, cs: seq<nat>): seq<Write> {
    if cs == [] then []
    else ZeroWrites(g, cs[..|cs| - 1]) + [Data(cs[|cs| - 1], Zeros(g.B))]
  }

  /** The writes that take the first `n` clusters off the free list `F`: new head, end of
      the taken chain, then every taken cluster zeroed. */
  function PopWrites(g: Geometry, F: seq<nat>, n: nat): seq<Write>
    requires 0 < n <= |F|
  {
    [Head(At(F, n))] + [Fat(F[n - 1], 0)] + ZeroWrites(g, F[..n])
  }

  /** The writes that put chain `C` in front of a free list headed by `head`. */
  function FreeWrites(C: seq<nat>, head: nat): seq<Write>
    requires C != []
  {
    [Fat(C[|C| - 1], head)] + [Head(C[0])]
  }

  /** `data` with the clusters `cs` zeroed. */
  function Wipe(g: Geometry, data: seq<Block>, cs: seq<nat>): (r: seq<Block>)
    ensures |r| == |data|
  {
    seq(|data|, c requires 0 <= c < |data| => if c in cs then Zeros(g.B) else data[c])
  }

  lemma {:induction false} ZeroEffect(g: Geometry, s: State, cs: seq<nat>)
    ensures ApplyAll(s, ZeroWrites(g, cs)) == s.(data := Wipe(g, s.data, cs))
  {
    if cs == [] {
      assert Wipe(g, s.data, cs) == s.data;
    } else {
      var cs0, c := cs[..|cs| - 1], cs[|cs| - 1];
      ZeroEffect(g, s, cs0);
      ApplySnoc(s, ZeroWrites(g, cs0), Data(c, Zeros(g.B)));
      assert forall x :: x in cs <==> x in cs0 || x == c by { assert cs == cs0 + [c]; }
      var s0 := s.(data := Wipe(g, s.data, cs0));
      assert Apply(s0, Data(c, Zeros(g.B))).data == Wipe(g, s.data, cs);
    }
  }

  lemma ApplyTwo(s: State, a: Write, b: Write)
    ensures ApplyAll(s, [a] + [b]) == Apply(Apply(s, a), b)
  {
    ApplySnoc(s, [a], b);
    ApplyOne(s, a);
  }

  /** The state after an allocation. */
  lemma PopEffect(g: Geometry, s: State, F: seq<nat>, n: nat)
    requires 0 < n <= |F| && InData(g, F) && WfState(g, s)
    ensures ApplyAll(s, PopWrites(g, F, n))
         == State(At(F, n), s.fat[F[n - 1] := 0], Wipe(g, s.data, F[..n]))
  {
    var ws := [Head(At(F, n))] + [Fat(F[n - 1], 0)];
    ApplyConcat(s, ws, ZeroWrites(g, F[..n]));
    ApplyTwo(s, ws[0], ws[1]);
    ZeroEffect(g, ApplyAll(s, ws), F[..n]);
  }

  /** Allocation splits the free list: the taken clusters form a chain of their own, in
      free-list order, and what is left is the free list. */
  lemma PopSplits(g: Geometry, s: State, F: seq<nat>, n: nat)
    requires 0 < n <= |F| && InData(g, F) && WfState(g, s)
    requires IsChain(s.fat, s.head, F)
    ensures var s' := ApplyAll(s, PopWrites(g, F, n));
      && IsChain(s'.fat, F[0], F[..n])
      && IsChain(s'.fat, s'.head, F[n..])
      && Contents(s'.data, F[..n]) == Zeros(Times(n, g.B))
      && WfState(g, s')
  {
    PopEffect(g, s, F, n);
    ChainCut(s.fat, s.head, F, n);
    WipedContents(g, s.data, F[..n], F[..n]);
  }

  lemma {:induction false} WipedContents(g: Geometry, data: seq<Block>, cs: seq<nat>, all: seq<nat>)
    requires forall i :: 0 <= i < |cs| ==> cs[i] < |data| && cs[i] in all
    ensures Contents(Wipe(g, data, all), cs) == Zeros(Times(|cs|, g.B))
  {
    var d := Wipe(g, data, all);
    if cs != [] {
      WipedContents(g, data, cs[1..], all);
      assert Blocks(d, cs)[1..] == Blocks(d, cs[1..]);
      assert Get(d, cs[0]) == Zeros(g.B);
      assert Zeros(g.B) + Zeros(Times(|cs| - 1, g.B)) == Zeros(Times(|cs|, g.B));
    }
  }

  /** Release, then allocation of as many clusters, gives back the same chain in the same
      order, zeroed, and restores the free list and the whole FAT. */
  lemma FreeThenPop(g: Geometry, s: State, C: seq<nat>, F: seq<nat>)
    requires WfState(g, s) && InData(g, C) && InData(g, F)
    requires C != [] && IsChain(s.fat, C[0], C) && IsChain(s.fat, s.head, F) && Disjoint(C, F)
    ensures var s1 := ApplyAll(s, FreeWrites(C, s.head));
      var s2 := ApplyAll(s1, PopWrites(g, C + F, |C|));
      && IsChain(s1.fat, s1.head, C + F)
      && s2.head == s.head && s2.fat == s.fat
      && s2.data == Wipe(g, s.data, C)
      && IsChain(s2.fat, C[0], C)
  {
    var s1 := ApplyAll(s, FreeWrites(C, s.head));
    ApplyTwo(s, Fat(C[|C| - 1], s.head), Head(C[0]));
    ChainJoin(s.fat, C, s.head, F);
    PopEffect(g, s1, C + F, |C|);
    assert (C + F)[..|C|] == C;
    assert (C + F)[|C| - 1] == C[|C| - 1];
    assert s.fat[C[|C| - 1]] == At(C, |C|) == 0;
    assert At(C + F, |C|) == At(F, 0);
  }

  /** What pop_free_clusters comes to. `Wild`: line 246 of FAT/fat.c read the word at the place of an
      entry for cluster 0, which has none, and the program stopped at the latest at line 250. */
  datatype PopResult = Popped(first: nat) | NoSpace | Wild

  /** What that read leads to. `stray` is the word found there; None: the read itself ended the program.
      The word becomes the free-list head, on the disk too, before the assertion of line 203 fails. */
  function StrayWrites(stray: Option<nat>): seq<Write> {
    if stray.None? then [] else [Head(stray.value)]
  }

  /** The byte offset that read_fat_entry computes, in 32-bit arithmetic. */
  function WrappedOffset(g: Geometry, c: nat): nat {
    (c - 1 - g.K) % U32 * 4 % U32
  }

  /** The entry of every data cluster lies in the table, and none of them is the word read for cluster 0.
      That word lies beyond the table exactly when table and metadata numbers leave room below 2^32, as
      they do with the constants of the program; otherwise it is one of the unused words at its end. */
  lemma EntryOfClusterZero(g: Geometry)
    requires g.Valid()
    ensures forall c :: g.K < c < g.N ==> WrappedOffset(g, c) == EntryOffset(g, c) < WrappedOffset(g, 0)
    ensures forall c :: g.K < c < g.N ==> WrappedOffset(g, c) + 4 <= Times(g.K, g.B)
    ensures WrappedOffset(g, 0) >= Times(g.K, g.B) <==> Times(g.K, g.B) + 4 * (g.K + 1) <= U32
    ensures g == Geometry(4096, 2560, 3) ==> WrappedOffset(g, 0) >= Times(g.K, g.B)
  {
    TimesAtLeast(g.N, g.B, 512);
    assert (0 - 1 - g.K) % U32 == U32 - 1 - g.K;
    assert (U32 - 1 - g.K) * 4 % U32 == U32 - 4 * (1 + g.K);
    TimesIsProduct(3, 4096);
  }

  // ---- Operations ----

  /** pop_free_clusters, for every length and every free list. */
  method PopFreeClusters(vol: Volume, n: nat, stray: Option<nat>, ghost F: seq<nat>) returns (r: PopResult)
    requires vol.Coherent() && 0 < n && (stray.Some? ==> stray.value < U32)
    requires InData(vol.g, F) && IsChain(vol.v.fat, vol.v.head, F)
    modifies vol, vol.fatTable
    ensures vol.Coherent()
    ensures |F| >= n ==> r == Popped(F[0]) && vol.Wrote(PopWrites(vol.g, F, n))
    ensures |F| == n - 1 ==> r == Wild && vol.Wrote(StrayWrites(stray))
    ensures |F| <= n - 2 ==> r == NoSpace && vol.Wrote([])
  {
    var first := vol.freeStart;
    var last, length := first, n - 1;
    ghost var i := 0;
    while length > 0 && last != 0
      invariant i <= |F| && i <= n - 1 && length == n - 1 - i && last == At(F, i)
      decreases length
    {
      last := vol.ReadFatEntry(last);
      length, i := length - 1, i + 1;
    }
    if length > 0 {
      return NoSpace;
    }
    if last == 0 {
      if stray.Some? {
        vol.WriteFreeStart(stray.value);
      }
      return Wild;
    }
    TakeFront(vol, last, n, F);
    return Popped(first);
  }

  /** The writes of an allocation, once its last cluster is known. */
  method TakeFront(vol: Volume, last: nat, n: nat, ghost F: seq<nat>)
    requires vol.Coherent() && 0 < n <= |F| && last == F[n - 1]
    requires InData(vol.g, F) && IsChain(vol.v.fat, vol.v.head, F)
    modifies vol, vol.fatTable
    ensures vol.Coherent() && vol.Wrote(PopWrites(vol.g, F, n))
  {
    var first, next := vol.freeStart, vol.ReadFatEntry(last);
    ghost var v0, t0 := vol.v, vol.trace;
    vol.WriteFreeStart(next);
    ApplyOne(v0, Head(next));
    vol.UpdateFatEntry(last, 0);
    ApplyOne(ApplyAll(v0, [Head(next)]), Fat(last, 0));
    Compose(v0, t0, [Head(next)], [Fat(last, 0)]);
    ghost var ws := [Head(next)] + [Fat(last, 0)];
    ChainCut(v0.fat, first, F, n);
    ZeroChain(vol, first, F[..n]);
    Compose(v0, t0, ws, ZeroWrites(vol.g, F[..n]));
  }

  /** The loop that zeroes the taken clusters. */
  method ZeroChain(vol: Volume, first: nat, ghost C: seq<nat>)
    requires vol.Coherent() && C != [] && InData(vol.g, C) && IsChain(vol.v.fat, first, C)
    modifies vol
    ensures vol.Coherent() && vol.Wrote(ZeroWrites(vol.g, C))
  {
    var cur := first;
    ghost var i := 0;
    ghost var v0, t0 := vol.v, vol.trace;
    var zeros := Zeros(vol.g.B);
    assert C[..0] == [];
    while true
      invariant i < |C| && cur == C[i] && vol.Coherent()
      invariant vol.start == old(vol.start) && vol.trace == t0 + ZeroWrites(vol.g, C[..i])
      invariant vol.v == ApplyAll(v0, ZeroWrites(vol.g, C[..i]))
      invariant vol.v.fat == v0.fat
      decreases |C| - i
    {
      vol.WriteCluster(cur, zeros);
      assert C[..i + 1][..i] == C[..i];
      Compose(v0, t0, ZeroWrites(vol.g, C[..i]), [Data(cur, zeros)]);
      ApplyOne(ApplyAll(v0, ZeroWrites(vol.g, C[..i])), Data(cur, zeros));
      i := i + 1;
      cur := vol.ReadFatEntry(cur);
      if cur == 0 {
        assert C[..i] == C;
        break;
      }
    }
  }

  /** The last cluster of a chain: the walk shared by get_last_cluster_in_chain,
      add_free_cluster and free_cluster_chain. */
  method LastCluster(vol: Volume, start: nat, ghost C: seq<nat>) returns (last: nat)
    requires vol.Coherent() && C != [] && InData(vol.g, C) && IsChain(vol.v.fat, start, C)
    ensures last == C[|C| - 1]
  {
    last := start;
    ghost var i := 0;
    var next := vol.ReadFatEntry(last);
    while next != 0
      invariant i < |C| && last == C[i] && next == At(C, i + 1)
      decreases |C| - i
    {
      last, i := next, i + 1;
      next := vol.ReadFatEntry(last);
    }
  }

  /** count_cluster_in_chain. */
  method CountClusterInChain(vol: Volume, start: nat, ghost C: seq<nat>) returns (n: nat)
    requires vol.Coherent() && InData(vol.g, C) && IsChain(vol.v.fat, start, C)
    ensures n == |C|
    decreases |C|
  {
    if start == 0 {
      return 0;
    }
    SuffixIsChain(vol.v.fat, start, C, 1);
    var m := CountClusterInChain(vol, vol.ReadFatEntry(start), C[1..]);
    return 1 + m;
  }

  /** The cluster reached after `i` steps along a chain: the walks to an offset in
      update_file, fat_read and fat_truncate. */
  method WalkChain(vol: Volume, start: nat, i: nat, ghost C: seq<nat>) returns (c: nat)
    requires vol.Coherent() && i < |C| && InData(vol.g, C) && IsChain(vol.v.fat, start, C)
    ensures c == C[i]
  {
    c := start;
    var k := i;
    ghost var j := 0;
    while k > 0
      invariant 0 <= k <= i && j == i - k && c == C[j]
    {
      c := vol.ReadFatEntry(c);
      k, j := k - 1, j + 1;
    }
  }

  /** free_cluster_chain. */
  method FreeClusterChain(vol: Volume, start: nat, ghost C: seq<nat>)
    requires vol.Coherent() && C != [] && InData(vol.g, C) && IsChain(vol.v.fat, start, C)
    modifies vol, vol.fatTable
    ensures vol.Coherent() && vol.Wrote(FreeWrites(C, old(vol.v.head)))
  {
    ghost var v0 := vol.v;
    var end := LastCluster(vol, start, C);
    var head := vol.freeStart;
    vol.UpdateFatEntry(end, head);
    vol.WriteFreeStart(start);
    Compose(v0, old(vol.trace), [Fat(end, head)], [Head(start)]);
  }

  /** The writes that move `n` clusters from the free list to the end of the chain `C`. */
  function GrowWrites(g: Geometry, C: seq<nat>, F: seq<nat>, n: nat): seq<Write>
    requires C != [] && 0 < n <= |F|
  {
    PopWrites(g, F, n) + [Fat(C[|C| - 1], F[0])]
  }

  /** add_free_cluster; its callers have checked that the free list is not empty. */
  method AddFreeCluster(vol: Volume, c: nat, ghost C: seq<nat>, ghost F: seq<nat>) returns (z: nat)
    requires vol.Coherent() && C != [] && F != [] && InData(vol.g, C) && InData(vol.g, F)
    requires IsChain(vol.v.fat, c, C) && IsChain(vol.v.fat, vol.v.head, F) && Disjoint(C, F)
    modifies vol, vol.fatTable
    ensures vol.Coherent() && z == F[0] && vol.Wrote(GrowWrites(vol.g, C, F, 1))
  {
    ghost var v0 := vol.v;
    var popped := PopFreeClusters(vol, 1, None, F);
    z := popped.first;
    PopEffect(vol.g, v0, F, 1);
    ChainFrame(v0.fat, c, C, F[0], 0);
    var last := LastCluster(vol, c, C);
    vol.UpdateFatEntry(last, z);
    Compose(v0, old(vol.trace), PopWrites(vol.g, F, 1), [Fat(last, z)]);
  }
}
