/** fat_read: what it returns, and for which offsets that is what the file holds. */
module Reading {
  import opened Bytes
  import opened Chains
  import opened States
  import opened Volumes
  import opened Allocator
  import opened Files
  import opened FileData

  /** The bytes fat_read collects for `n` bytes at offset `w` of cluster `q`. It reads the first
      cluster from its start (line 881), although it counts `w` bytes of it as passed over. */
  function ReadBytes(bytes: seq<byte>, B: nat, q: nat, w: nat, n: nat): seq<byte>
    requires w < B && Times(q, B) + w + n <= |bytes|
  {
    var m, lo := Min(n, B - w), Times(q, B);
    if m < n then bytes[lo..lo + m] + bytes[lo + B..lo + w + n] else bytes[lo..lo + m]
  }

  /** At a cluster boundary this is the range asked for. */
  lemma AlignedReadIsExact(bytes: seq<byte>, B: nat, q: nat, n: nat)
    requires 0 < B && Times(q, B) + n <= |bytes|
    ensures ReadBytes(bytes, B, q, 0, n) == bytes[Times(q, B)..Times(q, B) + n]
  {
  }

  /** Byte by byte: up to the end of the first cluster the bytes come `w` too early, then from the right place. */
  lemma ReadBytesAt(bytes: seq<byte>, B: nat, q: nat, w: nat, n: nat)
    requires w < B && Times(q, B) + w + n <= |bytes|
    ensures var r, off := ReadBytes(bytes, B, q, w, n), Times(q, B) + w;
      |r| == n && forall i :: 0 <= i < n ==> r[i] == bytes[off + i - (if i < B - w then w else 0)]
  {
    var r, lo := ReadBytes(bytes, B, q, w, n), Times(q, B);
    if n <= B - w {
      ReadWithin(bytes, lo, B, w, n, r);
    } else {
      ReadAcross(bytes, lo, B, w, n, r);
    }
  }

  lemma ReadWithin(bytes: seq<byte>, lo: nat, B: nat, w: nat, n: nat, r: seq<byte>)
    requires w < B && n <= B - w && lo + w + n <= |bytes| && r == bytes[lo..lo + n]
    ensures |r| == n && forall i :: 0 <= i < n ==> r[i] == bytes[lo + w + i - (if i < B - w then w else 0)]
  {
  }

  lemma ReadAcross(bytes: seq<byte>, lo: nat, B: nat, w: nat, n: nat, r: seq<byte>)
    requires w < B && B - w < n && lo + w + n <= |bytes|
    requires r == bytes[lo..lo + (B - w)] + bytes[lo + B..lo + w + n]
    ensures |r| == n && forall i :: 0 <= i < n ==> r[i] == bytes[lo + w + i - (if i < B - w then w else 0)]
  {
    var a, c := bytes[lo..lo + (B - w)], bytes[lo + B..lo + w + n];
    forall i | 0 <= i < n
      ensures r[i] == bytes[lo + w + i - (if i < B - w then w else 0)]
    {
      if i < B - w {
        assert r[i] == a[i];
      } else {
        assert r[i] == c[i - (B - w)];
      }
    }
  }

  /** Off a boundary it is so for some contents only: a read of at least one byte returns the
      range asked for, whatever the file holds, exactly when the offset is a multiple of the
      cluster size. */
  lemma ReadIsExactWhenAligned(B: nat, q: nat, w: nat, n: nat, len: nat)
    requires w < B && 0 < n && Times(q, B) + w + n <= len
    ensures (forall bytes: seq<byte> :: |bytes| == len ==>
               ReadBytes(bytes, B, q, w, n) == bytes[Times(q, B) + w..Times(q, B) + w + n])
            <==> w == 0
  {
    var lo := Times(q, B);
    if w == 0 {
      forall bytes: seq<byte> | |bytes| == len
        ensures ReadBytes(bytes, B, q, w, n) == bytes[lo + w..lo + w + n]
      {
        AlignedReadIsExact(bytes, B, q, n);
      }
    } else {
      var bytes := UnalignedReadDiffers(B, q, w, n, len);
      assert |bytes| == len;
    }
  }

  /** Off a boundary some contents are misread: here a 1 at the start of the cluster. */
  lemma UnalignedReadDiffers(B: nat, q: nat, w: nat, n: nat, len: nat) returns (bytes: seq<byte>)
    requires 0 < w < B && 0 < n && Times(q, B) + w + n <= len
    ensures |bytes| == len && ReadBytes(bytes, B, q, w, n) != bytes[Times(q, B) + w..Times(q, B) + w + n]
  {
    var lo := Times(q, B);
    bytes := Zeros(len)[lo := 1];
    assert ReadBytes(bytes, B, q, w, n)[0] == 1;
    assert bytes[lo + w..lo + w + n][0] == 0;
  }

  /** `bytes` is made of the clusters of `C`, in order. */
  ghost predicate MadeOf(g: Geometry, data: seq<Block>, C: seq<nat>, bytes: seq<byte>) {
    && |bytes| == Times(|C|, g.B)
    && forall i {:trigger C[i]} :: 0 <= i < |C| ==> BlockAt(bytes, g.B, i, Get(data, C[i]))
  }

  /** Block `i` of `bytes`. */
  ghost predicate BlockAt(bytes: seq<byte>, B: nat, i: nat, block: Block) {
    Times(i, B) + B <= |bytes| && block == bytes[Times(i, B)..Times(i, B) + B]
  }

  lemma BlockOfContents(g: Geometry, data: seq<Block>, C: seq<nat>, i: nat)
    requires Full(g, data, C) && i < |C|
    ensures BlockAt(Contents(data, C), g.B, i, Get(data, C[i]))
  {
    FlattenAt(Blocks(data, C), g.B, i);
  }

  lemma ContentsAreMade(g: Geometry, data: seq<Block>, C: seq<nat>)
    requires Full(g, data, C)
    ensures MadeOf(g, data, C, Contents(data, C))
  {
    ContentsLength(g, data, C);
    forall i | 0 <= i < |C|
      ensures BlockAt(Contents(data, C), g.B, i, Get(data, C[i]))
    {
      BlockOfContents(g, data, C, i);
    }
  }

  ghost predicate Readable(vol: Volume, C: seq<nat>, bytes: seq<byte>)
    reads vol, vol.fatTable
  {
    && vol.Coherent() && InData(vol.g, C) && C != [] && IsChain(vol.v.fat, C[0], C)
    && MadeOf(vol.g, vol.v.data, C, bytes)
  }

  /** The first `m` bytes of cluster `i`, and the cluster after it. */
  method ReadOne(vol: Volume, c: nat, m: nat, ghost i: nat, ghost C: seq<nat>, ghost bytes: seq<byte>)
    returns (part: seq<byte>, next: nat)
    requires Readable(vol, C, bytes) && i < |C| && c == C[i] && m <= vol.g.B
    ensures Times(i, vol.g.B) + vol.g.B <= |bytes|
    ensures part == bytes[Times(i, vol.g.B)..Times(i, vol.g.B) + m] && next == At(C, i + 1)
  {
    part := vol.ReadCluster(c)[..m];
    next := vol.ReadFatEntry(c);
    var lo := Times(i, vol.g.B);
    assert bytes[lo..lo + vol.g.B][..m] == bytes[lo..lo + m];
  }

  /** A range and the range behind it are one range. */
  lemma Adjacent(bytes: seq<byte>, lo: nat, a: seq<byte>, b: seq<byte>)
    requires lo + |a| + |b| <= |bytes| && a == bytes[lo..lo + |a|] && b == bytes[lo + |a|..lo + |a| + |b|]
    ensures a + b == bytes[lo..lo + |a + b|]
  {
  }

  /** The loop of fat_read, from the second cluster on. */
  method ReadClusters(vol: Volume, next: nat, n: nat, ghost i0: nat, ghost C: seq<nat>, ghost bytes: seq<byte>)
    returns (buf: seq<byte>)
    requires Readable(vol, C, bytes) && next == At(C, i0) && Times(i0, vol.g.B) + n <= |bytes|
    ensures buf == bytes[Times(i0, vol.g.B)..Times(i0, vol.g.B) + n]
  {
    var B, cur, remaining := vol.g.B, next, n;
    ghost var i: nat, lo := i0, Times(i0, B);
    buf := [];
    while remaining > 0
      invariant |buf| + remaining == n && buf == bytes[lo..lo + |buf|]
      invariant remaining > 0 ==> lo + |buf| == Times(i, B) && cur == At(C, i)
    {
      assert i < |C| by { PositionInChain(i, |C|, B, remaining); }
      var m := Min(remaining, B);
      var part;
      part, cur := ReadOne(vol, cur, m, i, C, bytes);
      Adjacent(bytes, lo, buf, part);
      assert Times(i + 1, B) == Times(i, B) + B;
      buf, remaining, i := buf + part, remaining - m, i + 1;
    }
  }

  /** The bytes fat_read is to return: those asked for, as far as the file goes. */
  function ReadLen(size: nat, off: nat, n: nat): nat {
    if off < size then Min(size - off, n) else 0
  }

  /** The first cluster of a read, which may start at offset `w`, then the others. */
  method ReadFrom(vol: Volume, cur: nat, w: nat, len: nat, ghost C: seq<nat>, ghost bytes: seq<byte>, ghost q: nat)
    returns (buf: seq<byte>)
    requires Readable(vol, C, bytes) && q < |C| && cur == C[q]
    requires w < vol.g.B && Times(q, vol.g.B) + w + len <= |bytes|
    ensures buf == ReadBytes(bytes, vol.g.B, q, w, len)
  {
    var B := vol.g.B;
    var m := Min(len, B - w);
    var part, next := ReadOne(vol, cur, m, q, C, bytes);
    if m == len {
      return part;
    }
    FirstAndRest(bytes, B, q, w, len, m);
    var rest := ReadClusters(vol, next, len - m, q + 1, C, bytes);
    return part + rest;
  }

  /** A read that goes on behind its first cluster. */
  lemma FirstAndRest(bytes: seq<byte>, B: nat, q: nat, w: nat, n: nat, m: nat)
    requires w < B && Times(q, B) + w + n <= |bytes| && m == B - w < n
    ensures Times(q + 1, B) + (n - m) <= |bytes|
    ensures ReadBytes(bytes, B, q, w, n)
         == bytes[Times(q, B)..Times(q, B) + m] + bytes[Times(q + 1, B)..Times(q + 1, B) + (n - m)]
  {
    TimesPlus(q, 1, B);
    assert Times(1, B) == B + Times(0, B) == B;
    ReadInTwo(bytes, B, q, w, n, m, Times(q, B), Times(q + 1, B));
  }

  lemma ReadInTwo(bytes: seq<byte>, B: nat, q: nat, w: nat, n: nat, m: nat, lo: nat, hi: nat)
    requires lo == Times(q, B) && hi == lo + B && w < B && lo + w + n <= |bytes| && m == B - w < n
    ensures hi + (n - m) == lo + w + n
    ensures ReadBytes(bytes, B, q, w, n) == bytes[lo..lo + m] + bytes[hi..hi + (n - m)]
  {
    ReadBytesLong(bytes, B, q, w, n, m, lo);
    SameRange(bytes, lo + B, lo + w + n, hi, hi + (n - m));
  }

  lemma ReadBytesLong(bytes: seq<byte>, B: nat, q: nat, w: nat, n: nat, m: nat, lo: nat)
    requires lo == Times(q, B) && w < B && lo + w + n <= |bytes| && m == B - w < n
    ensures ReadBytes(bytes, B, q, w, n) == bytes[lo..lo + m] + bytes[lo + B..lo + w + n]
  {
  }

  lemma SameRange(bytes: seq<byte>, a: nat, b: nat, c: nat, d: nat)
    requires a == c && b == d && a <= b <= |bytes|
    ensures bytes[a..b] == bytes[c..d]
  {
  }

  /** fat_read on a file of `size` bytes. */
  method ReadFile(vol: Volume, first: nat, size: nat, off: nat, n: nat,
                  ghost C: seq<nat>, ghost bytes: seq<byte>, ghost q: nat, ghost w: nat)
    returns (buf: seq<byte>)
    requires Readable(vol, C, bytes) && first == C[0] && size <= |bytes|
    requires w < vol.g.B && Times(q, vol.g.B) + w == off
    ensures off >= size ==> buf == []
    ensures off < size ==> buf == ReadBytes(bytes, vol.g.B, q, w, ReadLen(size, off, n))
  {
    if off >= size || n == 0 {
      return [];
    }
    var len := ReadLen(size, off, n);
    var k, lo, within := Locate(off, vol.g.B);
    assert k == q && within == w by { TimesUnique(k, q, vol.g.B, off); }
    assert k < |C| by { PositionInChain(k, |C|, vol.g.B, within + len); }
    var cur := WalkChain(vol, first, k, C);
    buf := ReadFrom(vol, cur, within, len, C, bytes, q);
  }
}
