/** Bytes, little-endian words, splices and flattened blocks: the vocabulary in which
    the volume, the files and the XDR streams are specified. */
module Bytes {

  type byte = x: int | 0 <= x < 256

  datatype Option<+T> = None | Some(value: T)

  /** Always true. Some definitions are put behind it, as `forall u :: Open(u) ==> ...`, so that
      the verifier looks inside only in proofs that mention it. */
  ghost predicate Open(u: int) {
    true
  }

  const U32: nat := 0x1_0000_0000

  /** A 32-bit word as it lies in memory on a little-endian machine. */
  function Le32(v: nat): (b: seq<byte>)
    requires v < U32
    ensures |b| == 4
  {
    [v % 256, v / 256 % 256, v / 65536 % 256, v / 16777216]
  }

  function FromLe32(b: seq<byte>): (v: nat)
    requires |b| == 4
    ensures v < U32
  {
    b[0] as int + 256 * b[1] as int + 65536 * b[2] as int + 16777216 * b[3] as int
  }

  lemma Le32RoundTrip(v: nat)
    requires v < U32
    ensures FromLe32(Le32(v)) == v
  {
    assert v / 65536 == v / 256 / 256;
    assert v / 16777216 == v / 256 / 256 / 256;
  }

  lemma FromLe32RoundTrip(b: seq<byte>)
    requires |b| == 4
    ensures Le32(FromLe32(b)) == b
  {
    var v := FromLe32(b);
    var b0: int, b1: int, b2: int, b3: int := b[0], b[1], b[2], b[3];
    assert v == b0 + 256 * (b1 + 256 * (b2 + 256 * b3));
    assert v / 256 == b1 + 256 * (b2 + 256 * b3);
    assert v / 65536 == v / 256 / 256 == b2 + 256 * b3;
    assert v / 16777216 == v / 65536 / 256 == b3;
  }

  function Le16(v: nat): (b: seq<byte>)
    requires v < 65536
    ensures |b| == 2
  {
    [v % 256, v / 256]
  }

  function FromLe16(b: seq<byte>): (v: nat)
    requires |b| == 2
    ensures v < 65536
  {
    b[0] as int + 256 * b[1] as int
  }

  /** The product `k * n`, by repeated addition: the verifier keeps it apart from its
      non-linear arithmetic, and the lemmas below give what is needed of it. */
  function Times(k: nat, n: nat): nat {
    if k == 0 then 0 else n + Times(k - 1, n)
  }

  lemma {:induction false} TimesIsProduct(k: nat, n: nat)
    ensures Times(k, n) == k * n
  {
    if k > 0 {
      TimesIsProduct(k - 1, n);
    }
  }

  lemma {:induction false} TimesPlus(j: nat, k: nat, n: nat)
    ensures Times(j + k, n) == Times(j, n) + Times(k, n)
  {
    if j > 0 {
      TimesPlus(j - 1, k, n);
    }
  }

  lemma TimesMono(j: nat, k: nat, n: nat)
    requires j <= k
    ensures Times(j, n) <= Times(k, n)
    ensures j < k ==> Times(j, n) + n <= Times(k, n)
  {
    TimesPlus(j, k - j, n);
  }

  lemma {:induction false} TimesTwice(k: nat, n: nat)
    requires 2 <= n
    ensures 2 * k <= Times(k, n)
  {
    if k > 0 {
      TimesTwice(k - 1, n);
    }
  }

  lemma {:induction false} TimesAtLeast(k: nat, n: nat, m: nat)
    requires m <= n
    ensures m * k <= Times(k, n)
  {
    if k > 0 {
      TimesAtLeast(k - 1, n, m);
      assert m * k == m * (k - 1) + m;
    }
  }

  /** An offset lies in one block only. */
  lemma TimesUnique(j: nat, k: nat, n: nat, a: nat)
    requires Times(j, n) <= a < Times(j, n) + n && Times(k, n) <= a < Times(k, n) + n
    ensures j == k
  {
    if j < k {
      TimesMono(j, k, n);
    } else if k < j {
      TimesMono(k, j, n);
    }
  }

  lemma DivTimes(a: nat, n: nat)
    requires 0 < n
    ensures 0 <= a / n && 0 <= a % n < n
    ensures a == Times(a / n, n) + a % n
  {
    TimesIsProduct(a / n, n);
  }

  /** The block an offset lies in, the start of that block, and the offset within it. */
  method Locate(a: nat, n: nat) returns (k: nat, lo: nat, within: nat)
    requires 0 < n
    ensures lo == Times(k, n) && within < n && a == lo + within
  {
    k, within := a / n, a % n;
    lo := k * n;
    DivTimes(a, n);
    TimesIsProduct(k, n);
  }

  function Min(a: nat, b: nat): nat {
    if a < b then a else b
  }

  function Max(a: nat, b: nat): nat {
    if a < b then b else a
  }

  function Drop<T>(s: seq<T>, n: nat): seq<T> {
    if n <= |s| then s[n..] else []
  }

  function Zeros(n: nat): (z: seq<byte>)
    ensures |z| == n && forall i :: 0 <= i < n ==> z[i] == 0
  {
    seq(n, i => 0)
  }

  /** The zeros that lengthen `was` bytes to `size`. */
  function Fill(was: nat, size: nat): (z: seq<byte>)
    ensures |z| == (if was <= size then size - was else 0) && forall i :: 0 <= i < |z| ==> z[i] == 0
  {
    if was <= size then Zeros(size - was) else []
  }

  /** Where a write of `buf` at `off` ends. */
  function End(off: nat, buf: seq<byte>): nat {
    off + |buf|
  }

  /** `b` with the bytes from `off` on overwritten by `part`. */
  function Splice<T>(b: seq<T>, off: nat, part: seq<T>): (r: seq<T>)
    requires off + |part| <= |b|
    ensures |r| == |b|
    ensures forall i :: 0 <= i < |b| ==>
      r[i] == if off <= i < off + |part| then part[i - off] else b[i]
  {
    b[..off] + part + b[off + |part|..]
  }

  lemma Assoc<T>(a: seq<T>, b: seq<T>, c: seq<T>)
    ensures a + b + c == a + (b + c)
  {
  }

  /** A splice inside the middle part of a concatenation. */
  lemma SpliceMiddle<T>(s: seq<T>, a: seq<T>, x: seq<T>, c: seq<T>, k: nat, w: nat, part: seq<T>, r: seq<T>)
    requires w + |part| <= |x| && k == |a| && s == a + x + c && r == a + Splice(x, w, part) + c
    ensures k + |x| <= |s| && r == Splice(s, k + w, part)
  {
  }

  function Flatten<T>(bs: seq<seq<T>>): seq<T> {
    if bs == [] then [] else bs[0] + Flatten(bs[1..])
  }

  predicate Uniform<T>(bs: seq<seq<T>>, n: nat) {
    forall i :: 0 <= i < |bs| ==> |bs[i]| == n
  }

  lemma {:induction false} FlattenLength<T>(bs: seq<seq<T>>, n: nat)
    requires Uniform(bs, n)
    ensures |Flatten(bs)| == Times(|bs|, n)
  {
    if bs != [] {
      FlattenLength(bs[1..], n);
    }
  }

  lemma {:induction false} FlattenConcat<T>(a: seq<seq<T>>, b: seq<seq<T>>)
    ensures Flatten(a + b) == Flatten(a) + Flatten(b)
  {
    if a == [] {
      assert a + b == b;
    } else {
      assert (a + b)[0] == a[0] && (a + b)[1..] == a[1..] + b;
      FlattenConcat(a[1..], b);
      assert a[0] + (Flatten(a[1..]) + Flatten(b)) == a[0] + Flatten(a[1..]) + Flatten(b);
    }
  }

  /** The flat sequence cut at block `i`. */
  lemma FlattenCut<T>(bs: seq<seq<T>>, i: nat)
    requires i < |bs|
    ensures Flatten(bs) == Flatten(bs[..i]) + bs[i] + Flatten(bs[i + 1..])
  {
    assert bs == bs[..i] + bs[i..];
    FlattenConcat(bs[..i], bs[i..]);
  }

  /** Block `i` of uniform blocks of size `n` lies at `Times(i, n)`. */
  lemma FlattenAt<T>(bs: seq<seq<T>>, n: nat, i: nat)
    requires Uniform(bs, n) && i < |bs|
    ensures Times(i, n) + n <= |Flatten(bs)| == Times(|bs|, n)
    ensures Flatten(bs)[Times(i, n)..Times(i, n) + n] == bs[i]
  {
    FlattenCut(bs, i);
    FlattenLength(bs[..i], n);
    FlattenLength(bs, n);
  }

  lemma FlattenReplace<T>(bs: seq<seq<T>>, i: nat, b: seq<T>)
    requires i < |bs|
    ensures Flatten(bs[i := b]) == Flatten(bs[..i]) + b + Flatten(bs[i + 1..])
  {
    var bs' := bs[i := b];
    assert bs'[..i] == bs[..i] && bs'[i + 1..] == bs[i + 1..];
    FlattenCut(bs', i);
  }

  /** What stands before and behind block `i`, whatever it holds. */
  lemma FlattenAround<T>(bs: seq<seq<T>>, n: nat, i: nat, b: seq<T>) returns (pre: seq<T>, post: seq<T>)
    requires Uniform(bs, n) && i < |bs|
    ensures |pre| == Times(i, n)
    ensures Flatten(bs) == pre + bs[i] + post && Flatten(bs[i := b]) == pre + b + post
  {
    pre, post := Flatten(bs[..i]), Flatten(bs[i + 1..]);
    FlattenLength(bs[..i], n);
    FlattenCut(bs, i);
    FlattenReplace(bs, i, b);
  }

  /** Splicing one block splices the flat sequence. */
  lemma FlattenSplice<T>(bs: seq<seq<T>>, n: nat, i: nat, w: nat, part: seq<T>)
    requires Uniform(bs, n) && i < |bs| && w + |part| <= n
    ensures Times(i, n) + n <= |Flatten(bs)| && w + |part| <= |bs[i]|
    ensures Flatten(bs[i := Splice(bs[i], w, part)]) == Splice(Flatten(bs), Times(i, n) + w, part)
  {
    var x := bs[i];
    var b := Splice(x, w, part);
    var pre, post := FlattenAround(bs, n, i, b);
    SpliceMiddle(Flatten(bs), pre, x, post, Times(i, n), w, part, Flatten(bs[i := b]));
  }
}
