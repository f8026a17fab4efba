/** File contents: the write loop as a splice of the flat bytes. */
module Files {
  import opened Bytes
  import opened Chains
  import opened States
  import opened Allocator
  import opened Layouts
  import opened Trees
  import opened Steps

  ghost predicate Full(g: Geometry, data: seq<Block>, chain: seq<nat>) {
    forall i :: 0 <= i < |chain| ==> |Get(data, chain[i])| == g.B
  }

  lemma ContentsCons(data: seq<Block>, chain: seq<nat>)
    requires chain != []
    ensures Contents(data, chain) == Get(data, chain[0]) + Contents(data, chain[1..])
  {
    assert Blocks(data, chain)[1..] == Blocks(data, chain[1..]);
  }

  lemma ContentsConcat(data: seq<Block>, a: seq<nat>, b: seq<nat>)
    ensures Contents(data, a + b) == Contents(data, a) + Contents(data, b)
  {
    assert Blocks(data, a + b) == Blocks(data, a) + Blocks(data, b);
    FlattenConcat(Blocks(data, a), Blocks(data, b));
  }

  lemma ContentsLength(g: Geometry, data: seq<Block>, chain: seq<nat>)
    requires Full(g, data, chain)
    ensures |Contents(data, chain)| == Times(|chain|, g.B)
  {
    FlattenLength(Blocks(data, chain), g.B);
  }

  /** The data writes of a file write: one per cluster, each the old cluster with its part
      of the buffer spliced in. `chain` starts at the first cluster written to, `w` is the
      offset in it. */
  function FileWrites(g: Geometry, data: seq<Block>, chain: seq<nat>, w: nat, buf: seq<byte>): seq<Write>
    requires w < g.B
    decreases |chain|
  {
    if buf == [] || chain == [] || |Get(data, chain[0])| != g.B then []
    else
      var m := Min(|buf|, g.B - w);
      [Data(chain[0], Splice(Get(data, chain[0]), w, buf[..m]))]
      + FileWrites(g, data, chain[1..], 0, buf[m..])
  }

  lemma FileWritesCons(g: Geometry, data: seq<Block>, chain: seq<nat>, w: nat, buf: seq<byte>, m: nat, block: Block)
    requires w < g.B && chain != [] && buf != [] && block == Get(data, chain[0]) && |block| == g.B
    requires m == Min(|buf|, g.B - w)
    ensures FileWrites(g, data, chain, w, buf)
         == [Data(chain[0], Splice(block, w, buf[..m]))] + FileWrites(g, data, chain[1..], 0, buf[m..])
  {
  }

  lemma {:induction false} FileWritesFrame(g: Geometry, data: seq<Block>, data': seq<Block>,
                                           chain: seq<nat>, w: nat, buf: seq<byte>)
    requires w < g.B && Full(g, data, chain) && Full(g, data', chain) && Agree(data, data', chain)
    ensures FileWrites(g, data, chain, w, buf) == FileWrites(g, data', chain, w, buf)
    decreases |chain|
  {
    if buf != [] && chain != [] {
      var m, block := Min(|buf|, g.B - w), Get(data, chain[0]);
      assert Get(data', chain[0]) == block && |block| == g.B;
      FileWritesFrame(g, data, data', chain[1..], 0, buf[m..]);
      FileWritesCons(g, data, chain, w, buf, m, block);
      FileWritesCons(g, data', chain, w, buf, m, block);
    }
  }

  /** The first write, then the rest from the state it leaves. */
  lemma FileWritesUnfold(g: Geometry, s: State, chain: seq<nat>, w: nat, buf: seq<byte>)
    requires w < g.B && Full(g, s.data, chain) && Distinct(chain)
    requires chain != [] && chain[0] < |s.data| && buf != []
    ensures var m := Min(|buf|, g.B - w);
      var first := Data(chain[0], Splice(Get(s.data, chain[0]), w, buf[..m]));
      var s1 := Apply(s, first);
      && Full(g, s1.data, chain)
      && FileWrites(g, s.data, chain, w, buf)
         == [first] + FileWrites(g, s1.data, chain[1..], 0, buf[m..])
      && ApplyAll(s, FileWrites(g, s.data, chain, w, buf))
         == ApplyAll(s1, FileWrites(g, s1.data, chain[1..], 0, buf[m..]))
  {
    var m := Min(|buf|, g.B - w);
    var first := Data(chain[0], Splice(Get(s.data, chain[0]), w, buf[..m]));
    var s1 := Apply(s, first);
    FileWritesFrame(g, s.data, s1.data, chain[1..], 0, buf[m..]);
    ApplyOne(s, first);
    ApplyConcat(s, [first], FileWrites(g, s1.data, chain[1..], 0, buf[m..]));
  }

  /** The two states differ in the data of the clusters `cs` alone. */
  ghost predicate SameBut(s: State, s': State, cs: seq<nat>) {
    && s'.head == s.head && s'.fat == s.fat && |s'.data| == |s.data|
    && forall c :: 0 <= c < |s.data| && c !in cs ==> s'.data[c] == s.data[c]
  }

  /** Writing a buffer cluster by cluster is one splice of the flat contents. */
  lemma {:induction false} WritesAreSplice(g: Geometry, s: State, chain: seq<nat>, w: nat, buf: seq<byte>)
    requires WfState(g, s) && InData(g, chain) && Distinct(chain) && Full(g, s.data, chain)
    requires w < g.B && (buf == [] || w + |buf| <= |Contents(s.data, chain)|)
    ensures var s' := ApplyAll(s, FileWrites(g, s.data, chain, w, buf));
      && WfState(g, s') && SameBut(s, s', chain)
      && (buf == [] ==> s' == s)
      && (buf != [] ==> Contents(s'.data, chain) == Splice(Contents(s.data, chain), w, buf))
    decreases |chain|
  {
    if buf != [] {
      var m, rest := Min(|buf|, g.B - w), chain[1..];
      var s1 := Apply(s, Data(chain[0], Splice(Get(s.data, chain[0]), w, buf[..m])));
      FileWritesUnfold(g, s, chain, w, buf);
      RestIsReady(g, s, s1, chain, w, buf, m);
      WritesAreSplice(g, s1, rest, 0, buf[m..]);
      OneClusterSpliced(s.data, ApplyAll(s1, FileWrites(g, s1.data, rest, 0, buf[m..])).data, chain, w, buf, m);
    }
  }

  /** After the write of its first cluster the rest of the chain is as it was. */
  lemma RestIsReady(g: Geometry, s: State, s1: State, chain: seq<nat>, w: nat, buf: seq<byte>, m: nat)
    requires WfState(g, s) && InData(g, chain) && Distinct(chain) && Full(g, s.data, chain) && chain != []
    requires w < g.B && m == Min(|buf|, g.B - w) && w + |buf| <= |Contents(s.data, chain)|
    requires s1 == Apply(s, Data(chain[0], Splice(Get(s.data, chain[0]), w, buf[..m])))
    ensures WfState(g, s1) && InData(g, chain[1..]) && Distinct(chain[1..]) && Full(g, s1.data, chain[1..])
    ensures Contents(s1.data, chain[1..]) == Contents(s.data, chain[1..])
    ensures w + |buf| <= g.B + |Contents(s.data, chain[1..])|
  {
    ContentsCons(s.data, chain);
    ContentsFrame(s.data, s1.data, chain[1..]);
  }

  /** The first cluster spliced, and the rest. */
  lemma OneClusterSpliced(data: seq<Block>, data': seq<Block>, chain: seq<nat>, w: nat, buf: seq<byte>, m: nat)
    requires chain != [] && w < |Get(data, chain[0])| && m == Min(|buf|, |Get(data, chain[0])| - w)
    requires w + |buf| <= |Get(data, chain[0])| + |Contents(data, chain[1..])|
    requires Get(data', chain[0]) == Splice(Get(data, chain[0]), w, buf[..m])
    requires Contents(data', chain[1..])
          == if buf[m..] == [] then Contents(data, chain[1..]) else Splice(Contents(data, chain[1..]), 0, buf[m..])
    ensures |Contents(data, chain)| == |Get(data, chain[0])| + |Contents(data, chain[1..])|
    ensures Contents(data', chain) == Splice(Contents(data, chain), w, buf)
  {
    ContentsCons(data, chain);
    ContentsCons(data', chain);
    SpliceStep(Get(data, chain[0]), Contents(data, chain[1..]), w, buf, m);
  }

  lemma SpliceStep(b: seq<byte>, rest: seq<byte>, w: nat, buf: seq<byte>, m: nat)
    requires w < |b| && m == Min(|buf|, |b| - w) && w + |buf| <= |b| + |rest|
    ensures Splice(b, w, buf[..m]) + (if buf[m..] == [] then rest else Splice(rest, 0, buf[m..]))
         == Splice(b + rest, w, buf)
  {
    if m == |buf| {
      assert buf[..m] == buf && buf[m..] == [];
      SpliceLeft(b, rest, w, buf);
    } else {
      assert buf == buf[..m] + buf[m..];
      SpliceAcross(b, rest, w, buf[..m], buf[m..]);
    }
  }

  lemma SpliceLeft(b: seq<byte>, rest: seq<byte>, w: nat, part: seq<byte>)
    requires w + |part| <= |b|
    ensures Splice(b, w, part) + rest == Splice(b + rest, w, part)
  {
  }

  /** A splice that covers the end of `b` and the start of `rest`. */
  lemma SpliceAcross(b: seq<byte>, rest: seq<byte>, w: nat, p: seq<byte>, q: seq<byte>)
    requires w + |p| == |b| && |q| <= |rest|
    ensures Splice(b, w, p) + Splice(rest, 0, q) == Splice(b + rest, w, p + q)
  {
    assert Splice(b, w, p) == b[..w] + p;
    assert Splice(b + rest, w, p + q) == b[..w] + (p + q) + rest[|q|..];
  }

  /** The same, for the part of a chain that starts `q` clusters in. */
  lemma WritesAreSpliceAt(g: Geometry, s: State, chain: seq<nat>, q: nat, w: nat, off: nat, buf: seq<byte>)
    requires WfState(g, s) && InData(g, chain) && Distinct(chain) && Full(g, s.data, chain)
    requires q < |chain| && w < g.B && buf != []
    requires off == Times(q, g.B) + w && End(off, buf) <= Times(|chain|, g.B)
    ensures |Contents(s.data, chain)| == Times(|chain|, g.B)
    ensures var s' := ApplyAll(s, FileWrites(g, s.data, Drop(chain, q), w, buf));
      && WfState(g, s') && SameBut(s, s', chain)
      && Contents(s'.data, chain) == Splice(Contents(s.data, chain), off, buf)
  {
    SplitContents(g, s.data, chain, q);
    SuffixIsReady(g, s.data, chain, q);
    WritesAreSplice(g, s, chain[q..], w, buf);
    var s' := ApplyAll(s, FileWrites(g, s.data, chain[q..], w, buf));
    UntouchedPrefix(s, s', chain, q);
    SplicedSuffix(s, s', chain, q, w, off, buf);
  }

  lemma SuffixIsReady(g: Geometry, data: seq<Block>, chain: seq<nat>, q: nat)
    requires InData(g, chain) && Distinct(chain) && Full(g, data, chain) && q <= |chain|
    ensures InData(g, chain[q..]) && Distinct(chain[q..]) && Full(g, data, chain[q..])
  {
  }

  lemma SplitContents(g: Geometry, data: seq<Block>, chain: seq<nat>, q: nat)
    requires Full(g, data, chain) && q <= |chain|
    ensures chain == chain[..q] + chain[q..]
    ensures |Contents(data, chain)| == Times(|chain|, g.B) && |Contents(data, chain[..q])| == Times(q, g.B)
    ensures |Contents(data, chain)| == |Contents(data, chain[..q])| + |Contents(data, chain[q..])|
  {
    assert chain == chain[..q] + chain[q..];
    ContentsLength(g, data, chain);
    ContentsLength(g, data, chain[..q]);
    ContentsConcat(data, chain[..q], chain[q..]);
  }

  lemma SplicedSuffix(s: State, s': State, chain: seq<nat>, q: nat, w: nat, off: nat, buf: seq<byte>)
    requires q <= |chain| && off == |Contents(s.data, chain[..q])| + w
    requires Contents(s'.data, chain[..q]) == Contents(s.data, chain[..q])
    requires w + |buf| <= |Contents(s.data, chain[q..])|
    requires Contents(s'.data, chain[q..]) == Splice(Contents(s.data, chain[q..]), w, buf)
    ensures |Contents(s.data, chain)| == |Contents(s.data, chain[..q])| + |Contents(s.data, chain[q..])|
    ensures Contents(s'.data, chain) == Splice(Contents(s.data, chain), off, buf)
  {
    assert chain == chain[..q] + chain[q..];
    ContentsConcat(s.data, chain[..q], chain[q..]);
    ContentsConcat(s'.data, chain[..q], chain[q..]);
    SpliceRight(Contents(s.data, chain[..q]), Contents(s.data, chain[q..]), w, buf);
  }

  lemma UntouchedPrefix(s: State, s': State, chain: seq<nat>, q: nat)
    requires Distinct(chain) && q <= |chain| && SameBut(s, s', chain[q..])
    ensures Contents(s'.data, chain[..q]) == Contents(s.data, chain[..q])
    ensures SameBut(s, s', chain)
  {
    forall i | 0 <= i < q
      ensures chain[i] !in chain[q..]
    {
    }
    ContentsFrame(s.data, s'.data, chain[..q]);
  }

  lemma SpliceRight(a: seq<byte>, b: seq<byte>, w: nat, part: seq<byte>)
    requires w + |part| <= |b|
    ensures Splice(a + b, |a| + w, part) == a + Splice(b, w, part)
  {
  }

  /** The data writes of a file keep the invariant one by one. */
  lemma {:induction false} FileRuns(g: Geometry, s: State, L: Layout, f: nat, chain: seq<nat>, w: nat, buf: seq<byte>)
    requires Inv(g, s, L) && f in L.nodes && !L.nodes[f].isDir
    requires Owned(g, L, chain, f) && Distinct(chain) && Full(g, s.data, chain) && w < g.B
    ensures Runs(g, s, L, FileWrites(g, s.data, chain, w, buf), L)
    decreases |chain|
  {
    if buf == [] || chain == [] {
      NoRun(g, s, L);
    } else {
      FileWritesUnfold(g, s, chain, w, buf);
      var m := Min(|buf|, g.B - w);
      var first := Data(chain[0], Splice(Get(s.data, chain[0]), w, buf[..m]));
      var s1 := Apply(s, first);
      assert L.owner[chain[0]] == f;
      DataKeepsInv(g, s, L, chain[0], first.block);
      OneRun(g, s, L, first, L);
      ApplyOne(s, first);
      FileRuns(g, s1, L, f, chain[1..], 0, buf[m..]);
      RunsConcat(g, s, L, [first], L, FileWrites(g, s1.data, chain[1..], 0, buf[m..]), L);
    }
  }
}
