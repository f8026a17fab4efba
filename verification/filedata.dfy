/** The data part of update_file: the clusters it writes, in order. */
module FileData {
  import opened Bytes
  import opened Chains
  import opened States
  import opened Volumes
  import opened Allocator
  import opened Files
  import opened Update

  /** A chain of the volume that holds `[off, off + n)`. */
  ghost predicate Holds(vol: Volume, first: nat, C: seq<nat>, off: nat, n: nat)
    reads vol, vol.fatTable
  {
    && vol.Coherent() && InData(vol.g, C) && IsChain(vol.v.fat, first, C)
    && off + n <= Times(|C|, vol.g.B)
  }

  /** What is left to write when the clusters up to `i` are done and `rest` remains. */
  ghost function Left(g: Geometry, data: seq<Block>, C: seq<nat>, i: nat, rest: seq<byte>): seq<Write>
    requires 0 < g.B
  {
    FileWrites(g, data, Drop(C, i), 0, rest)
  }

  /** One more cluster: its write, then what is left. */
  lemma LeftUnfolds(g: Geometry, data: seq<Block>, C: seq<nat>, i: nat, w: nat, rest: seq<byte>, m: nat)
    requires 0 < g.B && w < g.B && i < |C| && rest != [] && |Get(data, C[i])| == g.B
    requires m == Min(|rest|, g.B - w)
    ensures FileWrites(g, data, Drop(C, i), w, rest)
         == [Data(C[i], Splice(Get(data, C[i]), w, rest[..m]))] + Left(g, data, C, i + 1, rest[m..])
  {
    assert Drop(C, i)[0] == C[i] && Drop(C, i)[1..] == Drop(C, i + 1);
  }

  lemma LeftIsDone(g: Geometry, data: seq<Block>, C: seq<nat>, i: nat)
    requires 0 < g.B
    ensures Left(g, data, C, i, []) == []
  {
  }

  /** A write position inside the chain has a cluster. */
  lemma PositionInChain(i: nat, n: nat, B: nat, rest: nat)
    requires Times(i, B) + rest <= Times(n, B) && 0 < rest
    ensures i < n
  {
    if n <= i {
      TimesMono(n, i, B);
    }
  }

  /** A file write in progress: it started in state `v0` after trace `t0`, works on chain `C`
      and is to issue the writes `all`. */
  datatype Job = Job(v0: State, t0: seq<Write>, C: seq<nat>, all: seq<Write>)

  /** `ws` has been written, cluster `i` of the chain is next and gets the start of `rest`; the
      clusters from there on are as they were. */
  ghost predicate InProgress(g: Geometry, job: Job, v: State, trace: seq<Write>, i: nat, ws: seq<Write>,
      rest: seq<byte>)
    requires 0 < g.B && |v.data| == g.N && InData(g, job.C)
  {
    && WfState(g, job.v0) && Distinct(job.C)
    && trace == job.t0 + ws && v == ApplyAll(job.v0, ws)
    && v.fat == job.v0.fat
    && (forall k :: i <= k < |job.C| ==> v.data[job.C[k]] == job.v0.data[job.C[k]])
    && job.all == ws + Left(g, job.v0.data, job.C, i, rest)
  }

  ghost predicate Progress(g: Geometry, job: Job, v: State, trace: seq<Write>, i: nat, ws: seq<Write>,
      rest: seq<byte>) {
    && 0 < g.B && |v.data| == g.N && InData(g, job.C)
    && Times(i, g.B) + |rest| <= Times(|job.C|, g.B)
    && forall u {:trigger Open(u)} :: Open(u) ==> InProgress(g, job, v, trace, i, ws, rest)
  }

  lemma ProgressStep(g: Geometry, job: Job, v: State, trace: seq<Write>, i: nat, ws: seq<Write>, rest: seq<byte>,
      m: nat)
    requires Progress(g, job, v, trace, i, ws, rest) && rest != [] && m == Min(|rest|, g.B) && i < |job.C|
    requires |v.data[job.C[i]]| == g.B
    ensures var w := Data(job.C[i], Splice(v.data[job.C[i]], 0, rest[..m]));
      Progress(g, job, Apply(v, w), trace + [w], i + 1, ws + [w], rest[m..])
  {
    assert Open(0);
    var c := job.C[i];
    var w := Data(c, Splice(v.data[c], 0, rest[..m]));
    var left := Left(g, job.v0.data, job.C, i + 1, rest[m..]);
    assert Left(g, job.v0.data, job.C, i, rest) == [w] + left by {
      LeftUnfolds(g, job.v0.data, job.C, i, 0, rest, m);
    }
    Assoc(ws, [w], left);
    Assoc(job.t0, ws, [w]);
    ApplySnoc(job.v0, ws, w);
    StillFits(i, |job.C|, g.B, |rest|, m);
  }

  lemma StillFits(i: nat, n: nat, B: nat, rest: nat, m: nat)
    requires Times(i, B) + rest <= Times(n, B) && m == Min(rest, B) && i < n
    ensures Times(i + 1, B) + (rest - m) <= Times(n, B)
  {
    TimesPlus(i, 1, B);
    assert Times(1, B) == B;
    TimesMono(i, n, B);
  }

  lemma ProgressStart(g: Geometry, job: Job, v: State, q: nat, w: nat, buf: seq<byte>, m: nat)
    requires 0 < g.B && WfState(g, v) && InData(g, job.C) && Distinct(job.C) && job.v0 == v
    requires q < |job.C| && w < g.B && buf != [] && m == Min(|buf|, g.B - w)
    requires Times(q, g.B) + w + |buf| <= Times(|job.C|, g.B)
    requires job.all == FileWrites(g, v.data, Drop(job.C, q), w, buf)
    ensures var first := Data(job.C[q], Splice(v.data[job.C[q]], w, buf[..m]));
      Progress(g, job, Apply(v, first), job.t0 + [first], q + 1, [first], buf[m..])
  {
    var first := Data(job.C[q], Splice(v.data[job.C[q]], w, buf[..m]));
    LeftUnfolds(g, v.data, job.C, q, w, buf, m);
    ApplyOne(v, first);
    TimesPlus(q, 1, g.B);
    assert Times(1, g.B) == g.B;
    TimesMono(q, |job.C|, g.B);
  }

  /** The data part of update_file: the first cluster, then whole clusters written without
      reading, then the rest read, modified and written. */
  method WriteFileData(vol: Volume, first: nat, off: nat, buf: seq<byte>, ghost C: seq<nat>, ghost p: Spot)
    requires Holds(vol, first, C, off, |buf|) && buf != []
    requires p.w < vol.g.B && Times(p.q, vol.g.B) + p.w == off
    modifies vol
    ensures vol.Coherent()
    ensures vol.Wrote(FileWrites(vol.g, old(vol.v).data, Drop(C, p.q), p.w, buf))
  {
    var q, lo, w := Locate(off, vol.g.B);
    assert q == p.q && w == p.w by { TimesUnique(q, p.q, vol.g.B, off); }
    assert q < |C| by { PositionInChain(q, |C|, vol.g.B, w + |buf|); }
    var cur := WalkChain(vol, first, q, C);
    ghost var job := Job(vol.v, vol.trace, C, FileWrites(vol.g, vol.v.data, Drop(C, p.q), p.w, buf));
    assert C[0] == first;
    WriteFrom(vol, cur, w, buf, p.q, job);
  }

  /** The job is to write `buf` from byte `w` of cluster `q` of the chain on. */
  ghost predicate AtStart(vol: Volume, job: Job, cur: nat, q: nat, w: nat, buf: seq<byte>)
    reads vol, vol.fatTable
  {
    && vol.Coherent() && InData(vol.g, job.C) && job.C != [] && IsChain(vol.v.fat, job.C[0], job.C)
    && q < |job.C| && cur == job.C[q] && w < vol.g.B && buf != []
    && Times(q, vol.g.B) + w + |buf| <= Times(|job.C|, vol.g.B)
    && job == Job(vol.v, vol.trace, job.C, FileWrites(vol.g, vol.v.data, Drop(job.C, q), w, buf))
  }

  method WriteFrom(vol: Volume, cur: nat, w: nat, buf: seq<byte>, ghost q: nat, ghost job: Job)
    requires AtStart(vol, job, cur, q, w, buf)
    modifies vol
    ensures vol.Coherent() && vol.start == old(vol.start)
    ensures vol.trace == job.t0 + job.all && vol.v == ApplyAll(job.v0, job.all)
  {
    ghost var done;
    var rest;
    rest, done := WriteFirst(vol, cur, w, buf, q, job);
    WriteRest(vol, cur, rest, q + 1, job, done);
  }

  /** The first cluster; it is read first unless it is written completely. */
  method WriteFirst(vol: Volume, cur: nat, w: nat, buf: seq<byte>, ghost q: nat, ghost job: Job)
    returns (rest: seq<byte>, ghost done: seq<Write>)
    requires AtStart(vol, job, cur, q, w, buf)
    modifies vol
    ensures AtCluster(vol, job, cur, q + 1) && vol.start == old(vol.start)
    ensures Progress(vol.g, job, vol.v, vol.trace, q + 1, done, rest)
  {
    var m := Min(|buf|, vol.g.B - w);
    rest, done := buf[m..], [Data(cur, Splice(vol.v.data[cur], w, buf[..m]))];
    ChainIsAcyclic(vol.v.fat, job.C[0], job.C);
    ProgressStart(vol.g, job, vol.v, q, w, buf, m);
    ApplyOne(job.v0, Data(cur, Splice(job.v0.data[cur], w, buf[..m])));
    if m < vol.g.B {
      var block := vol.ReadCluster(cur);
      vol.WriteCluster(cur, Splice(block, w, buf[..m]));
    } else {
      assert buf[..m] == Splice(vol.v.data[cur], w, buf[..m]);
      vol.WriteCluster(cur, buf[..m]);
    }
  }

  /** One cluster after the first: the part of the buffer for it is put at its start. */
  method WriteNext(vol: Volume, c: nat, block: Block, ghost job: Job, ghost i: nat, ghost ws: seq<Write>,
                   ghost rest: seq<byte>, ghost m: nat)
    requires vol.Coherent() && Progress(vol.g, job, vol.v, vol.trace, i, ws, rest)
    requires rest != [] && m == Min(|rest|, vol.g.B) && i < |job.C| && c == job.C[i]
    requires |vol.v.data[c]| == vol.g.B && block == Splice(vol.v.data[c], 0, rest[..m])
    modifies vol
    ensures vol.Coherent() && vol.start == old(vol.start) && vol.v.fat == old(vol.v.fat)
    ensures Progress(vol.g, job, vol.v, vol.trace, i + 1, ws + [Data(c, block)], rest[m..])
  {
    ProgressStep(vol.g, job, vol.v, vol.trace, i, ws, rest, m);
    ghost var v0 := vol.v;
    vol.WriteCluster(c, block);
    ApplyOne(v0, Data(c, block));
  }

  /** Cluster `cur` of the chain was the last one written; `i` is next. */
  ghost predicate AtCluster(vol: Volume, job: Job, cur: nat, i: nat)
    reads vol, vol.fatTable
  {
    && vol.Coherent() && 0 < i <= |job.C| && cur == job.C[i - 1]
    && InData(vol.g, job.C) && IsChain(vol.v.fat, job.C[0], job.C)
  }

  /** The loop over the clusters that are written completely; `left` is what remains. */
  method WriteWhole(vol: Volume, last: nat, rest: seq<byte>, whole: nat, ghost tail: nat,
                    ghost q: nat, ghost job: Job, ghost done: seq<Write>)
    returns (cur: nat, left: seq<byte>, ghost i: nat, ghost ws: seq<Write>)
    requires AtCluster(vol, job, last, q) && Progress(vol.g, job, vol.v, vol.trace, q, done, rest)
    requires |rest| == Times(whole, vol.g.B) + tail
    modifies vol
    ensures AtCluster(vol, job, cur, i) && vol.start == old(vol.start)
    ensures |left| == tail && Progress(vol.g, job, vol.v, vol.trace, i, ws, left)
  {
    var B, n := vol.g.B, whole;
    cur, left, i, ws := last, rest, q, done;
    while n > 0
      invariant AtCluster(vol, job, cur, i) && vol.start == old(vol.start)
      invariant |left| == Times(n, B) + tail
      invariant Progress(vol.g, job, vol.v, vol.trace, i, ws, left)
    {
      ghost var block := left[..B];
      cur := WriteFull(vol, cur, left, i, job, ws);
      ws, i := ws + [Data(cur, block)], i + 1;
      left, n := left[B..], n - 1;
    }
  }

  /** One cluster written without reading it. */
  method WriteFull(vol: Volume, last: nat, left: seq<byte>, ghost i: nat, ghost job: Job, ghost ws: seq<Write>)
    returns (cur: nat)
    requires AtCluster(vol, job, last, i) && Progress(vol.g, job, vol.v, vol.trace, i, ws, left) && vol.g.B <= |left|
    modifies vol
    ensures AtCluster(vol, job, cur, i + 1) && vol.start == old(vol.start)
    ensures Progress(vol.g, job, vol.v, vol.trace, i + 1, ws + [Data(cur, left[..vol.g.B])], left[vol.g.B..])
  {
    PositionInChain(i, |job.C|, vol.g.B, |left|);
    cur := NextCluster(vol, last, i - 1, job.C);
    var block := left[..vol.g.B];
    assert block == Splice(vol.v.data[cur], 0, block);
    WriteNext(vol, cur, block, job, i, ws, left, vol.g.B);
  }

  /** The last few bytes: read, modify, write. */
  method WriteTail(vol: Volume, last: nat, rest: seq<byte>, ghost i: nat, ghost job: Job, ghost ws: seq<Write>)
    requires AtCluster(vol, job, last, i) && Progress(vol.g, job, vol.v, vol.trace, i, ws, rest)
    requires 0 < |rest| < vol.g.B
    modifies vol
    ensures vol.Coherent() && vol.start == old(vol.start)
    ensures vol.trace == job.t0 + job.all && vol.v == ApplyAll(job.v0, job.all)
  {
    PositionInChain(i, |job.C|, vol.g.B, |rest|);
    var cur := NextCluster(vol, last, i - 1, job.C);
    var block := Splice(vol.ReadCluster(cur), 0, rest);
    assert rest[..|rest|] == rest && rest[|rest|..] == [];
    WriteNext(vol, cur, block, job, i, ws, rest, |rest|);
    AllDone(vol.g, job, vol.v, vol.trace, i + 1, ws + [Data(cur, block)], []);
  }

  lemma AllDone(g: Geometry, job: Job, v: State, trace: seq<Write>, i: nat, ws: seq<Write>, rest: seq<byte>)
    requires Progress(g, job, v, trace, i, ws, rest) && |rest| == 0
    ensures trace == job.t0 + job.all && v == ApplyAll(job.v0, job.all)
  {
    assert Open(0);
    LeftIsDone(g, job.v0.data, job.C, i);
    assert ws + [] == ws;
  }

  /** The clusters after the first. */
  method WriteRest(vol: Volume, last: nat, rest: seq<byte>, ghost q: nat, ghost job: Job, ghost done: seq<Write>)
    requires AtCluster(vol, job, last, q) && Progress(vol.g, job, vol.v, vol.trace, q, done, rest)
    modifies vol
    ensures vol.Coherent() && vol.start == old(vol.start)
    ensures vol.trace == job.t0 + job.all && vol.v == ApplyAll(job.v0, job.all)
  {
    var whole, lo, tail := Locate(|rest|, vol.g.B);
    var cur, left, i, ws := WriteWhole(vol, last, rest, whole, tail, q, job, done);
    if tail > 0 {
      WriteTail(vol, cur, left, i, job, ws);
    } else {
      AllDone(vol.g, job, vol.v, vol.trace, i, ws, left);
    }
  }

  method NextCluster(vol: Volume, c: nat, ghost i: nat, ghost C: seq<nat>) returns (next: nat)
    requires vol.Coherent() && InData(vol.g, C) && C != [] && IsChain(vol.v.fat, C[0], C)
    requires i + 1 < |C| && c == C[i]
    ensures next == C[i + 1]
  {
    next := vol.ReadFatEntry(c);
  }
}
