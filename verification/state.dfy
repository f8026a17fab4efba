/** The logical state of a volume and the cluster writes that change it. */
module States {
  import opened Bytes

  type Block = seq<byte>

  /** What the superblock fixes: bytes per cluster, clusters on the disk, clusters of FAT.
      Cluster 0 is the superblock, 1..K the FAT, K + 1 the root directory. */
  datatype Geometry = Geometry(B: nat, N: nat, K: nat) {
    ghost predicate Valid() {
      && 512 <= B && B % 4 == 0
      && 1 <= K && K + 3 <= N
      && 4 * (N - 1 - K) <= Times(K, B)
      && Times(N, B) <= U32
    }

    function Root(): nat {
      K + 1
    }
  }

  /** The geometry of the program: 2560 clusters of 4096 bytes, three of them FAT. */
  lemma ProgramGeometry()
    ensures Geometry(4096, 2560, 3).Valid() && Geometry(4096, 2560, 3).Root() == 4
  {
    TimesIsProduct(3, 4096);
    TimesIsProduct(2560, 4096);
  }

  /** `head` is the free-list head, `fat[c]` the successor of cluster `c` and `data[c]` its
      bytes. The slots of the metadata clusters 0..K in `fat` and `data` are not used. */
  datatype State = State(head: nat, fat: seq<nat>, data: seq<Block>)

  ghost predicate WfState(g: Geometry, s: State) {
    && |s.fat| == g.N && |s.data| == g.N
    && forall c :: g.K < c < g.N ==> |s.data[c]| == g.B
  }

  /** One write of one cluster: the superblock, a FAT cluster, or a data cluster. */
  datatype Write = Head(value: nat) | Fat(c: nat, next: nat) | Data(c: nat, block: Block)

  function Apply(s: State, w: Write): State {
    match w
    case Head(value) => s.(head := value)
    case Fat(c, next) => if c < |s.fat| then s.(fat := s.fat[c := next]) else s
    case Data(c, block) => if c < |s.data| then s.(data := s.data[c := block]) else s
  }

  function ApplyAll(s: State, ws: seq<Write>): State {
    if ws == [] then s
    else Apply(ApplyAll(s, ws[..|ws| - 1]), ws[|ws| - 1])
  }

  lemma ApplyOne(s: State, w: Write)
    ensures ApplyAll(s, [w]) == Apply(s, w)
  {
    assert [w][..0] == [];
    assert ApplyAll(s, []) == s;
  }

  lemma ApplySnoc(s: State, ws: seq<Write>, w: Write)
    ensures ApplyAll(s, ws + [w]) == Apply(ApplyAll(s, ws), w)
  {
    assert (ws + [w])[..|ws|] == ws;
  }

  lemma {:induction false} ApplyConcat(s: State, a: seq<Write>, b: seq<Write>)
    ensures ApplyAll(s, a + b) == ApplyAll(ApplyAll(s, a), b)
    decreases |b|
  {
    if b == [] {
      assert a + b == a;
    } else {
      var b0 := b[..|b| - 1];
      ApplyConcat(s, a, b0);
      assert (a + b)[..|a + b| - 1] == a + b0;
    }
  }

  /** Two runs of writes after a trace `t` are one run of writes after it. */
  lemma Compose(s: State, t: seq<Write>, a: seq<Write>, b: seq<Write>)
    ensures t + a + b == t + (a + b)
    ensures ApplyAll(ApplyAll(s, a), b) == ApplyAll(s, a + b)
  {
    ApplyConcat(s, a, b);
  }

  /** The block of cluster `c`; empty outside the disk. */
  function Get(data: seq<Block>, c: nat): Block {
    if c < |data| then data[c] else []
  }

  /** The blocks of a chain, in order. */
  function Blocks(data: seq<Block>, chain: seq<nat>): (r: seq<Block>)
    ensures |r| == |chain|
    ensures forall i :: 0 <= i < |chain| ==> r[i] == Get(data, chain[i])
  {
    seq(|chain|, i requires 0 <= i < |chain| => Get(data, chain[i]))
  }

  /** The bytes of a chain as one flat sequence. */
  function Contents(data: seq<Block>, chain: seq<nat>): seq<byte> {
    Flatten(Blocks(data, chain))
  }

  /** Two data areas agree on every cluster of a chain. */
  ghost predicate Agree(data: seq<Block>, data': seq<Block>, chain: seq<nat>) {
    forall i :: 0 <= i < |chain| ==> Get(data, chain[i]) == Get(data', chain[i])
  }

  lemma ContentsFrame(data: seq<Block>, data': seq<Block>, chain: seq<nat>)
    requires Agree(data, data', chain)
    ensures Blocks(data, chain) == Blocks(data', chain)
    ensures Contents(data, chain) == Contents(data', chain)
  {
    assert Blocks(data, chain) == Blocks(data', chain);
  }
}
