/** Runs of cluster writes that keep the invariant after every single write. */
module Steps {
  import opened Bytes
  import opened Chains
  import opened States
  import opened Entries
  import opened Allocator
  import opened Layouts
  import opened Trees

  /** What an interruption may cost: nothing but free clusters turned into orphans. Every
      object stays where it is and keeps at least the clusters it had. */
  ghost predicate Survives(L: Layout, L': Layout) {
    && L'.nodes.Keys >= L.nodes.Keys
    && (forall id :: id in L.nodes ==>
        && L'.nodes[id].(chain := L.nodes[id].chain) == L.nodes[id]
        && L.nodes[id].chain <= L'.nodes[id].chain)
    && (forall c :: c in L'.free ==> c in L.free)
  }

  /** Some layout makes the state consistent, and it lost nothing that `L` had. */
  ghost predicate Recoverable(g: Geometry, s: State, L: Layout) {
    exists L' :: Inv(g, s, L') && Survives(L, L')
  }

  /** So is the state in which the first `k` of the writes `ws` have reached the disk. */
  ghost predicate SafeAt(g: Geometry, s: State, L: Layout, ws: seq<Write>, k: nat)
    requires k <= |ws|
  {
    Recoverable(g, ApplyAll(s, ws[..k]), L)
  }

  ghost predicate CrashSafe(g: Geometry, s: State, L: Layout, ws: seq<Write>) {
    forall k {:trigger SafeAt(g, s, L, ws, k)} :: 0 <= k <= |ws| ==> SafeAt(g, s, L, ws, k)
  }

  /** The writes `ws` are crash safe and lead from layout `L` to layout `L'`. */
  ghost predicate Runs(g: Geometry, s: State, L: Layout, ws: seq<Write>, L': Layout) {
    && Inv(g, s, L) && CrashSafe(g, s, L, ws)
    && Inv(g, ApplyAll(s, ws), L') && Survives(L, L')
  }

  lemma NoRun(g: Geometry, s: State, L: Layout)
    requires Inv(g, s, L)
    ensures Runs(g, s, L, [], L)
  {
    var ws: seq<Write> := [];
    forall k | 0 <= k <= |ws|
      ensures SafeAt(g, s, L, ws, k)
    {
      assert ws[..k] == [];
      assert Survives(L, L);
    }
  }

  lemma OneRun(g: Geometry, s: State, L: Layout, w: Write, L': Layout)
    requires Inv(g, s, L) && Inv(g, Apply(s, w), L') && Survives(L, L')
    ensures Runs(g, s, L, [w], L')
  {
    ApplyOne(s, w);
    forall k | 0 <= k <= 1
      ensures SafeAt(g, s, L, [w], k)
    {
      if k == 0 {
        assert [w][..k] == [];
        assert Survives(L, L);
      } else {
        assert [w][..k] == [w];
      }
    }
  }

  lemma SurvivesTransitive(L: Layout, L1: Layout, L2: Layout)
    requires Survives(L, L1) && Survives(L1, L2)
    ensures Survives(L, L2)
  {
  }

  lemma RecoverableFrom(g: Geometry, s: State, L: Layout, L1: Layout)
    requires Survives(L, L1) && Recoverable(g, s, L1)
    ensures Recoverable(g, s, L)
  {
    var L' :| Inv(g, s, L') && Survives(L1, L');
    SurvivesTransitive(L, L1, L');
  }

  lemma RunsConcat(g: Geometry, s: State, L: Layout, a: seq<Write>, L1: Layout, b: seq<Write>, L2: Layout)
    requires Runs(g, s, L, a, L1) && Runs(g, ApplyAll(s, a), L1, b, L2)
    ensures Runs(g, s, L, a + b, L2)
  {
    ApplyConcat(s, a, b);
    SurvivesTransitive(L, L1, L2);
    forall k | 0 <= k <= |a + b|
      ensures SafeAt(g, s, L, a + b, k)
    {
      if k <= |a| {
        assert (a + b)[..k] == a[..k];
        assert SafeAt(g, s, L, a, k);
      } else {
        var b' := b[..k - |a|];
        assert (a + b)[..k] == a + b';
        ApplyConcat(s, a, b');
        assert SafeAt(g, ApplyAll(s, a), L1, b, k - |a|);
        RecoverableFrom(g, ApplyAll(s, a + b'), L, L1);
      }
    }
  }

  // ---- Allocation ----

  lemma {:induction false} ZeroRuns(g: Geometry, s: State, L: Layout, cs: seq<nat>)
    requires Inv(g, s, L) && Owned(g, L, cs, ORPHAN)
    ensures Runs(g, s, L, ZeroWrites(g, cs), L)
  {
    if cs == [] {
      NoRun(g, s, L);
    } else {
      var c := cs[|cs| - 1];
      ZeroRuns(g, s, L, cs[..|cs| - 1]);
      var s1 := ApplyAll(s, ZeroWrites(g, cs[..|cs| - 1]));
      NodesOwnThemselves(g, s1, L);
      DataKeepsInv(g, s1, L, c, Zeros(g.B));
      OneRun(g, s1, L, Data(c, Zeros(g.B)), L);
      RunsConcat(g, s, L, ZeroWrites(g, cs[..|cs| - 1]), L, [Data(c, Zeros(g.B))], L);
    }
  }

  lemma TakenSurvives(L: Layout, n: nat)
    requires n <= |L.free|
    ensures Survives(L, Taken(L, n))
  {
  }

  /** Interrupted at any write, an allocation leaves the taken clusters as orphans. */
  lemma PopRuns(g: Geometry, s: State, L: Layout, n: nat)
    requires Inv(g, s, L) && 0 < n <= |L.free|
    ensures Runs(g, s, L, PopWrites(g, L.free, n), Taken(L, n))
  {
    var F, L1 := L.free, Taken(L, n);
    var w0, w1 := Head(At(F, n)), Fat(F[n - 1], 0);
    TakenSurvives(L, n);
    TakeKeepsInv(g, s, L, n);
    OneRun(g, s, L, w0, L1);
    var s1 := Apply(s, w0);
    ApplyOne(s, w0);
    assert F[n - 1] in F[..n];
    FreeOf(g, s, L);
    OrphanLinkKeepsInv(g, s1, L1, F[n - 1], 0);
    OneRun(g, s1, L1, w1, L1);
    RunsConcat(g, s, L, [w0], L1, [w1], L1);
    assert Owned(g, L1, F[..n], ORPHAN);
    ZeroRuns(g, ApplyAll(s, [w0] + [w1]), L1, F[..n]);
    RunsConcat(g, s, L, [w0] + [w1], L1, ZeroWrites(g, F[..n]), L1);
  }

  /** The layout after `n` free clusters were moved to the end of `id`. */
  function Grown(L: Layout, id: nat, n: nat): Layout
    requires id in L.nodes && n <= |L.free|
  {
    Attached(Taken(L, n), id, L.free[..n])
  }

  /** Wiped clusters hold no live slot. */
  lemma {:induction false} WipedSlots(g: Geometry, data: seq<Block>, cs: seq<nat>)
    requires forall i :: 0 <= i < |cs| ==> Get(data, cs[i]) == Zeros(g.B)
    ensures forall j :: 0 <= j < |DirSlots(data, cs)| ==> !Live(DirSlots(data, cs)[j])
  {
    if cs != [] {
      forall j | 0 <= j < g.B / ENTRY_SIZE
        ensures !Live(Slots(Zeros(g.B))[j])
      {
        ZeroSlots(g.B, j);
      }
      WipedSlots(g, data, cs[1..]);
    }
  }

  /** The clusters just taken form a chain of zeroed orphans. */
  lemma TakenIsBlankChain(g: Geometry, s: State, L: Layout, n: nat)
    requires StructOk(g, s, L) && 0 < n <= |L.free|
    ensures var s1, o := ApplyAll(s, PopWrites(g, L.free, n)), L.free[..n];
      && IsChain(s1.fat, o[0], o) && Owned(g, Taken(L, n), o, ORPHAN) && g.Root() !in o
      && (forall i :: 0 <= i < n ==> Get(s1.data, o[i]) == Zeros(g.B))
  {
    FreeOf(g, s, L);
    PopEffect(g, s, L.free, n);
    PopSplits(g, s, L.free, n);
  }

  lemma AttachedSurvives(L: Layout, id: nat, o: seq<nat>)
    requires id in L.nodes
    ensures Survives(L, Attached(L, id, o))
  {
  }

  lemma GrowRuns(g: Geometry, s: State, L: Layout, id: nat, n: nat)
    requires Inv(g, s, L) && id in L.nodes && 0 < n <= |L.free|
    ensures L.nodes[id].chain != []
    ensures Runs(g, s, L, GrowWrites(g, L.nodes[id].chain, L.free, n), Grown(L, id, n))
  {
    PopRuns(g, s, L, n);
    var ws := PopWrites(g, L.free, n);
    var w := TakenRuns(g, s, L, id, n);
    assert GrowWrites(g, L.nodes[id].chain, L.free, n) == ws + [w];
    RunsConcat(g, s, L, ws, Taken(L, n), [w], Grown(L, id, n));
  }

  /** The step that attaches the clusters just taken. */
  lemma TakenRuns(g: Geometry, s: State, L: Layout, id: nat, n: nat) returns (w: Write)
    requires Inv(g, s, L) && id in L.nodes && 0 < n <= |L.free|
    requires Inv(g, ApplyAll(s, PopWrites(g, L.free, n)), Taken(L, n))
    ensures var C := L.nodes[id].chain; C != [] && w == Fat(C[|C| - 1], L.free[0])
    ensures Runs(g, ApplyAll(s, PopWrites(g, L.free, n)), Taken(L, n), [w], Grown(L, id, n))
  {
    TakenIsBlankChain(g, s, L, n);
    AttachRuns(g, ApplyAll(s, PopWrites(g, L.free, n)), Taken(L, n), id, L.free[..n]);
    var C := L.nodes[id].chain;
    w := Fat(C[|C| - 1], L.free[0]);
  }

  lemma AttachRuns(g: Geometry, s: State, L: Layout, id: nat, o: seq<nat>)
    requires Inv(g, s, L) && id in L.nodes && o != []
    requires IsChain(s.fat, o[0], o) && Owned(g, L, o, ORPHAN) && g.Root() !in o
    requires forall i :: 0 <= i < |o| ==> Get(s.data, o[i]) == Zeros(g.B)
    ensures var C := L.nodes[id].chain;
      C != [] && Runs(g, s, L, [Fat(C[|C| - 1], o[0])], Attached(L, id, o))
  {
    WipedSlots(g, s.data, o);
    AttachKeepsInv(g, s, L, id, o);
    AttachedSurvives(L, id, o);
    var C := L.nodes[id].chain;
    OneRun(g, s, L, Fat(C[|C| - 1], o[0]), Attached(L, id, o));
  }
}
