/** Cluster chains: sequences of cluster numbers threaded through the FAT and closed
    by 0, the end-of-chain mark. */
module Chains {

  /** Entry `i` of `s`, or 0 past its end. */
  function At(s: seq<nat>, i: nat): nat {
    if i < |s| then s[i] else 0
  }

  /** `s` lists, in order, the clusters met when the FAT is followed from `start` to 0. */
  ghost predicate IsChain(fat: seq<nat>, start: nat, s: seq<nat>) {
    && start == At(s, 0)
    && (forall i :: 0 <= i < |s| ==> 0 < s[i] < |fat|)
    && (forall i {:trigger fat[s[i]]} :: 0 <= i < |s| ==> fat[s[i]] == At(s, i + 1))
  }

  ghost predicate Distinct(s: seq<nat>) {
    forall i, j :: 0 <= i < j < |s| ==> s[i] != s[j]
  }

  ghost predicate Disjoint(s: seq<nat>, t: seq<nat>) {
    forall i, j :: 0 <= i < |s| && 0 <= j < |t| ==> s[i] != t[j]
  }

  lemma SuffixIsChain(fat: seq<nat>, start: nat, s: seq<nat>, n: nat)
    requires IsChain(fat, start, s) && n <= |s|
    ensures IsChain(fat, At(s, n), s[n..])
  {
    forall i | 0 <= i < |s[n..]|
      ensures 0 < s[n..][i] < |fat| && fat[s[n..][i]] == At(s[n..], i + 1)
    {
      assert s[n..][i] == s[n + i];
      assert At(s[n..], i + 1) == At(s, n + i + 1);
    }
  }

  /** A start cluster determines its chain. */
  lemma {:induction false} ChainIsUnique(fat: seq<nat>, start: nat, s: seq<nat>, t: seq<nat>)
    requires IsChain(fat, start, s) && IsChain(fat, start, t)
    ensures s == t
    decreases |s|
  {
    if s != [] {
      SuffixIsChain(fat, start, s, 1);
      SuffixIsChain(fat, start, t, 1);
      assert fat[s[0]] == At(s, 1) && fat[t[0]] == At(t, 1);
      ChainIsUnique(fat, At(s, 1), s[1..], t[1..]);
      assert s == [s[0]] + s[1..] && t == [t[0]] + t[1..];
    }
  }

  /** A chain that ends never visits a cluster twice: following the FAT is acyclic. */
  lemma ChainIsAcyclic(fat: seq<nat>, start: nat, s: seq<nat>)
    requires IsChain(fat, start, s)
    ensures Distinct(s)
  {
    forall i, j | 0 <= i < j < |s|
      ensures s[i] != s[j]
    {
      if s[i] == s[j] {
        SuffixIsChain(fat, start, s, i);
        SuffixIsChain(fat, start, s, j);
        ChainIsUnique(fat, s[i], s[i..], s[j..]);
      }
    }
  }

  /** An update outside the chain leaves it alone. */
  lemma ChainFrame(fat: seq<nat>, start: nat, s: seq<nat>, c: nat, value: nat)
    requires IsChain(fat, start, s) && c < |fat| && c !in s
    ensures IsChain(fat[c := value], start, s)
  {
  }

  /** Ending a chain after `n` clusters cuts it into two chains. */
  lemma ChainCut(fat: seq<nat>, start: nat, s: seq<nat>, n: nat)
    requires IsChain(fat, start, s) && 0 < n <= |s|
    ensures IsChain(fat[s[n - 1] := 0], start, s[..n])
    ensures IsChain(fat[s[n - 1] := 0], At(s, n), s[n..])
  {
    ChainIsAcyclic(fat, start, s);
    SuffixIsChain(fat, start, s, n);
    ChainFrame(fat, At(s, n), s[n..], s[n - 1], 0);
  }

  /** Pointing the end of one chain at the start of another, disjoint one joins them. */
  lemma ChainJoin(fat: seq<nat>, s: seq<nat>, b: nat, t: seq<nat>)
    requires s != [] && IsChain(fat, s[0], s) && IsChain(fat, b, t) && Disjoint(s, t)
    ensures IsChain(fat[s[|s| - 1] := b], s[0], s + t)
  {
    ChainIsAcyclic(fat, s[0], s);
    var last := s[|s| - 1];
    forall i | 0 <= i < |s + t|
      ensures 0 < (s + t)[i] < |fat| && fat[last := b][(s + t)[i]] == At(s + t, i + 1)
    {
      if i >= |s| {
        assert t[i - |s|] != last;
      }
    }
  }

  ghost function Elements(s: seq<nat>): set<nat> {
    set x | x in s
  }

  /** Distinct numbers are as many as their set. */
  lemma {:induction false} DistinctCount(s: seq<nat>)
    requires Distinct(s)
    ensures |Elements(s)| == |s|
  {
    if s != [] {
      DistinctCount(s[1..]);
      assert Elements(s) == {s[0]} + Elements(s[1..]);
    }
  }

  /** The numbers from `lo` up to, not including, `hi`. */
  ghost function Range(lo: nat, hi: nat): (r: set<nat>)
    requires lo <= hi
    ensures forall x :: x in r <==> lo <= x < hi
    ensures |r| == hi - lo
    decreases hi
  {
    if lo == hi then {} else Range(lo, hi - 1) + {hi - 1}
  }
}
