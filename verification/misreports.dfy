/** The two replies in which the program is wrong, in terms of bytes and numbers. */
module Misreporting {
  import opened Bytes
  import opened States
  import opened Entries
  import opened Update
  import opened Directory
  import opened Paths
  import opened Machine
  import opened FlatModel
  import opened Refinement

  // ---- A file that shows an entry ----

  /** From byte `o` on there is a name field that holds a name other than "." and "..". */
  ghost predicate ShowsName(bytes: seq<byte>, o: nat) {
    && o + 40 <= |bytes| && bytes[o] != 0
    && !(bytes[o] == 46 && bytes[o + 1] == 0)
    && !(bytes[o] == 46 && bytes[o + 1] == 46 && bytes[o + 2] == 0)
  }

  /** Slot `i` of cluster `c`. */
  ghost predicate ShowsAt(bytes: seq<byte>, B: nat, c: nat, i: nat) {
    i < B / 40 && ShowsName(bytes, Times(c, B) + 40 * i)
  }

  lemma FieldIsDots(f: seq<byte>)
    requires |f| == 22
    ensures CName(f) == [] || CName(f) == DOT || CName(f) == DOTDOT
      <==> f[0] == 0 || (f[0] == 46 && f[1] == 0) || (f[0] == 46 && f[1] == 46 && f[2] == 0)
  {
    CNameIs(f);
    var n := CName(f);
    assert f[0] != 0 ==> n == [f[0]] + CName(f[1..]);
    assert CName(f[1..]) == if f[1] == 0 then [] else [f[1]] + CName(f[1..][1..]);
    assert f[1..][1..][0] == f[2];
  }

  lemma SlotShows(block: seq<byte>, i: nat)
    requires i < |block| / 40
    ensures var n := CName(Slot(block, i).name);
      n == [] || n == DOT || n == DOTDOT <==> !ShowsName(block, 40 * i)
  {
    var f := Slot(block, i).name;
    assert f == block[40 * i..40 * i + 40][..22];
    FieldIsDots(f);
  }

  lemma BlockShows(block: seq<byte>)
    ensures OnlyDots(Slots(block)) <==> forall i: nat :: i < |block| / 40 ==> !ShowsName(block, 40 * i)
  {
    var ss := Slots(block);
    forall i: nat | i < |ss|
      ensures var n := CName(ss[i].name); n == [] || n == DOT || n == DOTDOT <==> !ShowsName(block, 40 * i)
    {
      assert ss[i] == Slot(block, i);
      SlotShows(block, i);
    }
  }

  /** The same for a file of `n` clusters. */
  lemma {:induction false} FileShows(bytes: seq<byte>, B: nat, n: nat)
    requires 0 < B && |bytes| == Times(n, B)
    ensures OnlyDots(FileSlots(bytes, B)) <==> forall c: nat, i: nat :: c < n && i < B / 40 ==> !ShowsAt(bytes, B, c, i)
  {
    if n > 0 {
      var head, tail := bytes[..B], bytes[B..];
      FileShows(tail, B, n - 1);
      BlockShows(head);
      assert FileSlots(bytes, B) == Slots(head) + FileSlots(tail, B);
      OnlyDotsConcat(Slots(head), FileSlots(tail, B));
      ShowsSplit(bytes, B, n);
    }
  }

  lemma ShowsSplit(bytes: seq<byte>, B: nat, n: nat)
    requires 0 < B && 0 < n && |bytes| == Times(n, B) && B <= |bytes|
    ensures (forall c: nat, i: nat :: c < n && i < B / 40 ==> !ShowsAt(bytes, B, c, i)) <==>
      && (forall i: nat :: i < B / 40 ==> !ShowsName(bytes[..B], 40 * i))
      && (forall c: nat, i: nat :: c < n - 1 && i < B / 40 ==> !ShowsAt(bytes[B..], B, c, i))
  {
    var head, tail := bytes[..B], bytes[B..];
    forall i: nat | i < B / 40
      ensures ShowsAt(bytes, B, 0, i) <==> ShowsName(head, 40 * i)
    {
      assert Times(0, B) + 40 * i == 40 * i;
    }
    forall c: nat, i: nat | c < n - 1 && i < B / 40
      ensures ShowsAt(bytes, B, c + 1, i) <==> ShowsAt(tail, B, c, i)
    {
      ShowsLater(bytes, B, c + 1, i, n);
    }
    if (forall i: nat :: i < B / 40 ==> !ShowsName(head, 40 * i))
      && (forall c: nat, i: nat :: c < n - 1 && i < B / 40 ==> !ShowsAt(tail, B, c, i)) {
      forall c: nat, i: nat | c < n && i < B / 40
        ensures !ShowsAt(bytes, B, c, i)
      {
        if c > 0 {
          assert !ShowsAt(tail, B, c - 1, i);
          assert ShowsAt(bytes, B, (c - 1) + 1, i) <==> ShowsAt(tail, B, c - 1, i);
        }
      }
    }
  }

  lemma ShowsLater(bytes: seq<byte>, B: nat, c: nat, i: nat, n: nat)
    requires 0 < B && |bytes| == Times(n, B) && 0 < c < n && i < B / 40
    ensures B <= |bytes| && (ShowsAt(bytes, B, c, i) <==> ShowsAt(bytes[B..], B, c - 1, i))
  {
    var o := Times(c - 1, B) + 40 * i;
    assert Times(c, B) + 40 * i == B + o;
    TimesMono(c, n, B);
    assert o + 40 <= |bytes| - B;
    assert bytes[B..][o] == bytes[B + o] && bytes[B..][o + 1] == bytes[B + o + 1];
    assert bytes[B..][o + 2] == bytes[B + o + 2];
  }

  // ---- Exactly when ----

  /** rmdir answers "not empty" for a file exactly if some slot of its clusters shows a name. */
  lemma LooksFullExactly(g: Geometry, A: Flat, d: nat, j: nat)
    requires FileHere(g, A, d, j) && 0 < g.B
    ensures var f := A.objs[A.objs[d].slots[j].first];
      LooksFull(g, A, d, j) <==> exists c: nat, i: nat :: c < f.n && ShowsAt(f.bytes, g.B, c, i)
  {
    var f := A.objs[A.objs[d].slots[j].first];
    FileShows(f.bytes, g.B, f.n);
  }

  /** An extension is falsely reported exactly if it is by 2^32 - 12 bytes and the file and the free clusters fall
      short by more than one cluster. */
  lemma FalseSuccessExactly(g: Geometry, A: Flat, d: nat, j: nat, size: nat)
    requires FileHere(g, A, d, j) && 0 < g.B
    ensures var e := A.objs[d].slots[j];
      FalseSuccess(g, A, d, j, size)
      <==> size - e.size == 4_294_967_284 && (A.objs[e.first].n + A.free + 1) * g.B < size
  {
    var e := A.objs[d].slots[j];
    var z := Fill(e.size, size);
    var m := A.objs[e.first].n + A.free + 1;
    TimesIsProduct(m, g.B);
    if |z| > 0 {
      SpotOfIs(g, e.size, |z|);
      var need := SpotOf(g, e.size, |z|).need;
      if need > m {
        TimesMono(m, need - 1, g.B);
      } else {
        TimesMono(need, m, g.B);
      }
    }
  }
}
