/** The wire format in octets and literal bounds: what words, counted bytes and the calls are, without the codec's own
    vocabulary. */
module Octets {
  import opened Bytes
  import Entries
  import opened Xdr
  import opened Nfs
  import opened Wire

  // ---- Words ----

  /** At `i` stands the number `v`, most significant byte first. */
  ghost predicate IsWord(b: seq<byte>, i: nat, v: int) {
    && i + 4 <= |b|
    && 16777216 * b[i] as int + 65536 * b[i + 1] as int + 256 * b[i + 2] as int + b[i + 3] as int == v
  }

  /** Section 4.1 and 4.2 of RFC 4506. */
  lemma WordOctets(v: nat)
    requires v < 4_294_967_296
    ensures |Be32(v)| == 4 && IsWord(Be32(v), 0, v)
  {
    Be32RoundTrip(v);
  }

  /** Section 4.5. */
  lemma HyperOctets(v: nat)
    requires v < 18_446_744_073_709_551_616
    ensures |Be64(v)| == 8 && exists hi: nat, lo: nat ::
      v == 4_294_967_296 * hi + lo && lo < 4_294_967_296 && IsWord(Be64(v), 0, hi) && IsWord(Be64(v), 4, lo)
  {
    var hi, lo := v / U32, v % U32;
    WordOctets(hi);
    WordOctets(lo);
    assert Be64(v)[..4] == Be32(hi) && Be64(v)[4..] == Be32(lo);
    assert IsWord(Be64(v), 0, hi) && IsWord(Be64(v), 4, lo);
  }

  /** Negative numbers are in two's complement. */
  lemma SignedOctets(n: int)
    requires -2_147_483_648 <= n < 2_147_483_648
    ensures Encode(Int32, Num(n)) == Some(Be32(if n < 0 then n + 4_294_967_296 else n))
  {
  }

  // ---- Counted bytes ----

  /** The data, then bytes 0 up to a multiple of four. */
  ghost predicate IsPadded(p: seq<byte>, data: seq<byte>) {
    && |p| % 4 == 0 && |data| <= |p| < |data| + 4 && p[..|data|] == data
    && forall i :: |data| <= i < |p| ==> p[i] == 0
  }

  /** Four bytes of length, then the padded data: sections 4.10 and 4.11. */
  ghost predicate IsCounted(b: seq<byte>, data: seq<byte>) {
    IsWord(b, 0, |data|) && IsPadded(b[4..], data)
  }

  lemma CountedOctets(data: seq<byte>)
    requires |data| < 4_294_967_296
    ensures IsCounted(CountedBytes(data), data)
  {
    WordOctets(|data|);
    PaddedOctets(data);
    assert CountedBytes(data)[..4] == Be32(|data|) && CountedBytes(data)[4..] == Padded(data);
    WordInFront(CountedBytes(data), Be32(|data|), |data|);
  }

  lemma PaddedOctets(data: seq<byte>)
    ensures IsPadded(Padded(data), data)
  {
  }

  lemma WordInFront(b: seq<byte>, w: seq<byte>, v: int)
    requires |w| == 4 <= |b| && b[..4] == w && IsWord(w, 0, v)
    ensures IsWord(b, 0, v)
  {
    assert b[0] == w[0] && b[1] == w[1] && b[2] == w[2] && b[3] == w[3];
  }

  /** Nothing else is: the octets are determined. */
  lemma CountedIsUnique(b: seq<byte>, c: seq<byte>, data: seq<byte>)
    requires IsCounted(b, data) && IsCounted(c, data)
    ensures b == c
  {
    SameWordAt(b, c, |data|);
    PaddedIsUnique(b[4..], c[4..], data);
    assert b == b[..4] + b[4..] && c == c[..4] + c[4..];
  }

  lemma PaddedIsUnique(p: seq<byte>, q: seq<byte>, data: seq<byte>)
    requires IsPadded(p, data) && IsPadded(q, data)
    ensures p == q
  {
    forall i | 0 <= i < |p|
      ensures p[i] == q[i]
    {
      if i < |data| {
        assert p[i] == p[..|data|][i] && q[i] == q[..|data|][i];
      }
    }
  }

  lemma SameWordAt(b: seq<byte>, c: seq<byte>, v: int)
    requires IsWord(b, 0, v) && IsWord(c, 0, v)
    ensures b[..4] == c[..4]
  {
    assert b[0] == c[0] && b[1] == c[1] && b[2] == c[2] && b[3] == c[3];
  }

  // ---- The calls that carry one handle or one path ----

  /** GETATTR, FSINFO and PATHCONF: a counted handle of at most 64 bytes. */
  lemma HandleCall(m: Message, h: seq<byte>)
    requires m in {GetattrArgs, FsinfoArgs, PathconfArgs}
    ensures Encode(TypeOf(m), Raw(h)).Some? <==> |h| <= 64
    ensures |h| <= 64 ==> IsCounted(Encode(TypeOf(m), Raw(h)).value, h)
  {
    EncodesExactly(TypeOf(m), Raw(h));
    if |h| <= 64 {
      HandleIs(h);
      CountedOctets(h);
    }
  }

  /** MNT: a counted path of at most 1024 bytes without NUL. */
  lemma MntCall(path: seq<byte>)
    ensures Encode(TypeOf(MntArgs), Raw(path)).Some? <==> |path| <= 1024 && forall i :: 0 <= i < |path| ==> path[i] != 0
    ensures Encode(TypeOf(MntArgs), Raw(path)).Some? ==> IsCounted(Encode(TypeOf(MntArgs), Raw(path)).value, path)
  {
    EncodesExactly(TypeOf(MntArgs), Raw(path));
    if |path| <= 1024 && Entries.NoNul(path) {
      NameIs(1024, path);
      CountedOctets(path);
    }
  }

  // ---- The bounds of the other calls ----

  lemma PairSome(a: Ty, b: Ty, x: Val, y: Val)
    ensures Encode(Pair(a, b), Both(x, y)).Some? <==> Encode(a, x).Some? && Encode(b, y).Some?
  {
  }

  lemma OkSome(ok: Ty, fail: Ty, x: Val)
    ensures Encode(Status(ok, fail), Choice(0, x)).Some? <==> Encode(ok, x).Some?
  {
  }

  lemma HandleSome(h: seq<byte>)
    ensures Encode(NfsFh3, Raw(h)).Some? <==> |h| <= 64
    ensures Encode(Opaque(FHSIZE3), Raw(h)).Some? <==> |h| <= 64
    ensures Encode(Cookieverf3, Raw(h)).Some? <==> |h| == 8
  {
  }

  lemma NumSome(n: int)
    ensures Encode(UInt32, Num(n)).Some? <==> 0 <= n < 4_294_967_296
    ensures Encode(Hyper, Num(n)).Some? <==> 0 <= n < 18_446_744_073_709_551_616
  {
  }

  /** LOOKUP: a handle of at most 64 bytes and a name without NUL of any length below 2^32. */
  lemma LookupBounds(h: seq<byte>, name: seq<byte>)
    ensures Encode(TypeOf(LookupArgs), Both(Raw(h), Raw(name))).Some?
      <==> |h| <= 64 && |name| < 4_294_967_296 && forall i :: 0 <= i < |name| ==> name[i] != 0
  {
    HandleSome(h);
    PairSome(NfsFh3, Filename3, Raw(h), Raw(name));
  }

  lemma AccessBounds(h: seq<byte>, access: int)
    ensures Encode(TypeOf(AccessArgs), Both(Raw(h), Num(access))).Some? <==> |h| <= 64 && 0 <= access < 4_294_967_296
  {
    HandleSome(h);
    NumSome(access);
    PairSome(NfsFh3, UInt32, Raw(h), Num(access));
  }

  lemma ReadBounds(h: seq<byte>, off: int, count: int)
    ensures Encode(TypeOf(ReadArgs), Both(Raw(h), Both(Num(off), Num(count)))).Some?
      <==> |h| <= 64 && 0 <= off < 18_446_744_073_709_551_616 && 0 <= count < 4_294_967_296
  {
    HandleSome(h);
    NumSome(off);
    NumSome(count);
    PairSome(Hyper, UInt32, Num(off), Num(count));
    PairSome(NfsFh3, Pair(Hyper, UInt32), Raw(h), Both(Num(off), Num(count)));
  }

  /** READDIR: also a verifier of exactly eight bytes. */
  lemma ReaddirBounds(h: seq<byte>, cookie: int, verf: seq<byte>, count: int)
    ensures Encode(TypeOf(ReaddirArgs), Both(Raw(h), Both(Num(cookie), Both(Raw(verf), Num(count))))).Some?
      <==> |h| <= 64 && 0 <= cookie < 18_446_744_073_709_551_616 && |verf| == 8 && 0 <= count < 4_294_967_296
  {
    HandleSome(h);
    HandleSome(verf);
    NumSome(cookie);
    NumSome(count);
    var t, v := Pair(Cookieverf3, UInt32), Both(Raw(verf), Num(count));
    PairSome(Cookieverf3, UInt32, Raw(verf), Num(count));
    PairSome(Hyper, t, Num(cookie), v);
    PairSome(NfsFh3, Pair(Hyper, t), Raw(h), Both(Num(cookie), v));
  }

  /** The handles in the results of LOOKUP and MNT have at most 64 bytes, the verifier in that of READDIR has eight. */
  lemma ResultBounds(h: seq<byte>, x: Val, y: Val)
    ensures Encode(TypeOf(LookupRes), Choice(0, Both(Raw(h), x))).Some? ==> |h| <= 64
    ensures Encode(TypeOf(MntRes), Choice(0, Both(Raw(h), x))).Some? ==> |h| <= 64
    ensures Encode(TypeOf(ReaddirRes), Choice(0, Both(x, Both(Raw(h), y)))).Some? ==> |h| == 8
  {
    HandleSome(h);
    OkSome(TypeOf(LookupRes).ok, PostOpAttr, Both(Raw(h), x));
    PairSome(NfsFh3, Pair(PostOpAttr, PostOpAttr), Raw(h), x);
    OkSome(Mountres3ok, Void, Both(Raw(h), x));
    PairSome(Opaque(FHSIZE3), Array(ANY, Int32), Raw(h), x);
    OkSome(Readdir3resok, PostOpAttr, Both(x, Both(Raw(h), y)));
    PairSome(PostOpAttr, Pair(Cookieverf3, Dirlist3), x, Both(Raw(h), y));
    PairSome(Cookieverf3, Dirlist3, Raw(h), y);
  }
}
