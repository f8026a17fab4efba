/** The codec as it runs: a stream that every step advances. */
module XdrStream {
  import opened Bytes
  import Entries
  import opened Xdr
  import opened Nfs

  /** An XDR stream over memory: encoders append, decoders read at the cursor. */
  class Stream {
    var bytes: seq<byte>
    var pos: nat

    ghost predicate Valid()
      reads this
    {
      pos <= |bytes|
    }

    /** What a decoder has still to read. */
    function Rest(): seq<byte>
      requires Valid()
      reads this
    {
      bytes[pos..]
    }

    constructor (input: seq<byte>)
      ensures Valid() && bytes == input && Rest() == input
    {
      bytes, pos := input, 0;
    }

    method Put(b: seq<byte>)
      modifies this`bytes
      ensures bytes == old(bytes) + b
    {
      bytes := bytes + b;
    }

    method PutWord(n: nat)
      requires n < U32
      modifies this`bytes
      ensures bytes == old(bytes) + Be32(n)
    {
      Put(Be32(n));
    }

    method GetWord() returns (r: Option<nat>)
      requires Valid()
      modifies this`pos
      ensures Valid()
      ensures match Word(old(Rest()))
        case None => r.None?
        case Some((n, rest)) => r == Some(n) && Rest() == rest
    {
      if |bytes| < pos + 4 {
        return None;
      }
      r := Some(FromBe32(bytes[pos..pos + 4]));
      assert bytes[pos..][..4] == bytes[pos..pos + 4];
      pos := pos + 4;
    }

    /** xdr_opaque: `n` bytes and their padding. */
    method GetPadded(n: nat) returns (r: Option<seq<byte>>)
      requires Valid()
      modifies this`pos
      ensures Valid()
      ensures match Take(old(Rest()), n)
        case None => r.None?
        case Some((x, rest)) => r == Some(x) && Rest() == rest
    {
      if |bytes| < pos + n + PadLen(n) {
        return None;
      }
      r := Some(bytes[pos..pos + n]);
      assert bytes[pos..][..n] == bytes[pos..pos + n];
      pos := pos + n + PadLen(n);
    }

    /** The length, its bound, then the bytes: xdr_bytes and xdr_string. */
    method GetCounted(max: nat) returns (r: Option<seq<byte>>)
      requires Valid()
      modifies this`pos
      ensures Valid()
      ensures match Counted(old(Rest()), max)
        case None => r.None?
        case Some((x, rest)) => r == Some(x) && Rest() == rest
    {
      var n := GetWord();
      if n.None? || n.value > max {
        return None;
      }
      r := GetPadded(n.value);
    }
  }

  // ---- Encoding ----

  /** From `was`, the encoder appended what it should, or failed as it should. */
  ghost predicate Emitted(was: seq<byte>, now: seq<byte>, e: Option<seq<byte>>, ok: bool) {
    ok == e.Some? && (ok ==> now == was + e.value)
  }

  lemma EmittedTwice(was: seq<byte>, mid: seq<byte>, now: seq<byte>,
                     a: Option<seq<byte>>, b: Option<seq<byte>>, ok: bool)
    requires Emitted(was, mid, a, true) && Emitted(mid, now, b, ok)
    ensures Emitted(was, now, Join(a, b), ok)
  {
  }

  /** The types without parts. */
  method EncodeLeaf(x: Stream, t: Ty, v: Val) returns (ok: bool)
    requires t.Void? || t.UInt32? || t.Int32? || t.Hyper? || t.Bool? || t.Fixed? || t.Opaque? || t.Str?
    modifies x`bytes
    ensures Emitted(old(x.bytes), x.bytes, Encode(t, v), ok)
  {
    ok := Encodable(t, v);
    if !ok || t.Void? {
      return;
    } else if t.Hyper? {
      x.PutWord(v.n / U32);
      x.PutWord(v.n % U32);
    } else if v.Num? {
      x.PutWord(if t.UInt32? then v.n else if t.Int32? then Wrap(v.n) else if v.n != 0 then 1 else 0);
    } else {
      if !t.Fixed? {
        x.PutWord(|v.bytes|);
      }
      x.Put(Padded(v.bytes));
    }
  }

  /** The checks of the primitives: C types, lengths and bounds. */
  predicate Encodable(t: Ty, v: Val)
    requires t.Void? || t.UInt32? || t.Int32? || t.Hyper? || t.Bool? || t.Fixed? || t.Opaque? || t.Str?
  {
    if t.Void? then v.Unit?
    else if t.UInt32? || t.Int32? || t.Hyper? || t.Bool? then
      v.Num? && if t.UInt32? then 0 <= v.n < U32 else if t.Hyper? then 0 <= v.n < U64 else -I32 <= v.n < I32
    else if t.Fixed? then v.Raw? && |v.bytes| == t.size
    else v.Raw? && |v.bytes| < U32 && |v.bytes| <= t.max && (t.Str? ==> Entries.NoNul(v.bytes))
  }

  /** The encoder: part after part onto the same stream. */
  method EncodeValue(x: Stream, t: Ty, v: Val) returns (ok: bool)
    modifies x`bytes
    ensures Emitted(old(x.bytes), x.bytes, Encode(t, v), ok)
    decreases t, 0
  {
    ghost var was := x.bytes;
    if t.Pair? && v.Both? {
      ok := EncodeValue(x, t.first, v.fst);
      if ok {
        ghost var mid := x.bytes;
        ok := EncodeValue(x, t.second, v.snd);
        EmittedTwice(was, mid, x.bytes, Encode(t.first, v.fst), Encode(t.second, v.snd), ok);
      }
    } else if t.Flagged? && v.Choice? {
      ok := EncodeFlagged(x, t.arm, v.disc, v.arm);
    } else if t.Status? && v.Choice? {
      ok := EncodeStatus(x, t.ok, t.fail, v.disc, v.arm);
    } else if t.Array? && v.Items? {
      ok := |v.items| < U32 && |v.items| <= t.max;
      if ok {
        x.PutWord(|v.items|);
        ghost var mid := x.bytes;
        ok := EncodeElements(x, t.elem, v.items);
        EmittedTwice(was, mid, x.bytes, Some(Be32(|v.items|)), EncodeAll(t.elem, v.items), ok);
      }
    } else if t.Chain? && v.Items? {
      ok := EncodePointer(x, t.item, v.items);
    } else if t.Pair? || t.Flagged? || t.Status? || t.Array? || t.Chain? {
      ok := false;
    } else {
      ok := EncodeLeaf(x, t, v);
    }
  }

  /** xdr_post_op_attr: xdr_bool, then the switch with its default branch. */
  method EncodeFlagged(x: Stream, arm: Ty, d: int, v: Val) returns (ok: bool)
    modifies x`bytes
    ensures Emitted(old(x.bytes), x.bytes, Encode(Flagged(arm), Choice(d, v)), ok)
    decreases arm, 1
  {
    ghost var was := x.bytes;
    x.PutWord(if d != 0 then 1 else 0);
    ghost var mid := x.bytes;
    if d == 1 {
      ok := EncodeValue(x, arm, v);
      EmittedTwice(was, mid, x.bytes, Some(Be32(1)), Encode(arm, v), ok);
    } else {
      ok := d == 0 && v.Unit?;
    }
  }

  /** The result unions: xdr_nfsstat3 or xdr_mountstat3, then the switch. */
  method EncodeStatus(x: Stream, good: Ty, bad: Ty, d: int, v: Val) returns (ok: bool)
    modifies x`bytes
    ensures Emitted(old(x.bytes), x.bytes, Encode(Status(good, bad), Choice(d, v)), ok)
    decreases Status(good, bad), -1
  {
    if !(-I32 <= d < I32) {
      return false;
    }
    ghost var was := x.bytes;
    x.PutWord(Wrap(d));
    ghost var mid := x.bytes;
    if d == 0 {
      ok := EncodeValue(x, good, v);
    } else {
      ok := EncodeValue(x, bad, v);
    }
    EmittedTwice(was, mid, x.bytes, Some(Be32(Wrap(d))), if d == 0 then Encode(good, v) else Encode(bad, v), ok);
  }

  /** xdr_array behind its count. */
  method EncodeElements(x: Stream, t: Ty, vs: seq<Val>) returns (ok: bool)
    modifies x`bytes
    ensures Emitted(old(x.bytes), x.bytes, EncodeAll(t, vs), ok)
    decreases t, 1, |vs|
  {
    if vs == [] {
      return true;
    }
    ghost var was := x.bytes;
    ok := EncodeValue(x, t, vs[0]);
    if ok {
      ghost var mid := x.bytes;
      ok := EncodeElements(x, t, vs[1..]);
      EmittedTwice(was, mid, x.bytes, Encode(t, vs[0]), EncodeAll(t, vs[1..]), ok);
    }
  }

  /** xdr_pointer and xdr_entry3, which call each other. */
  method EncodePointer(x: Stream, t: Ty, vs: seq<Val>) returns (ok: bool)
    modifies x`bytes
    ensures Emitted(old(x.bytes), x.bytes, EncodeChain(t, vs), ok)
    decreases t, 1, |vs|
  {
    if vs == [] {
      x.PutWord(0);
      return true;
    }
    ghost var was := x.bytes;
    x.PutWord(1);
    ghost var flag := x.bytes;
    ok := EncodeValue(x, t, vs[0]);
    if ok {
      ghost var mid := x.bytes;
      ok := EncodePointer(x, t, vs[1..]);
      EmittedTwice(flag, mid, x.bytes, Encode(t, vs[0]), EncodeChain(t, vs[1..]), ok);
      EmittedTwice(was, flag, x.bytes, Some(Be32(1)), Join(Encode(t, vs[0]), EncodeChain(t, vs[1..])), ok);
    }
  }

  // ---- Decoding ----

  /** The decoder returned what it should and stands behind it, or failed as it should. */
  ghost predicate Parses(x: Stream, r: Option<Val>, expected: Option<Parsed>)
    reads x
  {
    && x.Valid()
    && match expected
       case None => r.None?
       case Some(p) => r == Some(p.v) && x.Rest() == p.rest
  }

  method DecodeLeaf(x: Stream, t: Ty) returns (r: Option<Val>)
    requires x.Valid()
    requires t.Void? || t.UInt32? || t.Int32? || t.Hyper? || t.Bool? || t.Fixed? || t.Opaque? || t.Str?
    modifies x`pos
    ensures Parses(x, r, Decode(t, old(x.Rest())))
  {
    if t.Void? {
      r := Some(Unit);
    } else if t.Hyper? {
      r := DecodeHyper(x);
    } else if t.Fixed? {
      var b := x.GetPadded(t.size);
      r := if b.None? then None else Some(Raw(b.value));
    } else if t.Opaque? || t.Str? {
      var b := x.GetCounted(t.max);
      r := if b.None? then None else Some(Raw(if t.Str? then Entries.CName(b.value) else b.value));
    } else {
      var n := x.GetWord();
      if n.None? {
        return None;
      }
      var flag := if n.value == 0 then 0 else 1;
      r := Some(Num(if t.UInt32? then n.value else if t.Int32? then Unwrap(n.value) else flag));
    }
  }

  method DecodeHyper(x: Stream) returns (r: Option<Val>)
    requires x.Valid()
    modifies x`pos
    ensures Parses(x, r, Decode(Hyper, old(x.Rest())))
  {
    ghost var b := x.Rest();
    var high := x.GetWord();
    if high.None? {
      return None;
    }
    var low := x.GetWord();
    if low.None? {
      return None;
    }
    assert b[4..][..4] == b[4..8] && b[4..][4..] == b[8..];
    r := Some(Num(U32 * high.value + low.value));
  }

  /** The decoder: part after part from the same stream. */
  method DecodeValue(x: Stream, t: Ty) returns (r: Option<Val>)
    requires x.Valid()
    modifies x`pos
    ensures Parses(x, r, Decode(t, old(x.Rest())))
    decreases t, 0, 0
  {
    if t.Pair? {
      var a := DecodeValue(x, t.first);
      if a.None? {
        return None;
      }
      var b := DecodeValue(x, t.second);
      r := if b.None? then None else Some(Both(a.value, b.value));
    } else if t.Flagged? {
      r := DecodeFlagged(x, t.arm);
    } else if t.Status? {
      r := DecodeStatus(x, t.ok, t.fail);
    } else if t.Array? {
      var n := x.GetWord();
      if n.None? || n.value > t.max {
        return None;
      }
      r := DecodeElements(x, t.elem, n.value);
    } else if t.Chain? {
      r := DecodePointer(x, t.item);
    } else {
      r := DecodeLeaf(x, t);
    }
  }

  method DecodeFlagged(x: Stream, arm: Ty) returns (r: Option<Val>)
    requires x.Valid()
    modifies x`pos
    ensures Parses(x, r, Decode(Flagged(arm), old(x.Rest())))
    decreases Flagged(arm), -1, 0
  {
    var n := x.GetWord();
    if n.None? {
      return None;
    }
    if n.value == 0 {
      return Some(Choice(0, Unit));
    }
    var a := DecodeValue(x, arm);
    r := if a.None? then None else Some(Choice(1, a.value));
  }

  method DecodeStatus(x: Stream, good: Ty, bad: Ty) returns (r: Option<Val>)
    requires x.Valid()
    modifies x`pos
    ensures Parses(x, r, Decode(Status(good, bad), old(x.Rest())))
    decreases Status(good, bad), -1, 0
  {
    var n := x.GetWord();
    if n.None? {
      return None;
    }
    var d := Unwrap(n.value);
    var a;
    if d == 0 {
      a := DecodeValue(x, good);
    } else {
      a := DecodeValue(x, bad);
    }
    r := if a.None? then None else Some(Choice(d, a.value));
  }

  method DecodeElements(x: Stream, t: Ty, n: nat) returns (r: Option<Val>)
    requires x.Valid()
    modifies x`pos
    ensures Parses(x, r, DecodeAll(t, n, old(x.Rest())))
    decreases t, 1, n
  {
    if n == 0 {
      return Some(Items([]));
    }
    var a := DecodeValue(x, t);
    if a.None? {
      return None;
    }
    var b := DecodeElements(x, t, n - 1);
    r := if b.Some? && b.value.Items? then Some(Items([a.value] + b.value.items)) else None;
  }

  method DecodePointer(x: Stream, t: Ty) returns (r: Option<Val>)
    requires x.Valid()
    modifies x`pos
    ensures Parses(x, r, DecodeChain(t, old(x.Rest())))
    decreases t, 1, |x.Rest()|
  {
    var n := x.GetWord();
    if n.None? {
      return None;
    }
    if n.value == 0 {
      return Some(Items([]));
    }
    var a := DecodeValue(x, t);
    if a.None? {
      return None;
    }
    var b := DecodePointer(x, t);
    r := if b.Some? && b.value.Items? then Some(Items([a.value] + b.value.items)) else None;
  }

  // ---- PATHCONF ----

  lemma FourParts(was: seq<byte>, a: seq<byte>, b: seq<byte>, c: seq<byte>, d: seq<byte>)
    ensures was + a + b + c + d == was + (a + (b + (c + d)))
  {
  }

  /** The four bools of xdr_PATHCONF3resok, inline or not, when they are 0 or 1. */
  method EncodeFlags(x: Stream, a: int, b: int, c: int, d: int, inline: bool)
    requires -I32 <= a < I32 && -I32 <= b < I32 && -I32 <= c < I32 && -I32 <= d < I32
    modifies x`bytes
    ensures x.bytes == old(x.bytes) + if inline then InlineFlags(a, b, c, d) else PlainFlags(a, b, c, d)
    ensures IsBit(a) && IsBit(b) && IsBit(c) && IsBit(d) ==>
      Emitted(old(x.bytes), x.bytes, Encode(Flags, Both(Num(a), Both(Num(b), Both(Num(c), Num(d))))), true)
  {
    InlineEncodingAgrees(a, b, c, d);
    PlainFlagsAreEncoded(a, b, c, d);
    ghost var was := x.bytes;
    if inline {
      x.PutWord(Wrap(a));
      x.PutWord(Wrap(b));
      x.PutWord(Wrap(c));
      x.PutWord(Wrap(d));
      FourParts(was, Be32(Wrap(a)), Be32(Wrap(b)), Be32(Wrap(c)), Be32(Wrap(d)));
    } else {
      x.PutWord(Flag(a));
      x.PutWord(Flag(b));
      x.PutWord(Flag(c));
      x.PutWord(Flag(d));
      FourParts(was, Be32(Flag(a)), Be32(Flag(b)), Be32(Flag(c)), Be32(Flag(d)));
    }
  }

  /** xdr_PATHCONF3resok when encoding: whichever path XDR_INLINE leads to, the bytes are those of the
      type if the four bools are 0 or 1. */
  method EncodePathconf(x: Stream, attr: Val, linkmax: nat, namemax: nat, a: int, b: int, c: int, d: int, inline: bool)
    returns (ok: bool)
    requires linkmax < U32 && namemax < U32 && IsBit(a) && IsBit(b) && IsBit(c) && IsBit(d)
    modifies x`bytes
    ensures Emitted(old(x.bytes), x.bytes, Encode(Pathconf3resok, PathconfVal(attr, linkmax, namemax, a, b, c, d)), ok)
  {
    ghost var s0 := x.bytes;
    ok := EncodeValue(x, PostOpAttr, attr);
    if ok {
      ghost var s1 := x.bytes;
      EncodePathconfRest(x, linkmax, namemax, a, b, c, d, inline);
      EmittedTwice(s0, s1, x.bytes, Encode(PostOpAttr, attr), Encode(Pair(UInt32, Pair(UInt32, Flags)),
                   Both(Num(linkmax), Both(Num(namemax), FlagsVal(a, b, c, d)))), true);
    }
  }

  function FlagsVal(a: int, b: int, c: int, d: int): Val {
    Both(Num(a), Both(Num(b), Both(Num(c), Num(d))))
  }

  function PathconfVal(attr: Val, linkmax: nat, namemax: nat, a: int, b: int, c: int, d: int): Val {
    Both(attr, Both(Num(linkmax), Both(Num(namemax), FlagsVal(a, b, c, d))))
  }

  method EncodePathconfRest(x: Stream, linkmax: nat, namemax: nat, a: int, b: int, c: int, d: int, inline: bool)
    requires linkmax < U32 && namemax < U32 && IsBit(a) && IsBit(b) && IsBit(c) && IsBit(d)
    modifies x`bytes
    ensures Emitted(old(x.bytes), x.bytes,
                    Encode(Pair(UInt32, Pair(UInt32, Flags)),
                           Both(Num(linkmax), Both(Num(namemax), FlagsVal(a, b, c, d)))), true)
  {
    ghost var s1 := x.bytes;
    x.PutWord(linkmax);
    ghost var s2 := x.bytes;
    x.PutWord(namemax);
    ghost var s3 := x.bytes;
    EncodeFlags(x, a, b, c, d, inline);
    EmittedTwice(s2, s3, x.bytes, Encode(UInt32, Num(namemax)), Encode(Flags, FlagsVal(a, b, c, d)), true);
    EmittedTwice(s1, s2, x.bytes, Encode(UInt32, Num(linkmax)),
                 Encode(Pair(UInt32, Flags), Both(Num(namemax), FlagsVal(a, b, c, d))), true);
  }

  function FourWords(b: seq<byte>): (words: seq<nat>)
    requires |b| >= 16
    ensures |words| == 4 && forall i :: 0 <= i < 4 ==> words[i] < U32
  {
    [FromBe32(b[..4]), FromBe32(b[4..8]), FromBe32(b[8..12]), FromBe32(b[12..16])]
  }

  /** The four bools when decoding. The inline path needs its 16 bytes at once; otherwise, and when
      they are not there, they are read one by one. */
  method DecodeFlags(x: Stream, inline: bool) returns (r: Option<seq<int>>)
    requires x.Valid()
    modifies x`pos
    ensures x.Valid() && (r.Some? <==> |old(x.Rest())| >= 16)
    ensures r.Some? ==> x.Rest() == old(x.Rest())[16..]
    ensures r.Some? ==>
      r.value == if inline then InlineRead(FourWords(old(x.Rest()))) else PlainRead(FourWords(old(x.Rest())))
    ensures r.Some? && (forall i :: 0 <= i < 4 ==> IsBit(FourWords(old(x.Rest()))[i])) ==>
      r.value == PlainRead(FourWords(old(x.Rest())))
  {
    ghost var rest := x.Rest();
    var room := x.pos + 16 <= |x.bytes|;
    var a := x.GetWord();
    if a.None? { return None; }
    var b := x.GetWord();
    if b.None? { return None; }
    var c := x.GetWord();
    if c.None? { return None; }
    var d := x.GetWord();
    if d.None? { return None; }
    assert rest[4..][..4] == rest[4..8] && rest[4..][4..] == rest[8..];
    assert rest[8..][..4] == rest[8..12] && rest[8..][4..] == rest[12..];
    assert rest[12..][..4] == rest[12..16] && rest[12..][4..] == rest[16..];
    InlineDecodingAgrees(FourWords(rest));
    var words := [a.value, b.value, c.value, d.value];
    r := Some(if inline && room then InlineRead(words) else PlainRead(words));
  }

  // ---- There and back ----

  /** A value encoded onto a stream, with anything behind it, is decoded from it again. */
  method Transfer(t: Ty, v: Val, tail: seq<byte>) returns (r: Option<Val>, left: seq<byte>)
    ensures r.Some? <==> Fits(t, v)
    ensures r.Some? ==> left == tail && (r.value == v <==> Bits(t, v))
  {
    EncodesExactly(t, v);
    var writer := new Stream([]);
    var ok := EncodeValue(writer, t, v);
    if !ok {
      return None, [];
    }
    assert writer.bytes == Encode(t, v).value;
    RoundTripExactly(t, v, tail);
    RoundTrip(t, v, tail);
    var reader := new Stream(writer.bytes + tail);
    r := DecodeValue(reader, t);
    left := reader.Rest();
  }
}
