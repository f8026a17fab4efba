/** XDR (RFC 4506) as the codec of NFS messages uses it: a description of each message type, and one
    encoder and one decoder that follow the description. */
module Xdr {
  import opened Bytes
  import opened Entries

  // ---- Types and values ----

  /** The shapes that occur in the messages.
      `Flagged`: a union over a bool with one arm for TRUE and none for FALSE.
      `Status`: a union over an enum with one arm for 0 and one for every other number.
      `Chain`: an optional pointer to an item that is followed by such a pointer again. */
  datatype Ty =
    | Void
    | UInt32
    | Int32
    | Hyper
    | Bool
    | Fixed(size: nat)
    | Opaque(max: nat)
    | Str(max: nat)
    | Pair(first: Ty, second: Ty)
    | Flagged(arm: Ty)
    | Status(ok: Ty, fail: Ty)
    | Array(max: nat, elem: Ty)
    | Chain(item: Ty)

  datatype Val =
    | Unit
    | Num(n: int)
    | Raw(bytes: seq<byte>)
    | Both(fst: Val, snd: Val)
    | Choice(disc: int, arm: Val)
    | Items(items: seq<Val>)

  const I32: int := 0x8000_0000
  const U64: nat := 0x1_0000_0000_0000_0000

  /** Values within the bounds of a type. A bool is a C `int`, of which the encoder asks only
      whether it is zero. */
  predicate Fits(t: Ty, v: Val)
    decreases t, 0
  {
    match t
    case Void => v.Unit?
    case UInt32 => v.Num? && 0 <= v.n < U32
    case Int32 => v.Num? && -I32 <= v.n < I32
    case Hyper => v.Num? && 0 <= v.n < U64
    case Bool => v.Num? && -I32 <= v.n < I32
    case Fixed(size) => v.Raw? && |v.bytes| == size
    case Opaque(max) => v.Raw? && |v.bytes| <= max && |v.bytes| < U32
    case Str(max) => v.Raw? && |v.bytes| <= max && |v.bytes| < U32 && NoNul(v.bytes)
    case Pair(a, b) => v.Both? && Fits(a, v.fst) && Fits(b, v.snd)
    case Flagged(arm) => v.Choice? && (if v.disc == 1 then Fits(arm, v.arm) else v.disc == 0 && v.arm.Unit?)
    case Status(ok, fail) => v.Choice? && -I32 <= v.disc < I32
        && (if v.disc == 0 then Fits(ok, v.arm) else Fits(fail, v.arm))
    case Array(max, elem) => v.Items? && |v.items| <= max && |v.items| < U32 && AllFit(elem, v.items)
    case Chain(item) => v.Items? && AllFit(item, v.items)
  }

  predicate AllFit(t: Ty, vs: seq<Val>)
    decreases t, 1
  {
    forall i :: 0 <= i < |vs| ==> Fits(t, vs[i])
  }

  // ---- Words and padding ----

  /** A 32-bit word, most significant byte first. */
  function Be32(v: nat): (b: seq<byte>)
    requires v < U32
    ensures |b| == 4
  {
    [v / 16777216, v / 65536 % 256, v / 256 % 256, v % 256]
  }

  function FromBe32(b: seq<byte>): (v: nat)
    requires |b| == 4
    ensures v < U32
  {
    16777216 * b[0] as int + 65536 * b[1] as int + 256 * b[2] as int + b[3] as int
  }

  lemma Be32RoundTrip(v: nat)
    requires v < U32
    ensures FromBe32(Be32(v)) == v
  {
    assert v / 65536 == v / 256 / 256;
    assert v / 16777216 == v / 256 / 256 / 256;
  }

  /** Two's complement. */
  function Wrap(n: int): (v: nat)
    requires -I32 <= n < I32
    ensures v < U32
  {
    if n < 0 then n + U32 else n
  }

  function Unwrap(v: nat): (n: int)
    requires v < U32
    ensures -I32 <= n < I32 && Wrap(n) == v
  {
    if v >= I32 then v - U32 else v
  }

  /** The number of bytes that fill `n` bytes up to a multiple of four. */
  function PadLen(n: nat): (p: nat)
    ensures p < 4 && (n + p) % 4 == 0
  {
    (4 - n % 4) % 4
  }

  function Padded(b: seq<byte>): (r: seq<byte>)
    ensures |r| % 4 == 0
  {
    b + Zeros(PadLen(|b|))
  }

  function Flag(n: int): nat {
    if n == 0 then 0 else 1
  }

  // ---- Encoding ----

  /** `a`, then `b`; None when either failed. */
  function Join(a: Option<seq<byte>>, b: Option<seq<byte>>): Option<seq<byte>> {
    if a.Some? && b.Some? then Some(a.value + b.value) else None
  }

  /** The bytes that the encoder emits; None: it returns FALSE. */
  function Encode(t: Ty, v: Val): Option<seq<byte>>
    decreases t, 0
  {
    match (t, v)
    case (Void, Unit) => Some([])
    case (UInt32, Num(n)) => if 0 <= n < U32 then Some(Be32(n)) else None
    case (Int32, Num(n)) => if -I32 <= n < I32 then Some(Be32(Wrap(n))) else None
    case (Hyper, Num(n)) => if 0 <= n < U64 then Some(Be32(n / U32) + Be32(n % U32)) else None
    case (Bool, Num(n)) => if -I32 <= n < I32 then Some(Be32(Flag(n))) else None
    case (Fixed(size), Raw(b)) => if |b| == size then Some(Padded(b)) else None
    case (Opaque(max), Raw(b)) => if |b| < U32 && |b| <= max then Some(Be32(|b|) + Padded(b)) else None
    case (Str(max), Raw(b)) => if |b| < U32 && |b| <= max && NoNul(b) then Some(Be32(|b|) + Padded(b)) else None
    case (Pair(a, b), Both(x, y)) => Join(Encode(a, x), Encode(b, y))
    case (Flagged(arm), Choice(d, x)) =>
      if d == 1 then Join(Some(Be32(1)), Encode(arm, x))
      else if d == 0 && x.Unit? then Some(Be32(0)) else None
    case (Status(ok, fail), Choice(d, x)) =>
      if !(-I32 <= d < I32) then None
      else Join(Some(Be32(Wrap(d))), if d == 0 then Encode(ok, x) else Encode(fail, x))
    case (Array(max, elem), Items(xs)) =>
      if |xs| < U32 && |xs| <= max then Join(Some(Be32(|xs|)), EncodeAll(elem, xs)) else None
    case (Chain(item), Items(xs)) => EncodeChain(item, xs)
    case _ => None
  }

  function EncodeAll(t: Ty, vs: seq<Val>): Option<seq<byte>>
    decreases t, 1, |vs|
  {
    if vs == [] then Some([]) else Join(Encode(t, vs[0]), EncodeAll(t, vs[1..]))
  }

  /** Every item is announced by TRUE; FALSE ends the list. */
  function EncodeChain(t: Ty, vs: seq<Val>): Option<seq<byte>>
    decreases t, 1, |vs|
  {
    if vs == [] then Some(Be32(0))
    else Join(Some(Be32(1)), Join(Encode(t, vs[0]), EncodeChain(t, vs[1..])))
  }

  // ---- Decoding ----

  /** A value and the bytes after it. */
  datatype Parsed = Parsed(v: Val, rest: seq<byte>)

  function Word(b: seq<byte>): Option<(nat, seq<byte>)> {
    if |b| < 4 then None else Some((FromBe32(b[..4]), b[4..]))
  }

  /** `n` bytes and their padding, whatever the padding holds. */
  function Take(b: seq<byte>, n: nat): Option<(seq<byte>, seq<byte>)> {
    if |b| < n + PadLen(n) then None else Some((b[..n], b[n + PadLen(n)..]))
  }

  function Counted(b: seq<byte>, max: nat): Option<(seq<byte>, seq<byte>)> {
    match Word(b)
    case None => None
    case Some((n, rest)) => if n > max then None else Take(rest, n)
  }

  function Decode(t: Ty, b: seq<byte>): (r: Option<Parsed>)
    ensures r.Some? ==> |r.value.rest| <= |b|
    decreases t, 0, 0
  {
    match t
    case Void => Some(Parsed(Unit, b))
    case UInt32 => (match Word(b) case None => None case Some((n, rest)) => Some(Parsed(Num(n), rest)))
    case Int32 => (match Word(b) case None => None case Some((n, rest)) => Some(Parsed(Num(Unwrap(n)), rest)))
    case Hyper =>
      if |b| < 8 then None
      else Some(Parsed(Num(U32 * FromBe32(b[..4]) + FromBe32(b[4..8])), b[8..]))
    case Bool => (match Word(b) case None => None case Some((n, rest)) => Some(Parsed(Num(Flag(n)), rest)))
    case Fixed(size) => (match Take(b, size) case None => None case Some((x, rest)) => Some(Parsed(Raw(x), rest)))
    case Opaque(max) => (match Counted(b, max) case None => None case Some((x, rest)) => Some(Parsed(Raw(x), rest)))
    case Str(max) => (match Counted(b, max) case None => None case Some((x, rest)) => Some(Parsed(Raw(CName(x)), rest)))
    case Pair(first, second) =>
      (match Decode(first, b)
       case None => None
       case Some(p) =>
         match Decode(second, p.rest)
         case None => None
         case Some(q) => Some(Parsed(Both(p.v, q.v), q.rest)))
    case Flagged(arm) =>
      (match Word(b)
       case None => None
       case Some((n, rest)) =>
         if Flag(n) == 0 then Some(Parsed(Choice(0, Unit), rest))
         else
           match Decode(arm, rest)
           case None => None
           case Some(p) => Some(Parsed(Choice(1, p.v), p.rest)))
    case Status(ok, fail) =>
      (match Word(b)
       case None => None
       case Some((n, rest)) =>
         var d := Unwrap(n);
         match if d == 0 then Decode(ok, rest) else Decode(fail, rest)
         case None => None
         case Some(p) => Some(Parsed(Choice(d, p.v), p.rest)))
    case Array(max, elem) =>
      (match Word(b)
       case None => None
       case Some((n, rest)) => if n > max then None else DecodeAll(elem, n, rest))
    case Chain(item) => DecodeChain(item, b)
  }

  /** Puts a value in front of a parsed list. */
  function Cons(v: Val, tail: Option<Parsed>): Option<Parsed> {
    if tail.Some? && tail.value.v.Items? then Some(Parsed(Items([v] + tail.value.v.items), tail.value.rest)) else None
  }

  function DecodeAll(t: Ty, n: nat, b: seq<byte>): (r: Option<Parsed>)
    ensures r.Some? ==> |r.value.rest| <= |b|
    decreases t, 1, n
  {
    if n == 0 then Some(Parsed(Items([]), b))
    else
      match Decode(t, b)
      case None => None
      case Some(p) => Cons(p.v, DecodeAll(t, n - 1, p.rest))
  }

  function DecodeChain(t: Ty, b: seq<byte>): (r: Option<Parsed>)
    ensures r.Some? ==> |r.value.rest| <= |b|
    decreases t, 1, |b|
  {
    match Word(b)
    case None => None
    case Some((n, rest)) =>
      if Flag(n) == 0 then Some(Parsed(Items([]), rest))
      else
        match Decode(t, rest)
        case None => None
        case Some(p) => Cons(p.v, DecodeChain(t, p.rest))
  }

  // ---- Encoding succeeds exactly within the bounds, and in whole words ----

  lemma {:induction false} EncodesExactly(t: Ty, v: Val)
    ensures Encode(t, v).Some? <==> Fits(t, v)
    decreases t, 0
  {
    match (t, v)
    case (Pair(a, b), Both(x, y)) =>
      EncodesExactly(a, x);
      EncodesExactly(b, y);
    case (Flagged(arm), Choice(d, x)) =>
      EncodesExactly(arm, x);
      FlaggedEncodesExactly(arm, d, x);
    case (Status(ok, fail), Choice(d, x)) =>
      EncodesExactly(ok, x);
      EncodesExactly(fail, x);
      StatusEncodesExactly(ok, fail, d, x);
    case (Array(_, elem), Items(xs)) =>
      AllEncodeExactly(elem, xs);
    case (Chain(item), Items(xs)) =>
      AllEncodeExactly(item, xs);
    case _ =>
      if !t.Pair? && !t.Flagged? && !t.Status? && !t.Array? && !t.Chain? {
        LeafEncodesExactly(t, v);
      }
  }

  lemma FlaggedEncodesExactly(arm: Ty, d: int, x: Val)
    requires Encode(arm, x).Some? <==> Fits(arm, x)
    ensures Encode(Flagged(arm), Choice(d, x)).Some? <==> Fits(Flagged(arm), Choice(d, x))
  {
  }

  lemma StatusEncodesExactly(ok: Ty, fail: Ty, d: int, x: Val)
    requires (Encode(ok, x).Some? <==> Fits(ok, x)) && (Encode(fail, x).Some? <==> Fits(fail, x))
    ensures Encode(Status(ok, fail), Choice(d, x)).Some? <==> Fits(Status(ok, fail), Choice(d, x))
  {
  }

  lemma LeafEncodesExactly(t: Ty, v: Val)
    requires !t.Pair? && !t.Flagged? && !t.Status? && !t.Array? && !t.Chain?
    ensures Encode(t, v).Some? <==> Fits(t, v)
  {
  }

  lemma {:induction false} AllEncodeExactly(t: Ty, vs: seq<Val>)
    ensures EncodeAll(t, vs).Some? <==> AllFit(t, vs)
    ensures EncodeChain(t, vs).Some? <==> AllFit(t, vs)
    decreases t, 1, |vs|
  {
    if vs != [] {
      EncodesExactly(t, vs[0]);
      AllEncodeExactly(t, vs[1..]);
      assert AllFit(t, vs) <==> Fits(t, vs[0]) && AllFit(t, vs[1..]) by {
        assert vs == [vs[0]] + vs[1..];
      }
    }
  }

  ghost predicate InWords(b: Option<seq<byte>>) {
    b.Some? ==> |b.value| % 4 == 0
  }

  lemma JoinInWords(a: Option<seq<byte>>, b: Option<seq<byte>>)
    requires InWords(a) && InWords(b)
    ensures InWords(Join(a, b))
  {
  }

  /** Every encoding is a multiple of four bytes long. */
  lemma {:induction false} EncodesWords(t: Ty, v: Val)
    ensures InWords(Encode(t, v))
    decreases t, 0
  {
    match (t, v)
    case (Pair(a, b), Both(x, y)) =>
      EncodesWords(a, x);
      EncodesWords(b, y);
      JoinInWords(Encode(a, x), Encode(b, y));
    case (Flagged(arm), Choice(_, x)) =>
      EncodesWords(arm, x);
      JoinInWords(Some(Be32(1)), Encode(arm, x));
    case (Status(ok, fail), Choice(d, x)) =>
      StatusInWords(ok, fail, d, x);
    case (Array(_, elem), Items(xs)) =>
      AllEncodeWords(elem, xs);
      if |xs| < U32 {
        JoinInWords(Some(Be32(|xs|)), EncodeAll(elem, xs));
      }
    case (Chain(item), Items(xs)) =>
      AllEncodeWords(item, xs);
    case _ =>
      if !t.Pair? && !t.Flagged? && !t.Status? && !t.Array? && !t.Chain? {
        LeafInWords(t, v);
      }
  }

  lemma LeafInWords(t: Ty, v: Val)
    requires !t.Pair? && !t.Flagged? && !t.Status? && !t.Array? && !t.Chain?
    ensures InWords(Encode(t, v))
  {
    if v.Num? {
      NumInWords(t, v.n);
    } else if v.Raw? {
      RawInWords(t, v.bytes);
    }
  }

  lemma NumInWords(t: Ty, n: int)
    requires t.Void? || t.UInt32? || t.Int32? || t.Hyper? || t.Bool? || t.Fixed? || t.Opaque? || t.Str?
    ensures InWords(Encode(t, Num(n)))
  {
  }

  lemma RawInWords(t: Ty, b: seq<byte>)
    requires t.Void? || t.UInt32? || t.Int32? || t.Hyper? || t.Bool? || t.Fixed? || t.Opaque? || t.Str?
    ensures InWords(Encode(t, Raw(b)))
  {
    if |b| < U32 {
      CountedInWords(b);
    }
  }

  lemma CountedInWords(b: seq<byte>)
    requires |b| < U32
    ensures InWords(Some(Be32(|b|) + Padded(b)))
  {
    JoinInWords(Some(Be32(|b|)), Some(Padded(b)));
  }

  lemma {:induction false} StatusInWords(ok: Ty, fail: Ty, d: int, x: Val)
    ensures InWords(Encode(Status(ok, fail), Choice(d, x)))
    decreases Status(ok, fail), -1
  {
    EncodesWords(ok, x);
    EncodesWords(fail, x);
    if -I32 <= d < I32 {
      JoinInWords(Some(Be32(Wrap(d))), if d == 0 then Encode(ok, x) else Encode(fail, x));
    }
  }

  lemma {:induction false} AllEncodeWords(t: Ty, vs: seq<Val>)
    ensures InWords(EncodeAll(t, vs)) && InWords(EncodeChain(t, vs))
    decreases t, 1, |vs|
  {
    if vs != [] {
      EncodesWords(t, vs[0]);
      AllEncodeWords(t, vs[1..]);
      JoinInWords(Encode(t, vs[0]), EncodeAll(t, vs[1..]));
      JoinInWords(Encode(t, vs[0]), EncodeChain(t, vs[1..]));
      JoinInWords(Some(Be32(1)), Join(Encode(t, vs[0]), EncodeChain(t, vs[1..])));
    }
  }

  // ---- Round trip ----

  /** `v` with every bool turned into 0 or 1: what comes back. */
  function Normal(t: Ty, v: Val): Val
    decreases t, 0
  {
    match (t, v)
    case (Bool, Num(n)) => Num(Flag(n))
    case (Pair(a, b), Both(x, y)) => Both(Normal(a, x), Normal(b, y))
    case (Flagged(arm), Choice(d, x)) => if d == 1 then Choice(d, Normal(arm, x)) else v
    case (Status(ok, fail), Choice(d, x)) => Choice(d, if d == 0 then Normal(ok, x) else Normal(fail, x))
    case (Array(_, elem), Items(xs)) => Items(NormalAll(elem, xs))
    case (Chain(item), Items(xs)) => Items(NormalAll(item, xs))
    case _ => v
  }

  function NormalAll(t: Ty, vs: seq<Val>): seq<Val>
    decreases t, 1, |vs|
  {
    if vs == [] then [] else [Normal(t, vs[0])] + NormalAll(t, vs[1..])
  }

  lemma WordBack(n: nat, rest: seq<byte>)
    requires n < U32
    ensures Word(Be32(n) + rest) == Some((n, rest))
  {
    Be32RoundTrip(n);
    assert (Be32(n) + rest)[..4] == Be32(n) && (Be32(n) + rest)[4..] == rest;
  }

  lemma TakeBack(b: seq<byte>, rest: seq<byte>)
    ensures Take(Padded(b) + rest, |b|) == Some((b, rest))
  {
    var all := Padded(b) + rest;
    assert all[..|b|] == b && all[|b| + PadLen(|b|)..] == rest;
  }

  lemma CountedBack(b: seq<byte>, rest: seq<byte>, max: nat)
    requires |b| < U32 && |b| <= max
    ensures Counted(Be32(|b|) + Padded(b) + rest, max) == Some((b, rest))
  {
    assert Be32(|b|) + Padded(b) + rest == Be32(|b|) + (Padded(b) + rest);
    WordBack(|b|, Padded(b) + rest);
    TakeBack(b, rest);
  }

  lemma WholeString(b: seq<byte>)
    requires NoNul(b)
    ensures CName(b) == b
  {
    CNameOfPadded(b, 0);
    assert b + Zeros(0) == b;
  }

  lemma HyperBack(n: nat, rest: seq<byte>)
    requires n < U64
    ensures Decode(Hyper, Be32(n / U32) + Be32(n % U32) + rest) == Some(Parsed(Num(n), rest))
  {
    var b := Be32(n / U32) + Be32(n % U32) + rest;
    assert b[..4] == Be32(n / U32) && b[4..8] == Be32(n % U32) && b[8..] == rest;
    Be32RoundTrip(n / U32);
    Be32RoundTrip(n % U32);
  }

  /** Decoding what was encoded, followed by anything, gives the value back with its bools
      normalised, and leaves exactly what followed. */
  lemma {:induction false} RoundTrip(t: Ty, v: Val, rest: seq<byte>)
    requires Encode(t, v).Some?
    ensures Decode(t, Encode(t, v).value + rest) == Some(Parsed(Normal(t, v), rest))
    decreases t, 0
  {
    match (t, v)
    case (Pair(a, b), Both(x, y)) => PairBack(a, b, x, y, rest);
    case (Flagged(arm), Choice(1, x)) => FlaggedBack(arm, x, Encode(arm, x).value, rest);
    case (Flagged(arm), Choice(_, _)) => WordBack(0, rest);
    case (Status(ok, fail), Choice(d, x)) => StatusBack(ok, fail, d, x, Encode(if d == 0 then ok else fail,
        x).value, rest);
    case (Array(max, elem), Items(xs)) => ArrayBack(max, elem, xs, rest);
    case (Chain(item), Items(xs)) => ChainBack(item, xs, rest);
    case _ => LeafBack(t, v, rest);
  }

  lemma LeafBack(t: Ty, v: Val, rest: seq<byte>)
    requires !t.Pair? && !t.Flagged? && !t.Status? && !t.Array? && !t.Chain? && Encode(t, v).Some?
    ensures Decode(t, Encode(t, v).value + rest) == Some(Parsed(Normal(t, v), rest))
  {
    match (t, v)
    case (Void, Unit) => assert [] + rest == rest;
    case (UInt32, Num(n)) => WordBack(n, rest);
    case (Int32, Num(n)) => WordBack(Wrap(n), rest);
    case (Hyper, Num(n)) => HyperBack(n, rest);
    case (Bool, Num(n)) => WordBack(Flag(n), rest);
    case (Fixed(_), Raw(b)) => TakeBack(b, rest);
    case (Opaque(max), Raw(b)) => CountedBack(b, rest, max);
    case (Str(max), Raw(b)) => { CountedBack(b, rest, max); WholeString(b); }
    case _ =>
  }

  lemma {:induction false} PairBack(a: Ty, b: Ty, x: Val, y: Val, rest: seq<byte>)
    requires Encode(a, x).Some? && Encode(b, y).Some?
    ensures Decode(Pair(a, b), Encode(a, x).value + Encode(b, y).value + rest)
         == Some(Parsed(Both(Normal(a, x), Normal(b, y)), rest))
    decreases Pair(a, b), -1
  {
    var p, q := Encode(a, x).value, Encode(b, y).value;
    assert p + q + rest == p + (q + rest);
    RoundTrip(a, x, q + rest);
    RoundTrip(b, y, rest);
    DecodePair(a, b, p + q + rest, Parsed(Normal(a, x), q + rest), Parsed(Normal(b, y), rest));
  }

  lemma DecodePair(a: Ty, b: Ty, bytes: seq<byte>, p: Parsed, q: Parsed)
    requires Decode(a, bytes) == Some(p) && Decode(b, p.rest) == Some(q)
    ensures Decode(Pair(a, b), bytes) == Some(Parsed(Both(p.v, q.v), q.rest))
  {
  }

  lemma {:induction false} FlaggedBack(arm: Ty, x: Val, p: seq<byte>, rest: seq<byte>)
    requires Encode(arm, x) == Some(p)
    ensures Decode(Flagged(arm), Be32(1) + p + rest) == Some(Parsed(Choice(1, Normal(arm, x)), rest))
    decreases Flagged(arm), -1
  {
    assert Be32(1) + p + rest == Be32(1) + (p + rest);
    WordBack(1, p + rest);
    RoundTrip(arm, x, rest);
    DecodeFlagged(arm, Be32(1) + p + rest, p + rest, Parsed(Normal(arm, x), rest));
  }

  lemma DecodeFlagged(arm: Ty, bytes: seq<byte>, rest: seq<byte>, p: Parsed)
    requires Word(bytes) == Some((1, rest)) && Decode(arm, rest) == Some(p)
    ensures Decode(Flagged(arm), bytes) == Some(Parsed(Choice(1, p.v), p.rest))
  {
  }

  lemma {:induction false} StatusBack(ok: Ty, fail: Ty, d: int, x: Val, p: seq<byte>, rest: seq<byte>)
    requires -I32 <= d < I32 && Encode(if d == 0 then ok else fail, x) == Some(p)
    ensures Decode(Status(ok, fail), Be32(Wrap(d)) + p + rest)
         == Some(Parsed(Choice(d, Normal(if d == 0 then ok else fail, x)), rest))
    decreases Status(ok, fail), -1
  {
    var t := if d == 0 then ok else fail;
    assert Be32(Wrap(d)) + p + rest == Be32(Wrap(d)) + (p + rest);
    WordBack(Wrap(d), p + rest);
    RoundTrip(t, x, rest);
    DecodeStatus(ok, fail, d, Be32(Wrap(d)) + p + rest, p + rest, Parsed(Normal(t, x), rest));
  }

  lemma DecodeStatus(ok: Ty, fail: Ty, d: int, bytes: seq<byte>, rest: seq<byte>, p: Parsed)
    requires -I32 <= d < I32 && Word(bytes) == Some((Wrap(d), rest))
    requires Decode(if d == 0 then ok else fail, rest) == Some(p)
    ensures Decode(Status(ok, fail), bytes) == Some(Parsed(Choice(d, p.v), p.rest))
  {
  }

  lemma {:induction false} ArrayBack(max: nat, elem: Ty, xs: seq<Val>, rest: seq<byte>)
    requires |xs| < U32 && |xs| <= max && EncodeAll(elem, xs).Some?
    ensures Decode(Array(max, elem), Be32(|xs|) + EncodeAll(elem, xs).value + rest)
         == Some(Parsed(Items(NormalAll(elem, xs)), rest))
    decreases Array(max, elem), -1
  {
    var p := EncodeAll(elem, xs).value;
    assert Be32(|xs|) + p + rest == Be32(|xs|) + (p + rest);
    WordBack(|xs|, p + rest);
    AllBack(elem, xs, rest);
  }

  lemma {:induction false} AllBack(t: Ty, vs: seq<Val>, rest: seq<byte>)
    requires EncodeAll(t, vs).Some?
    ensures DecodeAll(t, |vs|, EncodeAll(t, vs).value + rest) == Some(Parsed(Items(NormalAll(t, vs)), rest))
    decreases t, 1, |vs|
  {
    if vs == [] {
      NoneBack(t, rest);
    } else {
      var p, q := Encode(t, vs[0]).value, EncodeAll(t, vs[1..]).value;
      RoundTrip(t, vs[0], q + rest);
      AllBack(t, vs[1..], rest);
      AllConsBack(t, vs, p, q, rest);
    }
  }

  lemma NoneBack(t: Ty, rest: seq<byte>)
    ensures EncodeAll(t, []).Some?
    ensures DecodeAll(t, 0, EncodeAll(t, []).value + rest) == Some(Parsed(Items(NormalAll(t, [])), rest))
  {
    assert [] + rest == rest;
  }

  lemma AllConsBack(t: Ty, vs: seq<Val>, p: seq<byte>, q: seq<byte>, rest: seq<byte>)
    requires vs != [] && Encode(t, vs[0]) == Some(p) && EncodeAll(t, vs[1..]) == Some(q)
    requires Decode(t, p + (q + rest)) == Some(Parsed(Normal(t, vs[0]), q + rest))
    requires DecodeAll(t, |vs| - 1, q + rest) == Some(Parsed(Items(NormalAll(t, vs[1..])), rest))
    ensures EncodeAll(t, vs).Some?
    ensures DecodeAll(t, |vs|, EncodeAll(t, vs).value + rest) == Some(Parsed(Items(NormalAll(t, vs)), rest))
  {
    Assoc(p, q, rest);
    DecodeAllCons(t, |vs|, p + q + rest, Parsed(Normal(t, vs[0]), q + rest),
                  Parsed(Items(NormalAll(t, vs[1..])), rest));
  }

  lemma DecodeAllCons(t: Ty, n: nat, bytes: seq<byte>, p: Parsed, q: Parsed)
    requires n > 0 && Decode(t, bytes) == Some(p) && DecodeAll(t, n - 1, p.rest) == Some(q) && q.v.Items?
    ensures DecodeAll(t, n, bytes) == Some(Parsed(Items([p.v] + q.v.items), q.rest))
  {
  }

  lemma {:induction false} ChainBack(t: Ty, vs: seq<Val>, rest: seq<byte>)
    requires EncodeChain(t, vs).Some?
    ensures DecodeChain(t, EncodeChain(t, vs).value + rest) == Some(Parsed(Items(NormalAll(t, vs)), rest))
    decreases t, 1, |vs|
  {
    if vs == [] {
      WordBack(0, rest);
    } else {
      var p, q := Encode(t, vs[0]).value, EncodeChain(t, vs[1..]).value;
      assert Be32(1) + (p + q) + rest == Be32(1) + (p + (q + rest));
      WordBack(1, p + (q + rest));
      RoundTrip(t, vs[0], q + rest);
      ChainBack(t, vs[1..], rest);
      DecodeCons(t, Be32(1) + (p + q) + rest, p + (q + rest), Parsed(Normal(t, vs[0]), q + rest),
                 Parsed(Items(NormalAll(t, vs[1..])), rest));
    }
  }

  lemma DecodeCons(t: Ty, bytes: seq<byte>, rest: seq<byte>, p: Parsed, q: Parsed)
    requires Word(bytes) == Some((1, rest)) && Decode(t, rest) == Some(p) && DecodeChain(t, p.rest) == Some(q)
        && q.v.Items?
    ensures DecodeChain(t, bytes) == Some(Parsed(Items([p.v] + q.v.items), q.rest))
  {
  }

  // ---- Exactly when the value itself comes back ----

  /** Every bool in the value is 0 or 1. */
  predicate Bits(t: Ty, v: Val)
    decreases t, 0
  {
    match (t, v)
    case (Bool, Num(n)) => n == 0 || n == 1
    case (Pair(a, b), Both(x, y)) => Bits(a, x) && Bits(b, y)
    case (Flagged(arm), Choice(d, x)) => d == 1 ==> Bits(arm, x)
    case (Status(ok, fail), Choice(d, x)) => if d == 0 then Bits(ok, x) else Bits(fail, x)
    case (Array(_, elem), Items(xs)) => AllBits(elem, xs)
    case (Chain(item), Items(xs)) => AllBits(item, xs)
    case _ => true
  }

  predicate AllBits(t: Ty, vs: seq<Val>)
    decreases t, 1
  {
    forall i :: 0 <= i < |vs| ==> Bits(t, vs[i])
  }

  lemma {:induction false} NormalIsSame(t: Ty, v: Val)
    ensures Normal(t, v) == v <==> Bits(t, v)
    decreases t, 0
  {
    match (t, v)
    case (Pair(a, b), Both(x, y)) =>
      NormalIsSame(a, x);
      NormalIsSame(b, y);
    case (Flagged(arm), Choice(_, x)) =>
      NormalIsSame(arm, x);
    case (Status(ok, fail), Choice(_, x)) =>
      NormalIsSame(ok, x);
      NormalIsSame(fail, x);
    case (Array(_, elem), Items(xs)) =>
      NormalAllIsSame(elem, xs);
    case (Chain(item), Items(xs)) =>
      NormalAllIsSame(item, xs);
    case _ =>
  }

  lemma {:induction false} NormalAllIsSame(t: Ty, vs: seq<Val>)
    ensures NormalAll(t, vs) == vs <==> AllBits(t, vs)
    decreases t, 1, |vs|
  {
    if vs != [] {
      NormalIsSame(t, vs[0]);
      NormalAllIsSame(t, vs[1..]);
      assert vs == [vs[0]] + vs[1..];
      assert NormalAll(t, vs)[0] == Normal(t, vs[0]) && NormalAll(t, vs)[1..] == NormalAll(t, vs[1..]);
    }
  }

  /** A value within bounds comes back itself, whatever follows it, exactly if its bools are 0 or 1. */
  lemma RoundTripExactly(t: Ty, v: Val, rest: seq<byte>)
    requires Fits(t, v)
    ensures Encode(t, v).Some?
    ensures Decode(t, Encode(t, v).value + rest) == Some(Parsed(v, rest)) <==> Bits(t, v)
  {
    EncodesExactly(t, v);
    RoundTrip(t, v, rest);
    NormalIsSame(t, v);
  }

  /** No encoding is a proper prefix of another of the same type, and equal encodings are of equal
      values (up to bools). */
  lemma PrefixFree(t: Ty, v: Val, v': Val)
    requires Encode(t, v).Some? && Encode(t, v').Some? && Encode(t, v).value <= Encode(t, v').value
    ensures Encode(t, v) == Encode(t, v') && Normal(t, v) == Normal(t, v')
  {
    var a, b := Encode(t, v).value, Encode(t, v').value;
    var rest := b[|a|..];
    assert b == a + rest && b + [] == b;
    RoundTrip(t, v, rest);
    RoundTrip(t, v', []);
  }

  // ---- What a decoder returns is within bounds ----

  lemma {:induction false} CNameIsBounded(b: seq<byte>)
    ensures |CName(b)| <= |b| && NoNul(CName(b))
  {
    if b != [] && b[0] != 0 {
      CNameIsBounded(b[1..]);
    }
  }

  lemma {:induction false} DecodedFits(t: Ty, b: seq<byte>)
    ensures Decode(t, b).Some? ==> Fits(t, Decode(t, b).value.v) && Bits(t, Decode(t, b).value.v)
    decreases t, 0, 0
  {
    match t
    case Str(max) =>
      var x := Counted(b, max);
      if x.Some? {
        CNameIsBounded(x.value.0);
      }
    case Pair(first, second) =>
      DecodedFits(first, b);
      if Decode(first, b).Some? {
        DecodedFits(second, Decode(first, b).value.rest);
      }
    case Flagged(arm) =>
      if Word(b).Some? {
        DecodedFits(arm, Word(b).value.1);
      }
    case Status(ok, fail) =>
      if Word(b).Some? {
        DecodedFits(ok, Word(b).value.1);
        DecodedFits(fail, Word(b).value.1);
      }
    case Array(max, elem) =>
      if Word(b).Some? {
        DecodedAllFit(elem, Word(b).value.0, Word(b).value.1);
      }
    case Chain(item) =>
      DecodedChainFits(item, b);
    case _ =>
  }

  ghost predicate GoodList(t: Ty, r: Option<Parsed>) {
    r.Some? ==> r.value.v.Items? && AllFit(t, r.value.v.items) && AllBits(t, r.value.v.items)
  }

  lemma {:induction false} DecodedAllFit(t: Ty, n: nat, b: seq<byte>)
    ensures GoodList(t, DecodeAll(t, n, b))
    ensures DecodeAll(t, n, b).Some? ==> |DecodeAll(t, n, b).value.v.items| == n
    decreases t, 1, n
  {
    if n > 0 && Decode(t, b).Some? {
      DecodedFits(t, b);
      DecodedAllFit(t, n - 1, Decode(t, b).value.rest);
    }
  }

  lemma {:induction false} DecodedChainFits(t: Ty, b: seq<byte>)
    ensures GoodList(t, DecodeChain(t, b))
    decreases t, 1, |b|
  {
    if Word(b).Some? {
      var rest := Word(b).value.1;
      DecodedFits(t, rest);
      if Decode(t, rest).Some? {
        DecodedChainFits(t, Decode(t, rest).value.rest);
      }
    }
  }
}
