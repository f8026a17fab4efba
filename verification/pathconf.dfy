/** PATHCONF results, whose four bools are coded inline or one by one: when does a result come back? */
module Pathconf {
  import opened Bytes
  import opened Xdr
  import opened Nfs

  /** The word for a bool: itself when coded inline, else 0 or 1. */
  function FlagWord(inline: bool, n: int): (w: nat)
    requires -I32 <= n < I32
    ensures w < U32
  {
    if inline then Wrap(n) else Flag(n)
  }

  function ReadFlag(inline: bool, w: nat): int
    requires w < U32
  {
    if inline then Unwrap(w) else Flag(w)
  }

  /** One bool comes back exactly if both sides are inline or it is 0 or 1. */
  lemma FlagComesBack(i: bool, k: bool, n: int)
    requires -I32 <= n < I32
    ensures ReadFlag(k, FlagWord(i, n)) == n <==> (i && k) || IsBit(n)
  {
  }

  /** A successful result; `no`, `restricted`, `insensitive` and `preserving` are its four bools. */
  datatype Result = Result(attr: Val, linkmax: nat, namemax: nat,
                           no: int, restricted: int, insensitive: int, preserving: int)
  {
    predicate Fits() {
      && Xdr.Fits(PostOpAttr, attr) && linkmax < U32 && namemax < U32
      && -I32 <= no < I32 && -I32 <= restricted < I32 && -I32 <= insensitive < I32 && -I32 <= preserving < I32
    }

    predicate Bits() {
      IsBit(no) && IsBit(restricted) && IsBit(insensitive) && IsBit(preserving)
    }

    /** The result as a value of the message type. */
    function ToVal(): Val {
      Choice(0, Both(attr, Both(Num(linkmax), Both(Num(namemax), FlagsOf()))))
    }

    function FlagsOf(): Val {
      Both(Num(no), Both(Num(restricted), Both(Num(insensitive), Num(preserving))))
    }
  }

  /** The four words, by either path. */
  function FlagBytes(inline: bool, r: Result): (b: seq<byte>)
    requires r.Fits()
    ensures |b| == 16
  {
    Be32(FlagWord(inline, r.no)) + (Be32(FlagWord(inline, r.restricted))
    + (Be32(FlagWord(inline, r.insensitive)) + Be32(FlagWord(inline, r.preserving))))
  }

  /** What xdr_PATHCONF3res emits for a success. */
  function EncodeBy(inline: bool, r: Result): seq<byte>
    requires r.Fits() && Encode(PostOpAttr, r.attr).Some?
  {
    Be32(0) + (Encode(PostOpAttr, r.attr).value + (Be32(r.linkmax) + (Be32(r.namemax) + FlagBytes(inline, r))))
  }

  /** The four bools read back; both paths need all 16 bytes. */
  function DecodeFlagsBy(inline: bool, b: seq<byte>): Option<Parsed> {
    if |b| < 16 then None
    else
      var w0, w1, w2, w3 := FromBe32(b[..4]), FromBe32(b[4..8]), FromBe32(b[8..12]), FromBe32(b[12..16]);
      Some(Parsed(Both(Num(ReadFlag(inline, w0)), Both(Num(ReadFlag(inline, w1)),
                  Both(Num(ReadFlag(inline, w2)), Num(ReadFlag(inline, w3))))), b[16..]))
  }

  /** What xdr_PATHCONF3res reads behind the status word of a success. */
  function DecodeOkBy(inline: bool, b: seq<byte>): Option<Parsed> {
    match Decode(Pair(PostOpAttr, Pair(UInt32, UInt32)), b)
    case None => None
    case Some(p) =>
      if !p.v.Both? || !p.v.snd.Both? then None
      else
        match DecodeFlagsBy(inline, p.rest)
        case None => None
        case Some(q) => Some(Parsed(Both(p.v.fst, Both(p.v.snd.fst, Both(p.v.snd.snd, q.v))), q.rest))
  }

  /** And the whole result. */
  function DecodeBy(inline: bool, b: seq<byte>): Option<Parsed> {
    match Word(b)
    case None => None
    case Some((n, rest)) =>
      if Unwrap(n) != 0 then Decode(Pathconf3res, b)
      else
        match DecodeOkBy(inline, rest)
        case None => None
        case Some(p) => Some(Parsed(Choice(0, p.v), p.rest))
  }

  // ---- One by one is the path of the type ----

  lemma PlainIsTheType(r: Result)
    requires r.Fits()
    ensures Fits(Pathconf3res, r.ToVal()) && Encode(PostOpAttr, r.attr).Some?
    ensures Encode(Pathconf3res, r.ToVal()) == Some(EncodeBy(false, r))
    ensures Bits(Pathconf3res, r.ToVal()) <==> r.Bits()
  {
    EncodesExactly(PostOpAttr, r.attr);
    PlainFlagsAreEncoded(r.no, r.restricted, r.insensitive, r.preserving);
    FourParts(PostOpAttr, Flags, r.attr, r.linkmax, r.namemax, r.FlagsOf(), Encode(PostOpAttr, r.attr).value,
              FlagBytes(false, r));
    EncodesExactly(Pathconf3res, r.ToVal());
    PlainBits(r);
  }

  /** A status 0, a part, two words and a last part. */
  lemma FourParts(a: Ty, z: Ty, attr: Val, m: nat, n: nat, flags: Val, p: seq<byte>, b: seq<byte>)
    requires m < U32 && n < U32 && Encode(a, attr) == Some(p) && Encode(z, flags) == Some(b)
    ensures Encode(Status(Pair(a, Pair(UInt32, Pair(UInt32, z))), a),
                   Choice(0, Both(attr, Both(Num(m), Both(Num(n), flags)))))
         == Some(Be32(0) + (p + (Be32(m) + (Be32(n) + b))))
  {
    var t, v, q := Prepend(UInt32, z, Num(n), flags, Be32(n), b);
    t, v, q := Prepend(UInt32, t, Num(m), v, Be32(m), q);
    t, v, q := Prepend(a, t, attr, v, p, q);
    OkBytes(t, a, v, q);
  }

  lemma OkBytes(ok: Ty, fail: Ty, x: Val, p: seq<byte>)
    requires Encode(ok, x) == Some(p)
    ensures Encode(Status(ok, fail), Choice(0, x)) == Some(Be32(0) + p)
  {
  }

  lemma PairBits(a: Ty, b: Ty, x: Val, y: Val)
    ensures Bits(Pair(a, b), Both(x, y)) <==> Bits(a, x) && Bits(b, y)
  {
  }

  lemma StatusBits(ok: Ty, fail: Ty, d: int, x: Val)
    ensures Bits(Status(ok, fail), Choice(d, x)) <==> Bits(if d == 0 then ok else fail, x)
  {
  }

  lemma FlagsBits(r: Result)
    ensures Bits(Flags, r.FlagsOf()) <==> r.Bits()
  {
    PairBits(Bool, Bool, Num(r.insensitive), Num(r.preserving));
    var v := Both(Num(r.insensitive), Num(r.preserving));
    PairBits(Bool, Pair(Bool, Bool), Num(r.restricted), v);
    PairBits(Bool, Pair(Bool, Pair(Bool, Bool)), Num(r.no), Both(Num(r.restricted), v));
  }

  lemma PlainBits(r: Result)
    ensures Bits(Pathconf3res, r.ToVal()) <==> r.Bits()
  {
    FlagsBits(r);
    AttributesHaveNoBools();
    NoBoolsNoProblem(PostOpAttr, r.attr);
    var t, v := Pair(UInt32, Flags), Both(Num(r.namemax), r.FlagsOf());
    PairBits(UInt32, Flags, Num(r.namemax), r.FlagsOf());
    PairBits(UInt32, t, Num(r.linkmax), v);
    PairBits(PostOpAttr, Pair(UInt32, t), r.attr, Both(Num(r.linkmax), v));
    StatusBits(Pathconf3resok, PostOpAttr, 0, Both(r.attr, Both(Num(r.linkmax), v)));
  }

  // ---- The round trip over the four pairs of paths ----

  /** What comes back of the four bools. */
  function FlagsRead(i: bool, k: bool, r: Result): Val
    requires r.Fits()
  {
    Both(Num(ReadFlag(k, FlagWord(i, r.no))), Both(Num(ReadFlag(k, FlagWord(i, r.restricted))),
    Both(Num(ReadFlag(k, FlagWord(i, r.insensitive))), Num(ReadFlag(k, FlagWord(i, r.preserving))))))
  }

  lemma FlagsBack(i: bool, k: bool, r: Result, rest: seq<byte>)
    requires r.Fits()
    ensures DecodeFlagsBy(k, FlagBytes(i, r) + rest) == Some(Parsed(FlagsRead(i, k, r), rest))
  {
    var a, b := FlagWord(i, r.no), FlagWord(i, r.restricted);
    var c, d := FlagWord(i, r.insensitive), FlagWord(i, r.preserving);
    Be32RoundTrip(a);
    Be32RoundTrip(b);
    Be32RoundTrip(c);
    Be32RoundTrip(d);
    var all := FlagBytes(i, r) + rest;
    assert all[..4] == Be32(a) && all[4..8] == Be32(b);
    assert all[8..12] == Be32(c) && all[12..16] == Be32(d) && all[16..] == rest;
  }

  /** The part before the bools. */
  lemma HeadBack(r: Result, rest: seq<byte>)
    requires r.Fits() && Encode(PostOpAttr, r.attr).Some?
    ensures Decode(Pair(PostOpAttr, Pair(UInt32, UInt32)),
                   Encode(PostOpAttr, r.attr).value + (Be32(r.linkmax) + (Be32(r.namemax) + rest)))
         == Some(Parsed(Both(r.attr, Both(Num(r.linkmax), Num(r.namemax))), rest))
  {
    var p := Encode(PostOpAttr, r.attr).value;
    AttributesHaveNoBools();
    NoBoolsNoProblem(PostOpAttr, r.attr);
    RoundTripExactly(PostOpAttr, r.attr, Be32(r.linkmax) + (Be32(r.namemax) + rest));
    WordBack(r.linkmax, Be32(r.namemax) + rest);
    WordBack(r.namemax, rest);
    DecodePair(UInt32, UInt32, Be32(r.linkmax) + (Be32(r.namemax) + rest),
               Parsed(Num(r.linkmax), Be32(r.namemax) + rest), Parsed(Num(r.namemax), rest));
    DecodePair(PostOpAttr, Pair(UInt32, UInt32), p + (Be32(r.linkmax) + (Be32(r.namemax) + rest)),
               Parsed(r.attr, Be32(r.linkmax) + (Be32(r.namemax) + rest)),
               Parsed(Both(Num(r.linkmax), Num(r.namemax)), rest));
  }

  lemma Reassociate(a: seq<byte>, p: seq<byte>, b: seq<byte>, c: seq<byte>, d: seq<byte>, rest: seq<byte>)
    ensures a + (p + (b + (c + d))) + rest == a + (p + (b + (c + (d + rest))))
  {
  }

  lemma FlagsComeBack(i: bool, k: bool, r: Result)
    requires r.Fits()
    ensures FlagsRead(i, k, r) == r.FlagsOf() <==> (i && k) || r.Bits()
  {
    FlagComesBack(i, k, r.no);
    FlagComesBack(i, k, r.restricted);
    FlagComesBack(i, k, r.insensitive);
    FlagComesBack(i, k, r.preserving);
  }

  /** And of the whole result. */
  lemma ResultBack(i: bool, k: bool, r: Result, rest: seq<byte>)
    requires r.Fits() && Encode(PostOpAttr, r.attr).Some?
    ensures DecodeBy(k, EncodeBy(i, r) + rest) == Some(Parsed(
      Choice(0, Both(r.attr, Both(Num(r.linkmax), Both(Num(r.namemax), FlagsRead(i, k, r))))), rest))
  {
    var p, flags := Encode(PostOpAttr, r.attr).value, FlagBytes(i, r);
    var tail := p + (Be32(r.linkmax) + (Be32(r.namemax) + (flags + rest)));
    Reassociate(Be32(0), p, Be32(r.linkmax), Be32(r.namemax), flags, rest);
    WordBack(0, tail);
    HeadBack(r, flags + rest);
    FlagsBack(i, k, r, rest);
  }

  /** A successful result comes back, whatever follows it, exactly if both sides code the bools inline or the
      bools are 0 or 1. */
  lemma PathconfComesBackExactly(i: bool, k: bool, r: Result, rest: seq<byte>)
    requires r.Fits()
    ensures Encode(PostOpAttr, r.attr).Some?
    ensures DecodeBy(k, EncodeBy(i, r) + rest) == Some(Parsed(r.ToVal(), rest)) <==> (i && k) || r.Bits()
  {
    EncodesExactly(PostOpAttr, r.attr);
    ResultBack(i, k, r, rest);
    FlagsComeBack(i, k, r);
  }

  /** A failed result is read by the type alone. */
  lemma FailedBy(k: bool, d: int, b: seq<byte>)
    requires -I32 <= d < I32 && d != 0
    ensures DecodeBy(k, Be32(Wrap(d)) + b) == Decode(Pathconf3res, Be32(Wrap(d)) + b)
  {
    WordBack(Wrap(d), b);
  }

  lemma StatusRead(ok: Ty, fail: Ty, b: seq<byte>, d: int, rest: seq<byte>)
    requires -I32 <= d < I32 && Word(b) == Some((Wrap(d), rest))
    ensures Decode(Status(ok, fail), b) ==
      var p := Decode(if d == 0 then ok else fail, rest);
      if p.None? then None else Some(Parsed(Choice(d, p.value.v), p.value.rest))
  {
  }

  lemma FailureBytes(ok: Ty, fail: Ty, d: int, x: Val, p: seq<byte>)
    requires -I32 <= d < I32 && d != 0 && Encode(fail, x) == Some(p)
    ensures Encode(Status(ok, fail), Choice(d, x)) == Some(Be32(Wrap(d)) + p)
  {
  }

  /** A value without bools comes back. */
  lemma ArmBack(t: Ty, x: Val, rest: seq<byte>) returns (p: seq<byte>)
    requires Fits(t, x) && !HasBool(t)
    ensures Encode(t, x) == Some(p) && Decode(t, p + rest) == Some(Parsed(x, rest))
  {
    EncodesExactly(t, x);
    p := Encode(t, x).value;
    NoBoolsNoProblem(t, x);
    RoundTripExactly(t, x, rest);
  }

  /** So does the arm of a failure. */
  lemma FailureArmBack(ok: Ty, fail: Ty, d: int, x: Val, p: seq<byte>, rest: seq<byte>)
    requires -I32 <= d < I32 && d != 0 && Encode(fail, x) == Some(p) && Decode(fail, p + rest) == Some(Parsed(x, rest))
    ensures Encode(Status(ok, fail), Choice(d, x)) == Some(Be32(Wrap(d)) + p)
    ensures Decode(Status(ok, fail), Be32(Wrap(d)) + (p + rest)) == Some(Parsed(Choice(d, x), rest))
  {
    WordBack(Wrap(d), p + rest);
    FailureBytes(ok, fail, d, x, p);
    StatusRead(ok, fail, Be32(Wrap(d)) + (p + rest), d, p + rest);
  }

  lemma FailureBack(ok: Ty, fail: Ty, d: int, x: Val, rest: seq<byte>) returns (p: seq<byte>)
    requires -I32 <= d < I32 && d != 0 && Fits(fail, x) && !HasBool(fail)
    ensures Encode(Status(ok, fail), Choice(d, x)) == Some(Be32(Wrap(d)) + p)
    ensures Be32(Wrap(d)) + p + rest == Be32(Wrap(d)) + (p + rest)
    ensures Decode(Status(ok, fail), Be32(Wrap(d)) + (p + rest)) == Some(Parsed(Choice(d, x), rest))
  {
    p := ArmBack(fail, x, rest);
    FailureArmBack(ok, fail, d, x, p, rest);
    Assoc(Be32(Wrap(d)), p, rest);
  }

  /** A failed result always does: it has no bools. */
  lemma FailureComesBack(k: bool, d: int, attr: Val, rest: seq<byte>)
    requires -I32 <= d < I32 && d != 0 && Fits(PostOpAttr, attr)
    ensures Encode(Pathconf3res, Choice(d, attr)).Some?
    ensures DecodeBy(k, Encode(Pathconf3res, Choice(d, attr)).value + rest) == Some(Parsed(Choice(d, attr), rest))
  {
    AttributesHaveNoBools();
    var p := FailureBack(Pathconf3resok, PostOpAttr, d, attr, rest);
    FailedBy(k, d, p + rest);
  }

  // ---- Reading one by one is the path of the type ----

  /** What is left to do behind a first part that was read. */
  function Behind(p: Option<Parsed>, b: Ty): Option<Parsed> {
    if p.None? then None
    else
      match Decode(b, p.value.rest)
      case None => None
      case Some(q) => Some(Parsed(Both(p.value.v, q.v), q.rest))
  }

  lemma PairRead(a: Ty, b: Ty, bytes: seq<byte>)
    ensures Decode(Pair(a, b), bytes) == Behind(Decode(a, bytes), b)
  {
  }

  /** Three parts and a fourth behind them. */
  lemma FourthRead(a: Ty, b: Ty, c: Ty, d: Ty, bytes: seq<byte>)
    ensures Decode(Pair(a, Pair(b, Pair(c, d))), bytes) ==
      match Decode(Pair(a, Pair(b, c)), bytes)
      case None => None
      case Some(p) =>
        if !p.v.Both? || !p.v.snd.Both? then None
        else
          match Decode(d, p.rest)
          case None => None
          case Some(q) => Some(Parsed(Both(p.v.fst, Both(p.v.snd.fst, Both(p.v.snd.snd, q.v))), q.rest))
  {
    PairRead(a, Pair(b, Pair(c, d)), bytes);
    PairRead(a, Pair(b, c), bytes);
    var p := Decode(a, bytes);
    if p.Some? {
      PairRead(b, Pair(c, d), p.value.rest);
      PairRead(b, c, p.value.rest);
      var q := Decode(b, p.value.rest);
      if q.Some? {
        PairRead(c, d, q.value.rest);
      }
    }
  }

  lemma BoolRead(b: seq<byte>)
    ensures Decode(Bool, b) == if |b| < 4 then None else Some(Parsed(Num(Flag(FromBe32(b[..4]))), b[4..]))
  {
  }

  lemma PlainFlagsRead(b: seq<byte>)
    ensures DecodeFlagsBy(false, b) == Decode(Flags, b)
  {
    BoolRead(b);
    PairRead(Bool, Pair(Bool, Pair(Bool, Bool)), b);
    if |b| >= 4 {
      var c := b[4..];
      BoolRead(c);
      PairRead(Bool, Pair(Bool, Bool), c);
      if |c| >= 4 {
        LastTwo(b, c);
      }
    }
  }

  lemma LastTwo(b: seq<byte>, c: seq<byte>)
    requires |b| >= 8 && c == b[4..]
    ensures c[..4] == b[4..8]
    ensures Decode(Pair(Bool, Bool), c[4..]) == if |b| < 16 then None else Some(Parsed(
      Both(Num(Flag(FromBe32(b[8..12]))), Num(Flag(FromBe32(b[12..16])))), b[16..]))
  {
    var d := c[4..];
    BoolRead(d);
    PairRead(Bool, Bool, d);
    if |d| >= 4 {
      var e := d[4..];
      BoolRead(e);
      assert d[..4] == b[8..12];
      if |e| >= 4 {
        assert e[..4] == b[12..16] && e[4..] == b[16..];
      }
    }
  }

  /** Without the inline buffer the reader is that of the type, on any bytes. */
  lemma PlainReadIsTheType(b: seq<byte>)
    ensures DecodeBy(false, b) == Decode(Pathconf3res, b)
  {
    if Word(b).Some? && Unwrap(Word(b).value.0) == 0 {
      var rest := Word(b).value.1;
      FourthRead(PostOpAttr, UInt32, UInt32, Flags, rest);
      var p := Decode(Pair(PostOpAttr, Pair(UInt32, UInt32)), rest);
      if p.Some? {
        PlainFlagsRead(p.value.rest);
      }
      StatusRead(Pathconf3resok, PostOpAttr, b, 0, rest);
    }
  }
}
