/** The messages of NFS version 3 (RFC 1813) and MOUNT that the server exchanges, and their codec. */
module Nfs {
  import opened Bytes
  import Entries
  import opened Xdr

  // ---- The message types ----

  const NFS3_FHSIZE: nat := 64
  const NFS3_COOKIEVERFSIZE: nat := 8
  const MNTPATHLEN: nat := 1024
  const FHSIZE3: nat := 64
  /** The bound `~0`. */
  const ANY: nat := 0xFFFF_FFFF

  const NfsFh3: Ty := Opaque(NFS3_FHSIZE)
  const Filename3: Ty := Str(ANY)
  const Dirpath: Ty := Str(MNTPATHLEN)
  const Cookieverf3: Ty := Fixed(NFS3_COOKIEVERFSIZE)
  const Nfstime3: Ty := Pair(UInt32, UInt32)
  const Specdata3: Ty := Pair(UInt32, UInt32)
  /** fattr3, from its end: the three times, fsid and fileid, the sizes and rdev, the rest. */
  const FattrTimes: Ty := Pair(Nfstime3, Pair(Nfstime3, Nfstime3))
  const FattrIds: Ty := Pair(Hyper, Pair(Hyper, FattrTimes))
  const FattrSizes: Ty := Pair(Hyper, Pair(Hyper, Pair(Specdata3, FattrIds)))
  const Fattr3: Ty := Pair(Int32, Pair(UInt32, Pair(UInt32, Pair(UInt32, Pair(UInt32, FattrSizes)))))
  const PostOpAttr: Ty := Flagged(Fattr3)

  const Mountres3ok: Ty := Pair(Opaque(FHSIZE3), Array(ANY, Int32))
  const Mountres3: Ty := Status(Mountres3ok, Void)
  const Getattr3res: Ty := Status(Fattr3, Void)
  const Lookup3args: Ty := Pair(NfsFh3, Filename3)
  const Lookup3res: Ty := Status(Pair(NfsFh3, Pair(PostOpAttr, PostOpAttr)), PostOpAttr)
  const Access3args: Ty := Pair(NfsFh3, UInt32)
  const Access3res: Ty := Status(Pair(PostOpAttr, UInt32), PostOpAttr)
  const Read3args: Ty := Pair(NfsFh3, Pair(Hyper, UInt32))
  const Read3resok: Ty := Pair(PostOpAttr, Pair(UInt32, Pair(Bool, Opaque(ANY))))
  const Read3res: Ty := Status(Read3resok, PostOpAttr)
  const Readdir3args: Ty := Pair(NfsFh3, Pair(Hyper, Pair(Cookieverf3, UInt32)))
  const Entry3: Ty := Pair(Hyper, Pair(Filename3, Hyper))
  const Dirlist3: Ty := Pair(Chain(Entry3), Bool)
  const Readdir3resok: Ty := Pair(PostOpAttr, Pair(Cookieverf3, Dirlist3))
  const Readdir3res: Ty := Status(Readdir3resok, PostOpAttr)
  const FsinfoEnd: Ty := Pair(UInt32, Pair(UInt32, Pair(Hyper, Pair(Nfstime3, UInt32))))
  const Fsinfo3resok: Ty := Pair(PostOpAttr, Pair(UInt32, Pair(UInt32, Pair(UInt32, Pair(UInt32, Pair(UInt32,
      FsinfoEnd))))))
  const Fsinfo3res: Ty := Status(Fsinfo3resok, PostOpAttr)
  const Flags: Ty := Pair(Bool, Pair(Bool, Pair(Bool, Bool)))
  const Pathconf3resok: Ty := Pair(PostOpAttr, Pair(UInt32, Pair(UInt32, Flags)))
  const Pathconf3res: Ty := Status(Pathconf3resok, PostOpAttr)

  datatype Message =
    | MntArgs | MntRes | GetattrArgs | GetattrRes | LookupArgs | LookupRes | AccessArgs | AccessRes
    | ReadArgs | ReadRes | ReaddirArgs | ReaddirRes | FsinfoArgs | FsinfoRes | PathconfArgs | PathconfRes

  function TypeOf(m: Message): Ty {
    match m
    case MntArgs => Dirpath
    case MntRes => Mountres3
    case GetattrArgs => NfsFh3
    case GetattrRes => Getattr3res
    case LookupArgs => Lookup3args
    case LookupRes => Lookup3res
    case AccessArgs => Access3args
    case AccessRes => Access3res
    case ReadArgs => Read3args
    case ReadRes => Read3res
    case ReaddirArgs => Readdir3args
    case ReaddirRes => Readdir3res
    case FsinfoArgs => NfsFh3
    case FsinfoRes => Fsinfo3res
    case PathconfArgs => NfsFh3
    case PathconfRes => Pathconf3res
  }

  // ---- Every message ----

  predicate HasBool(t: Ty) {
    match t
    case Bool => true
    case Pair(a, b) => HasBool(a) || HasBool(b)
    case Flagged(arm) => HasBool(arm)
    case Status(ok, fail) => HasBool(ok) || HasBool(fail)
    case Array(_, elem) => HasBool(elem)
    case Chain(item) => HasBool(item)
    case _ => false
  }

  lemma {:induction false} NoBoolsNoProblem(t: Ty, v: Val)
    requires !HasBool(t)
    ensures Bits(t, v)
    decreases t
  {
    match (t, v)
    case (Pair(a, b), Both(x, y)) =>
      NoBoolsNoProblem(a, x);
      NoBoolsNoProblem(b, y);
    case (Flagged(arm), Choice(_, x)) =>
      NoBoolsNoProblem(arm, x);
    case (Status(ok, fail), Choice(_, x)) =>
      NoBoolsNoProblem(ok, x);
      NoBoolsNoProblem(fail, x);
    case (Array(_, elem), Items(xs)) =>
      forall i | 0 <= i < |xs| ensures Bits(elem, xs[i]) { NoBoolsNoProblem(elem, xs[i]); }
    case (Chain(item), Items(xs)) =>
      forall i | 0 <= i < |xs| ensures Bits(item, xs[i]) { NoBoolsNoProblem(item, xs[i]); }
    case _ =>
  }

  /** The three messages that carry bools which are not the flag of a union. */
  predicate CarriesBools(m: Message) {
    m.ReadRes? || m.ReaddirRes? || m.PathconfRes?
  }

  lemma MessagesWithBools(m: Message)
    ensures HasBool(TypeOf(m)) <==> CarriesBools(m)
  {
    if CarriesBools(m) {
      WithBools(m);
    } else if m.LookupRes? || m.AccessRes? || m.FsinfoRes? || m.GetattrRes? {
      ResultWithoutBools(m);
    } else {
      RestWithoutBools(m);
    }
  }

  lemma WithBools(m: Message)
    requires CarriesBools(m)
    ensures HasBool(TypeOf(m))
  {
    assert HasBool(Pair(Bool, Opaque(ANY)));
    assert HasBool(Dirlist3);
    assert HasBool(Flags);
    assert HasBool(Pair(UInt32, Flags));
  }

  lemma RestWithoutBools(m: Message)
    requires !CarriesBools(m) && !m.LookupRes? && !m.AccessRes? && !m.FsinfoRes? && !m.GetattrRes?
    ensures !HasBool(TypeOf(m))
  {
  }

  lemma ResultWithoutBools(m: Message)
    requires m.LookupRes? || m.AccessRes? || m.FsinfoRes? || m.GetattrRes?
    ensures !HasBool(TypeOf(m))
  {
    AttributesHaveNoBools();
    if m.FsinfoRes? {
      FsinfoHasNoBools();
      StatusHasNoBools(Fsinfo3resok, PostOpAttr);
    } else if m.LookupRes? {
      assert !HasBool(Pair(PostOpAttr, PostOpAttr));
      StatusHasNoBools(Pair(NfsFh3, Pair(PostOpAttr, PostOpAttr)), PostOpAttr);
    } else if m.AccessRes? {
      StatusHasNoBools(Pair(PostOpAttr, UInt32), PostOpAttr);
    } else {
      StatusHasNoBools(Fattr3, Void);
    }
  }

  lemma StatusHasNoBools(ok: Ty, fail: Ty)
    requires !HasBool(ok) && !HasBool(fail)
    ensures !HasBool(Status(ok, fail))
  {
  }

  lemma AttributesHaveNoBools()
    ensures !HasBool(Fattr3) && !HasBool(PostOpAttr)
  {
    assert !HasBool(FattrTimes);
    assert !HasBool(FattrIds);
    assert !HasBool(FattrSizes);
  }

  lemma FsinfoHasNoBools()
    ensures !HasBool(Fsinfo3resok)
  {
    AttributesHaveNoBools();
    assert !HasBool(FsinfoEnd);
  }

  /** Every message within bounds is encoded, in whole words, and is decoded to itself whatever follows
      it; for the three messages with bools, exactly if these are 0 or 1. No message is encoded out of
      bounds. */
  lemma MessageRoundTrip(m: Message, v: Val, rest: seq<byte>)
    ensures Encode(TypeOf(m), v).Some? <==> Fits(TypeOf(m), v)
    ensures Fits(TypeOf(m), v) ==>
      var b := Encode(TypeOf(m), v).value;
      && |b| % 4 == 0
      && (Decode(TypeOf(m), b + rest) == Some(Parsed(v, rest)) <==> Bits(TypeOf(m), v))
      && (!CarriesBools(m) ==> Bits(TypeOf(m), v))
  {
    var t := TypeOf(m);
    EncodesExactly(t, v);
    if Fits(t, v) {
      EncodesWords(t, v);
      RoundTripExactly(t, v, rest);
      MessagesWithBools(m);
      if !HasBool(t) {
        NoBoolsNoProblem(t, v);
      }
    }
  }

  // ---- Attributes ----

  /** fattr3, field by field. */
  datatype Fattr = Fattr(
    kind: int, mode: nat, nlink: nat, uid: nat, gid: nat, size: nat, used: nat, rdev1: nat, rdev2: nat,
    fsid: nat, fileid: nat, atimeSec: nat, atimeNsec: nat, mtimeSec: nat, mtimeNsec: nat, ctimeSec: nat, ctimeNsec: nat)
  {
    predicate Valid() {
      && -I32 <= kind < I32 && mode < U32 && nlink < U32 && uid < U32 && gid < U32 && size < U64 && used < U64
      && rdev1 < U32 && rdev2 < U32 && fsid < U64 && fileid < U64
      && atimeSec < U32 && atimeNsec < U32 && mtimeSec < U32 && mtimeNsec < U32 && ctimeSec < U32 && ctimeNsec < U32
    }
  }

  function Nums(a: int, b: int): Val {
    Both(Num(a), Num(b))
  }

  function TimesVal(a: Fattr): Val {
    Both(Nums(a.atimeSec, a.atimeNsec), Both(Nums(a.mtimeSec, a.mtimeNsec), Nums(a.ctimeSec, a.ctimeNsec)))
  }

  function SizesVal(a: Fattr): Val {
    Both(Num(a.size), Both(Num(a.used), Both(Nums(a.rdev1, a.rdev2), Both(Num(a.fsid), Both(Num(a.fileid),
        TimesVal(a))))))
  }

  function FattrVal(a: Fattr): Val {
    Both(Num(a.kind), Both(Num(a.mode), Both(Num(a.nlink), Both(Num(a.uid), Both(Num(a.gid), SizesVal(a))))))
  }

  function Be64(n: nat): (b: seq<byte>)
    requires n < U64
    ensures |b| == 8
  {
    Be32(n / U32) + Be32(n % U32)
  }

  /** The 84 bytes of fattr3, in the order in which NFS/nfs.x declares its fields. */
  function FattrBytes(a: Fattr): (b: seq<byte>)
    requires a.Valid()
    ensures |b| == 84
  {
    Be32(Wrap(a.kind)) + (Be32(a.mode) + (Be32(a.nlink) + (Be32(a.uid) + (Be32(a.gid) + SizesBytes(a)))))
  }

  function SizesBytes(a: Fattr): (b: seq<byte>)
    requires a.Valid()
    ensures |b| == 64
  {
    Be64(a.size) + (Be64(a.used) + (Be32(a.rdev1) + Be32(a.rdev2) + (Be64(a.fsid) + (Be64(a.fileid) + TimesBytes(a)))))
  }

  function TimesBytes(a: Fattr): (b: seq<byte>)
    requires a.Valid()
    ensures |b| == 24
  {
    Be32(a.atimeSec) + Be32(a.atimeNsec) + (Be32(a.mtimeSec) + Be32(a.mtimeNsec) + (Be32(a.ctimeSec)
        + Be32(a.ctimeNsec)))
  }

  lemma PairIs(a: Ty, b: Ty, x: Val, y: Val, p: seq<byte>, q: seq<byte>)
    requires Encode(a, x) == Some(p) && Encode(b, y) == Some(q)
    ensures Encode(Pair(a, b), Both(x, y)) == Some(p + q)
  {
  }

  lemma TimesLayout(a: Fattr)
    requires a.Valid()
    ensures Encode(FattrTimes, TimesVal(a)) == Some(TimesBytes(a))
  {
    WordPair(a.ctimeSec, a.ctimeNsec);
    WordPair(a.mtimeSec, a.mtimeNsec);
    WordPair(a.atimeSec, a.atimeNsec);
    var t, v, b := Nfstime3, Nums(a.ctimeSec, a.ctimeNsec), Be32(a.ctimeSec) + Be32(a.ctimeNsec);
    t, v, b := Prepend(Nfstime3, t, Nums(a.mtimeSec, a.mtimeNsec), v, Be32(a.mtimeSec) + Be32(a.mtimeNsec), b);
    t, v, b := Prepend(Nfstime3, t, Nums(a.atimeSec, a.atimeNsec), v, Be32(a.atimeSec) + Be32(a.atimeNsec), b);
  }

  lemma SizesLayout(a: Fattr)
    requires a.Valid()
    ensures Encode(FattrSizes, SizesVal(a)) == Some(SizesBytes(a))
  {
    TimesLayout(a);
    WordPair(a.rdev1, a.rdev2);
    var t, v, b := Prepend(Hyper, FattrTimes, Num(a.fileid), TimesVal(a), Be64(a.fileid), TimesBytes(a));
    t, v, b := Prepend(Hyper, t, Num(a.fsid), v, Be64(a.fsid), b);
    t, v, b := Prepend(Specdata3, t, Nums(a.rdev1, a.rdev2), v, Be32(a.rdev1) + Be32(a.rdev2), b);
    t, v, b := Prepend(Hyper, t, Num(a.used), v, Be64(a.used), b);
    t, v, b := Prepend(Hyper, t, Num(a.size), v, Be64(a.size), b);
  }

  /** xdr_fattr3 emits exactly these bytes. */
  lemma FattrLayout(a: Fattr)
    requires a.Valid()
    ensures Encode(Fattr3, FattrVal(a)) == Some(FattrBytes(a))
  {
    SizesLayout(a);
    var t, v, b := Prepend(UInt32, FattrSizes, Num(a.gid), SizesVal(a), Be32(a.gid), SizesBytes(a));
    t, v, b := Prepend(UInt32, t, Num(a.uid), v, Be32(a.uid), b);
    t, v, b := Prepend(UInt32, t, Num(a.nlink), v, Be32(a.nlink), b);
    t, v, b := Prepend(UInt32, t, Num(a.mode), v, Be32(a.mode), b);
    t, v, b := Prepend(Int32, t, Num(a.kind), v, Be32(Wrap(a.kind)), b);
  }

  lemma WordPair(a: nat, b: nat)
    requires a < U32 && b < U32
    ensures Encode(Pair(UInt32, UInt32), Nums(a, b)) == Some(Be32(a) + Be32(b))
  {
    PairIs(UInt32, UInt32, Num(a), Num(b), Be32(a), Be32(b));
  }

  /** One more field in front of fields whose encoding is known. */
  lemma Prepend(a: Ty, t: Ty, x: Val, v: Val, p: seq<byte>, b: seq<byte>) returns (t': Ty, v': Val, b': seq<byte>)
    requires Encode(a, x) == Some(p) && Encode(t, v) == Some(b)
    ensures t' == Pair(a, t) && v' == Both(x, v) && b' == p + b && Encode(t', v') == Some(b')
  {
    t', v', b' := Pair(a, t), Both(x, v), p + b;
  }

  // ---- Directory listings ----

  datatype DirEntry = DirEntry(fileid: nat, name: seq<byte>, cookie: nat) {
    predicate Valid() {
      fileid < U64 && |name| < U32 && Entries.NoNul(name) && cookie < U64
    }
  }

  function EntryVal(e: DirEntry): Val {
    Both(Num(e.fileid), Both(Raw(e.name), Num(e.cookie)))
  }

  function EntryVals(es: seq<DirEntry>): seq<Val> {
    if es == [] then [] else [EntryVal(es[0])] + EntryVals(es[1..])
  }

  /** The linked list of entries on the wire: every entry preceded by TRUE, the last followed by FALSE. */
  function EntryBytes(es: seq<DirEntry>): seq<byte>
    requires forall i :: 0 <= i < |es| ==> es[i].Valid()
  {
    if es == [] then Be32(0)
    else
      var e := es[0];
      assert e.Valid();
      Be32(1) + (Be64(e.fileid) + (Be32(|e.name|) + Padded(e.name) + Be64(e.cookie)) + EntryBytes(es[1..]))
  }

  /** xdr_entry3 behind xdr_pointer emits exactly that, for lists of any length. */
  lemma {:induction false} EntriesLayout(es: seq<DirEntry>)
    requires forall i :: 0 <= i < |es| ==> es[i].Valid()
    ensures Encode(Chain(Entry3), Items(EntryVals(es))) == Some(EntryBytes(es))
  {
    if es != [] {
      EntriesLayout(es[1..]);
      EntryLayout(es[0]);
      assert EntryVals(es)[0] == EntryVal(es[0]) && EntryVals(es)[1..] == EntryVals(es[1..]);
      ChainCons(Entry3, EntryVals(es));
    }
  }

  lemma EntryLayout(e: DirEntry)
    requires e.Valid()
    ensures Encode(Entry3, EntryVal(e)) == Some(Be64(e.fileid) + (Be32(|e.name|) + Padded(e.name) + Be64(e.cookie)))
  {
    PairIs(Filename3, Hyper, Raw(e.name), Num(e.cookie), Be32(|e.name|) + Padded(e.name), Be64(e.cookie));
  }

  lemma ChainCons(t: Ty, vs: seq<Val>)
    requires vs != []
    ensures Encode(Chain(t), Items(vs))
         == Join(Some(Be32(1)), Join(Encode(t, vs[0]), Encode(Chain(t), Items(vs[1..]))))
  {
  }

  // ---- The inline path of PATHCONF ----

  /** Four bools written as xdr_bool does. */
  function PlainFlags(a: int, b: int, c: int, d: int): seq<byte> {
    Be32(Flag(a)) + (Be32(Flag(b)) + (Be32(Flag(c)) + Be32(Flag(d))))
  }

  /** Four bools written as IXDR_PUT_BOOL does: the numbers themselves. */
  function InlineFlags(a: int, b: int, c: int, d: int): seq<byte>
    requires -I32 <= a < I32 && -I32 <= b < I32 && -I32 <= c < I32 && -I32 <= d < I32
  {
    Be32(Wrap(a)) + (Be32(Wrap(b)) + (Be32(Wrap(c)) + Be32(Wrap(d))))
  }

  predicate IsBit(n: int) {
    n == 0 || n == 1
  }

  lemma SameWord(n: int)
    requires -I32 <= n < I32
    ensures Be32(Flag(n)) == Be32(Wrap(n)) <==> IsBit(n)
  {
    Be32RoundTrip(Flag(n));
    Be32RoundTrip(Wrap(n));
  }

  /** The two encoding paths agree byte for byte exactly when the four bools are 0 or 1. */
  lemma InlineEncodingAgrees(a: int, b: int, c: int, d: int)
    requires -I32 <= a < I32 && -I32 <= b < I32 && -I32 <= c < I32 && -I32 <= d < I32
    ensures PlainFlags(a, b, c, d) == InlineFlags(a, b, c, d) <==> IsBit(a) && IsBit(b) && IsBit(c) && IsBit(d)
  {
    SameWord(a);
    SameWord(b);
    SameWord(c);
    SameWord(d);
    var (pa, pb, pc, pd) := (Be32(Flag(a)), Be32(Flag(b)), Be32(Flag(c)), Be32(Flag(d)));
    var (qa, qb, qc, qd) := (Be32(Wrap(a)), Be32(Wrap(b)), Be32(Wrap(c)), Be32(Wrap(d)));
    SameParts(pa, pb + (pc + pd), qa, qb + (qc + qd));
    SameParts(pb, pc + pd, qb, qc + qd);
    SameParts(pc, pd, qc, qd);
  }

  lemma SameParts(a: seq<byte>, x: seq<byte>, b: seq<byte>, y: seq<byte>)
    requires |a| == |b|
    ensures a + x == b + y <==> a == b && x == y
  {
    if a + x == b + y {
      assert a == (a + x)[..|a|] && x == (a + x)[|a|..];
      assert b == (b + y)[..|b|] && y == (b + y)[|b|..];
    }
  }

  /** Both paths are those of the type when the bools are 0 or 1. */
  lemma PlainFlagsAreEncoded(a: int, b: int, c: int, d: int)
    requires -I32 <= a < I32 && -I32 <= b < I32 && -I32 <= c < I32 && -I32 <= d < I32
    ensures Encode(Flags, Both(Num(a), Both(Num(b), Both(Num(c), Num(d))))) == Some(PlainFlags(a, b, c, d))
  {
    PairIs(Bool, Bool, Num(c), Num(d), Be32(Flag(c)), Be32(Flag(d)));
    PairIs(Bool, Pair(Bool, Bool), Num(b), Both(Num(c), Num(d)), Be32(Flag(b)), Be32(Flag(c)) + Be32(Flag(d)));
  }

  /** Four bools read as IXDR_GET_BOOL does. */
  function InlineRead(words: seq<nat>): seq<int>
    requires |words| == 4 && forall i :: 0 <= i < 4 ==> words[i] < U32
  {
    [Unwrap(words[0]), Unwrap(words[1]), Unwrap(words[2]), Unwrap(words[3])]
  }

  /** Four bools read as xdr_bool does. */
  function PlainRead(words: seq<nat>): seq<int>
    requires |words| == 4
  {
    [Flag(words[0]), Flag(words[1]), Flag(words[2]), Flag(words[3])]
  }

  /** The two decoding paths agree exactly when the four words on the wire are 0 or 1. */
  lemma InlineDecodingAgrees(words: seq<nat>)
    requires |words| == 4 && forall i :: 0 <= i < 4 ==> words[i] < U32
    ensures InlineRead(words) == PlainRead(words) <==> forall i :: 0 <= i < 4 ==> IsBit(words[i])
  {
    var p, q := PlainRead(words), InlineRead(words);
    assert forall i :: 0 <= i < 4 ==> p[i] == Flag(words[i]) && q[i] == Unwrap(words[i]);
  }
}
