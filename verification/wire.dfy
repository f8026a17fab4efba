/** What each message looks like on the wire, field by field in the order of NFS/nfs.x: the reference
    against which the composition of the codec is checked. */
module Wire {
  import opened Bytes
  import Entries
  import opened Xdr
  import opened Nfs

  /** Optional attributes. */
  predicate AttrOk(a: Option<Fattr>) {
    a.Some? ==> a.value.Valid()
  }

  function AttrVal(a: Option<Fattr>): Val {
    if a.None? then Choice(0, Unit) else Choice(1, FattrVal(a.value))
  }

  function AttrBytes(a: Option<Fattr>): seq<byte>
    requires AttrOk(a)
  {
    if a.None? then Be32(0) else Be32(1) + FattrBytes(a.value)
  }

  /** A counted sequence of bytes: opaque or string. */
  function CountedBytes(b: seq<byte>): seq<byte>
    requires |b| < U32
  {
    Be32(|b|) + Padded(b)
  }

  predicate HandleOk(h: seq<byte>) {
    |h| <= 64
  }

  lemma AttrLayout(a: Option<Fattr>)
    requires AttrOk(a)
    ensures Encode(PostOpAttr, AttrVal(a)) == Some(AttrBytes(a))
  {
    if a.Some? {
      FattrLayout(a.value);
      FlaggedIs(Fattr3, FattrVal(a.value), FattrBytes(a.value));
    }
  }

  lemma FlaggedIs(arm: Ty, x: Val, p: seq<byte>)
    requires Encode(arm, x) == Some(p)
    ensures Encode(Flagged(arm), Choice(1, x)) == Some(Be32(1) + p)
  {
  }

  lemma StatusIs(ok: Ty, fail: Ty, d: int, x: Val, p: seq<byte>)
    requires -I32 <= d < I32 && Encode(if d == 0 then ok else fail, x) == Some(p)
    ensures Encode(Status(ok, fail), Choice(d, x)) == Some(Be32(Wrap(d)) + p)
  {
  }

  lemma HandleIs(h: seq<byte>)
    requires HandleOk(h)
    ensures Encode(NfsFh3, Raw(h)) == Some(CountedBytes(h))
  {
  }

  lemma NameIs(max: nat, name: seq<byte>)
    requires |name| <= max && |name| < U32 && Entries.NoNul(name)
    ensures Encode(Str(max), Raw(name)) == Some(CountedBytes(name))
  {
  }

  // ---- Arguments ----

  lemma LookupCall(dir: seq<byte>, name: seq<byte>)
    requires HandleOk(dir) && |name| < U32 && Entries.NoNul(name)
    ensures Encode(TypeOf(LookupArgs), Both(Raw(dir), Raw(name))) == Some(CountedBytes(dir) + CountedBytes(name))
  {
    HandleIs(dir);
    NameIs(ANY, name);
    PairIs(NfsFh3, Filename3, Raw(dir), Raw(name), CountedBytes(dir), CountedBytes(name));
  }

  lemma AccessCall(h: seq<byte>, access: nat)
    requires HandleOk(h) && access < U32
    ensures Encode(TypeOf(AccessArgs), Both(Raw(h), Num(access))) == Some(CountedBytes(h) + Be32(access))
  {
    HandleIs(h);
    PairIs(NfsFh3, UInt32, Raw(h), Num(access), CountedBytes(h), Be32(access));
  }

  lemma ReadCall(h: seq<byte>, off: nat, count: nat)
    requires HandleOk(h) && off < U64 && count < U32
    ensures Encode(TypeOf(ReadArgs), Both(Raw(h), Nums(off, count))) == Some(CountedBytes(h) + (Be64(off)
        + Be32(count)))
  {
    HandleIs(h);
    var t, v, b := Prepend(Hyper, UInt32, Num(off), Num(count), Be64(off), Be32(count));
    t, v, b := Prepend(NfsFh3, t, Raw(h), v, CountedBytes(h), b);
  }

  lemma ReaddirCall(h: seq<byte>, cookie: nat, verf: seq<byte>, count: nat)
    requires HandleOk(h) && cookie < U64 && |verf| == 8 && count < U32
    ensures Encode(TypeOf(ReaddirArgs), Both(Raw(h), Both(Num(cookie), Both(Raw(verf), Num(count)))))
         == Some(CountedBytes(h) + (Be64(cookie) + (verf + Be32(count))))
  {
    HandleIs(h);
    VerifierIs(verf);
    var t, v, b := Prepend(Cookieverf3, UInt32, Raw(verf), Num(count), verf, Be32(count));
    t, v, b := Prepend(Hyper, t, Num(cookie), v, Be64(cookie), b);
    t, v, b := Prepend(NfsFh3, t, Raw(h), v, CountedBytes(h), b);
  }

  // ---- Results ----

  /** A failed call: the status, then the attributes; MNT and GETATTR send the status alone. */
  lemma FailureReply(m: Message, d: int, a: Option<Fattr>)
    requires m in {LookupRes, AccessRes, ReadRes, ReaddirRes, FsinfoRes, PathconfRes, MntRes, GetattrRes}
    requires d != 0 && -I32 <= d < I32 && AttrOk(a)
    ensures m != MntRes && m != GetattrRes ==>
      Encode(TypeOf(m), Choice(d, AttrVal(a))) == Some(Be32(Wrap(d)) + AttrBytes(a))
    ensures m == MntRes || m == GetattrRes ==> Encode(TypeOf(m), Choice(d, Unit)) == Some(Be32(Wrap(d)))
  {
    AttrLayout(a);
    var t := TypeOf(m);
    if m == MntRes || m == GetattrRes {
      StatusAlone(t.ok, d);
    } else {
      StatusIs(t.ok, PostOpAttr, d, AttrVal(a), AttrBytes(a));
    }
  }

  lemma StatusAlone(ok: Ty, d: int)
    requires d != 0 && -I32 <= d < I32
    ensures Encode(Status(ok, Void), Choice(d, Unit)) == Some(Be32(Wrap(d)))
  {
    assert Be32(Wrap(d)) + [] == Be32(Wrap(d));
  }

  lemma GetattrReply(a: Fattr)
    requires a.Valid()
    ensures Encode(TypeOf(GetattrRes), Choice(0, FattrVal(a))) == Some(Be32(0) + FattrBytes(a))
  {
    FattrLayout(a);
    StatusIs(Fattr3, Void, 0, FattrVal(a), FattrBytes(a));
  }

  lemma LookupReply(h: seq<byte>, obj: Option<Fattr>, dir: Option<Fattr>)
    requires HandleOk(h) && AttrOk(obj) && AttrOk(dir)
    ensures Encode(TypeOf(LookupRes), Choice(0, Both(Raw(h), Both(AttrVal(obj), AttrVal(dir)))))
         == Some(Be32(0) + (CountedBytes(h) + (AttrBytes(obj) + AttrBytes(dir))))
  {
    HandleIs(h);
    AttrLayout(obj);
    AttrLayout(dir);
    var t, v, b := Prepend(PostOpAttr, PostOpAttr, AttrVal(obj), AttrVal(dir), AttrBytes(obj), AttrBytes(dir));
    t, v, b := Prepend(NfsFh3, t, Raw(h), v, CountedBytes(h), b);
    StatusIs(t, PostOpAttr, 0, v, b);
  }

  lemma AccessReply(a: Option<Fattr>, access: nat)
    requires AttrOk(a) && access < U32
    ensures Encode(TypeOf(AccessRes), Choice(0, Both(AttrVal(a), Num(access)))) == Some(Be32(0) + (AttrBytes(a)
        + Be32(access)))
  {
    AttrLayout(a);
    var t, v, b := Prepend(PostOpAttr, UInt32, AttrVal(a), Num(access), AttrBytes(a), Be32(access));
    StatusIs(t, PostOpAttr, 0, v, b);
  }

  lemma ReadReply(a: Option<Fattr>, count: nat, eof: int, data: seq<byte>)
    requires AttrOk(a) && count < U32 && IsBit(eof) && |data| < U32
    ensures Encode(TypeOf(ReadRes), Choice(0, Both(AttrVal(a), Both(Num(count), Both(Num(eof), Raw(data))))))
         == Some(Be32(0) + (AttrBytes(a) + (Be32(count) + (Be32(eof) + CountedBytes(data)))))
  {
    ReadOk(a, count, eof, data);
    StatusIs(Read3resok, PostOpAttr, 0, Both(AttrVal(a), Both(Num(count), Both(Num(eof), Raw(data)))),
             AttrBytes(a) + (Be32(count) + (Be32(eof) + CountedBytes(data))));
  }

  lemma ReadOk(a: Option<Fattr>, count: nat, eof: int, data: seq<byte>)
    requires AttrOk(a) && count < U32 && IsBit(eof) && |data| < U32
    ensures Encode(Read3resok, Both(AttrVal(a), Both(Num(count), Both(Num(eof), Raw(data)))))
         == Some(AttrBytes(a) + (Be32(count) + (Be32(eof) + CountedBytes(data))))
  {
    AttrLayout(a);
    var t, v, b := Prepend(Bool, Opaque(ANY), Num(eof), Raw(data), Be32(eof), CountedBytes(data));
    t, v, b := Prepend(UInt32, t, Num(count), v, Be32(count), b);
    t, v, b := Prepend(PostOpAttr, t, AttrVal(a), v, AttrBytes(a), b);
  }

  lemma ReaddirReply(a: Option<Fattr>, verf: seq<byte>, es: seq<DirEntry>, eof: int)
    requires AttrOk(a) && |verf| == 8 && IsBit(eof) && forall i :: 0 <= i < |es| ==> es[i].Valid()
    ensures Encode(TypeOf(ReaddirRes), Choice(0, Both(AttrVal(a), Both(Raw(verf), Both(Items(EntryVals(es)),
        Num(eof))))))
         == Some(Be32(0) + (AttrBytes(a) + (verf + (EntryBytes(es) + Be32(eof)))))
  {
    EntriesLayout(es);
    ReaddirOk(a, verf, Items(EntryVals(es)), EntryBytes(es), eof);
  }

  lemma ListIs(a: Option<Fattr>, verf: seq<byte>, list: Val, bytes: seq<byte>, eof: int)
    requires AttrOk(a) && |verf| == 8 && IsBit(eof) && Encode(Chain(Entry3), list) == Some(bytes)
    ensures Encode(Readdir3resok, Both(AttrVal(a), Both(Raw(verf), Both(list, Num(eof)))))
         == Some(AttrBytes(a) + (verf + (bytes + Be32(eof))))
  {
    AttrLayout(a);
    VerifierIs(verf);
    PairIs(Chain(Entry3), Bool, list, Num(eof), bytes, Be32(eof));
    PairIs(Cookieverf3, Dirlist3, Raw(verf), Both(list, Num(eof)), verf, bytes + Be32(eof));
    PairIs(PostOpAttr, Pair(Cookieverf3, Dirlist3), AttrVal(a), Both(Raw(verf), Both(list, Num(eof))),
           AttrBytes(a), verf + (bytes + Be32(eof)));
  }

  lemma ReaddirOk(a: Option<Fattr>, verf: seq<byte>, list: Val, bytes: seq<byte>, eof: int)
    requires AttrOk(a) && |verf| == 8 && IsBit(eof) && Encode(Chain(Entry3), list) == Some(bytes)
    ensures Encode(TypeOf(ReaddirRes), Choice(0, Both(AttrVal(a), Both(Raw(verf), Both(list, Num(eof))))))
         == Some(Be32(0) + (AttrBytes(a) + (verf + (bytes + Be32(eof)))))
  {
    ListIs(a, verf, list, bytes, eof);
    StatusIs(Readdir3resok, PostOpAttr, 0, Both(AttrVal(a), Both(Raw(verf), Both(list, Num(eof)))),
             AttrBytes(a) + (verf + (bytes + Be32(eof))));
  }

  lemma VerifierIs(verf: seq<byte>)
    requires |verf| == 8
    ensures Encode(Cookieverf3, Raw(verf)) == Some(verf)
  {
    assert Padded(verf) == verf;
  }

  lemma PathconfReply(a: Option<Fattr>, linkmax: nat, namemax: nat, f1: int, f2: int, f3: int, f4: int)
    requires AttrOk(a) && linkmax < U32 && namemax < U32 && IsBit(f1) && IsBit(f2) && IsBit(f3) && IsBit(f4)
    ensures Encode(TypeOf(PathconfRes),
                   Choice(0, Both(AttrVal(a), Both(Num(linkmax), Both(Num(namemax), Both(Num(f1), Both(Num(f2),
                       Nums(f3, f4))))))))
         == Some(Be32(0) + (AttrBytes(a) + (Be32(linkmax) + (Be32(namemax) + (Be32(f1) + (Be32(f2) + (Be32(f3)
             + Be32(f4))))))))
  {
    var fv, fb := Both(Num(f1), Both(Num(f2), Nums(f3, f4))), Be32(f1) + (Be32(f2) + (Be32(f3) + Be32(f4)));
    assert Encode(Flags, fv) == Some(fb) by {
      BitsAreEncoded(f1, f2, f3, f4);
    }
    PathconfIs(a, linkmax, namemax, fv, fb);
  }

  lemma BitsAreEncoded(f1: int, f2: int, f3: int, f4: int)
    requires IsBit(f1) && IsBit(f2) && IsBit(f3) && IsBit(f4)
    ensures Encode(Flags, Both(Num(f1), Both(Num(f2), Nums(f3, f4))))
         == Some(Be32(f1) + (Be32(f2) + (Be32(f3) + Be32(f4))))
  {
    PlainFlagsAreEncoded(f1, f2, f3, f4);
    assert Flag(f1) == f1 && Flag(f2) == f2 && Flag(f3) == f3 && Flag(f4) == f4;
  }

  lemma PathconfIs(a: Option<Fattr>, linkmax: nat, namemax: nat, fv: Val, fb: seq<byte>)
    requires AttrOk(a) && linkmax < U32 && namemax < U32 && Encode(Flags, fv) == Some(fb)
    ensures Encode(TypeOf(PathconfRes), Choice(0, Both(AttrVal(a), Both(Num(linkmax), Both(Num(namemax), fv)))))
         == Some(Be32(0) + (AttrBytes(a) + (Be32(linkmax) + (Be32(namemax) + fb))))
  {
    PathconfOk(a, linkmax, namemax, fv, fb);
    StatusIs(Pathconf3resok, PostOpAttr, 0, Both(AttrVal(a), Both(Num(linkmax), Both(Num(namemax), fv))),
             AttrBytes(a) + (Be32(linkmax) + (Be32(namemax) + fb)));
  }

  lemma PathconfOk(a: Option<Fattr>, linkmax: nat, namemax: nat, fv: Val, fb: seq<byte>)
    requires AttrOk(a) && linkmax < U32 && namemax < U32 && Encode(Flags, fv) == Some(fb)
    ensures Encode(Pathconf3resok, Both(AttrVal(a), Both(Num(linkmax), Both(Num(namemax), fv))))
         == Some(AttrBytes(a) + (Be32(linkmax) + (Be32(namemax) + fb)))
  {
    AttrLayout(a);
    var t, v, b := Prepend(UInt32, Flags, Num(namemax), fv, Be32(namemax), fb);
    t, v, b := Prepend(UInt32, t, Num(linkmax), v, Be32(linkmax), b);
    t, v, b := Prepend(PostOpAttr, t, AttrVal(a), v, AttrBytes(a), b);
  }

  /** FSINFO: transfer sizes for reads, writes and listings, then the rest. */
  lemma FsinfoReply(a: Option<Fattr>, rt: (nat, nat, nat), wt: (nat, nat, nat), dtpref: nat,
                    maxfile: nat, sec: nat, nsec: nat, properties: nat)
    requires AttrOk(a) && rt.0 < U32 && rt.1 < U32 && rt.2 < U32 && wt.0 < U32 && wt.1 < U32 && wt.2 < U32
    requires dtpref < U32 && maxfile < U64 && sec < U32 && nsec < U32 && properties < U32
    ensures Encode(TypeOf(FsinfoRes), Choice(0, Both(AttrVal(a), Both(Num(rt.0), Both(Num(rt.1), Both(Num(rt.2),
              Both(Num(wt.0), Both(Num(wt.1), FsinfoEndVal(wt.2, dtpref, maxfile, sec, nsec, properties)))))))))
         == Some(Be32(0) + (AttrBytes(a) + (Be32(rt.0) + (Be32(rt.1) + (Be32(rt.2) + (Be32(wt.0) + (Be32(wt.1)
              + FsinfoEndBytes(wt.2, dtpref, maxfile, sec, nsec, properties))))))))
  {
    var ev, eb := FsinfoEndVal(wt.2, dtpref, maxfile, sec, nsec, properties), FsinfoEndBytes(wt.2, dtpref, maxfile,
        sec, nsec, properties);
    FsinfoEndLayout(wt.2, dtpref, maxfile, sec, nsec, properties);
    FsinfoOk(a, rt, wt.0, wt.1, ev, eb);
    StatusIs(Fsinfo3resok, PostOpAttr, 0,
             Both(AttrVal(a), Both(Num(rt.0), Both(Num(rt.1), Both(Num(rt.2), Both(Num(wt.0), Both(Num(wt.1), ev)))))),
             AttrBytes(a) + (Be32(rt.0) + (Be32(rt.1) + (Be32(rt.2) + (Be32(wt.0) + (Be32(wt.1) + eb))))));
  }

  /** Three words in front. */
  lemma WordsBefore(t: Ty, v: Val, b: seq<byte>, z: nat, y: nat, x: nat) returns (t': Ty, v': Val, b': seq<byte>)
    requires Encode(t, v) == Some(b) && x < U32 && y < U32 && z < U32
    ensures t' == Pair(UInt32, Pair(UInt32, Pair(UInt32, t))) && v' == Both(Num(x), Both(Num(y), Both(Num(z), v)))
    ensures b' == Be32(x) + (Be32(y) + (Be32(z) + b)) && Encode(t', v') == Some(b')
  {
    t', v', b' := Prepend(UInt32, t, Num(z), v, Be32(z), b);
    t', v', b' := Prepend(UInt32, t', Num(y), v', Be32(y), b');
    t', v', b' := Prepend(UInt32, t', Num(x), v', Be32(x), b');
  }

  lemma FsinfoOk(a: Option<Fattr>, rt: (nat, nat, nat), wtmax: nat, wtpref: nat, ev: Val, eb: seq<byte>)
    requires AttrOk(a) && rt.0 < U32 && rt.1 < U32 && rt.2 < U32 && wtmax < U32 && wtpref < U32
    requires Encode(FsinfoEnd, ev) == Some(eb)
    ensures Encode(Fsinfo3resok,
                   Both(AttrVal(a), Both(Num(rt.0), Both(Num(rt.1), Both(Num(rt.2), Both(Num(wtmax),
                       Both(Num(wtpref), ev)))))))
         == Some(AttrBytes(a) + (Be32(rt.0) + (Be32(rt.1) + (Be32(rt.2) + (Be32(wtmax) + (Be32(wtpref) + eb))))))
  {
    AttrLayout(a);
    var t, v, b := WordsBefore(FsinfoEnd, ev, eb, wtpref, wtmax, rt.2);
    t, v, b := Prepend(UInt32, t, Num(rt.1), v, Be32(rt.1), b);
    t, v, b := Prepend(UInt32, t, Num(rt.0), v, Be32(rt.0), b);
    t, v, b := Prepend(PostOpAttr, t, AttrVal(a), v, AttrBytes(a), b);
  }

  function FsinfoEndVal(wtmult: nat, dtpref: nat, maxfile: nat, sec: nat, nsec: nat, properties: nat): Val {
    Both(Num(wtmult), Both(Num(dtpref), Both(Num(maxfile), Both(Nums(sec, nsec), Num(properties)))))
  }

  function FsinfoEndBytes(wtmult: nat, dtpref: nat, maxfile: nat, sec: nat, nsec: nat, properties: nat): seq<byte>
    requires wtmult < U32 && dtpref < U32 && maxfile < U64 && sec < U32 && nsec < U32 && properties < U32
  {
    Be32(wtmult) + (Be32(dtpref) + (Be64(maxfile) + (Be32(sec) + Be32(nsec) + Be32(properties))))
  }

  lemma FsinfoEndLayout(wtmult: nat, dtpref: nat, maxfile: nat, sec: nat, nsec: nat, properties: nat)
    requires wtmult < U32 && dtpref < U32 && maxfile < U64 && sec < U32 && nsec < U32 && properties < U32
    ensures Encode(FsinfoEnd, FsinfoEndVal(wtmult, dtpref, maxfile, sec, nsec, properties))
         == Some(FsinfoEndBytes(wtmult, dtpref, maxfile, sec, nsec, properties))
  {
    WordPair(sec, nsec);
    var t, v, b := Prepend(Nfstime3, UInt32, Nums(sec, nsec), Num(properties), Be32(sec) + Be32(nsec),
        Be32(properties));
    t, v, b := Prepend(Hyper, t, Num(maxfile), v, Be64(maxfile), b);
    t, v, b := Prepend(UInt32, t, Num(dtpref), v, Be32(dtpref), b);
    t, v, b := Prepend(UInt32, t, Num(wtmult), v, Be32(wtmult), b);
  }

  /** MNT: a handle and the accepted authentication flavors. */
  lemma MntReply(h: seq<byte>, flavors: seq<int>)
    requires HandleOk(h) && |flavors| < U32 && forall i :: 0 <= i < |flavors| ==> -I32 <= flavors[i] < I32
    ensures Encode(TypeOf(MntRes), Choice(0, Both(Raw(h), Items(FlavorVals(flavors)))))
         == Some(Be32(0) + (CountedBytes(h) + (Be32(|flavors|) + FlavorBytes(flavors))))
  {
    FlavorsLayout(flavors);
    ArrayIs(Int32, FlavorVals(flavors), FlavorBytes(flavors));
    MntOk(h, Items(FlavorVals(flavors)), Be32(|flavors|) + FlavorBytes(flavors));
  }

  lemma MntOk(h: seq<byte>, list: Val, bytes: seq<byte>)
    requires HandleOk(h) && Encode(Array(ANY, Int32), list) == Some(bytes)
    ensures Encode(TypeOf(MntRes), Choice(0, Both(Raw(h), list))) == Some(Be32(0) + (CountedBytes(h) + bytes))
  {
    HandleIs(h);
    PairIs(Opaque(FHSIZE3), Array(ANY, Int32), Raw(h), list, CountedBytes(h), bytes);
    StatusIs(Mountres3ok, Void, 0, Both(Raw(h), list), CountedBytes(h) + bytes);
  }

  lemma ArrayIs(t: Ty, vs: seq<Val>, p: seq<byte>)
    requires |vs| < U32 && EncodeAll(t, vs) == Some(p)
    ensures Encode(Array(ANY, t), Items(vs)) == Some(Be32(|vs|) + p)
  {
  }

  function FlavorVals(flavors: seq<int>): (vs: seq<Val>)
    ensures |vs| == |flavors|
  {
    if flavors == [] then [] else [Num(flavors[0])] + FlavorVals(flavors[1..])
  }

  function FlavorBytes(flavors: seq<int>): seq<byte>
    requires forall i :: 0 <= i < |flavors| ==> -I32 <= flavors[i] < I32
  {
    if flavors == [] then [] else Be32(Wrap(flavors[0])) + FlavorBytes(flavors[1..])
  }

  lemma {:induction false} FlavorsLayout(flavors: seq<int>)
    requires forall i :: 0 <= i < |flavors| ==> -I32 <= flavors[i] < I32
    ensures EncodeAll(Int32, FlavorVals(flavors)) == Some(FlavorBytes(flavors))
  {
    if flavors != [] {
      FlavorsLayout(flavors[1..]);
      assert FlavorVals(flavors)[0] == Num(flavors[0]) && FlavorVals(flavors)[1..] == FlavorVals(flavors[1..]);
    }
  }
}
