/** Directory entries: the 40-byte record, the slots of a cluster and of a chain. */
module Entries {
  import opened Bytes
  import opened Chains
  import opened States

  const ENTRY_SIZE: nat := 40
  const NAME_FIELD: nat := 22
  const MAX_NAME: nat := 21
  const KIND_FILE: nat := 0
  const KIND_DIR: nat := 1

  type Name = seq<byte>

  const DOT: Name := [46]
  const DOTDOT: Name := [46, 46]

  /** struct fat_dir_entry as it lies on disk; `time` is kept as its eight bytes. */
  datatype Entry = Entry(name: seq<byte>, kind: nat, size: nat, first: nat, time: seq<byte>)

  ghost predicate WfEntry(e: Entry) {
    && |e.name| == NAME_FIELD && e.kind < 65536 && e.size < U32 && e.first < U32 && |e.time| == 8
  }

  function Encode(e: Entry): (b: seq<byte>)
    requires WfEntry(e)
    ensures |b| == ENTRY_SIZE
  {
    e.name + Le16(e.kind) + Le32(e.size) + Le32(e.first) + e.time
  }

  function Decode(b: seq<byte>): (e: Entry)
    requires |b| == ENTRY_SIZE
    ensures WfEntry(e)
  {
    Entry(b[..22], FromLe16(b[22..24]), FromLe32(b[24..28]), FromLe32(b[28..32]), b[32..])
  }

  lemma DecodeEncode(e: Entry)
    requires WfEntry(e)
    ensures Decode(Encode(e)) == e
  {
    var b := Encode(e);
    assert b[..22] == e.name && b[32..] == e.time;
    assert b[22..24] == Le16(e.kind);
    assert b[24..28] == Le32(e.size);
    assert b[28..32] == Le32(e.first);
    Le32RoundTrip(e.size);
    Le32RoundTrip(e.first);
  }

  lemma EncodeDecode(b: seq<byte>)
    requires |b| == ENTRY_SIZE
    ensures Encode(Decode(b)) == b
  {
    FromLe32RoundTrip(b[24..28]);
    FromLe32RoundTrip(b[28..32]);
    assert Le16(FromLe16(b[22..24])) == b[22..24];
    assert b == b[..22] + b[22..24] + b[24..28] + b[28..32] + b[32..];
  }

  /** The record byte by byte: 22 bytes of name, then type, size, first cluster and time. */
  lemma RecordOctets(b: seq<byte>)
    requires |b| == 40
    ensures var e := Decode(b);
      && e.name == b[..22] && e.kind == b[22] as int + 256 * b[23] as int
      && e.size == b[24] as int + 256 * b[25] as int + 65536 * b[26] as int + 16777216 * b[27] as int
      && e.first == b[28] as int + 256 * b[29] as int + 65536 * b[30] as int + 16777216 * b[31] as int
      && e.time == b[32..]
  {
  }

  /** The C string held in a name field. */
  function CName(field: seq<byte>): Name {
    if field == [] || field[0] == 0 then [] else [field[0]] + CName(field[1..])
  }

  /** It is what precedes the first NUL. */
  lemma {:induction false} CNameIs(field: seq<byte>)
    ensures var n := |CName(field)|;
      && n <= |field| && CName(field) == field[..n] && NoNul(CName(field)) && (n < |field| ==> field[n] == 0)
  {
    if field != [] && field[0] != 0 {
      CNameIs(field[1..]);
      var n := |CName(field)|;
      assert field[..n] == [field[0]] + field[1..][..n - 1];
    }
  }

  predicate NoNul(name: Name) {
    forall i :: 0 <= i < |name| ==> name[i] != 0
  }

  /** strncpy of a name into the name field: the rest of the field is zero. */
  function NameField(name: Name): seq<byte>
    requires |name| <= MAX_NAME
  {
    name + Zeros(NAME_FIELD - |name|)
  }

  lemma {:induction false} CNameOfPadded(name: Name, n: nat)
    requires NoNul(name)
    ensures CName(name + Zeros(n)) == name
  {
    if name == [] {
      assert name + Zeros(n) == Zeros(n);
    } else {
      assert (name + Zeros(n))[1..] == name[1..] + Zeros(n);
      CNameOfPadded(name[1..], n);
    }
  }

  /** A slot is in use when its name is not empty. */
  predicate Live(e: Entry) {
    e.name != [] && e.name[0] != 0
  }

  /** What a removal leaves: the first byte of the name is zeroed, nothing else. */
  function Killed(e: Entry): Entry {
    if e.name == [] then e else e.(name := [0] + e.name[1..])
  }

  // ---- The slots of one cluster ----

  ghost predicate Slotted(g: Geometry) {
    g.B % ENTRY_SIZE == 0
  }

  /** The entry at slot `j` of a cluster. */
  function Slot(block: Block, j: nat): (e: Entry)
    requires j < |block| / ENTRY_SIZE
    ensures WfEntry(e)
  {
    Decode(block[ENTRY_SIZE * j..ENTRY_SIZE * j + ENTRY_SIZE])
  }

  ghost predicate AreSlots(block: Block, ss: seq<Entry>) {
    && |ss| == |block| / ENTRY_SIZE
    && forall j {:trigger Slot(block, j)} :: 0 <= j < |ss| ==> ss[j] == Slot(block, j)
  }

  /** The slots of a cluster. The link to the bytes is made where `Slot` is mentioned. */
  ghost function Slots(block: Block): (ss: seq<Entry>)
    ensures AreSlots(block, ss)
  {
    var n := |block| / ENTRY_SIZE;
    assert AreSlots(block, seq(n, j requires 0 <= j < n => Slot(block, j)));
    var ss :| AreSlots(block, ss);
    ss
  }

  function SetSlot(block: Block, j: nat, e: Entry): (r: Block)
    requires j < |block| / ENTRY_SIZE && WfEntry(e)
    ensures |r| == |block|
  {
    Splice(block, ENTRY_SIZE * j, Encode(e))
  }

  lemma SlotsAfterSet(block: Block, j: nat, e: Entry)
    requires j < |block| / ENTRY_SIZE && WfEntry(e)
    ensures Slots(SetSlot(block, j, e)) == Slots(block)[j := e]
  {
    var block' := SetSlot(block, j, e);
    DecodeEncode(e);
    forall k | 0 <= k < |block| / ENTRY_SIZE
      ensures Slots(block')[k] == if k == j then e else Slots(block)[k]
    {
      var o := ENTRY_SIZE * k;
      assert Slots(block')[k] == Slot(block', k) && Slots(block)[k] == Slot(block, k);
      if k == j {
        assert block'[o..o + ENTRY_SIZE] == Encode(e);
      } else {
        assert block'[o..o + ENTRY_SIZE] == block[o..o + ENTRY_SIZE];
      }
    }
  }

  /** Zeroing the first byte of a slot is writing back its killed entry. */
  lemma KillIsByteWrite(block: Block, j: nat)
    requires j < |block| / ENTRY_SIZE
    ensures WfEntry(Killed(Slot(block, j)))
    ensures SetSlot(block, j, Killed(Slot(block, j))) == block[ENTRY_SIZE * j := 0]
  {
    var o := ENTRY_SIZE * j;
    var b := block[o..o + ENTRY_SIZE];
    var b' := b[0 := 0];
    assert Killed(Slot(block, j)) == Decode(b') by {
      assert b'[..22] == [0] + b[..22][1..];
      assert b'[22..24] == b[22..24] && b'[24..28] == b[24..28];
      assert b'[28..32] == b[28..32] && b'[32..] == b[32..];
    }
    EncodeDecode(b');
  }

  lemma ZeroSlots(n: nat, j: nat)
    requires j < n / ENTRY_SIZE
    ensures !Live(Slots(Zeros(n))[j])
  {
    assert Slots(Zeros(n))[j] == Slot(Zeros(n), j);
  }

  // ---- The slots of a chain ----

  /** All slots of a directory, in chain order. */
  ghost function DirSlots(data: seq<Block>, chain: seq<nat>): seq<Entry> {
    if chain == [] then [] else Slots(Get(data, chain[0])) + DirSlots(data, chain[1..])
  }

  lemma {:induction false} DirSlotsConcat(data: seq<Block>, a: seq<nat>, b: seq<nat>)
    ensures DirSlots(data, a + b) == DirSlots(data, a) + DirSlots(data, b)
  {
    if a == [] {
      assert a + b == b;
    } else {
      assert (a + b)[1..] == a[1..] + b;
      DirSlotsConcat(data, a[1..], b);
    }
  }

  lemma {:induction false} DirSlotsFrame(data: seq<Block>, data': seq<Block>, chain: seq<nat>)
    requires Agree(data, data', chain)
    ensures DirSlots(data, chain) == DirSlots(data', chain)
  {
    if chain != [] {
      assert Get(data, chain[0]) == Get(data', chain[0]);
      DirSlotsFrame(data, data', chain[1..]);
    }
  }

  lemma {:induction false} DirSlotsWf(data: seq<Block>, chain: seq<nat>)
    ensures forall j :: 0 <= j < |DirSlots(data, chain)| ==> WfEntry(DirSlots(data, chain)[j])
    decreases |chain|
  {
    if chain != [] {
      var block := Get(data, chain[0]);
      forall j | 0 <= j < |Slots(block)|
        ensures WfEntry(Slots(block)[j])
      {
        assert Slots(block)[j] == Slot(block, j);
      }
      DirSlotsWf(data, chain[1..]);
    }
  }

  /** `j` is the first slot with a given name, or the number of slots if there is none. */
  ghost predicate IsFirst(ss: seq<Entry>, name: Name, j: nat) {
    && j <= |ss| && (j < |ss| ==> CName(ss[j].name) == name)
    && forall i :: 0 <= i < j ==> CName(ss[i].name) != name
  }

  lemma {:induction false} FirstExists(ss: seq<Entry>, name: Name)
    ensures exists j: nat :: IsFirst(ss, name, j)
  {
    if ss == [] || CName(ss[0].name) == name {
      assert IsFirst(ss, name, 0);
    } else {
      FirstExists(ss[1..], name);
      var j: nat :| IsFirst(ss[1..], name, j);
      assert forall i :: 0 < i < j + 1 ==> ss[i] == ss[1..][i - 1];
      assert IsFirst(ss, name, j + 1);
    }
  }

  /** The first slot with a given name, or the number of slots. The empty name finds the
      first slot not in use. */
  ghost function FindIndex(ss: seq<Entry>, name: Name): (j: nat)
    ensures IsFirst(ss, name, j)
  {
    FirstExists(ss, name);
    var j: nat :| IsFirst(ss, name, j);
    j
  }

  ghost function Lookup(ss: seq<Entry>, name: Name): Option<Entry> {
    var j := FindIndex(ss, name);
    if j < |ss| then Some(ss[j]) else None
  }

  lemma FindIndexIs(ss: seq<Entry>, name: Name, j: nat)
    requires IsFirst(ss, name, j)
    ensures FindIndex(ss, name) == j
  {
  }

  lemma FindConcat(a: seq<Entry>, b: seq<Entry>, name: Name)
    ensures var j := FindIndex(a, name);
      FindIndex(a + b, name) == if j < |a| then j else |a| + FindIndex(b, name)
  {
    var j := FindIndex(a, name);
    var k := if j < |a| then j else |a| + FindIndex(b, name);
    assert forall i :: |a| <= i < k ==> (a + b)[i] == b[i - |a|];
    FindIndexIs(a + b, name, k);
  }

  /** The write that puts `e` into slot `j` of a chain. */
  ghost function SlotWrite(data: seq<Block>, chain: seq<nat>, j: nat, e: Entry): seq<Write>
    requires WfEntry(e)
    decreases |chain|
  {
    if chain == [] then []
    else
      var block := Get(data, chain[0]);
      var n := |block| / ENTRY_SIZE;
      if j < n then [Data(chain[0], SetSlot(block, j, e))]
      else SlotWrite(data, chain[1..], j - n, e)
  }

  /** `w` writes one cluster of the chain and so puts `e` into slot `j`. */
  ghost predicate PutsSlot(data: seq<Block>, chain: seq<nat>, j: nat, e: Entry, w: Write) {
    && j < |DirSlots(data, chain)|
    && w.Data? && w.c in chain && w.c < |data| && |w.block| == |data[w.c]|
    && DirSlots(data[w.c := w.block], chain) == DirSlots(data, chain)[j := e]
  }

  lemma PutInFirst(data: seq<Block>, chain: seq<nat>, j: nat, e: Entry)
    requires WfEntry(e) && chain != [] && Distinct(chain) && chain[0] < |data|
    requires j < |data[chain[0]]| / ENTRY_SIZE
    ensures PutsSlot(data, chain, j, e, Data(chain[0], SetSlot(data[chain[0]], j, e)))
  {
    var block := data[chain[0]];
    var data' := data[chain[0] := SetSlot(block, j, e)];
    SlotsAfterSet(block, j, e);
    DirSlotsFrame(data, data', chain[1..]);
    var a, b := Slots(block), DirSlots(data, chain[1..]);
    assert a[j := e] + b == (a + b)[j := e];
  }

  lemma PutInRest(data: seq<Block>, chain: seq<nat>, j: nat, e: Entry, w: Write)
    requires chain != [] && Distinct(chain) && chain[0] < |data|
    requires PutsSlot(data, chain[1..], j, e, w)
    ensures PutsSlot(data, chain, j + |data[chain[0]]| / ENTRY_SIZE, e, w)
  {
    var a, b := Slots(data[chain[0]]), DirSlots(data, chain[1..]);
    assert a + b[j := e] == (a + b)[|a| + j := e];
  }

  /** SlotWrite is one write, of one cluster of the chain, and replaces that one slot. */
  lemma {:induction false} SlotWriteEffect(data: seq<Block>, chain: seq<nat>, j: nat, e: Entry)
    requires WfEntry(e) && Distinct(chain) && j < |DirSlots(data, chain)|
    requires forall i :: 0 <= i < |chain| ==> chain[i] < |data|
    ensures |SlotWrite(data, chain, j, e)| == 1
    ensures PutsSlot(data, chain, j, e, SlotWrite(data, chain, j, e)[0])
    decreases |chain|
  {
    var n := |data[chain[0]]| / ENTRY_SIZE;
    if j < n {
      PutInFirst(data, chain, j, e);
    } else {
      SlotWriteEffect(data, chain[1..], j - n, e);
      PutInRest(data, chain, j - n, e, SlotWrite(data, chain[1..], j - n, e)[0]);
    }
  }
}
