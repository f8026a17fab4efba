/** A directory as a map from names to entries, the first match counting. */
module DirMap {
  import opened Bytes
  import opened States
  import opened Entries
  import opened Layouts
  import opened Trees
  import opened Make
  import opened Release
  import opened Effects
  import opened Machine
  import opened FlatModel

  /** Rewriting a slot does not concern a name that neither the old nor the new entry has. */
  lemma OtherNameKept(ss: seq<Entry>, j: nat, e: Entry, name: Name)
    requires j < |ss| && CName(ss[j].name) != name && CName(e.name) != name
    ensures Lookup(ss[j := e], name) == Lookup(ss, name)
  {
    FindIndexIs(ss[j := e], name, FindIndex(ss, name));
  }

  /** Slots without the name, put behind, do not matter. */
  lemma MissesKept(ss: seq<Entry>, more: seq<Entry>, name: Name)
    requires forall i :: 0 <= i < |more| ==> CName(more[i].name) != name
    ensures Lookup(ss + more, name) == Lookup(ss, name)
  {
    FindConcat(ss, more, name);
  }

  lemma BlankSlots(n: nat)
    ensures forall i :: 0 <= i < |Slots(Zeros(n))| ==> CName(Slots(Zeros(n))[i].name) == []
  {
    forall i | 0 <= i < |Slots(Zeros(n))|
      ensures CName(Slots(Zeros(n))[i].name) == []
    {
      ZeroSlots(n, i);
      assert Slots(Zeros(n))[i] == Slot(Zeros(n), i);
    }
  }

  /** After the insertion of a new name it is found, also when the directory had to grow, and every
      other name is found, or not found, as before. */
  lemma InsertedIsFound(g: Geometry, ss: seq<Entry>, e: Entry)
    requires ENTRY_SIZE <= g.B && CName(e.name) != [] && Lookup(ss, CName(e.name)).None?
    ensures Lookup(Inserted(g, ss, e), CName(e.name)) == Some(e)
    ensures forall name :: name != [] && name != CName(e.name) ==>
      Lookup(Inserted(g, ss, e), name) == Lookup(ss, name)
  {
    var j, n, zs := FindIndex(ss, []), CName(e.name), Slots(Zeros(g.B));
    BlankSlots(g.B);
    FindIndexIs(Inserted(g, ss, e), n, j);
    forall name | name != [] && name != n
      ensures Lookup(Inserted(g, ss, e), name) == Lookup(ss, name)
    {
      if j < |ss| {
        OtherNameKept(ss, j, e, name);
      } else {
        MissesKept(ss, zs[0 := e], name);
      }
    }
  }

  /** A name occurs once. */
  ghost predicate Once(ss: seq<Entry>, name: Name) {
    forall i, k :: 0 <= i < |ss| && 0 <= k < |ss| && CName(ss[i].name) == name && CName(ss[k].name) == name ==> i == k
  }

  lemma KilledHasNoName(e: Entry)
    ensures CName(Killed(e).name) == []
  {
  }

  /** After the removal of the first entry with a name, the name is gone exactly if it was unique, and
      every other name is found as before. */
  lemma RemovedIsGone(ss: seq<Entry>, name: Name)
    requires name != [] && FindIndex(ss, name) < |ss|
    ensures var j := FindIndex(ss, name);
      var ss' := ss[j := Killed(ss[j])];
      && (Lookup(ss', name).None? <==> Once(ss, name))
      && (forall other :: other != [] && other != name ==> Lookup(ss', other) == Lookup(ss, other))
  {
    var j := FindIndex(ss, name);
    var ss' := ss[j := Killed(ss[j])];
    KilledHasNoName(ss[j]);
    var k := FindIndex(ss', name);
    assert k < |ss'| ==> k != j && CName(ss[k].name) == CName(ss[j].name) == name;
    assert k == |ss'| ==> forall i :: 0 <= i < |ss| && CName(ss[i].name) == name ==> i == j by {
      assert forall i :: 0 <= i < |ss| && i != j ==> ss'[i] == ss[i];
    }
    forall other | other != [] && other != name
      ensures Lookup(ss', other) == Lookup(ss, other)
    {
      OtherNameKept(ss, j, Killed(ss[j]), other);
    }
  }

  /** An update under the same name is found, and concerns no other name. */
  lemma UpdatedIsFound(ss: seq<Entry>, name: Name, e: Entry)
    requires FindIndex(ss, name) < |ss| && CName(e.name) == name
    ensures var ss' := ss[FindIndex(ss, name) := e];
      && Lookup(ss', name) == Some(e)
      && (forall other :: other != name ==> Lookup(ss', other) == Lookup(ss, other))
  {
    var j := FindIndex(ss, name);
    FindIndexIs(ss[j := e], name, j);
    forall other | other != name
      ensures Lookup(ss[j := e], other) == Lookup(ss, other)
    {
      OtherNameKept(ss, j, e, other);
    }
  }

  // ---- On the disk ----

  /** A successful creation of a name that was not there. */
  lemma MadeIsFound(g: Geometry, s: State, L: Layout, d: nat, name: Name, isDir: bool, time: seq<byte>)
    requires CanMake(g, s, L, d, name, time) && MakeOk(g, s, L, d, name) && Lookup(DirOf(s, L, d), name).None?
    ensures var s', L' := ApplyAll(s, MakeWrites(g, s, L, d, name, isDir, time)), MakeLayout(g, s, L, d, name, isDir);
      && d in L'.nodes && |name| <= MAX_NAME
      && Lookup(DirOf(s', L', d), name) == Some(NewEntry(name, L.free[0], isDir, time))
      && (forall other :: other != [] && other != name ==>
          Lookup(DirOf(s', L', d), other) == Lookup(DirOf(s, L, d), other))
  {
    MakeView(g, s, L, d, name, isDir, time);
    NewEntryIsFresh(name, L.free[0], isDir, time);
    InsertedIsFound(g, DirOf(s, L, d), NewEntry(name, L.free[0], isDir, time));
  }

  /** A removal. */
  lemma UnlinkedIsGone(g: Geometry, s: State, L: Layout, d: nat, name: Name)
    requires Inv(g, s, L) && d in L.nodes && L.nodes[d].isDir && TargetName(name)
    requires FindIndex(DirOf(s, L, d), name) < |DirOf(s, L, d)|
    ensures var j := FindIndex(DirOf(s, L, d), name);
      && ObjectSlot(s, L, d, j)
      && var e := DirOf(s, L, d)[j];
      && WfEntry(e) && e.first in L.nodes && L.nodes[e.first].chain != []
      && var s' := ApplyAll(s, RemoveWrites(s, L, d, j));
      && (Lookup(DirOf(s', L, d), name).None? <==> Once(DirOf(s, L, d), name))
      && (forall other :: other != [] && other != name ==>
          Lookup(DirOf(s', L, d), other) == Lookup(DirOf(s, L, d), other))
  {
    TargetIsObject(g, s, L, d, name);
    var j := FindIndex(DirOf(s, L, d), name);
    ObjectSlotNode(g, s, L, d, j);
    RemoveEffect(g, s, L, d, j);
    RemovedIsGone(DirOf(s, L, d), name);
  }
}
