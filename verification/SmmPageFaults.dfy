/** The entries the page-fault handler of the SMM profile overwrites, and their restoration in
    the single-step handler. */
module SmmPageFaults {
  import opened Paging

  const MAX_PF_ENTRY_COUNT: nat := 10

  /** A place and the entry that was there before the fault was fixed. */
  datatype Saved = Saved(place: Place, entry: Entry)

  /** An access of an open page faults: the page is not present, or code is fetched from an
      execute-disabled page. */
  predicate Faults(v: View, fetch: bool) {
    !v.present || (fetch && v.nx)
  }

  /** The entry that lets the access through. */
  function Fixed(large: bool, n: nat): Entry {
    if large then Large(n / 512) else Small(n)
  }

  /** mLastPFEntryValue is written back in the order the entries were saved. */
  function Restore(m: Memory, saved: seq<Saved>): Memory {
    if saved == [] then m
    else Restore(Put(m, saved[0].place.page, saved[0].place.index, saved[0].entry), saved[1..])
  }

  predicate Holds(m: Memory, place: Place) {
    place.page in m && place.index < |m[place.page]|
  }

  /** A fixed entry: nothing faults on it any more, and it differs from what it replaced. */
  predicate FixedAt(m: Memory, s: Saved) {
    && Holds(m, s.place)
    && At(m, s.place.page, s.place.index).p && !At(m, s.place.page, s.place.index).nx
    && (!s.entry.p || s.entry.nx)
  }

  /** The faults since the last single step: their places are distinct, and writing all the
      old entries back gives the original tables. */
  predicate History(m: Memory, faults: seq<Saved>, original: Memory) {
    && (forall i :: 0 <= i < |faults| ==> FixedAt(m, faults[i]))
    && (forall i, j :: 0 <= i < j < |faults| ==> faults[i].place != faults[j].place)
    && Restore(m, faults) == original
  }

  lemma PutTwice(m: Memory, a: Place, x: Entry, b: Place, y: Entry)
    requires a != b
    ensures Put(Put(m, a.page, a.index, x), b.page, b.index, y) == Put(Put(m, b.page, b.index, y), a.page, a.index, x)
  {
    if a.page == b.page && Holds(m, a) && Holds(m, b) {
      assert m[a.page][a.index := x][b.index := y] == m[a.page][b.index := y][a.index := x];
    }
  }

  lemma PutOver(m: Memory, a: Place, x: Entry, y: Entry)
    ensures Put(Put(m, a.page, a.index, x), a.page, a.index, y) == Put(m, a.page, a.index, y)
  {
    if Holds(m, a) { assert m[a.page][a.index := x][a.index := y] == m[a.page][a.index := y]; }
  }

  lemma PutSame(m: Memory, a: Place)
    ensures Put(m, a.page, a.index, At(m, a.page, a.index)) == m
  {
    if Holds(m, a) { assert m[a.page][a.index := m[a.page][a.index]] == m[a.page]; }
  }

  predicate Elsewhere(saved: seq<Saved>, place: Place) {
    forall i :: 0 <= i < |saved| ==> saved[i].place != place
  }

  /** A write to a place that is not saved survives the restoration. */
  lemma {:induction false} RestoreAfterPut(m: Memory, saved: seq<Saved>, place: Place, e: Entry)
    requires Elsewhere(saved, place)
    ensures Restore(Put(m, place.page, place.index, e), saved) == Put(Restore(m, saved), place.page, place.index, e)
  {
    if saved != [] {
      PutTwice(m, saved[0].place, saved[0].entry, place, e);
      assert Elsewhere(saved[1..], place);
      RestoreAfterPut(Put(m, saved[0].place.page, saved[0].place.index, saved[0].entry), saved[1..], place, e);
    }
  }

  lemma {:induction false} RestoreElsewhere(m: Memory, saved: seq<Saved>, place: Place)
    requires Elsewhere(saved, place)
    ensures At(Restore(m, saved), place.page, place.index) == At(m, place.page, place.index)
  {
    if saved != [] {
      AtPut(m, saved[0].place.page, saved[0].place.index, saved[0].entry, place.page, place.index);
      RestoreElsewhere(Put(m, saved[0].place.page, saved[0].place.index, saved[0].entry), saved[1..], place);
    }
  }

  lemma {:induction false} RestoreLast(m: Memory, saved: seq<Saved>, s: Saved)
    ensures Restore(m, saved + [s]) == Put(Restore(m, saved), s.place.page, s.place.index, s.entry)
  {
    if saved == [] {
      assert [s][1..] == [];
      assert saved + [s] == [s];
    } else {
      assert (saved + [s])[1..] == saved[1..] + [s];
      RestoreLast(Put(m, saved[0].place.page, saved[0].place.index, saved[0].entry), saved[1..], s);
    }
  }

  /** Fixing one more place extends the history. */
  lemma FixExtends(m: Memory, faults: seq<Saved>, original: Memory, place: Place, e: Entry)
    requires History(m, faults, original) && Holds(m, place)
    requires !At(m, place.page, place.index).p || At(m, place.page, place.index).nx
    requires e.p && !e.nx
    ensures History(Put(m, place.page, place.index, e), faults + [Saved(place, At(m, place.page, place.index))],
                    original)
  {
    var old_ := At(m, place.page, place.index);
    var m', faults' := Put(m, place.page, place.index, e), faults + [Saved(place, old_)];
    forall i | 0 <= i < |faults|
      ensures faults[i].place != place && FixedAt(m', faults[i])
    {
      assert FixedAt(m, faults[i]);
    }
    assert FixedAt(m', Saved(place, old_));
    RestoreLast(m', faults, Saved(place, old_));
    RestoreAfterPut(m, faults, place, e);
    PutOver(Restore(m, faults), place, e, old_);
    RestoreElsewhere(m, faults, place);
    PutSame(Restore(m, faults), place);
  }

  /** Writing back the first ten saved entries restores the tables exactly when there are no
      more than ten. */
  lemma RestoreTen(m: Memory, faults: seq<Saved>, original: Memory)
    requires History(m, faults, original)
    ensures var k := if |faults| <= MAX_PF_ENTRY_COUNT then |faults| else MAX_PF_ENTRY_COUNT;
            Restore(m, faults[..k]) == original <==> |faults| <= MAX_PF_ENTRY_COUNT
  {
    if |faults| <= MAX_PF_ENTRY_COUNT {
      assert faults[..|faults|] == faults;
    } else {
      var lost := faults[|faults| - 1];
      RestoreElsewhere(m, faults[..MAX_PF_ENTRY_COUNT], lost.place);
      assert faults[..|faults| - 1] + [lost] == faults;
      RestoreLast(m, faults[..|faults| - 1], lost);
      RestoreHolds(m, faults[..|faults| - 1], lost.place);
      assert FixedAt(m, lost);
    }
  }

  lemma {:induction false} RestoreHolds(m: Memory, saved: seq<Saved>, place: Place)
    ensures Holds(Restore(m, saved), place) <==> Holds(m, place)
  {
    if saved != [] {
      RestoreHolds(Put(m, saved[0].place.page, saved[0].place.index, saved[0].entry), saved[1..], place);
    }
  }
}
