/** FindSmramInfo: the SMRAM window the SMRR covers. */
module SmramDiscovery {

  const BASE_1MB: nat := 0x10_0000
  const BASE_4GB: nat := 0x1_0000_0000
  const MIN_SIZE: nat := 0x4_0000 - 0x1000

  /** blocked: the range is allocated, needs testing or needs ECC initialization. */
  datatype SmramRange = SmramRange(start: nat, size: nat, blocked: bool)

  datatype Option<T> = None | Some(value: T)

  predicate Inside(r: SmramRange, x: int) { r.start <= x < r.start + r.size }

  predicate Disjoint(a: SmramRange, b: SmramRange) {
    a.start + a.size <= b.start || b.start + b.size <= a.start || a.size == 0 || b.size == 0
  }

  /** No byte belongs to two ranges, and all ranges lie below 4 GB. */
  predicate Proper(ranges: seq<SmramRange>) {
    && (forall i :: 0 <= i < |ranges| ==> ranges[i].start + ranges[i].size <= BASE_4GB)
    && (forall i, j :: 0 <= i < j < |ranges| ==> Disjoint(ranges[i], ranges[j]))
  }

  predicate Covered(ranges: seq<SmramRange>, x: int) {
    exists i :: 0 <= i < |ranges| && Inside(ranges[i], x)
  }

  // ----- The choice of the first range -----

  predicate Eligible(r: SmramRange) {
    !r.blocked && r.start >= BASE_1MB && r.start + r.size <= BASE_4GB && r.size >= MIN_SIZE
  }

  /** The largest eligible range, the last one of those of the same size. */
  predicate Largest(ranges: seq<SmramRange>, c: nat) {
    && c < |ranges| && Eligible(ranges[c])
    && (forall i :: 0 <= i < |ranges| && Eligible(ranges[i]) ==> ranges[i].size <= ranges[c].size)
    && (forall i :: c < i < |ranges| && Eligible(ranges[i]) ==> ranges[i].size < ranges[c].size)
  }

  method ChooseRange(ranges: seq<SmramRange>) returns (c: Option<nat>)
    ensures c.Some? ==> Largest(ranges, c.value)
    ensures c.None? ==> forall i :: 0 <= i < |ranges| ==> !Eligible(ranges[i])
  {
    c := None;
    var maxSize := MIN_SIZE;
    var i := 0;
    while i < |ranges|
      invariant i <= |ranges|
      invariant c.None? ==> maxSize == MIN_SIZE && forall j :: 0 <= j < i ==> !Eligible(ranges[j])
      invariant c.Some? ==> c.value < i && Largest(ranges[..i], c.value) && maxSize == ranges[c.value].size
    {
      if !ranges[i].blocked && ranges[i].start >= BASE_1MB && ranges[i].start + ranges[i].size <= BASE_4GB &&
         ranges[i].size >= maxSize {
        maxSize := ranges[i].size;
        c := Some(i);
      }
      i := i + 1;
    }
    assert ranges[..i] == ranges;
  }

  // ----- Merging the neighbours -----

  function Low32(x: nat): nat { x % BASE_4GB }

  /** Every byte of the window belongs to a range that lies in it. */
  predicate Filled(ranges: seq<SmramRange>, base: nat, end: nat) {
    forall x {:trigger FilledAt(ranges, base, end, x)} :: base <= x < end ==> FilledAt(ranges, base, end, x)
  }

  predicate FilledAt(ranges: seq<SmramRange>, base: nat, end: nat, x: int) {
    exists i :: 0 <= i < |ranges| && Inside(ranges[i], x) &&
      base <= ranges[i].start && ranges[i].start + ranges[i].size <= end
  }

  /** A range that ends where the window begins, or begins where it ends. */
  predicate Adjoins(r: SmramRange, base: nat, end: nat) {
    r.size > 0 && (r.start + r.size == base || r.start == end)
  }

  lemma Extends(ranges: seq<SmramRange>, base: nat, end: nat, i: nat, base': nat, end': nat)
    requires i < |ranges| && Filled(ranges, base, end) && base < end
    requires Adjoins(ranges[i], base, end)
    requires if ranges[i].start + ranges[i].size == base then base' == ranges[i].start && end' == end
             else base' == base && end' == ranges[i].start + ranges[i].size
    ensures Filled(ranges, base', end')
  {
    forall x {:trigger FilledAt(ranges, base', end', x)} | base' <= x < end' ensures FilledAt(ranges, base', end', x) {
      if base <= x < end {
        assert FilledAt(ranges, base, end, x);
      } else {
        assert Inside(ranges[i], x);
      }
    }
  }

  /** A filled window with no neighbour is a maximal interval of SMRAM. */
  lemma Maximal(ranges: seq<SmramRange>, base: nat, end: nat)
    requires Proper(ranges) && Filled(ranges, base, end) && base < end
    requires forall i :: 0 <= i < |ranges| ==> !Adjoins(ranges[i], base, end)
    ensures !Covered(ranges, end) && !Covered(ranges, base - 1)
    ensures forall x :: base <= x < end ==> Covered(ranges, x)
  {
    forall x | base <= x < end ensures Covered(ranges, x) { assert FilledAt(ranges, base, end, x); }
    assert FilledAt(ranges, base, end, end - 1) && FilledAt(ranges, base, end, base);
    var l :| 0 <= l < |ranges| && Inside(ranges[l], end - 1) && ranges[l].start + ranges[l].size <= end;
    var f :| 0 <= f < |ranges| && Inside(ranges[f], base) && base <= ranges[f].start;
    forall i | 0 <= i < |ranges| ensures !Inside(ranges[i], end) && !Inside(ranges[i], base - 1) {
      assert !Adjoins(ranges[i], base, end);
      Apart(ranges, i, l);
      Apart(ranges, i, f);
    }
  }

  lemma Apart(ranges: seq<SmramRange>, i: nat, j: nat)
    requires Proper(ranges) && i < |ranges| && j < |ranges|
    ensures i == j || Disjoint(ranges[i], ranges[j])
  {
    if i < j { assert Disjoint(ranges[i], ranges[j]); } else if j < i { assert Disjoint(ranges[j], ranges[i]); }
  }

  /** The window, base and size in 32 bits, stands for [base, end). */
  predicate Window(ranges: seq<SmramRange>, base: nat, size: nat, c: nat) {
    && c < |ranges| && base <= ranges[c].start && ranges[c].start + ranges[c].size <= base + size <= BASE_4GB
    && 0 < size < BASE_4GB && Filled(ranges, base, base + size)
  }

  /** SMRAM continues from the chosen range to the top of the 4 GB, and there is also SMRAM at
      address 0: the 32-bit end of the full window is then 0, and the range at 0 seems to
      continue it. */
  ghost predicate Wraps(ranges: seq<SmramRange>) {
    exists c: nat :: Largest(ranges, c) && FullUp(ranges, ranges[c].start) && ZeroUsed(ranges)
  }

  ghost predicate FullUp(ranges: seq<SmramRange>, start: nat) {
    forall x :: start <= x < BASE_4GB ==> Covered(ranges, x)
  }

  predicate ZeroUsed(ranges: seq<SmramRange>) {
    exists j :: 0 <= j < |ranges| && ranges[j].size > 0 && ranges[j].start == 0
  }

  datatype Merge = Merge(base: nat, size: nat, found: bool)

  /** What the loop body makes of one range. */
  function MergeOne(r: SmramRange, base: nat, size: nat): Merge {
    if r.start < base && base == r.start + r.size then Merge(Low32(r.start), Low32(size + r.size), true)
    else if Low32(base + size) == r.start && r.size > 0 then Merge(base, Low32(size + r.size), true)
    else Merge(base, size, false)
  }

  /** A range is merged iff it adjoins the window, or lies at 0 while the window reaches the top. */
  lemma MergesNeighbours(ranges: seq<SmramRange>, i: nat, base: nat, size: nat, c: nat)
    requires Proper(ranges) && Window(ranges, base, size, c) && i < |ranges|
    ensures MergeOne(ranges[i], base, size).found <==>
      Adjoins(ranges[i], base, base + size) || (base + size == BASE_4GB && ranges[i].start == 0 && ranges[i].size > 0)
  {}

  lemma NoFalseNeighbour(ranges: seq<SmramRange>, base: nat, size: nat, c: nat)
    requires Largest(ranges, c) && !Wraps(ranges) && Window(ranges, base, size, c)
    ensures base + size == BASE_4GB ==> !ZeroUsed(ranges)
  {
    if base + size == BASE_4GB {
      forall x | ranges[c].start <= x < BASE_4GB
        ensures Covered(ranges, x)
      {
        assert FilledAt(ranges, base, base + size, x);
      }
      assert FullUp(ranges, ranges[c].start);
    }
  }

  /** A merge adds a neighbour, and no 32-bit sum wraps around. */
  lemma MergeKeepsWindow(ranges: seq<SmramRange>, i: nat, base: nat, size: nat, c: nat)
    requires Proper(ranges) && Largest(ranges, c) && !Wraps(ranges) && Window(ranges, base, size, c) && i < |ranges|
    ensures var m := MergeOne(ranges[i], base, size);
            && Window(ranges, m.base, m.size, c)
            && if m.found then m.size > size
               else m == Merge(base, size, false) && !Adjoins(ranges[i], base, base + size)
  {
    MergesNeighbours(ranges, i, base, size, c);
    NoFalseNeighbour(ranges, base, size, c);
    var r, end := ranges[i], base + size;
    if Adjoins(r, base, end) {
      if r.start + r.size == base {
        Extends(ranges, base, end, i, r.start, end);
        NotAll(ranges, i, base, size, c);
      } else {
        Extends(ranges, base, end, i, base, r.start + r.size);
        NotAll(ranges, i, base, size, c);
      }
    }
  }

  /** The merged window is not the whole 4 GB. */
  lemma NotAll(ranges: seq<SmramRange>, i: nat, base: nat, size: nat, c: nat)
    requires Proper(ranges) && Largest(ranges, c) && !Wraps(ranges) && Window(ranges, base, size, c) && i < |ranges|
    requires Adjoins(ranges[i], base, base + size)
    ensures size + ranges[i].size < BASE_4GB
  {
    var r, end := ranges[i], base + size;
    assert FilledAt(ranges, base, end, base);
    var f :| 0 <= f < |ranges| && Inside(ranges[f], base) && base <= ranges[f].start;
    forall x | size + r.size >= BASE_4GB && ranges[c].start <= x < BASE_4GB ensures Covered(ranges, x) {
      if x < end { assert FilledAt(ranges, base, end, x); } else { assert Inside(r, x); }
    }
    assert size + r.size >= BASE_4GB ==> FullUp(ranges, ranges[c].start);
    assert size + r.size >= BASE_4GB ==> ZeroUsed(ranges);
  }

  /** One pass over the ranges. */
  method MergePass(ranges: seq<SmramRange>, base0: nat, size0: nat, ghost c: nat)
      returns (base: nat, size: nat, found: bool)
    requires Proper(ranges) && Largest(ranges, c) && !Wraps(ranges) && Window(ranges, base0, size0, c)
    ensures Window(ranges, base, size, c)
    ensures if found then size > size0
            else base == base0 && size == size0 &&
                 forall j :: 0 <= j < |ranges| ==> !Adjoins(ranges[j], base, base + size)
  {
    base, size, found := base0, size0, false;
    var i := 0;
    while i < |ranges|
      invariant i <= |ranges| && Window(ranges, base, size, c)
      invariant if found then size > size0
                else base == base0 && size == size0 &&
                     forall j :: 0 <= j < i ==> !Adjoins(ranges[j], base, base + size)
    {
      MergeKeepsWindow(ranges, i, base, size, c);
      var m := MergeOne(ranges[i], base, size);
      base, size, found := m.base, m.size, found || m.found;
      i := i + 1;
    }
  }

  /** The window is the maximal interval of SMRAM around the chosen range. */
  ghost predicate IsCluster(ranges: seq<SmramRange>, base: nat, size: nat, c: nat) {
    && Largest(ranges, c) && 0 < size < BASE_4GB
    && base <= ranges[c].start && ranges[c].start + ranges[c].size <= base + size
    && (forall x :: base <= x < base + size ==> Covered(ranges, x))
    && !Covered(ranges, base + size) && !Covered(ranges, base - 1)
  }

  /** FindSmramInfo: exactly the maximal interval of SMRAM around the chosen range. */
  method FindSmramInfo(ranges: seq<SmramRange>) returns (window: Option<(nat, nat)>)
    requires Proper(ranges) && !Wraps(ranges)
    ensures window.None? <==> forall i :: 0 <= i < |ranges| ==> !Eligible(ranges[i])
    ensures window.Some? ==> exists c: nat :: IsCluster(ranges, window.value.0, window.value.1, c)
  {
    var choice := ChooseRange(ranges);
    if choice.None? { return None; }
    var c := choice.value;
    var base, size := Low32(ranges[c].start), Low32(ranges[c].size);
    StartFilled(ranges, c);
    var found := true;
    while found
      invariant Window(ranges, base, size, c)
      invariant !found ==> forall j :: 0 <= j < |ranges| ==> !Adjoins(ranges[j], base, base + size)
      decreases BASE_4GB - size, found
    {
      base, size, found := MergePass(ranges, base, size, c);
    }
    Maximal(ranges, base, base + size);
    assert IsCluster(ranges, base, size, c);
    return Some((base, size));
  }

  lemma StartFilled(ranges: seq<SmramRange>, c: nat)
    requires Largest(ranges, c)
    ensures Window(ranges, ranges[c].start, ranges[c].size, c)
  {
    var base, end := ranges[c].start, ranges[c].start + ranges[c].size;
    forall x {:trigger FilledAt(ranges, base, end, x)} | base <= x < end ensures FilledAt(ranges, base, end, x) {
      assert Inside(ranges[c], x);
    }
  }

  /** The condition is exact: when it fails, the loop cannot stop at the right window, because
      the range at 0 is merged into it. */
  lemma WrapNeverSettles(ranges: seq<SmramRange>, base: nat, size: nat, c: nat)
    requires Proper(ranges) && Wraps(ranges) && IsCluster(ranges, base, size, c)
    ensures exists j :: 0 <= j < |ranges| && MergeOne(ranges[j], base, size).found
  {
    var d: nat :| Largest(ranges, d) && FullUp(ranges, ranges[d].start) && ZeroUsed(ranges);
    var j :| 0 <= j < |ranges| && ranges[j].size > 0 && ranges[j].start == 0;
    assert d == c;
    assert ranges[c].start <= base + size < BASE_4GB ==> Covered(ranges, base + size);
    assert Covered(ranges, base + size - 1);
    assert MergeOne(ranges[j], base, size).found;
  }

  /** Such SMRAM maps exist. */
  lemma WrapExists() returns (ranges: seq<SmramRange>)
    ensures Proper(ranges) && Wraps(ranges)
  {
    var zero, top := SmramRange(0, 0x1000, true), SmramRange(0xFFF0_0000, 0x10_0000, false);
    ranges := [zero, top];
    assert Largest(ranges, 1);
    assert ranges[0].start == 0;
    forall x | top.start <= x < BASE_4GB ensures Covered(ranges, x) { assert Inside(ranges[1], x); }
    assert FullUp(ranges, ranges[1].start) && ZeroUsed(ranges);
  }
}
