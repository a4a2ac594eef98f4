/** The protected memory ranges of the SMM profile and the 2 MB pages they force to be mapped
    by 4 KB pages.  All addresses are physical, so no sum leaves 64 bits. */
module SmmProtection {

  const SIZE_2MB: nat := 0x20_0000
  const SIZE_4KB: nat := 0x1000
  const PHYSICAL_TOP: nat := 0x10_0000_0000_0000

  datatype Range = Range(base: nat, top: nat)
  datatype Protection = Protection(range: Range, present: bool, nx: bool)
  datatype Descriptor = Descriptor(mmio: bool, base: nat, length: nat)
  datatype Access = Access(present: bool, nx: bool)

  function Down(x: nat): nat { x / SIZE_2MB * SIZE_2MB }
  function Up(x: nat): nat { Down(x + SIZE_2MB - 1) }

  predicate InRange(r: Range, a: nat) { r.base <= a < r.top }

  predicate Ordered(protections: seq<Protection>) {
    forall i :: 0 <= i < |protections| ==> protections[i].range.base <= protections[i].range.top <= PHYSICAL_TOP
  }

  // ----- What the ranges say about an address -----

  /** The first range that holds the address decides. */
  function AccessOf(protections: seq<Protection>, a: nat): Access {
    if protections == [] then Access(false, false)
    else if InRange(protections[0].range, a) then Access(protections[0].present, protections[0].nx)
    else AccessOf(protections[1..], a)
  }

  method IsAddressValid(protections: seq<Protection>, a: nat) returns (valid: bool, nx: bool)
    ensures Access(valid, nx) == AccessOf(protections, a)
  {
    var i := 0;
    while i < |protections|
      invariant i <= |protections| && AccessOf(protections, a) == AccessOf(protections[i..], a)
    {
      if protections[i].range.base <= a && a < protections[i].range.top {
        return protections[i].present, protections[i].nx;
      }
      assert protections[i..][1..] == protections[i + 1..];
      i := i + 1;
    }
    return false, false;
  }

  predicate InSplit(splits: seq<Range>, a: nat) {
    exists i :: 0 <= i < |splits| && InRange(splits[i], a)
  }

  method IsAddressSplit(splits: seq<Range>, a: nat) returns (split: bool)
    ensures split <==> InSplit(splits, a)
  {
    var i := 0;
    while i < |splits|
      invariant i <= |splits| && forall j :: 0 <= j < i ==> !InRange(splits[j], a)
    {
      if splits[i].base <= a && a < splits[i].top { return true; }
      i := i + 1;
    }
    return false;
  }

  // ----- The split list -----

  /** The range holds a part of the q-th 2 MB page but not all of it; an empty range cuts the
      page it lies inside of. */
  predicate Cuts(r: Range, q: nat) {
    var lo, hi := q * SIZE_2MB, (q + 1) * SIZE_2MB;
    if r.base < r.top then r.base < hi && lo < r.top && !(r.base <= lo && hi <= r.top)
    else lo < r.base < hi
  }

  predicate CutBySome(protections: seq<Protection>, q: nat) {
    exists i :: 0 <= i < |protections| && Cuts(protections[i].range, q)
  }

  /** The ranges one protected range contributes. */
  method SplitRanges(r: Range) returns (pieces: seq<Range>)
    requires r.base <= r.top <= PHYSICAL_TOP
    ensures forall q: nat :: InSplit(pieces, q * SIZE_2MB) <==> Cuts(r, q)
  {
    pieces := [];
    if r.base % SIZE_2MB != 0 || r.top % SIZE_2MB != 0 {
      if Down(r.top) > Up(r.base) && Down(r.top) - Up(r.base) >= SIZE_2MB {
        if Up(r.top) - Down(r.top) != 0 { pieces := pieces + [Range(Down(r.top), Up(r.top))]; }
        if Up(r.base) - Down(r.base) != 0 { pieces := pieces + [Range(Down(r.base), Up(r.base))]; }
        forall q: nat ensures InSplit(pieces, q * SIZE_2MB) <==> Cuts(r, q) { EndsCut(r, q, pieces); }
      } else {
        pieces := pieces + [Range(Down(r.base), Up(r.top))];
        forall q: nat
          ensures InSplit(pieces, q * SIZE_2MB) <==> Cuts(r, q)
        {
          WholeCut(r, q);
          assert pieces[0] == Range(Down(r.base), Up(r.top));
        }
      }
    } else {
      forall q: nat ensures !Cuts(r, q) { NothingCut(r, q); }
    }
  }

  lemma DownIs(x: nat, q: nat)
    ensures q * SIZE_2MB < Up(x) <==> q * SIZE_2MB < x
    ensures Down(x) <= q * SIZE_2MB <==> x < (q + 1) * SIZE_2MB
  {}

  lemma NothingCut(r: Range, q: nat)
    requires r.base % SIZE_2MB == 0 && r.top % SIZE_2MB == 0 && r.base <= r.top
    ensures !Cuts(r, q)
  {
    DownIs(r.base, q); DownIs(r.top, q);
  }

  lemma WholeCut(r: Range, q: nat)
    requires r.base <= r.top && (r.base % SIZE_2MB != 0 || r.top % SIZE_2MB != 0)
    requires Down(r.top) < Up(r.base) + SIZE_2MB
    ensures InRange(Range(Down(r.base), Up(r.top)), q * SIZE_2MB) <==> Cuts(r, q)
  {
    DownIs(r.base, q); DownIs(r.top, q);
    DownIs(r.base, q + 1); DownIs(r.top, q + 1);
  }

  lemma EndsCut(r: Range, q: nat, pieces: seq<Range>)
    requires r.base <= r.top && Up(r.base) < Down(r.top)
    requires pieces ==
      (if Up(r.top) != Down(r.top) then [Range(Down(r.top), Up(r.top))] else []) +
      (if Up(r.base) != Down(r.base) then [Range(Down(r.base), Up(r.base))] else [])
    ensures InSplit(pieces, q * SIZE_2MB) <==> Cuts(r, q)
  {
    DownIs(r.base, q); DownIs(r.top, q);
    var high, low := Range(Down(r.top), Up(r.top)), Range(Down(r.base), Up(r.base));
    assert InSplit(pieces, q * SIZE_2MB) <==> InRange(high, q * SIZE_2MB) || InRange(low, q * SIZE_2MB) by {
      if InRange(high, q * SIZE_2MB) { assert pieces[0] == high; }
      if InRange(low, q * SIZE_2MB) { assert pieces[|pieces| - 1] == low; }
    }
  }

  /** Exactly the 2 MB pages cut by some protected range are to be split. */
  method SplitList(protections: seq<Protection>) returns (splits: seq<Range>)
    requires Ordered(protections)
    ensures forall q: nat :: InSplit(splits, q * SIZE_2MB) <==> CutBySome(protections, q)
  {
    splits := [];
    var i := 0;
    while i < |protections|
      invariant i <= |protections|
      invariant forall q: nat :: InSplit(splits, q * SIZE_2MB) <==> CutBySome(protections[..i], q)
    {
      var pieces := SplitRanges(protections[i].range);
      forall q: nat ensures InSplit(splits + pieces, q * SIZE_2MB) <==> CutBySome(protections[..i + 1], q) {
        InSplitBoth(splits, pieces, q * SIZE_2MB);
        CutByNext(protections, i, q);
      }
      splits := splits + pieces;
      i := i + 1;
    }
    assert protections[..i] == protections;
  }

  lemma InSplitBoth(a: seq<Range>, b: seq<Range>, x: nat)
    ensures InSplit(a + b, x) <==> InSplit(a, x) || InSplit(b, x)
  {
    if InSplit(b, x) {
      var i :| 0 <= i < |b| && InRange(b[i], x);
      assert (a + b)[|a| + i] == b[i];
    }
    if InSplit(a, x) {
      var i :| 0 <= i < |a| && InRange(a[i], x);
      assert (a + b)[i] == a[i];
    }
  }

  lemma CutByNext(protections: seq<Protection>, i: nat, q: nat)
    requires i < |protections|
    ensures CutBySome(protections[..i + 1], q) <==> CutBySome(protections[..i], q) || Cuts(protections[i].range, q)
  {
    if CutBySome(protections[..i], q) {
      var j :| 0 <= j < i && Cuts(protections[..i][j].range, q);
      assert protections[..i + 1][j] == protections[..i][j];
    }
    if Cuts(protections[i].range, q) { assert protections[..i + 1][i] == protections[i]; }
    if CutBySome(protections[..i + 1], q) {
      var j :| 0 <= j < i + 1 && Cuts(protections[..i + 1][j].range, q);
      assert j < i ==> protections[..i][j] == protections[..i + 1][j];
    }
  }

  /** On a 2 MB page that no range cuts, all addresses have the access of the first one. */
  lemma {:induction false} UncutIsUniform(protections: seq<Protection>, q: nat, a: nat)
    requires Ordered(protections) && !CutBySome(protections, q)
    requires q * SIZE_2MB <= a < (q + 1) * SIZE_2MB
    ensures AccessOf(protections, a) == AccessOf(protections, q * SIZE_2MB)
  {
    if protections != [] {
      assert !Cuts(protections[0].range, q);
      forall i | 0 <= i < |protections| - 1
        ensures !Cuts(protections[1..][i].range, q)
      {
        assert !Cuts(protections[i + 1].range, q);
      }
      UncutIsUniform(protections[1..], q, a);
    }
  }

  // ----- InitProtectedMemRange -----

  function MmioRanges(descriptors: seq<Descriptor>): seq<Protection> {
    if descriptors == [] then []
    else MmioRanges(descriptors[..|descriptors| - 1]) + MmioRange(descriptors[|descriptors| - 1])
  }

  function MmioRange(d: Descriptor): seq<Protection> {
    if d.mmio then [Protection(Range(d.base, d.base + d.length), true, true)] else []
  }

  method InitProtectedMemRange(template: seq<Protection>, descriptors: seq<Descriptor>)
      returns (protections: seq<Protection>, splits: seq<Range>)
    requires Ordered(template)
    requires forall i :: 0 <= i < |descriptors| ==> descriptors[i].base + descriptors[i].length <= PHYSICAL_TOP
    ensures protections == template + MmioRanges(descriptors)
    ensures Ordered(protections)
    ensures forall q: nat :: InSplit(splits, q * SIZE_2MB) <==> CutBySome(protections, q)
  {
    protections := template;
    var i := 0;
    while i < |descriptors|
      invariant i <= |descriptors|
      invariant protections == template + MmioRanges(descriptors[..i]) && Ordered(protections)
    {
      assert descriptors[..i + 1][..i] == descriptors[..i];
      if descriptors[i].mmio {
        var range := Range(descriptors[i].base, descriptors[i].base + descriptors[i].length);
        protections := protections + [Protection(range, true, true)];
      }
      i := i + 1;
    }
    assert descriptors[..i] == descriptors;
    splits := SplitList(protections);
  }

  predicate Covered(protections: seq<Protection>, a: nat) {
    exists i :: 0 <= i < |protections| && InRange(protections[i].range, a)
  }

  predicate InMmio(descriptors: seq<Descriptor>, a: nat) {
    exists i :: 0 <= i < |descriptors| && descriptors[i].mmio &&
      descriptors[i].base <= a < descriptors[i].base + descriptors[i].length
  }

  /** The template decides where it says something; elsewhere MMIO is present and
      execute-disable, and nothing else is present. */
  lemma AccessIs(template: seq<Protection>, descriptors: seq<Descriptor>, a: nat)
    ensures AccessOf(template + MmioRanges(descriptors), a) ==
      if Covered(template, a) then AccessOf(template, a) else Access(InMmio(descriptors, a), InMmio(descriptors, a))
  {
    AccessOfBoth(template, MmioRanges(descriptors), a);
    MmioAccess(descriptors, a);
  }

  lemma {:induction false} MmioAccess(descriptors: seq<Descriptor>, a: nat)
    ensures AccessOf(MmioRanges(descriptors), a) == Access(InMmio(descriptors, a), InMmio(descriptors, a))
    ensures Covered(MmioRanges(descriptors), a) <==> InMmio(descriptors, a)
  {
    if descriptors != [] {
      var n := |descriptors| - 1;
      MmioAccess(descriptors[..n], a);
      AccessOfBoth(MmioRanges(descriptors[..n]), MmioRange(descriptors[n]), a);
      MmioNext(descriptors, a);
      assert AccessOf(MmioRange(descriptors[n]), a) ==
               Access(Covered(MmioRange(descriptors[n]), a), Covered(MmioRange(descriptors[n]), a));
    }
  }

  lemma MmioNext(descriptors: seq<Descriptor>, a: nat)
    requires descriptors != []
    ensures InMmio(descriptors, a) <==>
      InMmio(descriptors[..|descriptors| - 1], a) || Covered(MmioRange(descriptors[|descriptors| - 1]), a)
  {
    var n := |descriptors| - 1;
    var last := MmioRange(descriptors[n]);
    assert descriptors[n].mmio ==>
             last[0] == Protection(Range(descriptors[n].base, descriptors[n].base + descriptors[n].length), true, true);
    assert forall i :: 0 <= i < n ==> descriptors[..n][i] == descriptors[i];
  }

  lemma {:induction false} AccessOfBoth(p: seq<Protection>, q: seq<Protection>, a: nat)
    ensures AccessOf(p + q, a) == if Covered(p, a) then AccessOf(p, a) else AccessOf(q, a)
    ensures Covered(p + q, a) <==> Covered(p, a) || Covered(q, a)
  {
    CoveredBoth(p, q, a);
    if p == [] {
      assert p + q == q;
    } else {
      assert (p + q)[1..] == p[1..] + q;
      AccessOfBoth(p[1..], q, a);
      CoveredBoth([p[0]], p[1..], a);
      assert [p[0]] + p[1..] == p && [p[0]][0] == p[0];
    }
  }

  lemma CoveredBoth(p: seq<Protection>, q: seq<Protection>, a: nat)
    ensures Covered(p + q, a) <==> Covered(p, a) || Covered(q, a)
  {
    if i :| 0 <= i < |p| && InRange(p[i].range, a) { assert (p + q)[i] == p[i]; }
    if i :| 0 <= i < |q| && InRange(q[i].range, a) { assert (p + q)[|p| + i] == q[i]; }
  }
}
