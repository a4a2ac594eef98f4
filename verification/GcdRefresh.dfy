/** CpuArchDxe/MemoryAttribute.c: the cache attributes of the GCD memory space are refreshed
    from the MTRRs by a sequence of interval writes. */
module GcdRefresh {

  const EFI_MEMORY_UC: bv64 := 0x1
  const EFI_MEMORY_WC: bv64 := 0x2
  const EFI_MEMORY_WT: bv64 := 0x4
  const EFI_MEMORY_WB: bv64 := 0x8
  const EFI_MEMORY_UCE: bv64 := 0x10
  const EFI_MEMORY_WP: bv64 := 0x1000
  const CACHETYPE_MASK: bv64 := EFI_MEMORY_UC | EFI_MEMORY_WC | EFI_MEMORY_WT | EFI_MEMORY_WB | EFI_MEMORY_UCE

  const MTRR_CACHE_UNCACHEABLE: bv64 := 0
  const MTRR_CACHE_WRITE_COMBINING: bv64 := 1
  const MTRR_CACHE_WRITE_THROUGH: bv64 := 4
  const MTRR_CACHE_WRITE_PROTECTED: bv64 := 5
  const MTRR_CACHE_WRITE_BACK: bv64 := 6

  function AttributeOfType(mtrrType: bv64): bv64 {
    if mtrrType == MTRR_CACHE_UNCACHEABLE then EFI_MEMORY_UC
    else if mtrrType == MTRR_CACHE_WRITE_COMBINING then EFI_MEMORY_WC
    else if mtrrType == MTRR_CACHE_WRITE_THROUGH then EFI_MEMORY_WT
    else if mtrrType == MTRR_CACHE_WRITE_PROTECTED then EFI_MEMORY_WP
    else if mtrrType == MTRR_CACHE_WRITE_BACK then EFI_MEMORY_WB
    else 0
  }

  // ----- The memory space map -----

  datatype Descriptor = Descriptor(base: nat, length: nat, existent: bool, capabilities: bv64, attributes: bv64)

  const ONE_MB: nat := 0x10_0000

  function Top(descriptors: seq<Descriptor>): nat {
    if descriptors == [] then 0 else descriptors[|descriptors| - 1].base + descriptors[|descriptors| - 1].length
  }

  /** Sorted and without gaps, from 0 to at least 1 MB. */
  predicate Contiguous(descriptors: seq<Descriptor>) {
    && descriptors != [] && descriptors[0].base == 0 && Top(descriptors) >= ONE_MB
    && (forall i :: 0 <= i < |descriptors| ==> descriptors[i].length > 0)
    && (forall i :: 0 < i < |descriptors| ==>
          descriptors[i].base == descriptors[i - 1].base + descriptors[i - 1].length)
  }

  predicate Inside(d: Descriptor, x: nat) { d.base <= x < d.base + d.length }

  lemma {:induction false} Ascending(descriptors: seq<Descriptor>, i: nat, j: nat)
    requires Contiguous(descriptors) && i < j < |descriptors|
    ensures descriptors[i].base + descriptors[i].length <= descriptors[j].base
  {
    if i + 1 < j { Ascending(descriptors, i, j - 1); }
  }

  /** The descriptor that holds a byte, |descriptors| if there is none. */
  function Holder(descriptors: seq<Descriptor>, x: nat): (i: nat)
    ensures i <= |descriptors|
    ensures i < |descriptors| ==> Inside(descriptors[i], x)
    ensures forall j :: 0 <= j < i ==> !Inside(descriptors[j], x)
  {
    if descriptors == [] then 0 else if Inside(descriptors[0], x) then 0 else 1 + Holder(descriptors[1..], x)
  }

  lemma HolderIs(descriptors: seq<Descriptor>, i: nat, x: nat)
    requires Contiguous(descriptors) && i < |descriptors| && Inside(descriptors[i], x)
    ensures Holder(descriptors, x) == i
  {
    if Holder(descriptors, x) < i { Ascending(descriptors, Holder(descriptors, x), i); }
  }

  /** The map has a descriptor for every byte below its top and for no other. */
  lemma HolderExists(descriptors: seq<Descriptor>, x: nat)
    requires Contiguous(descriptors)
    ensures Holder(descriptors, x) < |descriptors| <==> x < Top(descriptors)
  {
    if x < Top(descriptors) { HolderBelow(descriptors, x, |descriptors| - 1); }
    if Holder(descriptors, x) < |descriptors| - 1 { Ascending(descriptors, Holder(descriptors, x), |descriptors| - 1); }
  }

  lemma {:induction false} HolderBelow(descriptors: seq<Descriptor>, x: nat, i: nat)
    requires Contiguous(descriptors) && i < |descriptors| && x < descriptors[i].base + descriptors[i].length
    ensures Holder(descriptors, x) < |descriptors|
  {
    if i > 0 && x < descriptors[i].base { HolderBelow(descriptors, x, i - 1); } else { HolderIs(descriptors, i, x); }
  }

  /** The byte belongs to memory that exists. */
  predicate Exists(descriptors: seq<Descriptor>, x: nat) {
    Holder(descriptors, x) < |descriptors| && descriptors[Holder(descriptors, x)].existent
  }

  /** The cache bits of a descriptor are replaced by those of an attribute it is capable of. */
  function Refreshed(d: Descriptor, attribute: bv64): bv64 {
    (d.attributes & !CACHETYPE_MASK) | (d.capabilities & attribute)
  }

  function RefreshedAt(descriptors: seq<Descriptor>, x: nat, attribute: bv64): bv64
    requires Exists(descriptors, x)
  {
    Refreshed(descriptors[Holder(descriptors, x)], attribute)
  }

  // ----- What the MTRRs say about a byte -----

  datatype VariableMtrr = VariableMtrr(valid: bool, base: nat, length: nat, mtrrType: bv64)

  /** A range that is not wholly inside the map is not found and has no effect. */
  predicate Hits(m: VariableMtrr, top: nat, x: nat) {
    m.valid && m.base + m.length <= top && m.base <= x < m.base + m.length
  }

  datatype Pass = WriteBack | Other | Uncacheable

  predicate InPass(pass: Pass, m: VariableMtrr) {
    match pass
    case WriteBack => m.mtrrType == MTRR_CACHE_WRITE_BACK
    case Other => m.mtrrType != MTRR_CACHE_WRITE_BACK && m.mtrrType != MTRR_CACHE_UNCACHEABLE
    case Uncacheable => m.mtrrType == MTRR_CACHE_UNCACHEABLE
  }

  predicate HitBy(mtrrs: seq<VariableMtrr>, pass: Pass, top: nat, x: nat) {
    exists i :: 0 <= i < |mtrrs| && InPass(pass, mtrrs[i]) && Hits(mtrrs[i], top, x)
  }

  /** The last of the matching ranges. */
  function LastHit(mtrrs: seq<VariableMtrr>, pass: Pass, top: nat, x: nat): (i: nat)
    requires HitBy(mtrrs, pass, top, x)
    ensures i < |mtrrs| && InPass(pass, mtrrs[i]) && Hits(mtrrs[i], top, x)
    ensures forall j :: i < j < |mtrrs| ==> !(InPass(pass, mtrrs[j]) && Hits(mtrrs[j], top, x))
  {
    var n := |mtrrs| - 1;
    if InPass(pass, mtrrs[n]) && Hits(mtrrs[n], top, x) then n
    else
      assert HitBy(mtrrs[..n], pass, top, x) by {
        var i :| 0 <= i < |mtrrs| && InPass(pass, mtrrs[i]) && Hits(mtrrs[i], top, x);
        assert mtrrs[..n][i] == mtrrs[i];
      }
      LastHit(mtrrs[..n], pass, top, x)
  }

  /** The precedence rule: uncacheable, then the last range of another type, then write-back,
      then the default type. */
  function VariableRule(mtrrs: seq<VariableMtrr>, defaultType: bv64, top: nat, x: nat): bv64 {
    if HitBy(mtrrs, Uncacheable, top, x) then EFI_MEMORY_UC
    else if HitBy(mtrrs, Other, top, x) then AttributeOfType(mtrrs[LastHit(mtrrs, Other, top, x)].mtrrType)
    else if HitBy(mtrrs, WriteBack, top, x) then EFI_MEMORY_WB
    else AttributeOfType(defaultType)
  }

  // ----- The rule without regard to the map -----

  /** The range holds the byte, wherever it ends. */
  predicate Holds(m: VariableMtrr, x: nat) {
    m.valid && m.base <= x < m.base + m.length
  }

  predicate HeldBy(mtrrs: seq<VariableMtrr>, pass: Pass, x: nat) {
    exists i :: 0 <= i < |mtrrs| && InPass(pass, mtrrs[i]) && Holds(mtrrs[i], x)
  }

  /** The last of the ranges of a pass that hold the byte. */
  function LastHolder(mtrrs: seq<VariableMtrr>, pass: Pass, x: nat): (i: nat)
    requires HeldBy(mtrrs, pass, x)
    ensures i < |mtrrs| && InPass(pass, mtrrs[i]) && Holds(mtrrs[i], x)
    ensures forall j :: i < j < |mtrrs| ==> !(InPass(pass, mtrrs[j]) && Holds(mtrrs[j], x))
  {
    var n := |mtrrs| - 1;
    if InPass(pass, mtrrs[n]) && Holds(mtrrs[n], x) then n
    else
      assert HeldBy(mtrrs[..n], pass, x) by {
        var i :| 0 <= i < |mtrrs| && InPass(pass, mtrrs[i]) && Holds(mtrrs[i], x);
        assert mtrrs[..n][i] == mtrrs[i];
      }
      LastHolder(mtrrs[..n], pass, x)
  }

  /** The precedence rule of the MTRRs themselves: every range counts for every byte it holds. */
  function PlainRule(mtrrs: seq<VariableMtrr>, defaultType: bv64, x: nat): bv64 {
    if HeldBy(mtrrs, Uncacheable, x) then EFI_MEMORY_UC
    else if HeldBy(mtrrs, Other, x) then AttributeOfType(mtrrs[LastHolder(mtrrs, Other, x)].mtrrType)
    else if HeldBy(mtrrs, WriteBack, x) then EFI_MEMORY_WB
    else AttributeOfType(defaultType)
  }

  /** What decides about the byte by the rule of the MTRRs ends inside the map: one of the
      uncacheable ranges that hold it; or, where there is none, the last range of another type,
      or an earlier one with the same attribute if only ranges that reach beyond the map
      follow; or else one of the write-back ranges. */
  predicate DeciderInside(mtrrs: seq<VariableMtrr>, top: nat, x: nat) {
    if HeldBy(mtrrs, Uncacheable, x) then HitBy(mtrrs, Uncacheable, top, x)
    else if HeldBy(mtrrs, Other, x) then
      && HitBy(mtrrs, Other, top, x)
      && AttributeOfType(mtrrs[LastHit(mtrrs, Other, top, x)].mtrrType) ==
         AttributeOfType(mtrrs[LastHolder(mtrrs, Other, x)].mtrrType)
    else HeldBy(mtrrs, WriteBack, x) ==> HitBy(mtrrs, WriteBack, top, x)
  }

  /** No range that holds the byte ends inside the map. */
  predicate NoneInside(mtrrs: seq<VariableMtrr>, top: nat, x: nat) {
    forall i :: 0 <= i < |mtrrs| ==> !Hits(mtrrs[i], top, x)
  }

  lemma HitsAreHeld(mtrrs: seq<VariableMtrr>, pass: Pass, top: nat, x: nat)
    ensures HitBy(mtrrs, pass, top, x) ==> HeldBy(mtrrs, pass, x) && !NoneInside(mtrrs, top, x)
  {
    if HitBy(mtrrs, pass, top, x) { assert Holds(mtrrs[LastHit(mtrrs, pass, top, x)], x); }
  }

  lemma SomeHits(mtrrs: seq<VariableMtrr>, top: nat, x: nat)
    requires !NoneInside(mtrrs, top, x)
    ensures HitBy(mtrrs, Uncacheable, top, x) || HitBy(mtrrs, Other, top, x) || HitBy(mtrrs, WriteBack, top, x)
  {
    var i :| 0 <= i < |mtrrs| && Hits(mtrrs[i], top, x);
    assert InPass(Uncacheable, mtrrs[i]) || InPass(Other, mtrrs[i]) || InPass(WriteBack, mtrrs[i]);
  }

  /** The refresh follows the rule of the MTRRs at a byte iff what decides there ends inside the
      map, or nothing that holds the byte does and the default type happens to have the same
      attribute as what decides. */
  lemma ClippingFor(mtrrs: seq<VariableMtrr>, defaultType: bv64, top: nat, x: nat)
    ensures VariableRule(mtrrs, defaultType, top, x) == PlainRule(mtrrs, defaultType, x) <==>
              || DeciderInside(mtrrs, top, x)
              || (NoneInside(mtrrs, top, x) && AttributeOfType(defaultType) == PlainRule(mtrrs, defaultType, x))
  {
    HitsAreHeld(mtrrs, Uncacheable, top, x);
    HitsAreHeld(mtrrs, Other, top, x);
    HitsAreHeld(mtrrs, WriteBack, top, x);
    if !NoneInside(mtrrs, top, x) { SomeHits(mtrrs, top, x); }
  }

  /** It follows the rule for every default type iff what decides ends inside the map. */
  lemma ClippingIff(mtrrs: seq<VariableMtrr>, top: nat, x: nat)
    ensures DeciderInside(mtrrs, top, x) <==>
              forall d: bv64 :: VariableRule(mtrrs, d, top, x) == PlainRule(mtrrs, d, x)
  {
    if DeciderInside(mtrrs, top, x) {
      forall d: bv64 ensures VariableRule(mtrrs, d, top, x) == PlainRule(mtrrs, d, x) {
        ClippingFor(mtrrs, d, top, x);
      }
    } else {
      var d := if HeldBy(mtrrs, Uncacheable, x) then MTRR_CACHE_WRITE_BACK else MTRR_CACHE_UNCACHEABLE;
      ClippingFor(mtrrs, d, top, x);
    }
  }

  /** In particular where every range that holds the byte ends inside the map. */
  lemma ClippingAside(mtrrs: seq<VariableMtrr>, defaultType: bv64, top: nat, x: nat)
    requires forall i :: 0 <= i < |mtrrs| && Holds(mtrrs[i], x) ==> Hits(mtrrs[i], top, x)
    ensures VariableRule(mtrrs, defaultType, top, x) == PlainRule(mtrrs, defaultType, x)
  {
    if HeldBy(mtrrs, Other, x) {
      var a, b := LastHit(mtrrs, Other, top, x), LastHolder(mtrrs, Other, x);
      assert Holds(mtrrs[a], x) && Hits(mtrrs[b], top, x);
      assert a == b;
    }
    ClippingFor(mtrrs, defaultType, top, x);
  }

  /** A range that reaches beyond the map and alone holds the byte is ignored: the byte gets the
      default.  That is wrong unless the range and the default have the same attribute. */
  lemma ClippedIsIgnored(mtrrs: seq<VariableMtrr>, defaultType: bv64, top: nat, x: nat, i: nat)
    requires i < |mtrrs| && Holds(mtrrs[i], x) && mtrrs[i].base + mtrrs[i].length > top
    requires forall j :: 0 <= j < |mtrrs| && j != i ==> !Holds(mtrrs[j], x)
    ensures VariableRule(mtrrs, defaultType, top, x) == AttributeOfType(defaultType)
    ensures PlainRule(mtrrs, defaultType, x) == AttributeOfType(mtrrs[i].mtrrType)
    ensures VariableRule(mtrrs, defaultType, top, x) == PlainRule(mtrrs, defaultType, x) <==>
              AttributeOfType(defaultType) == AttributeOfType(mtrrs[i].mtrrType)
  {
    assert forall j :: 0 <= j < |mtrrs| ==> !Hits(mtrrs[j], top, x);
    var pass :=
      if InPass(WriteBack, mtrrs[i]) then WriteBack else if InPass(Other, mtrrs[i]) then Other else Uncacheable;
    assert HeldBy(mtrrs, pass, x);
  }

  /** Such a map and such a range: 2 MB of memory and an uncacheable range from 1 MB to 4 MB,
      with write-back as the default. */
  lemma ClippingShows() returns (descriptors: seq<Descriptor>, mtrrs: seq<VariableMtrr>)
    ensures Contiguous(descriptors) && Exists(descriptors, ONE_MB)
    ensures VariableRule(mtrrs, MTRR_CACHE_WRITE_BACK, Top(descriptors), ONE_MB) == EFI_MEMORY_WB
    ensures PlainRule(mtrrs, MTRR_CACHE_WRITE_BACK, ONE_MB) == EFI_MEMORY_UC
  {
    descriptors := [Descriptor(0, 0x20_0000, true, 0xF, 0)];
    mtrrs := [VariableMtrr(true, ONE_MB, 0x30_0000, MTRR_CACHE_UNCACHEABLE)];
    ClippedIsIgnored(mtrrs, MTRR_CACHE_WRITE_BACK, Top(descriptors), ONE_MB, 0);
  }

  datatype FixedMtrr = FixedMtrr(base: nat, length: nat)

  const FIXED_MTRRS: seq<FixedMtrr> := [
    FixedMtrr(0, 0x1_0000), FixedMtrr(0x8_0000, 0x4000), FixedMtrr(0xA_0000, 0x4000),
    FixedMtrr(0xC_0000, 0x1000), FixedMtrr(0xC_8000, 0x1000), FixedMtrr(0xD_0000, 0x1000), FixedMtrr(0xD_8000, 0x1000),
    FixedMtrr(0xE_0000, 0x1000), FixedMtrr(0xE_8000, 0x1000), FixedMtrr(0xF_0000, 0x1000), FixedMtrr(0xF_8000, 0x1000)]

  /** The registers, from the last one down to the one that holds the byte. */
  function FixedIndex(x: nat, i: nat): (r: nat)
    requires i < |FIXED_MTRRS|
    ensures r <= i && (FIXED_MTRRS[r].base <= x || r == 0)
  {
    if i == 0 || FIXED_MTRRS[i].base <= x then i else FixedIndex(x, i - 1)
  }

  function TypeByte(register: bv64, sub: nat): bv64
    requires sub < 8
  {
    (register >> (8 * sub)) & 0xFF
  }

  /** The attribute the fixed MTRRs give a byte below 1 MB. */
  function FixedRule(registers: seq<bv64>, x: nat): bv64
    requires |registers| == |FIXED_MTRRS| && x < ONE_MB
  {
    var f := FIXED_MTRRS[FixedIndex(x, 10)];
    FixedSpan(x);
    AttributeOfType(TypeByte(registers[FixedIndex(x, 10)], (x - f.base) / f.length))
  }

  lemma FixedSpan(x: nat)
    requires x < ONE_MB
    ensures var f := FIXED_MTRRS[FixedIndex(x, 10)]; f.length > 0 && f.base <= x && 0 <= (x - f.base) / f.length < 8
  {
    FixedIs(x, 10);
  }

  /** Register i of the table: where it begins, and that the next one continues it. */
  lemma FixedTable(i: nat)
    requires i < |FIXED_MTRRS|
    ensures FIXED_MTRRS[i].length > 0
    ensures (if i < 10 then FIXED_MTRRS[i + 1].base else ONE_MB) == FIXED_MTRRS[i].base + 8 * FIXED_MTRRS[i].length
  {}

  lemma {:induction false} FixedIs(x: nat, i: nat)
    requires i < |FIXED_MTRRS| && x < FIXED_MTRRS[i].base + 8 * FIXED_MTRRS[i].length
    ensures var f := FIXED_MTRRS[FixedIndex(x, i)];
            f.length > 0 && f.base <= x && 0 <= (x - f.base) / f.length < 8
  {
    FixedTable(i);
    if i > 0 && x < FIXED_MTRRS[i].base { FixedTable(i - 1); FixedIs(x, i - 1); }
    else { SubIndex(x - FIXED_MTRRS[i].base, FIXED_MTRRS[i].length); }
  }

  lemma SubIndex(y: nat, length: nat)
    requires length > 0 && y < 8 * length
    ensures y / length < 8
  {}

  /** The rule the refreshed map obeys. */
  function Rule(registers: seq<bv64>, mtrrs: seq<VariableMtrr>, defaultType: bv64, top: nat, x: nat): bv64
    requires |registers| == |FIXED_MTRRS|
  {
    if x < ONE_MB then FixedRule(registers, x) else VariableRule(mtrrs, defaultType, top, x)
  }

  // ----- The refresh -----

  type Space = nat -> bv64

  /** The attribute has been written to the existing bytes of [base, end) and nothing else. */
  ghost predicate Written(descriptors: seq<Descriptor>, before: Space, after: Space, base: nat, end: nat,
                          attribute: bv64)
  {
    forall x: nat {:trigger after(x)} ::
      after(x) == if base <= x < end && Exists(descriptors, x) then RefreshedAt(descriptors, x, attribute)
                  else before(x)
  }

  /** The same for the part of the range below a bound. */
  function Below(end: nat, bound: nat): nat { if end < bound then end else bound }

  /** Where the i-th descriptor begins. */
  function Start(descriptors: seq<Descriptor>, i: nat): nat
    requires i <= |descriptors|
  {
    if i < |descriptors| then descriptors[i].base else Top(descriptors)
  }

  /** One clipped write extends the written part by one descriptor. */
  lemma WriteExtends(descriptors: seq<Descriptor>, s0: Space, s1: Space, s2: Space, i: nat, base: nat, end: nat,
                     attribute: bv64)
    requires Contiguous(descriptors) && i < |descriptors|
    requires Written(descriptors, s0, s1, base, Below(end, Start(descriptors, i)), attribute)
    requires var d := descriptors[i];
             forall x: nat {:trigger s2(x)} ::
               s2(x) == if d.existent && Inside(d, x) && base <= x < end then Refreshed(d, attribute) else s1(x)
    ensures Written(descriptors, s0, s2, base, Below(end, Start(descriptors, i + 1)), attribute)
  {
    forall x: nat {:trigger s2(x)}
      ensures s2(x) ==
        if base <= x < Below(end, Start(descriptors, i + 1)) && Exists(descriptors, x)
        then RefreshedAt(descriptors, x, attribute)
        else s0(x)
    {
      assert s1(x) ==
        if base <= x < Below(end, Start(descriptors, i)) && Exists(descriptors, x)
        then RefreshedAt(descriptors, x, attribute)
        else s0(x);
      if Inside(descriptors[i], x) { HolderIs(descriptors, i, x); }
      assert i + 1 < |descriptors| ==> descriptors[i + 1].base == descriptors[i].base + descriptors[i].length;
    }
  }

  /** The attribute after the first n ranges have been gone through in a pass. */
  function AfterPass(mtrrs: seq<VariableMtrr>, n: nat, pass: Pass, top: nat, x: nat, attribute: bv64): bv64
    requires n <= |mtrrs|
  {
    if n == 0 then attribute
    else if InPass(pass, mtrrs[n - 1]) && Hits(mtrrs[n - 1], top, x) then AttributeOfType(mtrrs[n - 1].mtrrType)
    else AfterPass(mtrrs, n - 1, pass, top, x, attribute)
  }

  lemma {:induction false} PassIs(mtrrs: seq<VariableMtrr>, n: nat, pass: Pass, top: nat, x: nat, attribute: bv64)
    requires n <= |mtrrs|
    ensures AfterPass(mtrrs, n, pass, top, x, attribute) ==
      if HitBy(mtrrs[..n], pass, top, x) then AttributeOfType(mtrrs[LastHit(mtrrs[..n], pass, top, x)].mtrrType)
      else attribute
  {
    if n > 0 {
      PassIs(mtrrs, n - 1, pass, top, x, attribute);
      var all, front := mtrrs[..n], mtrrs[..n - 1];
      assert all[..n - 1] == front;
      if i :| 0 <= i < n && InPass(pass, all[i]) && Hits(all[i], top, x) { assert i < n - 1 ==> front[i] == all[i]; }
      if i :| 0 <= i < |front| && InPass(pass, front[i]) && Hits(front[i], top, x) { assert all[i] == front[i]; }
      if InPass(pass, mtrrs[n - 1]) && Hits(mtrrs[n - 1], top, x) { assert all[n - 1] == mtrrs[n - 1]; }
    }
  }

  /** Write-back ranges first, then the others, then the uncacheable ones: that is the rule. */
  lemma PassesAreTheRule(mtrrs: seq<VariableMtrr>, defaultType: bv64, top: nat, x: nat)
    ensures var n := |mtrrs|;
            AfterPass(mtrrs, n, Uncacheable, top, x, AfterPass(mtrrs, n, Other, top, x,
              AfterPass(mtrrs, n, WriteBack, top, x, AttributeOfType(defaultType)))) ==
                VariableRule(mtrrs, defaultType, top, x)
  {
    var n := |mtrrs|;
    assert mtrrs[..n] == mtrrs;
    var a := AttributeOfType(defaultType);
    PassIs(mtrrs, n, WriteBack, top, x, a);
    PassIs(mtrrs, n, Other, top, x, AfterPass(mtrrs, n, WriteBack, top, x, a));
    PassIs(mtrrs, n, Uncacheable, top, x,
           AfterPass(mtrrs, n, Other, top, x, AfterPass(mtrrs, n, WriteBack, top, x, a)));
  }

  /** Every existing byte has the attribute a(x); the others are as in before. */
  ghost predicate Shows(descriptors: seq<Descriptor>, before: Space, after: Space, a: Space) {
    forall x: nat {:trigger after(x)} ::
      after(x) == if Exists(descriptors, x) then RefreshedAt(descriptors, x, a(x)) else before(x)
  }

  class Gcd {
    const descriptors: seq<Descriptor>     // MemorySpaceMap, the snapshot
    var space: Space                       // the attributes of every byte

    constructor (map': seq<Descriptor>, attributes: Space)
      ensures descriptors == map' && space == attributes
    {
      descriptors, space := map', attributes;
    }

    /** gDS->SetMemorySpaceAttributes. */
    method SetMemorySpaceAttributes(base: nat, length: nat, attributes: bv64)
      modifies this`space
      ensures forall x: nat {:trigger space(x)} ::
                space(x) == if base <= x < base + length then attributes else old(space)(x)
    {
      var before := space;
      space := (x: nat) => if base <= x < base + length then attributes else before(x);
    }

    /** The descriptors of the first and the last byte of a range. */
    method SearchGcdMemorySpaces(base: nat, length: nat) returns (found: bool, start: nat, end: nat)
      requires Contiguous(descriptors) && length > 0
      ensures found <==> base + length <= Top(descriptors)
      ensures found ==> start <= end < |descriptors| && Inside(descriptors[start], base)
      ensures found ==> Inside(descriptors[end], base + length - 1)
    {
      start, end := 0, 0;
      var i := 0;
      while i < |descriptors|
        invariant i <= |descriptors| && Searched(descriptors, base, base + length - 1, start, i)
      {
        SearchNext(descriptors, base, base + length - 1, start, i);
        if Inside(descriptors[i], base) { start := i; }
        if Inside(descriptors[i], base + length - 1) { return true, start, i; }
        i := i + 1;
      }
      HolderExists(descriptors, base + length - 1);
      found := false;
    }

    /** A range that ends inside the map gets the attribute; any other is ignored. */
    method SetGcdMemorySpaceAttributes(base: nat, length: nat, attribute: bv64)
      requires Contiguous(descriptors) && length > 0
      modifies this`space
      ensures var end := if base + length <= Top(descriptors) then base + length else base;
              Written(descriptors, old(space), space, base, end, attribute)
    {
      var found, start, end := SearchGcdMemorySpaces(base, length);
      if !found { return; }
      ghost var s0 := space;
      var i := start;
      while i <= end
        invariant start <= i <= end + 1
        invariant Written(descriptors, s0, space, base, Below(base + length, Start(descriptors, i)), attribute)
      {
        SetRegion(i, base, length, attribute, s0, start, end);
        i := i + 1;
      }
      StartNext(descriptors, end);
    }

    /** The part of the range that lies in the i-th descriptor. */
    method SetRegion(i: nat, base: nat, length: nat, attribute: bv64, ghost s0: Space, ghost start: nat, ghost end: nat)
      requires Contiguous(descriptors) && length > 0 && start <= i <= end < |descriptors|
      requires Inside(descriptors[start], base) && Inside(descriptors[end], base + length - 1)
      requires Written(descriptors, s0, space, base, Below(base + length, Start(descriptors, i)), attribute)
      modifies this`space
      ensures Written(descriptors, s0, space, base, Below(base + length, Start(descriptors, i + 1)), attribute)
    {
      ghost var s1 := space;
      var d := descriptors[i];
      if d.existent {
        var regionStart := if base >= d.base then base else d.base;
        var regionLength :=
          if base + length - 1 < d.base + d.length then base + length - regionStart
          else d.base + d.length - regionStart;
        if start < i { Ascending(descriptors, start, i); }
        if i < end { Ascending(descriptors, i, end); }
        SetMemorySpaceAttributes(regionStart, regionLength, Refreshed(d, attribute));
      }
      WriteExtends(descriptors, s0, s1, space, i, base, base + length, attribute);
    }

    /** Every descriptor gets the default attribute. */
    method SetDefault(attribute: bv64)
      requires Contiguous(descriptors)
      modifies this`space
      ensures Shows(descriptors, old(space), space, _ => attribute)
    {
      ghost var s0 := space;
      var i := 0;
      while i < |descriptors|
        invariant i <= |descriptors|
        invariant Written(descriptors, s0, space, 0, Below(Top(descriptors), Start(descriptors, i)), attribute)
      {
        ghost var s1 := space;
        var d := descriptors[i];
        StartNext(descriptors, i);
        if i < |descriptors| - 1 { Ascending(descriptors, i, |descriptors| - 1); }
        if d.existent { SetMemorySpaceAttributes(d.base, d.length, Refreshed(d, attribute)); }
        WriteExtends(descriptors, s0, s1, space, i, 0, Top(descriptors), attribute);
        i := i + 1;
      }
      forall x: nat {:trigger space(x)}
        ensures space(x) == if Exists(descriptors, x) then RefreshedAt(descriptors, x, attribute) else s0(x)
      {
        HolderExists(descriptors, x);
      }
    }

    /** One of the three passes over the variable MTRRs. */
    method GoThrough(mtrrs: seq<VariableMtrr>, pass: Pass, ghost before: Space, ghost a: Space)
      requires Contiguous(descriptors) && (forall i :: 0 <= i < |mtrrs| && mtrrs[i].valid ==> mtrrs[i].length > 0)
      requires Shows(descriptors, before, space, a)
      modifies this`space
      ensures Shows(descriptors, before, space, PassOf(mtrrs, |mtrrs|, pass, Top(descriptors), a))
    {
      var i := 0;
      while i < |mtrrs|
        invariant i <= |mtrrs| && Shows(descriptors, before, space, PassOf(mtrrs, i, pass, Top(descriptors), a))
      {
        ghost var s := space;
        if mtrrs[i].valid && InPass(pass, mtrrs[i]) {
          SetGcdMemorySpaceAttributes(mtrrs[i].base, mtrrs[i].length, AttributeOfType(mtrrs[i].mtrrType));
        }
        PassStep(descriptors, mtrrs, i, pass, before, s, space, a);
        i := i + 1;
      }
    }

    /** The fixed MTRRs: sections of the same attribute are written together. */
    method GoThroughFixed(registers: seq<bv64>, ghost before: Space, ghost a: Space)
      requires Contiguous(descriptors) && |registers| == |FIXED_MTRRS| && Shows(descriptors, before, space, a)
      modifies this`space
      ensures Shows(descriptors, before, space, FixedBelow(registers, ONE_MB, a))
    {
      var attribute: bv64 := 0;
      var base: nat, length: nat := 0, 0;
      var i := 0;
      while i < |FIXED_MTRRS|
        invariant i <= |FIXED_MTRRS| && base + length == CellStart(i, 0) && (length == 0 ==> base == 0)
        invariant Same(registers, base, base + length, attribute)
        invariant Shows(descriptors, before, space, FixedBelow(registers, base, a))
      {
        var sub := 0;
        while sub < 8
          invariant sub <= 8 && base + length == CellStart(i, sub) && (length == 0 ==> base == 0)
          invariant Same(registers, base, base + length, attribute)
          invariant Shows(descriptors, before, space, FixedBelow(registers, base, a))
        {
          var current := AttributeOfType(TypeByte(registers[i], sub));
          CellNext(registers, i, sub);
          FixedTable(i);
          if length == 0 {
            attribute := current;
          } else if current != attribute {
            ghost var s := space;
            SetGcdMemorySpaceAttributes(base, length, attribute);
            FixedStep(descriptors, registers, base, base + length, attribute, before, s, space, a);
            base := FIXED_MTRRS[i].base + FIXED_MTRRS[i].length * sub;
            length := 0;
            attribute := current;
          }
          length := length + FIXED_MTRRS[i].length;
          sub := sub + 1;
        }
        FixedTable(i);
        i := i + 1;
      }
      ghost var s := space;
      SetGcdMemorySpaceAttributes(base, length, attribute);
      FixedStep(descriptors, registers, base, base + length, attribute, before, s, space, a);
    }

    /** RefreshGcdMemoryAttributes: every existing byte ends with the attribute the precedence
        rule gives it; the others keep theirs. */
    method RefreshGcdMemoryAttributes(registers: seq<bv64>, mtrrs: seq<VariableMtrr>, defaultType: bv64)
      requires Contiguous(descriptors) && |registers| == |FIXED_MTRRS|
      requires forall i :: 0 <= i < |mtrrs| && mtrrs[i].valid ==> mtrrs[i].length > 0
      modifies this`space
      ensures forall x: nat {:trigger space(x)} :: space(x) ==
                if Exists(descriptors, x)
                then RefreshedAt(descriptors, x, Rule(registers, mtrrs, defaultType, Top(descriptors), x))
                else old(space)(x)
    {
      ghost var before, top := space, Top(descriptors);
      SetDefault(AttributeOfType(defaultType));
      ghost var a0: Space := _ => AttributeOfType(defaultType);
      GoThrough(mtrrs, WriteBack, before, a0);
      ghost var a1 := PassOf(mtrrs, |mtrrs|, WriteBack, top, a0);
      GoThrough(mtrrs, Other, before, a1);
      ghost var a2 := PassOf(mtrrs, |mtrrs|, Other, top, a1);
      GoThrough(mtrrs, Uncacheable, before, a2);
      ghost var a3 := PassOf(mtrrs, |mtrrs|, Uncacheable, top, a2);
      GoThroughFixed(registers, before, a3);
      forall x: nat {:trigger space(x)}
        ensures space(x) ==
                if Exists(descriptors, x)
                then RefreshedAt(descriptors, x, Rule(registers, mtrrs, defaultType, top, x))
                else before(x)
      {
        PassesAreTheRule(mtrrs, defaultType, top, x);
      }
    }
  }

  ghost function PassOf(mtrrs: seq<VariableMtrr>, n: nat, pass: Pass, top: nat, a: Space): Space
    requires n <= |mtrrs|
  {
    (x: nat) => AfterPass(mtrrs, n, pass, top, x, a(x))
  }

  /** The n-th range of a pass has been written, or skipped. */
  lemma PassStep(descriptors: seq<Descriptor>, mtrrs: seq<VariableMtrr>, n: nat, pass: Pass, before: Space, s: Space,
                 s': Space, a: Space)
    requires n < |mtrrs| && Shows(descriptors, before, s, PassOf(mtrrs, n, pass, Top(descriptors), a))
    requires if mtrrs[n].valid && InPass(pass, mtrrs[n]) then
               Written(descriptors, s, s', mtrrs[n].base, EndIn(descriptors, mtrrs[n]),
                       AttributeOfType(mtrrs[n].mtrrType))
             else s' == s
    ensures Shows(descriptors, before, s', PassOf(mtrrs, n + 1, pass, Top(descriptors), a))
  {
    var top := Top(descriptors);
    var a0, a1 := PassOf(mtrrs, n, pass, top, a), PassOf(mtrrs, n + 1, pass, top, a);
    forall x: nat {:trigger s'(x)}
      ensures s'(x) == if Exists(descriptors, x) then RefreshedAt(descriptors, x, a1(x)) else before(x)
    {
      assert s(x) == if Exists(descriptors, x) then RefreshedAt(descriptors, x, a0(x)) else before(x);
      assert a0(x) == AfterPass(mtrrs, n, pass, top, x, a(x));
      assert a1(x) == if InPass(pass, mtrrs[n]) && Hits(mtrrs[n], top, x) then AttributeOfType(mtrrs[n].mtrrType)
                      else a0(x);
    }
  }

  /** Where the effect of a range ends: at its base if the range is not inside the map. */
  function EndIn(descriptors: seq<Descriptor>, m: VariableMtrr): nat {
    if m.base + m.length <= Top(descriptors) then m.base + m.length else m.base
  }

  // ----- The fixed MTRRs -----

  /** Where section sub of register i begins. */
  function CellStart(i: nat, sub: nat): nat
    requires i <= |FIXED_MTRRS| && sub <= 8
  {
    if i == |FIXED_MTRRS| then ONE_MB else FIXED_MTRRS[i].base + sub * FIXED_MTRRS[i].length
  }

  /** The bytes of [base, end) all have this attribute. */
  predicate Same(registers: seq<bv64>, base: nat, end: nat, attribute: bv64)
    requires |registers| == |FIXED_MTRRS|
  {
    forall x: nat {:trigger FixedRule(registers, x)} :: base <= x < end && x < ONE_MB ==>
      FixedRule(registers, x) == attribute
  }

  /** The fixed MTRRs below a bound, what was there before above it. */
  ghost function FixedBelow(registers: seq<bv64>, bound: nat, a: Space): Space
    requires |registers| == |FIXED_MTRRS|
  {
    (x: nat) => if x < bound && x < ONE_MB then FixedRule(registers, x) else a(x)
  }

  lemma CellNext(registers: seq<bv64>, i: nat, sub: nat)
    requires |registers| == |FIXED_MTRRS| && i < |FIXED_MTRRS| && sub < 8
    ensures CellStart(i, sub + 1) == CellStart(i, sub) + FIXED_MTRRS[i].length <= ONE_MB
    ensures Same(registers, CellStart(i, sub), CellStart(i, sub + 1), AttributeOfType(TypeByte(registers[i], sub)))
  {
    FixedTable(i);
    CellEnds(i, sub);
    forall x: nat {:trigger FixedRule(registers, x)} | CellStart(i, sub) <= x < CellStart(i, sub + 1)
      ensures x < ONE_MB ==> FixedRule(registers, x) == AttributeOfType(TypeByte(registers[i], sub))
    {
      CellIndex(x, i, 10);
      SubIs(x - FIXED_MTRRS[i].base, FIXED_MTRRS[i].length, sub);
    }
  }

  lemma CellEnds(i: nat, sub: nat)
    requires i < |FIXED_MTRRS| && sub < 8
    ensures CellStart(i, sub + 1) <= ONE_MB
  {}

  lemma SubIs(y: nat, length: nat, sub: nat)
    requires length == 0x1_0000 || length == 0x4000 || length == 0x1000
    requires sub * length <= y < (sub + 1) * length
    ensures y / length == sub
  {
    if length == 0x1_0000 { assert y / 0x1_0000 == sub; }
    else if length == 0x4000 { assert y / 0x4000 == sub; }
    else { assert y / 0x1000 == sub; }
  }

  lemma {:induction false} CellIndex(x: nat, i: nat, j: nat)
    requires i <= j < |FIXED_MTRRS| && FIXED_MTRRS[i].base <= x < FIXED_MTRRS[i].base + 8 * FIXED_MTRRS[i].length
    ensures FixedIndex(x, j) == i
  {
    if i < j {
      FixedAscending(i, j);
      CellIndex(x, i, j - 1);
    }
  }

  lemma {:induction false} FixedAscending(i: nat, j: nat)
    requires i < j < |FIXED_MTRRS|
    ensures FIXED_MTRRS[i].base + 8 * FIXED_MTRRS[i].length <= FIXED_MTRRS[j].base
    decreases j - i
  {
    FixedTable(i);
    if i + 1 < j { FixedTable(i + 1); FixedAscending(i + 1, j); }
  }

  lemma FixedStep(descriptors: seq<Descriptor>, registers: seq<bv64>, base: nat, end: nat, attribute: bv64,
                  before: Space, s: Space, s': Space, a: Space)
    requires |registers| == |FIXED_MTRRS| && base <= end <= ONE_MB <= Top(descriptors)
    requires Same(registers, base, end, attribute)
    requires Shows(descriptors, before, s, FixedBelow(registers, base, a))
    requires Written(descriptors, s, s', base, end, attribute)
    ensures Shows(descriptors, before, s', FixedBelow(registers, end, a))
  {
    forall x: nat {:trigger s'(x)}
      ensures s'(x) == if Exists(descriptors, x) then RefreshedAt(descriptors, x, FixedBelow(registers, end, a)(x))
                       else before(x)
    {
      assert s(x) == if Exists(descriptors, x) then RefreshedAt(descriptors, x, FixedBelow(registers, base, a)(x))
                     else before(x);
      if base <= x < end { assert FixedRule(registers, x) == attribute; }
    }
  }

  /** The first i descriptors do not hold the last byte; start is the one that holds the first
      byte, if it has come by. */
  predicate Searched(descriptors: seq<Descriptor>, base: nat, last: nat, start: nat, i: nat)
    requires i <= |descriptors|
  {
    && (forall j :: 0 <= j < i ==> !Inside(descriptors[j], last))
    && (base < Start(descriptors, i) ==> start < i && Inside(descriptors[start], base))
  }

  lemma SearchNext(descriptors: seq<Descriptor>, base: nat, last: nat, start: nat, i: nat)
    requires Contiguous(descriptors) && i < |descriptors| && base <= last && Searched(descriptors, base, last, start, i)
    ensures var start' := if Inside(descriptors[i], base) then i else start;
            if Inside(descriptors[i], last)
            then start' <= i && Inside(descriptors[start'], base) && last < Top(descriptors)
            else Searched(descriptors, base, last, start', i + 1)
  {
    StartNext(descriptors, i);
    if Inside(descriptors[i], last) {
      HolderIs(descriptors, i, last);
      HolderExists(descriptors, last);
    }
  }

  lemma StartNext(descriptors: seq<Descriptor>, i: nat)
    requires Contiguous(descriptors) && i < |descriptors|
    ensures Start(descriptors, i + 1) == descriptors[i].base + descriptors[i].length && Start(descriptors, 0) == 0
  {}
}
