/** CpuMpDxe/MpApic.c: processors are numbered by ascending APIC ID, checked for legacy APIC ID
    conflicts, and one of each package becomes the package BSP. */
module ApicOrder {

  datatype BistEntry = BistEntry(apicId: nat, bist: nat)

  predicate Ascending(s: seq<BistEntry>) {
    forall i, j :: 0 <= i < j < |s| ==> s[i].apicId <= s[j].apicId
  }

  /** The first k entries are in place: ascending, and none of the others is smaller. */
  predicate SortedUpTo(s: seq<BistEntry>, k: nat) {
    forall i, j :: 0 <= i < k && i < j < |s| ==> s[i].apicId <= s[j].apicId
  }

  predicate Permutes(a: seq<BistEntry>, b: seq<BistEntry>) { multiset(a) == multiset(b) }

  function Swapped(s: seq<BistEntry>, i: nat, j: nat): seq<BistEntry>
    requires i < |s| && j < |s|
  {
    s[i := s[j]][j := s[i]]
  }

  lemma SwapPermutes(s: seq<BistEntry>, i: nat, j: nat)
    requires i < |s| && j < |s|
    ensures Permutes(s, Swapped(s, i, j))
  {}

  /** Swapping the least of the rest into place k. */
  lemma SwapSorts(s: seq<BistEntry>, k: nat, least: nat)
    requires k <= least < |s| && SortedUpTo(s, k)
    requires forall j :: k <= j < |s| ==> s[least].apicId <= s[j].apicId
    ensures SortedUpTo(Swapped(s, k, least), k + 1)
  {}

  /** The position of the least APIC ID from k on, the first of equal ones. */
  method FindLeast(buffer: array<BistEntry>, k: nat) returns (index3: nat, apicId: nat)
    requires k < buffer.Length
    ensures k <= index3 < buffer.Length && apicId == buffer[index3].apicId
    ensures forall j :: k <= j < buffer.Length ==> apicId <= buffer[j].apicId
    ensures forall j :: k <= j < index3 ==> apicId < buffer[j].apicId
  {
    index3, apicId := k, buffer[k].apicId;
    var index2 := k + 1;
    while index2 < buffer.Length
      invariant index2 <= buffer.Length && k <= index3 < index2 && apicId == buffer[index3].apicId
      invariant forall j :: k <= j < index2 ==> apicId <= buffer[j].apicId
      invariant forall j :: k <= j < index3 ==> apicId < buffer[j].apicId
    {
      if apicId > buffer[index2].apicId { index3, apicId := index2, buffer[index2].apicId; }
      index2 := index2 + 1;
    }
  }

  method SelectionSort(buffer: array<BistEntry>)
    requires buffer.Length > 0
    modifies buffer
    ensures Ascending(buffer[..]) && Permutes(old(buffer[..]), buffer[..])
  {
    var index1 := 0;
    while index1 < buffer.Length - 1
      invariant index1 < buffer.Length && SortedUpTo(buffer[..], index1) && Permutes(old(buffer[..]), buffer[..])
    {
      ghost var before := buffer[..];
      var index3, apicId := FindLeast(buffer, index1);
      SwapSorts(before, index1, index3);
      SwapPermutes(before, index1, index3);
      if index3 != index1 { buffer[index1], buffer[index3] := buffer[index3], buffer[index1]; }
      assert buffer[..] == Swapped(before, index1, index3);
      index1 := index1 + 1;
    }
  }

  /** SortApicId: the buffer holds the BSP and the APs.  bspNumber is left alone when there is
      no AP, or when no entry is the BSP's. */
  method SortApicId(buffer: array<BistEntry>, bspApicId: nat, bspNumber: nat) returns (bspNumber': nat)
    requires buffer.Length > 0
    modifies buffer
    ensures Ascending(buffer[..]) && Permutes(old(buffer[..]), buffer[..])
    ensures if buffer.Length > 1 && exists i :: 0 <= i < buffer.Length && buffer[i].apicId == bspApicId then
              bspNumber' < buffer.Length && buffer[bspNumber'].apicId == bspApicId
              && forall i :: 0 <= i < bspNumber' ==> buffer[i].apicId < bspApicId
            else bspNumber' == bspNumber
  {
    bspNumber' := bspNumber;
    if buffer.Length - 1 != 0 {
      SelectionSort(buffer);
      var i := 0;
      while i < buffer.Length
        invariant i <= buffer.Length && forall j :: 0 <= j < i ==> buffer[j].apicId != bspApicId
      {
        if buffer[i].apicId == bspApicId { return i; }
        i := i + 1;
      }
    }
  }

  // ----- CheckApicId -----

  function LegacyId(apicId: nat): nat { apicId % 256 }

  /** Supported iff there are at most 255 processors, no two with the same 8-bit APIC ID. */
  method CheckApicId(ids: seq<nat>) returns (supported: bool)
    ensures supported <==> |ids| <= 255 && forall i, j :: 0 <= i < j < |ids| ==> LegacyId(ids[i]) != LegacyId(ids[j])
  {
    if |ids| > 255 { return false; }
    var index1 := 0;
    while index1 < |ids|
      invariant index1 <= |ids|
      invariant forall i, j :: 0 <= i < index1 && i < j < |ids| ==> LegacyId(ids[i]) != LegacyId(ids[j])
    {
      var index2 := index1 + 1;
      while index2 < |ids| && LegacyId(ids[index1]) != LegacyId(ids[index2])
        invariant index1 < index2 <= |ids|
        invariant forall j :: index1 < j < index2 ==> LegacyId(ids[index1]) != LegacyId(ids[j])
      {
        index2 := index2 + 1;
      }
      if index2 < |ids| { return false; }
      index1 := index1 + 1;
    }
    return true;
  }

  // ----- The package BSP -----

  /** ExtractProcessorLocation: the APIC ID without its thread and core bits. */
  function Package(apicId: nat, bits: nat): nat {
    if bits == 0 then apicId else Package(apicId / 2, bits - 1)
  }

  lemma {:induction false} PackageGrows(a: nat, b: nat, bits: nat)
    requires a <= b
    ensures Package(a, bits) <= Package(b, bits)
  {
    if bits > 0 { PackageGrows(a / 2, b / 2, bits - 1); }
  }

  /** AssignPackageBsp on the sorted processors: exactly one of each package is marked, the
      first and so the one with the least APIC ID. */
  method AssignPackageBsp(ids: seq<nat>, bits: nat) returns (packageBsp: array<bool>)
    requires |ids| > 0 && forall i, j :: 0 <= i < j < |ids| ==> ids[i] <= ids[j]
    ensures packageBsp.Length == |ids| && fresh(packageBsp)
    ensures forall i :: 0 <= i < |ids| ==> (packageBsp[i] <==> LeastOfPackage(ids, bits, i))
  {
    packageBsp := new bool[|ids|](_ => false);
    packageBsp[0] := true;
    var packageId := Package(ids[0], bits);
    var index := 1;
    while index < |ids|
      invariant 1 <= index <= |ids| && packageId == Package(ids[index - 1], bits)
      invariant forall i :: 0 <= i < index ==> (packageBsp[i] <==> LeastOfPackage(ids, bits, i))
      invariant forall i :: index <= i < |ids| ==> !packageBsp[i]
    {
      PackageBegins(ids, bits, index);
      if packageId != Package(ids[index], bits) {
        packageId := Package(ids[index], bits);
        packageBsp[index] := true;
      }
      index := index + 1;
    }
  }

  /** No earlier processor belongs to the same package. */
  predicate LeastOfPackage(ids: seq<nat>, bits: nat, i: nat)
    requires i < |ids|
  {
    forall j :: 0 <= j < i ==> Package(ids[j], bits) != Package(ids[i], bits)
  }

  lemma PackageBegins(ids: seq<nat>, bits: nat, i: nat)
    requires 0 < i < |ids| && forall j, k :: 0 <= j < k < |ids| ==> ids[j] <= ids[k]
    ensures LeastOfPackage(ids, bits, i) <==> Package(ids[i - 1], bits) != Package(ids[i], bits)
  {
    forall j | 0 <= j < i ensures Package(ids[j], bits) <= Package(ids[i - 1], bits) <= Package(ids[i], bits) {
      PackageGrows(ids[j], ids[i - 1], bits);
      PackageGrows(ids[i - 1], ids[i], bits);
    }
  }

  /** Of every package exactly one processor is the least, and it has the least APIC ID. */
  lemma OnePackageBsp(ids: seq<nat>, bits: nat, k: nat) returns (b: nat)
    requires k < |ids| && forall i, j :: 0 <= i < j < |ids| ==> ids[i] <= ids[j]
    ensures b < |ids| && LeastOfPackage(ids, bits, b) && Package(ids[b], bits) == Package(ids[k], bits)
    ensures forall i :: 0 <= i < |ids| && Package(ids[i], bits) == Package(ids[k], bits) ==>
              ids[b] <= ids[i] && (LeastOfPackage(ids, bits, i) ==> i == b)
  {
    b := k;
    while !LeastOfPackage(ids, bits, b)
      invariant b < |ids| && Package(ids[b], bits) == Package(ids[k], bits)
      decreases b
    {
      var j :| 0 <= j < b && Package(ids[j], bits) == Package(ids[b], bits);
      b := j;
    }
  }
}
