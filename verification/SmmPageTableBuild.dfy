/** Gen4GPageTable: the tables that map the first 4 GB to themselves, with the guard pages of
    the SMM stacks left out. */
module SmmPageTableBuild {
  import opened Paging
  import opened SmmPageTables
  import opened SmmProtection

  const WORD: nat := 0x1_0000_0000

  /** The SMM stacks of all processors: for each its known good stack, guard page and stack. */
  datatype StackArray = StackArray(base: nat, cpus: nat, size: nat)

  /** The bytes of c stacks: c * size, see TimesIs. */
  function Times(c: nat, size: nat): nat {
    if c == 0 then 0 else Times(c - 1, size) + size
  }

  lemma {:induction false} TimesIs(c: nat, size: nat)
    ensures Times(c, size) == c * size
  {
    if c > 0 { TimesIs(c - 1, size); }
  }

  /** Page-aligned, at least two pages a processor, below 4 GB. */
  predicate Laid(s: StackArray) {
    && s.base % SIZE_4KB == 0 && s.size % SIZE_4KB == 0 && s.cpus >= 1 && s.size >= 2 * SIZE_4KB
    && s.base + Times(s.cpus, s.size) <= WORD
  }

  /** The last guard page lies below the last 2 MB page.  Exactly then the loop over the 2 MB
      pages ends: see LoopEndsIff. */
  predicate Fitting(s: StackArray) {
    Laid(s) && GuardAddress(s, s.cpus - 1) < WORD - SIZE_2MB
  }

  /** The address of the c-th guard page. */
  function GuardAddress(s: StackArray, c: nat): nat {
    s.base + SIZE_4KB + Times(c, s.size)
  }

  predicate IsGuard(s: StackArray, n: nat) {
    exists c: nat :: c < s.cpus && Address(n) == GuardAddress(s, c)
  }

  function StackArrayEnd(s: StackArray): int { s.base + Times(s.cpus, s.size) - 1 }

  /** The first and the last 2 MB page that hold a guard page. */
  function LowLarge(s: StackArray): nat { (s.base + SIZE_4KB) / SIZE_2MB }

  function HighLarge(s: StackArray): nat
    requires Laid(s)
  {
    GuardGrows(s, 0, s.cpus - 1);
    GuardGrows(s, s.cpus - 1, s.cpus);
    (StackArrayEnd(s) - s.size + 2 * SIZE_4KB) / SIZE_2MB
  }

  function PagesNeeded(guard: bool, s: StackArray): nat
    requires guard ==> Fitting(s)
  {
    if guard then
      HighHoldsLast(s);
      HighLarge(s) - LowLarge(s) + 1
    else 0
  }

  lemma {:induction false} GuardGrows(s: StackArray, c: nat, d: nat)
    requires c <= d
    ensures GuardAddress(s, c) <= GuardAddress(s, d)
    ensures c < d ==> GuardAddress(s, c) + s.size <= GuardAddress(s, d)
    ensures d == c + 1 ==> GuardAddress(s, c) + s.size == GuardAddress(s, d)
  {
    if c + 1 < d { GuardGrows(s, c, d - 1); }
  }

  lemma {:induction false} GuardAligned(s: StackArray, c: nat)
    requires s.base % SIZE_4KB == 0 && s.size % SIZE_4KB == 0
    ensures GuardAddress(s, c) % SIZE_4KB == 0
  {
    if c == 0 {
      SumAligned(s.base, SIZE_4KB);
    } else {
      GuardAligned(s, c - 1);
      GuardGrows(s, c - 1, c);
      SumAligned(GuardAddress(s, c - 1), s.size);
    }
  }

  lemma SumAligned(a: nat, b: nat)
    requires a % SIZE_4KB == 0 && b % SIZE_4KB == 0
    ensures (a + b) % SIZE_4KB == 0
  {}

  lemma HighHoldsLast(s: StackArray)
    requires Laid(s)
    ensures LowLarge(s) <= HighLarge(s) == GuardAddress(s, s.cpus - 1) / SIZE_2MB < LARGE_PAGES
    ensures Fitting(s) <==> HighLarge(s) < LARGE_PAGES - 1
  {
    GuardGrows(s, 0, s.cpus - 1);
    GuardGrows(s, s.cpus - 1, s.cpus);
    GuardAligned(s, s.cpus - 1);
    SamePage(GuardAddress(s, 0), GuardAddress(s, s.cpus - 1), StackArrayEnd(s) - s.size + 2 * SIZE_4KB);
  }

  lemma SamePage(first: nat, last: nat, end: nat)
    requires first <= last && last % SIZE_4KB == 0 && end == last + SIZE_4KB - 1 && last < WORD
    ensures first / SIZE_2MB <= end / SIZE_2MB == last / SIZE_2MB < LARGE_PAGES
    ensures last < WORD - SIZE_2MB <==> last / SIZE_2MB < LARGE_PAGES - 1
  {}

  // ----- When the loop over the 2 MB pages ends -----

  /** The addition of 2 MB to PageIndex, in 32 bits. */
  function Advanced(pageIndex: nat): nat {
    (pageIndex + SIZE_2MB) % WORD
  }

  lemma AdvancedIs(k: nat)
    requires k < LARGE_PAGES - 1
    ensures Advanced(k * SIZE_2MB) == (k + 1) * SIZE_2MB
  {}

  /** PageIndex before the i-th turn. */
  function PageIndex(s: StackArray, i: nat): nat {
    if i == 0 then LowLarge(s) * SIZE_2MB else Advanced(PageIndex(s, i - 1))
  }

  /** Some turn finds PageIndex above High2MBoundary. */
  ghost predicate LoopEnds(s: StackArray)
    requires Laid(s)
  {
    exists i: nat :: PageIndex(s, i) > HighLarge(s) * SIZE_2MB
  }

  /** The loop of Gen4GPageTable ends iff the last guard page lies below the last 2 MB page:
      otherwise PageIndex wraps around to 0 before it passes High2MBoundary. */
  lemma LoopEndsIff(s: StackArray)
    requires Laid(s)
    ensures LoopEnds(s) <==> GuardAddress(s, s.cpus - 1) < WORD - SIZE_2MB
  {
    HighHoldsLast(s);
    if Fitting(s) {
      var turns := HighLarge(s) - LowLarge(s) + 1;
      IndexStays(s, turns);
      assert PageIndex(s, turns) > HighLarge(s) * SIZE_2MB;
    } else {
      forall i: nat
        ensures PageIndex(s, i) <= HighLarge(s) * SIZE_2MB
      {
        IndexBelow(s, i);
      }
    }
  }

  /** Up to the first turn that passes the boundary nothing wraps around. */
  lemma {:induction false} IndexStays(s: StackArray, i: nat)
    requires LowLarge(s) + i < LARGE_PAGES
    ensures PageIndex(s, i) == (LowLarge(s) + i) * SIZE_2MB
  {
    if i > 0 {
      IndexStays(s, i - 1);
      AdvancedIs(LowLarge(s) + i - 1);
    }
  }

  /** PageIndex never lies above the last 2 MB page. */
  lemma {:induction false} IndexBelow(s: StackArray, i: nat)
    requires Laid(s)
    ensures PageIndex(s, i) % SIZE_2MB == 0 && PageIndex(s, i) <= WORD - SIZE_2MB
  {
    if i == 0 { HighHoldsLast(s); } else { IndexBelow(s, i - 1); }
  }

  /** Such a stack array: one processor with three pages at the top of the 4 GB. */
  lemma LoopForEver() returns (s: StackArray)
    ensures Laid(s) && !LoopEnds(s)
  {
    s := StackArray(0xFFFF_D000, 1, 0x3000);
    LoopEndsIff(s);
  }

  // ----- The guard page the loop waits for -----

  /** c guard pages lie below page n, and guardPage is the next one, or an address that has
      been passed if there is none. */
  predicate Awaits(s: StackArray, n: nat, guardPage: nat, c: nat) {
    && c <= s.cpus
    && (c > 0 ==> GuardAddress(s, c - 1) < Address(n))
    && if c < s.cpus then guardPage == GuardAddress(s, c) >= Address(n) else guardPage < Address(n)
  }

  lemma AwaitedIsNext(s: StackArray, n: nat, guardPage: nat, c: nat)
    requires Awaits(s, n, guardPage, c)
    ensures IsGuard(s, n) <==> Address(n) == guardPage
  {
    if d: nat :| d < s.cpus && Address(n) == GuardAddress(s, d) {
      if d < c { GuardGrows(s, d, c - 1); } else { GuardGrows(s, c, d); }
    }
  }

  lemma NextAwaited(s: StackArray, n: nat, guardPage: nat, c: nat)
    requires Fitting(s) && Awaits(s, n, guardPage, c) && Address(n) == guardPage
    ensures c < s.cpus && Awaits(s, n + 1, NextGuard(s, guardPage), c + 1)
  {
    GuardGrows(s, c, c + 1);
    GuardGrows(s, c + 1, s.cpus);
    GuardAligned(s, s.cpus);
    if c + 1 < s.cpus { GuardGrows(s, c + 1, s.cpus - 1); }
    Stepped(guardPage, s.size, GuardAddress(s, s.cpus), GuardAddress(s, c + 1), c + 1 == s.cpus);
    assert StackArrayEnd(s) == GuardAddress(s, s.cpus) - SIZE_4KB - 1;
  }

  /** The next guard page, in the processor's 32-bit arithmetic. */
  function NextGuard(s: StackArray, guardPage: nat): nat {
    Step(guardPage, s.size, StackArrayEnd(s))
  }

  function Step(guardPage: nat, size: nat, end: int): nat {
    var next := (guardPage + size) % WORD;
    if next > end then 0 else next
  }

  lemma Stepped(guardPage: nat, size: nat, top: nat, next: nat, last: bool)
    requires next == guardPage + size && size >= 2 * SIZE_4KB && guardPage >= SIZE_4KB
    requires top % SIZE_4KB == 0 && top <= WORD + SIZE_4KB
    requires if last then next == top else next + size <= top && next < WORD
    ensures var g := Step(guardPage, size, top - SIZE_4KB - 1);
            if last then g <= SIZE_4KB else g == next
  {}

  lemma StillAwaited(s: StackArray, n: nat, guardPage: nat, c: nat)
    requires s.base % SIZE_4KB == 0 && s.size % SIZE_4KB == 0
    requires Awaits(s, n, guardPage, c) && Address(n) != guardPage
    ensures Awaits(s, n + 1, guardPage, c)
  {
    if c < s.cpus { GuardAligned(s, c); }
  }

  // ----- Building the tables -----

  ghost predicate Sized(m: Memory, first: nat, count: nat) {
    && (forall f: nat :: f in m <==> first <= f < first + count)
    && (forall f :: f in m ==> |m[f]| == 512)
  }

  function PageEntry(s: StackArray, n: nat): Entry {
    if IsGuard(s, n) then ZERO.(frame := n) else Small(n)
  }

  predicate Pointers(m: Memory, first: nat) {
    forall d: nat :: d < 4 ==> At(m, first, d) == Directory(first + 1 + d, false)
  }

  /** The k-th directory entry, when the 2 MB pages from low on have got the next count tables. */
  predicate PdeIs(m: Memory, first: nat, low: nat, count: nat, k: nat) {
    At(m, first + 1 + k / 512, k % 512) == if low <= k < low + count then Directory(first + 5 + (k - low), true)
                                           else Large(k)
  }

  predicate PteIs(m: Memory, first: nat, low: nat, s: StackArray, n: nat) {
    n / 512 >= low && At(m, first + 5 + (n / 512 - low), n % 512) == PageEntry(s, n)
  }

  predicate TableIs(m: Memory, f: nat, s: StackArray, k: nat) {
    f in m && |m[f]| == 512 && forall i :: 0 <= i < 512 ==> m[f][i] == PageEntry(s, 512 * k + i)
  }

  predicate Built(m: Memory, first: nat, low: nat, count: nat, s: StackArray) {
    && Pointers(m, first)
    && (forall k: nat :: k < LARGE_PAGES ==> PdeIs(m, first, low, count, k))
    && (forall n: nat :: 512 * low <= n < 512 * (low + count) ==> PteIs(m, first, low, s, n))
  }

  /** The root and the directories, with a 2 MB entry for every 2 MB page. */
  method BuildDirectories(m0: Memory, first: nat, ghost count: nat, ghost low: nat, ghost s: StackArray)
      returns (m: Memory)
    requires Sized(m0, first, count) && count >= 5
    ensures Sized(m, first, count) && Built(m, first, low, 0, s)
  {
    m := m0[first := seq(512, i => ZERO)];
    var d := 0;
    while d < 4
      invariant d <= 4 && Sized(m, first, count)
      invariant forall e: nat :: e < d ==> At(m, first, e) == Directory(first + 1 + e, false)
    {
      ghost var before := m;
      m := Put(m, first, d, Directory(first + 1 + d, false));
      forall e: nat | e < d + 1 ensures At(m, first, e) == Directory(first + 1 + e, false) {
        AtPut(before, first, d, Directory(first + 1 + d, false), first, e);
      }
      d := d + 1;
    }
    var k := 0;
    while k < LARGE_PAGES
      invariant k <= LARGE_PAGES && Sized(m, first, count) && Pointers(m, first)
      invariant forall j: nat :: j < k ==> PdeIs(m, first, low, 0, j)
    {
      ghost var before := m;
      m := Put(m, first + 1 + k / 512, k % 512, Large(k));
      forall j: nat | j < k + 1 ensures PdeIs(m, first, low, 0, j) {
        assert j < k ==> PdeIs(before, first, low, 0, j);
        AtPut(before, first + 1 + k / 512, k % 512, Large(k), first + 1 + j / 512, j % 512);
      }
      forall d: nat | d < 4 ensures At(m, first, d) == Directory(first + 1 + d, false) {
        AtPut(before, first + 1 + k / 512, k % 512, Large(k), first, d);
      }
      k := k + 1;
    }
  }

  /** Fill table f with the entries of the k-th 2 MB page. */
  method FillTable(m: Memory, f: nat, k: nat, s: StackArray, guardPage: nat, ghost c: nat)
      returns (m': Memory, guardPage': nat, ghost c': nat)
    requires f in m && |m[f]| == 512 && Fitting(s) && Awaits(s, 512 * k, guardPage, c)
    ensures f in m' && m' == m[f := m'[f]] && TableIs(m', f, s, k)
    ensures Awaits(s, 512 * (k + 1), guardPage', c')
  {
    m', guardPage', c' := m, guardPage, c;
    var index := 0;
    while index < 512
      invariant index <= 512 && f in m' && |m'[f]| == 512 && m' == m[f := m'[f]]
      invariant forall i :: 0 <= i < index ==> m'[f][i] == PageEntry(s, 512 * k + i)
      invariant Awaits(s, 512 * k + index, guardPage', c')
    {
      var n := 512 * k + index;
      AwaitedIsNext(s, n, guardPage', c');
      if Address(n) == guardPage' {
        NextAwaited(s, n, guardPage', c');
        m' := Put(m', f, index, ZERO.(frame := n));
        guardPage', c' := NextGuard(s, guardPage'), c' + 1;
      } else {
        StillAwaited(s, n, guardPage', c');
        m' := Put(m', f, index, Small(n));
      }
      index := index + 1;
    }
  }

  lemma TableAdded(m: Memory, first: nat, low: nat, count: nat, s: StackArray, m1: Memory, m2: Memory, total: nat)
    requires Sized(m, first, total) && 5 + count < total && Built(m, first, low, count, s) && low + count < LARGE_PAGES
    requires var k := low + count; m1 == Put(m, first + 1 + k / 512, k % 512, Directory(first + 5 + count, true))
    requires var f := first + 5 + count; f in m2 && m2 == m1[f := m2[f]] && TableIs(m2, f, s, low + count)
    ensures Sized(m2, first, total) && Built(m2, first, low, count + 1, s)
  {
    var k, count' := low + count, count + 1;
    forall d: nat | d < 4 ensures At(m2, first, d) == Directory(first + 1 + d, false) {
      AtPut(m, first + 1 + k / 512, k % 512, Directory(first + 5 + count, true), first, d);
    }
    forall j: nat | j < LARGE_PAGES ensures PdeIs(m2, first, low, count', j) {
      assert PdeIs(m, first, low, count, j);
      AtPut(m, first + 1 + k / 512, k % 512, Directory(first + 5 + count, true), first + 1 + j / 512, j % 512);
    }
    forall n: nat | 512 * low <= n < 512 * (low + count') ensures PteIs(m2, first, low, s, n) {
      if n < 512 * k {
        assert PteIs(m, first, low, s, n);
        AtPut(m, first + 1 + k / 512, k % 512, Directory(first + 5 + count, true), first + 5 + (n / 512 - low),
              n % 512);
      } else {
        assert n / 512 == k && n == 512 * k + n % 512;
      }
    }
  }

  /** What page n looks like: itself, absent if it is a guard page. */
  function Identity(n: nat, guard: bool): View {
    View(!guard, !guard, false, false, false, false, 0, n)
  }

  ghost function UsesOf(first: nat, low: nat, count: nat): Uses {
    map f: nat | first <= f < first + 5 + count :: UseOf(first, low, f)
  }

  function UseOf(first: nat, low: nat, f: nat): Use {
    if f <= first then Root else if f < first + 5 then DirectoryOf(f - first - 1) else TableOf(low + (f - first - 5))
  }

  /** The finished tables are well-formed, and every page of them has its use. */
  lemma BuiltIsFormed(m: Memory, first: nat, low: nat, count: nat, s: StackArray)
    requires first > 0 && Sized(m, first, 5 + count) && Built(m, first, low, count, s) && low + count <= LARGE_PAGES
    ensures Formed(m, first, UsesOf(first, low, count)) && Open(m, first)
    ensures forall k: nat :: k < LARGE_PAGES && Pde(m, first, k).bit7 ==> Plain(Pde(m, first, k), k)
    ensures forall k: nat :: k < LARGE_PAGES ==> (Pde(m, first, k).bit7 <==> !(low <= k < low + count))
  {
    var uses := UsesOf(first, low, count);
    forall d {:trigger At(m, first, d)} | 0 <= d < 4 ensures PointsTo(At(m, first, d), m, uses, DirectoryOf(d)) {}
    forall k: nat | k < LARGE_PAGES
      ensures PdeOk(m, first, uses, k) && Reaches(Pde(m, first, k))
      ensures Pde(m, first, k).bit7 ==> Plain(Pde(m, first, k), k)
      ensures Pde(m, first, k).bit7 <==> !(low <= k < low + count)
    {
      assert PdeIs(m, first, low, count, k);
      assert At(m, first, k / 512) == Directory(first + 1 + k / 512, false);
    }
  }

  lemma BuiltIsIdentity(m: Memory, first: nat, low: nat, count: nat, s: StackArray, n: nat)
    requires Built(m, first, low, count, s) && n < PAGES
    ensures Walk(m, first, n) == Identity(n, low <= n / 512 < low + count && IsGuard(s, n))
  {
    assert PdeIs(m, first, low, count, n / 512);
    assert n / 512 / 512 == n / 0x4_0000;
    assert At(m, first, n / 0x4_0000) == Directory(first + 1 + n / 0x4_0000, false);
    if low <= n / 512 < low + count { assert PteIs(m, first, low, s, n); }
  }

  lemma GuardsAreInside(s: StackArray, n: nat)
    requires Fitting(s) && IsGuard(s, n)
    ensures LowLarge(s) <= n / 512 <= HighLarge(s)
  {
    var c: nat :| c < s.cpus && Address(n) == GuardAddress(s, c);
    GuardGrows(s, 0, c);
    GuardGrows(s, c, s.cpus - 1);
    HighHoldsLast(s);
    assert n / 512 == Address(n) / SIZE_2MB;
  }

  /** The directory entry of one more 2 MB page that holds guard pages, and its table. */
  method AddTable(m: Memory, first: nat, low: nat, count: nat, s: StackArray, guardPage: nat, ghost c: nat,
                  ghost total: nat)
      returns (m': Memory, guardPage': nat, ghost c': nat)
    requires Fitting(s) && Sized(m, first, total) && 5 + count < total && low + count < LARGE_PAGES
    requires Built(m, first, low, count, s) && Awaits(s, 512 * (low + count), guardPage, c)
    ensures Sized(m', first, total) && Built(m', first, low, count + 1, s)
    ensures Awaits(s, 512 * (low + count + 1), guardPage', c')
  {
    var k, f := low + count, first + 5 + count;
    assert At(m, first, k / 512) == Directory(first + 1 + k / 512, false);
    var m1 := Put(m, At(m, first, k / 512).frame, k % 512, Directory(f, true));
    m', guardPage', c' := FillTable(m1, f, k, s, guardPage, c);
    TableAdded(m, first, low, count, s, m1, m', total);
  }

  /** The 2 MB pages that hold guard pages are mapped by tables. */
  method BuildTables(m0: Memory, first: nat, s: StackArray) returns (m: Memory)
    requires Fitting(s) && Sized(m0, first, 5 + PagesNeeded(true, s)) && Built(m0, first, LowLarge(s), 0, s)
    ensures Sized(m, first, 5 + PagesNeeded(true, s)) && Built(m, first, LowLarge(s), PagesNeeded(true, s), s)
  {
    HighHoldsLast(s);
    m := LoopOverLarge(m0, first, LowLarge(s), HighLarge(s), s);
  }

  /** The loop from Low2MBoundary to High2MBoundary. */
  method LoopOverLarge(m0: Memory, first: nat, low: nat, high: nat, s: StackArray) returns (m: Memory)
    requires low <= high < LARGE_PAGES - 1 && low == LowLarge(s) && Fitting(s)
    requires Sized(m0, first, 6 + high - low) && Built(m0, first, low, 0, s)
    ensures Sized(m, first, 6 + high - low) && Built(m, first, low, high - low + 1, s)
  {
    m := m0;
    var pageIndex: nat := low * SIZE_2MB;
    var pages: nat := 0;
    var guardPage: nat := s.base + SIZE_4KB;
    ghost var c: nat := 0;
    StartAwaited(s);
    while pageIndex <= high * SIZE_2MB
      invariant low + pages <= high + 1 && pageIndex == (low + pages) * SIZE_2MB
      invariant Sized(m, first, 6 + high - low) && Built(m, first, low, pages, s)
      invariant Awaits(s, 512 * (low + pages), guardPage, c)
      decreases high + 1 - low - pages
    {
      m, guardPage, c := AddTable(m, first, low, pages, s, guardPage, c, 6 + high - low);
      AdvancedIs(low + pages);
      pageIndex := Advanced(pageIndex);
      pages := pages + 1;
    }
  }

  lemma StartAwaited(s: StackArray)
    requires Fitting(s)
    ensures Awaits(s, 512 * LowLarge(s), s.base + SIZE_4KB, 0)
  {}

  /** The k-th 2 MB page is mapped by a table of 4 KB pages. */
  predicate HasTable(guard: bool, s: StackArray, k: nat)
    requires guard ==> Fitting(s)
  {
    guard && LowLarge(s) <= k <= HighLarge(s)
  }

  /** The pages first up to the needed count have been allocated.  Every page below 4 GB is
      mapped to itself, present iff it is not a guard page, and every allocated page is used. */
  method Gen4GPageTable(m0: Memory, first: nat, guard: bool, s: StackArray) returns (m: Memory, ghost uses: Uses)
    requires (guard ==> Fitting(s)) && first > 0 && Sized(m0, first, 5 + PagesNeeded(guard, s))
    ensures Sized(m, first, 5 + PagesNeeded(guard, s)) && uses.Keys == m0.Keys
    ensures Formed(m, first, uses) && Open(m, first)
    ensures forall n: nat {:trigger Walk(m, first, n)} :: n < PAGES ==>
              Walk(m, first, n) == Identity(n, guard && IsGuard(s, n))
    ensures forall k: nat :: k < LARGE_PAGES && Pde(m, first, k).bit7 ==> Plain(Pde(m, first, k), k)
    ensures forall k: nat :: k < LARGE_PAGES ==> (Pde(m, first, k).bit7 <==> !HasTable(guard, s, k))
  {
    ghost var total := PagesNeeded(guard, s);
    ghost var low := if guard then LowLarge(s) else 0;
    m := BuildDirectories(m0, first, 5 + total, low, s);
    if guard { m := BuildTables(m, first, s); HighHoldsLast(s); }
    uses := UsesOf(first, low, total);
    BuiltIsFormed(m, first, low, total, s);
    forall n: nat {:trigger Walk(m, first, n)} | n < PAGES
      ensures Walk(m, first, n) == Identity(n, guard && IsGuard(s, n))
    {
      BuiltIsIdentity(m, first, low, total, s, n);
      if guard && IsGuard(s, n) { GuardsAreInside(s, n); }
    }
  }
}
