/** The SMM page tables from their construction to the start of the SMM profile. */
module SmmPageSetup {
  import opened Paging
  import opened SmmPageFaults
  import opened SmmPageTables
  import opened SmmPageTableBuild
  import opened SmmProtection

  /** The page of mSmmMpSyncData, if PcdCpuSmmUncacheCpuSyncData asks to make it uncached. */
  datatype SyncPage = Untouched | Uncached(n: nat)

  const UNCACHED := Cacheability(false, true, false)

  /** The page lies below 4 GB and is no guard page. */
  predicate Ordinary(sync: SyncPage, guard: bool, s: StackArray) {
    sync.Uncached? ==> sync.n < PAGES && !(guard && IsGuard(s, sync.n))
  }

  /** Page n of the new tables: itself, absent if it is a guard page, and with the consequences
      of making the page of mSmmMpSyncData uncached, which splits its 2 MB page if that holds no
      guard page. */
  function Start(guard: bool, s: StackArray, sync: SyncPage, n: nat): View
    requires guard ==> Fitting(s)
  {
    var v := Identity(n, guard && IsGuard(s, n));
    if sync.Untouched? then v else Recached(v, n, sync.n, UNCACHED, !HasTable(guard, s, sync.n / 512))
  }

  /** Gen4GPageTable, SetCacheability for mSmmMpSyncData, InitProtectedMemRange and InitPaging
      one after the other: a page that was as it should be is present iff the protected ranges
      allow it, execute-disabled iff they ask for it and the processor can do it, and otherwise
      unchanged: no 2 MB page that InitPaging splits has anything to lose.  ok is false when
      SMRAM runs out of pages for tables. */
  method Prepare(m0: Memory, first: nat, guard: bool, s: StackArray, sync: SyncPage, free: seq<nat>, xd: bool,
                 template: seq<Protection>, descriptors: seq<Descriptor>)
      returns (t: PageTables, ok: bool)
    requires (guard ==> Fitting(s)) && first > 0 && Sized(m0, first, 5 + PagesNeeded(guard, s))
    requires PoolOk(free, m0) && Ordered(template) && Ordinary(sync, guard, s)
    requires forall i :: 0 <= i < |descriptors| ==> descriptors[i].base + descriptors[i].length <= PHYSICAL_TOP
    ensures |free| >= LARGE_PAGES + 1 ==> ok
    ensures fresh(t) && fresh(t.entryPointer) && fresh(t.entryValue)
    ensures ok ==> t.Valid() && Open(t.mem, t.root) && t.Logged() && t.original == t.mem && t.faults == []
    ensures ok ==> Finished(t.mem, t.root, guard, s, sync, template + MmioRanges(descriptors), xd)
  {
    t := SetUp(m0, first, guard, s, free, xd, template, descriptors);
    ok := Uncache(t, guard, s, sync, template + MmioRanges(descriptors));
    if ok { ok := Initialize(t, guard, s, sync, template + MmioRanges(descriptors)); }
  }

  /** The tables before InitPaging. */
  ghost predicate Uninitialized(t: PageTables, guard: bool, s: StackArray, sync: SyncPage, protections: seq<Protection>)
    requires guard ==> Fitting(s)
    reads t
  {
    && t.Valid() && Open(t.mem, t.root) && LargePlain(t.mem, t.root) && Started(t.mem, t.root, guard, s, sync)
    && t.Protected() && t.protections == protections
    && t.entryPointer.Length == t.entryValue.Length == MAX_PF_ENTRY_COUNT && t.entryCount == 0
  }

  /** Gen4GPageTable and InitProtectedMemRange. */
  method SetUp(m0: Memory, first: nat, guard: bool, s: StackArray, free: seq<nat>, xd: bool,
               template: seq<Protection>, descriptors: seq<Descriptor>)
      returns (t: PageTables)
    requires (guard ==> Fitting(s)) && first > 0 && Sized(m0, first, 5 + PagesNeeded(guard, s))
    requires PoolOk(free, m0) && Ordered(template)
    requires forall i :: 0 <= i < |descriptors| ==> descriptors[i].base + descriptors[i].length <= PHYSICAL_TOP
    ensures fresh(t) && fresh(t.entryPointer) && fresh(t.entryValue) && t.pool == free && t.xdSupported == xd
    ensures Uninitialized(t, guard, s, Untouched, template + MmioRanges(descriptors))
    ensures Tabled(t.mem, t.root, guard, s)
  {
    var m, uses := Create(m0, first, guard, s);
    t := Protect(m, first, free, xd, template, descriptors, uses);
  }

  /** InitPaging on such tables. */
  method Initialize(t: PageTables, guard: bool, s: StackArray, sync: SyncPage, ghost protections: seq<Protection>)
      returns (ok: bool)
    requires (guard ==> Fitting(s)) && Uninitialized(t, guard, s, sync, protections)
    modifies t`mem, t`pool, t`uses, t`faults, t`original
    ensures |old(t.pool)| >= LARGE_PAGES ==> ok
    ensures ok ==> t.Valid() && Open(t.mem, t.root) && t.Logged() && t.original == t.mem && t.faults == []
    ensures ok ==> Finished(t.mem, t.root, guard, s, sync, protections, t.xdSupported)
  {
    ghost var m, uses := t.mem, t.uses;
    AllPlain(m, t.root, t.splits);
    ok := t.InitPaging();
    if ok {
      PatchedStart(m, t.mem, t.root, uses, guard, s, sync, protections, t.xdSupported);
      t.StartLog();
    }
  }

  /** Every page is patched as the protected ranges say. */
  predicate Finished(m: Memory, root: nat, guard: bool, s: StackArray, sync: SyncPage, protections: seq<Protection>,
                     xd: bool)
    requires guard ==> Fitting(s)
  {
    forall n: nat {:trigger Walk(m, root, n)} :: n < PAGES ==>
      Walk(m, root, n) == Patch(Start(guard, s, sync, n), AccessOf(protections, Address(n)), xd)
  }

  /** All 2 MB entries are plain. */
  predicate LargePlain(m: Memory, root: nat) {
    forall k: nat :: k < LARGE_PAGES && Pde(m, root, k).bit7 ==> Plain(Pde(m, root, k), k)
  }

  lemma AllPlain(m: Memory, root: nat, splits: seq<Range>)
    requires LargePlain(m, root)
    ensures SplitsPlain(m, root, splits)
  {
    forall k: nat | k < LARGE_PAGES && ToSplit(m, root, splits, k) ensures Plain(Pde(m, root, k), k) {}
  }

  /** The tables map every page as they should before the protected ranges are looked at. */
  predicate Started(m: Memory, root: nat, guard: bool, s: StackArray, sync: SyncPage)
    requires guard ==> Fitting(s)
  {
    forall n: nat {:trigger Walk(m, root, n)} :: n < PAGES ==> Walk(m, root, n) == Start(guard, s, sync, n)
  }

  /** Exactly the 2 MB pages without guard pages are mapped as a whole. */
  predicate Tabled(m: Memory, root: nat, guard: bool, s: StackArray)
    requires guard ==> Fitting(s)
  {
    forall k: nat :: k < LARGE_PAGES ==> (Pde(m, root, k).bit7 <==> !HasTable(guard, s, k))
  }

  method Create(m0: Memory, first: nat, guard: bool, s: StackArray) returns (m: Memory, ghost uses: Uses)
    requires (guard ==> Fitting(s)) && first > 0 && Sized(m0, first, 5 + PagesNeeded(guard, s))
    ensures m.Keys == m0.Keys && Formed(m, first, uses) && Open(m, first)
    ensures Started(m, first, guard, s, Untouched) && LargePlain(m, first) && Tabled(m, first, guard, s)
  {
    m, uses := Gen4GPageTable(m0, first, guard, s);
    forall n: nat {:trigger Walk(m, first, n)} | n < PAGES ensures Walk(m, first, n) == Start(guard, s, Untouched, n) {}
  }

  /** The page of mSmmMpSyncData is made uncached. */
  method Uncache(t: PageTables, guard: bool, s: StackArray, sync: SyncPage, ghost protections: seq<Protection>)
      returns (ok: bool)
    requires (guard ==> Fitting(s)) && Ordinary(sync, guard, s)
    requires Uninitialized(t, guard, s, Untouched, protections) && Tabled(t.mem, t.root, guard, s)
    modifies t`mem, t`pool, t`uses
    ensures |t.pool| + 1 >= |old(t.pool)| && (!ok ==> old(t.pool) == [])
    ensures ok ==> Uninitialized(t, guard, s, sync, protections)
  {
    ok := true;
    if sync.Uncached? {
      ghost var m, uses := t.mem, t.uses;
      assert Walk(m, t.root, sync.n) == Start(guard, s, Untouched, sync.n);
      ok := t.SetCacheability(sync.n, UNCACHED);
      if ok {
        StillPlain(m, t.mem, t.root, uses, t.uses, sync.n, UNCACHED);
        StartedOn(m, t.mem, t.root, guard, s, sync);
      }
    }
  }

  lemma StartedOn(m: Memory, m': Memory, root: nat, guard: bool, s: StackArray, sync: SyncPage)
    requires (guard ==> Fitting(s)) && sync.Uncached? && sync.n < PAGES && Started(m, root, guard, s, Untouched)
    requires Pde(m, root, sync.n / 512).bit7 <==> !HasTable(guard, s, sync.n / 512)
    requires CacheSet(m, m', root, sync.n, UNCACHED)
    ensures Started(m', root, guard, s, sync)
  {
    forall n: nat {:trigger Walk(m', root, n)} | n < PAGES ensures Walk(m', root, n) == Start(guard, s, sync, n) {
      assert Walk(m, root, n) == Start(guard, s, Untouched, n);
    }
  }

  /** SetCacheability leaves no 2 MB entry behind that is not plain: it splits the only 2 MB page
      it touches. */
  lemma StillPlain(m: Memory, m': Memory, root: nat, uses: Uses, uses': Uses, n: nat, c: Cacheability)
    requires Formed(m, root, uses) && Open(m, root) && LargePlain(m, root)
    requires Formed(m', root, uses') && Open(m', root) && n < PAGES && CacheSet(m, m', root, n, c)
    ensures LargePlain(m', root)
  {
    forall k: nat | k < LARGE_PAGES && Pde(m', root, k).bit7 ensures Plain(Pde(m', root, k), k) {
      assert SplitOnly(m, m', root, n / 512, k);
      assert PdeOk(m, root, uses, k) && PdeOk(m', root, uses', k);
      assert 512 * k / 512 == k && 512 * k / 0x4_0000 == k / 512 && 512 * k % 512 == 0;
      LargeLeaf(m, root, 512 * k);
      LargeLeaf(m', root, 512 * k);
      assert Walk(m', root, 512 * k) == Walk(m, root, 512 * k);
      FrameIs(Pde(m, root, k).frame);
      FrameIs(Pde(m', root, k).frame);
    }
  }

  lemma FrameIs(frame: nat)
    requires frame % 512 <= 1
    ensures frame == frame / 512 * 512 + if frame % 2 == 1 then 1 else 0
  {
    LargeFrame(frame);
    assert frame == frame / 2 * 2 + frame % 2;
  }

  /** The tables with the protected ranges and the list of 2 MB pages to split. */
  method Protect(m: Memory, root: nat, free: seq<nat>, xd: bool, template: seq<Protection>,
                 descriptors: seq<Descriptor>, ghost uses: Uses)
      returns (t: PageTables)
    requires Formed(m, root, uses) && PoolOk(free, m) && Open(m, root) && Ordered(template)
    requires forall i :: 0 <= i < |descriptors| ==> descriptors[i].base + descriptors[i].length <= PHYSICAL_TOP
    ensures fresh(t) && fresh(t.entryPointer) && fresh(t.entryValue)
    ensures t.Valid() && t.Protected() && t.Logged()
    ensures t.mem == m && t.root == root && t.pool == free && t.xdSupported == xd && t.entryCount == 0
    ensures t.protections == template + MmioRanges(descriptors)
  {
    t := new PageTables(m, root, free, xd, uses);
    var protections, splits := InitProtectedMemRange(template, descriptors);
    t.protections, t.splits := protections, splits;
  }

  /** Every page of open tables is mapped, and so patched. */
  lemma PatchedStart(m: Memory, m': Memory, root: nat, uses: Uses, guard: bool, s: StackArray, sync: SyncPage,
                     protections: seq<Protection>, xd: bool)
    requires (guard ==> Fitting(s)) && Formed(m, root, uses) && Open(m, root) && Started(m, root, guard, s, sync)
    requires Patched(m, m', root, protections, xd)
    ensures Finished(m', root, guard, s, sync, protections, xd)
  {
    forall n: nat {:trigger Walk(m', root, n)} | n < PAGES
      ensures Walk(m', root, n) == Patch(Start(guard, s, sync, n), AccessOf(protections, Address(n)), xd)
    {
      OpenMaps(m, root, uses, n);
      assert Walk(m, root, n) == Start(guard, s, sync, n);
    }
  }

  /** Tables and eleven pages for which the eleventh page stays present after the single step:
      nothing is allowed, and every page belongs to another 2 MB page. */
  method EleventhIsLost() returns (t: PageTables, ghost before: Memory)
    ensures t.mem != before && t.entryCount == 0
    ensures forall n: nat {:trigger Walk(before, t.root, n)} :: n < PAGES ==> !Walk(before, t.root, n).present
  {
    var empty := seq(512, _ => ZERO);
    var m0: Memory := map[1 := empty, 2 := empty, 3 := empty, 4 := empty, 5 := empty];
    var free := seq(LARGE_PAGES + 1, i requires 0 <= i => 6 + i);
    var ok;
    t, ok := Prepare(m0, 1, false, StackArray(0, 0, 0), Untouched, free, true, [], []);
    before := t.mem;
    forall n: nat {:trigger Walk(before, t.root, n)} | n < PAGES ensures !Walk(before, t.root, n).present {
      assert AccessOf([] + MmioRanges([]), Address(n)) == Access(false, false);
    }
    var pages := seq(MAX_PF_ENTRY_COUNT + 1, i requires 0 <= i => 512 * i);
    forall i, j | 0 <= i < j < |pages| ensures PlaceOf(t.mem, t.root, pages[i]) != PlaceOf(t.mem, t.root, pages[j]) {
      LargeApart(t.mem, t.root, t.uses, pages[i], pages[j]);
    }
    t.profileStart := true;
    TouchAndStep(t, pages);
  }
}
