/** The SMM page tables and the code that rewrites them: InitPaging, the page-fault and
    single-step handlers of the SMM profile, and SetCacheability. */
module SmmPageTables {
  import opened Paging
  import opened SmmPageFaults
  import opened SmmProtection

  /** The pages of the pool are free: they hold no table. */
  predicate PoolOk(pool: seq<nat>, m: Memory) {
    && (forall i :: 0 <= i < |pool| ==> pool[i] != 0 && pool[i] !in m)
    && (forall i, j :: 0 <= i < j < |pool| ==> pool[i] != pool[j])
  }

  // ----- What InitPaging does to a page -----

  /** Address of a page and of a 2 MB page. */
  function Address(n: nat): nat { n * SIZE_4KB }
  function LargeAddress(k: nat): nat { k * SIZE_2MB }

  /** Present and writable only where the protected ranges say so; NX added where they ask
      for it and the processor has it. */
  function Patch(v: View, access: Access, xd: bool): View {
    v.(present := v.present && access.present, writable := v.writable && access.present,
       nx := v.nx || (access.nx && xd))
  }

  /** The same on one entry. */
  function PatchEntry(e: Entry, access: Access, xd: bool): Entry {
    e.(p := e.p && access.present, rw := e.rw && access.present, nx := e.nx || (access.nx && xd))
  }

  /** A 2 MB entry that maps its page to itself, readable, writable, executable and cached. */
  predicate Plain(e: Entry, k: nat) {
    e.p && e.rw && !e.nx && !e.wt && !e.cd && e.frame == 512 * k && e.high == 0
  }

  /** The k-th 2 MB page is mapped as a whole and has to be split. */
  predicate ToSplit(m: Memory, root: nat, splits: seq<Range>, k: nat) {
    Pde(m, root, k).bit7 && InSplit(splits, LargeAddress(k))
  }

  /** Page n after the first pass: those of a split 2 MB page have fixed entries that map them
      to themselves, whatever the 2 MB entry said. */
  function Rebuilt(m: Memory, root: nat, splits: seq<Range>, n: nat): View {
    if ToSplit(m, root, splits, n / 512) then View(At(m, root, n / 0x4_0000).p, true, false, false, false, false, 0, n)
    else Walk(m, root, n)
  }

  /** The first pass has got to the k-th 2 MB page. */
  predicate SplitBelow(m0: Memory, m: Memory, root: nat, splits: seq<Range>, k: nat) {
    && SameDirectories(m0, m, root)
    && (forall n: nat :: n < PAGES ==> RebuiltAt(m0, m, root, splits, k, n))
    && (forall j: nat :: j < LARGE_PAGES ==> SplitAt(m0, m, root, splits, k, j))
  }

  predicate SplitAt(m0: Memory, m: Memory, root: nat, splits: seq<Range>, k: nat, j: nat) {
    if j < k then
      if Pde(m, root, j).bit7 then !InSplit(splits, LargeAddress(j))
      else Pde(m, root, j).p || Pde(m, root, j) == Pde(m0, root, j)
    else Pde(m, root, j) == Pde(m0, root, j)
  }

  predicate RebuiltAt(m0: Memory, m: Memory, root: nat, splits: seq<Range>, k: nat, n: nat) {
    && Walk(m, root, n) == (if n / 512 < k then Rebuilt(m0, root, splits, n) else Walk(m0, root, n))
    && (Mapped(m, root, n) <==> Mapped(m0, root, n))
  }

  predicate SameMapping(m0: Memory, m: Memory, root: nat) {
    forall n: nat :: n < PAGES ==> SameAt(m0, m, root, n)
  }

  predicate SameAt(m0: Memory, m: Memory, root: nat, n: nat) {
    Walk(m, root, n) == Walk(m0, root, n) && (Mapped(m, root, n) <==> Mapped(m0, root, n))
  }

  /** What has to be split is plain. */
  predicate SplitsPlain(m: Memory, root: nat, splits: seq<Range>) {
    forall k: nat :: k < LARGE_PAGES && ToSplit(m, root, splits, k) ==> Plain(Pde(m, root, k), k)
  }

  /** Then the first pass leaves the mapping of every page alone. */
  lemma PlainStays(m: Memory, root: nat, splits: seq<Range>, n: nat)
    requires SplitsPlain(m, root, splits) && n < PAGES
    ensures Rebuilt(m, root, splits, n) == Walk(m, root, n)
  {
    if ToSplit(m, root, splits, n / 512) {
      assert Plain(Pde(m, root, n / 512), n / 512);
      LargeLeaf(m, root, n);
      assert 512 * (n / 512) + n % 512 == n;
    }
  }

  /** InitPaging has patched what the first pass had made of m0. */
  predicate Initialized(m0: Memory, m: Memory, root: nat, splits: seq<Range>, protections: seq<Protection>, xd: bool) {
    forall n: nat {:trigger Walk(m, root, n)} :: n < PAGES ==>
      Walk(m, root, n) ==
        if Mapped(m0, root, n) then Patch(Rebuilt(m0, root, splits, n), AccessOf(protections, Address(n)), xd)
        else Walk(m0, root, n)
  }

  /** InitPaging has patched m0, and changed nothing else. */
  predicate Patched(m0: Memory, m: Memory, root: nat, protections: seq<Protection>, xd: bool) {
    forall n: nat {:trigger Walk(m, root, n)} :: n < PAGES ==>
      Walk(m, root, n) ==
        if Mapped(m0, root, n) then Patch(Walk(m0, root, n), AccessOf(protections, Address(n)), xd)
        else Walk(m0, root, n)
  }

  lemma InitializedIs(m0: Memory, m1: Memory, m: Memory, root: nat, splits: seq<Range>, protections: seq<Protection>,
                      xd: bool)
    requires SplitBelow(m0, m1, root, splits, LARGE_PAGES) && PatchedBelow(m1, m, root, protections, xd, PAGES)
    ensures Initialized(m0, m, root, splits, protections, xd)
    ensures SplitsPlain(m0, root, splits) ==> Patched(m0, m, root, protections, xd)
  {
    forall n: nat | n < PAGES
      ensures Walk(m, root, n) ==
        if Mapped(m0, root, n) then Patch(Rebuilt(m0, root, splits, n), AccessOf(protections, Address(n)), xd)
        else Walk(m0, root, n)
      ensures SplitsPlain(m0, root, splits) ==> Rebuilt(m0, root, splits, n) == Walk(m0, root, n)
    {
      assert RebuiltAt(m0, m1, root, splits, LARGE_PAGES, n) && PatchedAt(m1, m, root, protections, xd, PAGES, n);
      if SplitsPlain(m0, root, splits) { PlainStays(m0, root, splits, n); }
      if ToSplit(m0, root, splits, n / 512) { SplitIsMapped(m0, m1, root, splits, n); }
    }
  }

  /** The pages below n are patched, the others are mapped as in m0. */
  predicate PatchedBelow(m0: Memory, m: Memory, root: nat, protections: seq<Protection>, xd: bool, n: nat) {
    && (forall i: nat :: i < PAGES ==> PatchedAt(m0, m, root, protections, xd, n, i))
    && (forall k: nat :: k < LARGE_PAGES ==> SameKind(m0, m, root, k))
    && SameDirectories(m0, m, root)
  }

  /** A 2 MB entry is still one, any other directory entry is as it was. */
  predicate SameKind(m0: Memory, m: Memory, root: nat, k: nat) {
    if Pde(m0, root, k).bit7 then Pde(m, root, k).bit7 else Pde(m, root, k) == Pde(m0, root, k)
  }

  predicate SameDirectories(m0: Memory, m: Memory, root: nat) {
    forall d :: 0 <= d < 4 ==> At(m, root, d) == At(m0, root, d)
  }

  predicate PatchedAt(m0: Memory, m: Memory, root: nat, protections: seq<Protection>, xd: bool, n: nat, i: nat) {
    && (Mapped(m, root, i) <==> Mapped(m0, root, i))
    && Walk(m, root, i) ==
         if i < n && Mapped(m0, root, i) then Patch(Walk(m0, root, i), AccessOf(protections, Address(i)), xd)
         else Walk(m0, root, i)
  }

  /** Every table is reachable. */
  predicate Open(m: Memory, root: nat) {
    && (forall d :: 0 <= d < 4 ==> At(m, root, d).p)
    && (forall k: nat :: k < LARGE_PAGES ==> Reaches(Pde(m, root, k)))
  }

  predicate Reaches(e: Entry) {
    !e.bit7 ==> e.p
  }

  lemma StaysOpen(m0: Memory, m1: Memory, m2: Memory, root: nat, splits: seq<Range>, protections: seq<Protection>,
                  xd: bool)
    requires Open(m0, root) && SplitBelow(m0, m1, root, splits, LARGE_PAGES)
    requires PatchedBelow(m1, m2, root, protections, xd, PAGES)
    ensures Open(m2, root)
  {
    forall k: nat | k < LARGE_PAGES ensures Reaches(Pde(m2, root, k)) {
      assert Reaches(Pde(m0, root, k)) && SplitAt(m0, m1, root, splits, LARGE_PAGES, k) && SameKind(m1, m2, root, k);
    }
  }

  // ----- What SetCacheability does to a page -----

  datatype Cacheability = Cacheability(wt: bool, cd: bool, pat: bool)

  /** Page n gets the cacheability.  A 2 MB page that has been split loses its write
      permission, because its new directory entry is only present; the 32-bit masks clear the
      upper half, with NX, of every entry that is rewritten. */
  function Recached(v: View, i: nat, n: nat, c: Cacheability, split: bool): View {
    var w := if split && i / 512 == n / 512 then v.(writable := false, nx := false, high := 0) else v;
    if i == n then w.(wt := c.wt, cd := c.cd, pat := c.pat, nx := false, high := 0) else w
  }

  /** The i-th 4 KB entry made from a 2 MB entry; the PAT bit moves from bit 12 to bit 7. */
  function Piece(e: Entry, i: nat): Entry {
    e.(frame := e.frame / 2 * 2 + i, bit7 := e.frame % 2 == 1, nx := false, high := 0)
  }

  predicate PieceAt(m0: Memory, m1: Memory, root: nat, k: nat, i: nat) {
    Walk(m1, root, i) ==
      if i / 512 == k then Walk(m0, root, i).(writable := false, nx := false, high := 0) else Walk(m0, root, i)
  }

  /** No 2 MB entry but the k-th has been split. */
  predicate OnlySplit(m0: Memory, m: Memory, root: nat, k: nat) {
    forall j: nat :: j < LARGE_PAGES ==> SplitOnly(m0, m, root, k, j)
  }

  predicate SplitOnly(m0: Memory, m: Memory, root: nat, k: nat, j: nat) {
    Pde(m, root, j).bit7 == (Pde(m0, root, j).bit7 && j != k)
  }

  /** The k-th 2 MB page, and no other, has been split into pieces. */
  predicate AllPieces(m0: Memory, m: Memory, root: nat, k: nat) {
    OnlySplit(m0, m, root, k) && forall i: nat :: i < PAGES ==> PieceAt(m0, m, root, k, i)
  }

  /** SetCacheability has been called for page n. */
  predicate CacheSet(m0: Memory, m: Memory, root: nat, n: nat, c: Cacheability) {
    && OnlySplit(m0, m, root, n / 512)
    && forall i: nat {:trigger Walk(m, root, i)} :: i < PAGES ==>
         Walk(m, root, i) == Recached(Walk(m0, root, i), i, n, c, Pde(m0, root, n / 512).bit7)
  }

  /** After the fault the page is itself: present, executable, cached, and writable unless the
      directory entry of its table, which is not touched, forbids it. */
  predicate Repaired(v: View, n: nat, pde: Entry) {
    v == View(true, pde.bit7 || pde.rw, false, false, false, false, 0, n)
  }

  /** The pages that do not share the entry of page n are mapped as before. */
  predicate OthersSame(m0: Memory, m: Memory, root: nat, n: nat) {
    forall i: nat {:trigger Walk(m, root, i)} :: i < PAGES && PlaceOf(m0, root, i) != PlaceOf(m0, root, n) ==>
      Walk(m, root, i) == Walk(m0, root, i)
  }

  /** Every page has its entry where it had it. */
  predicate SamePlaces(m0: Memory, m: Memory, root: nat) {
    forall i: nat {:trigger PlaceOf(m, root, i)} :: i < PAGES ==> PlaceOf(m, root, i) == PlaceOf(m0, root, i)
  }

  lemma OthersKept(m: Memory, root: nat, uses: Uses, n: nat, e: Entry)
    requires Formed(m, root, uses) && n < PAGES && Mapped(m, root, n) && Fits(m, root, n, e)
    ensures OthersSame(m, PutLeaf(m, root, n, e), root, n) && SamePlaces(m, PutLeaf(m, root, n, e), root)
  {
    var m' := PutLeaf(m, root, n, e);
    forall i: nat {:trigger PlaceOf(m', root, i)} | i < PAGES ensures PlaceOf(m', root, i) == PlaceOf(m, root, i) {
      PutLeafWalk(m, root, uses, n, e, i);
    }
    forall i: nat {:trigger Walk(m', root, i)} | i < PAGES && PlaceOf(m, root, i) != PlaceOf(m, root, n)
      ensures Walk(m', root, i) == Walk(m, root, i) { PutLeafWalk(m, root, uses, n, e, i); }
  }

  class PageTables {
    const root: nat                      // gSmiCr3
    var mem: Memory
    var pool: seq<nat>                   // free pages of SMRAM
    var protections: seq<Protection>     // mProtectionMemRange
    var splits: seq<Range>               // mSplitMemRange
    var xdSupported: bool
    ghost var uses: Uses

    // The page-fault log of one processor.
    var profileStart: bool               // mSmmProfileStart
    var entryCount: nat                  // mPFEntryCount
    const entryPointer: array<Place>     // mLastPFEntryPointer
    const entryValue: array<Entry>       // mLastPFEntryValue
    ghost var faults: seq<Saved>         // every fault since the last single step
    ghost var original: Memory           // the tables before them

    ghost predicate Valid()
      reads this
    {
      Formed(mem, root, uses) && PoolOk(pool, mem)
    }

    /** Tables as SmmPageTableBuild.Gen4GPageTable leaves them, and an empty fault log. */
    constructor (m: Memory, cr3: nat, free: seq<nat>, xd: bool, ghost u: Uses)
      requires Formed(m, cr3, u) && PoolOk(free, m) && Open(m, cr3)
      ensures Valid() && Logged() && mem == original == m && root == cr3 && pool == free && xdSupported == xd
      ensures Protected() && protections == [] && faults == []
      ensures fresh(entryPointer) && fresh(entryValue)
    {
      root, mem, pool, xdSupported, uses := cr3, m, free, xd, u;
      protections, splits, profileStart, entryCount := [], [], false, 0;
      entryPointer := new Place[MAX_PF_ENTRY_COUNT](_ => Place(0, 0));
      entryValue := new Entry[MAX_PF_ENTRY_COUNT](_ => ZERO);
      faults, original := [], m;
    }

    /** The list SmmProtection.InitProtectedMemRange has made. */
    ghost predicate Protected()
      reads this
    {
      Ordered(protections) && forall q: nat :: InSplit(splits, q * SIZE_2MB) <==> CutBySome(protections, q)
    }

    /** AllocatePages (1); 0 is NULL. */
    method AllocatePage() returns (f: nat)
      requires Valid()
      modifies this`pool
      ensures Valid() && (f == 0 <==> old(pool) == [])
      ensures f != 0 ==> f !in mem && f !in pool && pool == old(pool)[1..]
    {
      if pool == [] { return 0; }
      f := pool[0];
      pool := pool[1..];
    }

    /** The tables are now as they should be between two faults. */
    ghost method StartLog()
      requires entryPointer.Length == entryValue.Length == MAX_PF_ENTRY_COUNT && entryCount == 0
      requires Valid() && Open(mem, root)
      modifies this`faults, this`original
      ensures Logged() && original == mem && faults == []
    {
      faults, original := [], mem;
    }

    /** The log holds the first ten of the faults since the tables were last as they should be. */
    ghost predicate Logged()
      reads this, entryPointer, entryValue
    {
      && History(mem, faults, original)
      && Formed(original, root, uses) && PoolOk(pool, original) && Open(original, root)
      && entryPointer.Length == entryValue.Length == MAX_PF_ENTRY_COUNT
      && entryCount == (if |faults| < MAX_PF_ENTRY_COUNT then |faults| else MAX_PF_ENTRY_COUNT)
      && forall i :: 0 <= i < entryCount ==> faults[i] == Saved(entryPointer[i], entryValue[i])
    }

    // ----- Page faults -----

    /** Save the entry of a place if there is room. */
    method Save(place: Place)
      requires Logged()
      modifies this`entryCount, this`faults, entryPointer, entryValue
      ensures faults == old(faults) + [Saved(place, At(mem, place.page, place.index))]
      ensures entryCount == (if |faults| < MAX_PF_ENTRY_COUNT then |faults| else MAX_PF_ENTRY_COUNT)
      ensures forall i :: 0 <= i < entryCount ==> faults[i] == Saved(entryPointer[i], entryValue[i])
    {
      if entryCount < MAX_PF_ENTRY_COUNT {
        entryPointer[entryCount] := place;
        entryValue[entryCount] := At(mem, place.page, place.index);
        entryCount := entryCount + 1;
      }
      faults := faults + [Saved(place, At(mem, place.page, place.index))];
    }

    /** RestorePageTableBelow4G, for a fault on page n: the old entry is saved, if there is
        room, and replaced by one that lets the access through. */
    method RestorePageTableBelow4G(n: nat, fetch: bool)
      requires Valid() && Open(mem, root) && Logged() && n < PAGES && Faults(Walk(mem, root, n), fetch)
      modifies this`mem, this`entryCount, this`faults, entryPointer, entryValue
      ensures Valid() && Open(mem, root) && Logged()
      ensures faults == old(faults) + [old(Saved(PlaceOf(mem, root, n), Leaf(mem, root, n)))]
      ensures Repaired(Walk(mem, root, n), n, old(Pde(mem, root, n / 512)))
      ensures OthersSame(old(mem), mem, root, n) && SamePlaces(old(mem), mem, root)
    {
      ghost var m0 := mem;
      OpenMaps(mem, root, uses, n);
      var table := At(mem, root, n / 0x4_0000).frame;
      var index := n / 512 % 512;
      var large := At(mem, table, index).bit7;
      if !large {
        table := At(mem, table, index).frame;
        index := n % 512;
      }
      assert n / 512 / 512 == n / 0x4_0000 && Place(table, index) == PlaceOf(mem, root, n);
      Save(Place(table, index));
      var entry := if large then Large(n / 512) else Small(n);
      FaultIsFixed(m0, root, uses, n, fetch);
      FixExtends(m0, old(faults), original, Place(table, index), entry);
      mem := Put(mem, table, index, entry);
      OthersKept(m0, root, uses, n, entry);
    }

    /** DebugExceptionHandler: the saved entries are written back.  The tables are the original
        ones again exactly when there were at most ten faults, and then the next fault finds
        everything as the first one did. */
    method DebugExceptionHandler()
      requires Logged()
      modifies this`mem, this`entryCount, this`faults
      ensures if profileStart
              then entryCount == 0 && faults == [] && (mem == original <==> |old(faults)| <= MAX_PF_ENTRY_COUNT)
              else mem == old(mem) && entryCount == old(entryCount) && faults == old(faults)
      ensures profileStart && |old(faults)| <= MAX_PF_ENTRY_COUNT ==> Valid() && Open(mem, root) && Logged()
    {
      if !profileStart { return; }
      ghost var log := faults[..entryCount];
      RestoreTen(mem, faults, original);
      ghost var m0 := mem;
      var i := 0;
      assert log[0..] == log;
      while i < entryCount
        invariant i <= entryCount == |log| && entryCount == old(entryCount)
        invariant Restore(mem, log[i..]) == Restore(m0, log)
      {
        assert log[i] == Saved(entryPointer[i], entryValue[i]) && log[i..][1..] == log[i + 1..];
        mem := Put(mem, entryPointer[i].page, entryPointer[i].index, entryValue[i]);
        i := i + 1;
      }
      entryCount := 0;
      faults := [];
    }

    // ----- SetCacheability -----

    /** One entry of the table a 2 MB entry is split into. */
    static method MakePiece(entry: Entry, i: nat) returns (piece: Entry)
      ensures piece == Piece(entry, i)
    {
      piece := entry;
      if entry.frame % 2 == 1 {
        piece := piece.(frame := piece.frame - 1, nx := false, high := 0);
        piece := piece.(bit7 := true);
      } else {
        piece := piece.(bit7 := false, nx := false, high := 0);
      }
      piece := piece.(frame := piece.frame + i);
    }

    static method Pieces(entry: Entry) returns (table: seq<Entry>)
      ensures |table| == 512 && forall i :: 0 <= i < 512 ==> table[i] == Piece(entry, i)
    {
      table := [];
      while |table| < 512
        invariant |table| <= 512 && forall i :: 0 <= i < |table| ==> table[i] == Piece(entry, i)
      {
        var piece := MakePiece(entry, |table|);
        table := table + [piece];
      }
    }

    /** A 2 MB entry gets a table of 4 KB entries with its attributes. */
    method SplitLarge(k: nat) returns (ok: bool)
      requires Valid() && k < LARGE_PAGES && Pde(mem, root, k).bit7
      modifies this`mem, this`pool, this`uses
      ensures ok ==> Valid() && !Pde(mem, root, k).bit7 && AllPieces(old(mem), mem, root, k)
      ensures ok && Open(old(mem), root) ==> Open(mem, root)
      ensures |pool| + 1 >= |old(pool)|
      ensures !ok ==> old(pool) == [] && mem == old(mem)
    {
      ghost var m0 := mem;
      assert PdeOk(mem, root, uses, k) && PointsTo(At(mem, root, k / 512), mem, uses, DirectoryOf(k / 512));
      var entry := Pde(mem, root, k);
      var f := AllocatePage();
      if f == 0 { return false; }
      var table := Pieces(entry);
      mem := Split(mem, root, k, f, table, false);
      SplitFormed(m0, root, uses, k, f, table, false);
      SplitPde(m0, root, uses, k, f, table, false, k);
      SplitPieces(m0, root, uses, k, f, table);
      uses := uses[f := TableOf(k)];
      ok := true;
    }

    /** SetCacheability, on a present page.  A 2 MB page is split first; ok is false when no
        page is left for its table. */
    method SetCacheability(n: nat, c: Cacheability) returns (ok: bool)
      requires Valid() && n < PAGES && Walk(mem, root, n).present
      modifies this`mem, this`pool, this`uses
      ensures ok ==> Valid() && CacheSet(old(mem), mem, root, n, c)
      ensures |pool| + 1 >= |old(pool)|
      ensures ok && old(Open(mem, root)) ==> Open(mem, root)
      ensures !ok ==> old(pool) == [] && mem == old(mem)
    {
      ghost var m0 := mem;
      var k := n / 512;
      if Pde(mem, root, k).bit7 {
        ok := SplitLarge(k);
        if !ok { return; }
        assert PieceAt(m0, mem, root, k, n);
      }
      var small := Leaf(mem, root, n);
      small := small.(bit7 := false, cd := false, wt := false, nx := false, high := 0);
      small := small.(bit7 := c.pat, cd := c.cd, wt := c.wt);
      CacheDone(m0, mem, root, uses, n, c);
      mem := Put(mem, Pde(mem, root, k).frame, n % 512, small);
      ok := true;
    }

    /** One more request. */
    method ApplyRequest(ghost m0: Memory, requests: seq<Request>, j: nat) returns (ok: bool)
      requires j < |requests| && Valid() && Processed(m0, mem, root, requests[..j]) && AllPresent(m0, root, requests)
      modifies this`mem, this`pool, this`uses
      ensures ok ==> Valid() && Processed(m0, mem, root, requests[..j + 1])
      ensures |pool| + 1 >= |old(pool)| && (!ok ==> old(pool) == [])
    {
      ghost var m := mem;
      var r := requests[j];
      assert Walk(mem, root, r.n).present;
      ok := SetCacheability(r.n, r.c);
      if ok {
        RequestDone(m0, m, mem, root, requests[..j], r);
        assert requests[..j] + [r] == requests[..j + 1];
      }
    }

    /** SetCacheability called for a list of present pages. */
    method SetCacheabilities(requests: seq<Request>) returns (ok: bool)
      requires Valid() && AllPresent(mem, root, requests)
      modifies this`mem, this`pool, this`uses
      ensures ok ==> Valid() && RequestsDone(old(mem), mem, root, requests)
      ensures |old(pool)| >= |requests| ==> ok
    {
      ghost var m0 := mem;
      var j := 0;
      while j < |requests|
        invariant j <= |requests| && Valid() && |pool| + j >= |old(pool)|
        invariant Processed(m0, mem, root, requests[..j])
      {
        ok := ApplyRequest(m0, requests, j);
        if !ok { return; }
        j := j + 1;
      }
      assert requests[..j] == requests;
      ok := true;
    }

    // ----- InitPaging -----

    /** One turn of the first pass: a 2 MB entry that is to be split gets a table of 4 KB
        entries for the same addresses. */
    method SplitOne(level2: nat, k: nat, ghost m0: Memory) returns (ok: bool)
      requires Valid() && level2 < 4 && 512 * level2 <= k < 512 * (level2 + 1) && At(m0, root, level2).frame != 0
      requires SplitBelow(m0, mem, root, splits, k)
      modifies this`mem, this`pool, this`uses
      ensures ok ==> Valid() && SplitBelow(m0, mem, root, splits, k + 1)
      ensures if ok then |pool| + 1 >= |old(pool)| else old(pool) == []
    {
      ok := true;
      ghost var m1 := mem;
      assert k / 512 == level2 && At(m1, root, level2) == At(m0, root, level2);
      assert SplitAt(m0, m1, root, splits, k, k);
      var entry := Pde(mem, root, k);
      if entry.bit7 {
        var split := IsAddressSplit(splits, LargeAddress(k));
        if split {
          var f := AllocatePage();
          if f == 0 { return false; }
          var table: seq<Entry> := [];
          while |table| < 512
            invariant |table| <= 512 && forall i :: 0 <= i < |table| ==> table[i] == Small(512 * k + i)
          {
            table := table + [Small(512 * k + |table|)];
          }
          mem := Split(mem, root, k, f, table, true);
          SplitFormed(m1, root, uses, k, f, table, true);
          SplitRebuilds(m0, m1, root, uses, splits, k, f, table);
          uses := uses[f := TableOf(k)];
          return true;
        }
      }
      assert SplitBelow(m0, mem, root, splits, k + 1) by { KeepSame(m0, mem, root, splits, k); }
    }

    /** One directory in the first pass. */
    method SplitDirectory(level2: nat, ghost m0: Memory) returns (ok: bool)
      requires Valid() && level2 < 4 && At(m0, root, level2).frame != 0
      requires SplitBelow(m0, mem, root, splits, 512 * level2)
      modifies this`mem, this`pool, this`uses
      ensures ok ==> Valid() && SplitBelow(m0, mem, root, splits, 512 * (level2 + 1))
      ensures if ok then |pool| + 512 >= |old(pool)| else |old(pool)| < 512
    {
      var k: nat := 512 * level2;
      while k < 512 * (level2 + 1)
        invariant 512 * level2 <= k <= 512 * (level2 + 1) && Valid() && SplitBelow(m0, mem, root, splits, k)
        invariant |pool| + k - 512 * level2 >= |old(pool)|
      {
        ok := SplitOne(level2, k, m0);
        if !ok { return; }
        k := k + 1;
      }
      ok := true;
    }

    /** The first pass over the directories. */
    method SplitPages() returns (ok: bool)
      requires Valid()
      modifies this`mem, this`pool, this`uses
      ensures ok ==> Valid() && SplitBelow(old(mem), mem, root, splits, LARGE_PAGES)
      ensures |old(pool)| >= LARGE_PAGES ==> ok
    {
      ghost var m0 := mem;
      var level2 := 0;
      while level2 < 4
        invariant level2 <= 4 && Valid() && SplitBelow(m0, mem, root, splits, 512 * level2)
        invariant |pool| + 512 * level2 >= |old(pool)|
      {
        assert PointsTo(At(mem, root, level2), mem, uses, DirectoryOf(level2));
        assert At(mem, root, level2) == At(m0, root, level2);
        if At(mem, root, level2).frame == 0 {
          NoDirectory(m0, mem, root, splits, level2);
        } else {
          ok := SplitDirectory(level2, m0);
          if !ok { return; }
        }
        level2 := level2 + 1;
      }
      ok := true;
    }

    /** A 2 MB entry of the second pass. */
    method PatchLarge(k: nat, ghost m0: Memory)
      requires Valid() && Protected() && k < LARGE_PAGES && Pde(mem, root, k).bit7
      requires !InSplit(splits, LargeAddress(k))
      requires PatchedBelow(m0, mem, root, protections, xdSupported, 512 * k)
      modifies this`mem
      ensures Valid() && PatchedBelow(m0, mem, root, protections, xdSupported, 512 * (k + 1))
    {
      var valid, nx := IsAddressValid(protections, LargeAddress(k));
      var entry := Pde(mem, root, k);
      if !valid { entry := entry.(p := false, rw := false); }
      if nx && xdSupported { entry := entry.(nx := true); }
      assert entry == PatchEntry(Pde(mem, root, k), Access(valid, nx), xdSupported);
      LargeIsMapped(mem, root, uses, k);
      PutLeafFormed(mem, root, uses, 512 * k, entry);
      LargePatched(m0, mem, root, uses, protections, xdSupported, k, entry);
      assert !CutBySome(protections, k);
      var dir := At(mem, root, k / 512).frame;
      mem := Put(mem, dir, k % 512, entry);
    }

    /** A 4 KB entry of the second pass. */
    method PatchSmall(table: nat, n: nat, ghost m0: Memory)
      requires Valid() && n < PAGES && !Pde(mem, root, n / 512).bit7 && table == Pde(mem, root, n / 512).frame != 0
      requires PatchedBelow(m0, mem, root, protections, xdSupported, n)
      modifies this`mem
      ensures Valid() && PatchedBelow(m0, mem, root, protections, xdSupported, n + 1)
      ensures Pde(mem, root, n / 512) == old(Pde(mem, root, n / 512))
    {
      var valid, nx := IsAddressValid(protections, Address(n));
      var entry := At(mem, table, n % 512);
      if !valid { entry := entry.(p := false, rw := false); }
      if nx && xdSupported { entry := entry.(nx := true); }
      assert entry == PatchEntry(Leaf(mem, root, n), Access(valid, nx), xdSupported);
      assert PdeOk(mem, root, uses, n / 512);
      PutLeafFormed(mem, root, uses, n, entry);
      PutLeafPde(mem, root, uses, n, entry, n / 512);
      SmallPatched(m0, mem, root, uses, protections, xdSupported, n, entry);
      mem := Put(mem, table, n % 512, entry);
    }

    /** The 4 KB entries of a table. */
    method PatchTable(k: nat, ghost m0: Memory)
      requires Valid() && k < LARGE_PAGES && !Pde(mem, root, k).bit7 && Pde(mem, root, k).frame != 0
      requires PatchedBelow(m0, mem, root, protections, xdSupported, 512 * k)
      modifies this`mem
      ensures Valid() && PatchedBelow(m0, mem, root, protections, xdSupported, 512 * (k + 1))
    {
      var table := Pde(mem, root, k).frame;
      var level4 := 0;
      while level4 < 512
        invariant level4 <= 512 && Valid() && Pde(mem, root, k) == old(Pde(mem, root, k))
        invariant PatchedBelow(m0, mem, root, protections, xdSupported, 512 * k + level4)
      {
        var n := 512 * k + level4;
        assert n / 512 == k && n % 512 == level4;
        PatchSmall(table, n, m0);
        level4 := level4 + 1;
      }
    }

    /** One directory in the second pass. */
    method PatchDirectory(level2: nat, ghost m0: Memory)
      requires Valid() && Protected() && level2 < 4
      requires forall k: nat :: k < LARGE_PAGES ==> Pde(m0, root, k).bit7 ==> !InSplit(splits, LargeAddress(k))
      requires PatchedBelow(m0, mem, root, protections, xdSupported, 0x4_0000 * level2)
      modifies this`mem
      ensures Valid() && PatchedBelow(m0, mem, root, protections, xdSupported, 0x4_0000 * (level2 + 1))
    {
      var level3 := 0;
      while level3 < 512
        invariant level3 <= 512 && Valid()
        invariant PatchedBelow(m0, mem, root, protections, xdSupported, 512 * (512 * level2 + level3))
      {
        var k := 512 * level2 + level3;
        assert SameKind(m0, mem, root, k);
        if Pde(mem, root, k).bit7 {
          PatchLarge(k, m0);
        } else if Pde(mem, root, k).frame != 0 {
          PatchTable(k, m0);
        } else {
          SkipTable(m0, mem, root, uses, protections, xdSupported, k);
        }
        level3 := level3 + 1;
      }
    }

    /** The second pass over the directories. */
    method PatchPages()
      requires Valid() && Protected()
      requires forall k: nat :: k < LARGE_PAGES ==> Pde(mem, root, k).bit7 ==> !InSplit(splits, LargeAddress(k))
      modifies this`mem
      ensures Valid() && PatchedBelow(old(mem), mem, root, protections, xdSupported, PAGES)
    {
      ghost var m0 := mem;
      var level2 := 0;
      while level2 < 4
        invariant level2 <= 4 && Valid() && PatchedBelow(m0, mem, root, protections, xdSupported, 0x4_0000 * level2)
      {
        assert PointsTo(At(mem, root, level2), mem, uses, DirectoryOf(level2));
        if At(mem, root, level2).frame == 0 {
          SkipDirectory(m0, mem, root, uses, protections, xdSupported, level2);
        } else {
          PatchDirectory(level2, m0);
        }
        level2 := level2 + 1;
      }
    }

    /** InitPaging: every page that has an entry is patched by what the protected ranges say
        about it; nothing else changes, provided the 2 MB entries that are split were plain. */
    method InitPaging() returns (ok: bool)
      requires Valid() && Protected()
      modifies this`mem, this`pool, this`uses
      ensures ok ==> Valid() && Initialized(old(mem), mem, root, splits, protections, xdSupported)
      ensures ok && old(SplitsPlain(mem, root, splits)) ==> Patched(old(mem), mem, root, protections, xdSupported)
      ensures ok && old(Open(mem, root)) ==> Open(mem, root)
      ensures |old(pool)| >= LARGE_PAGES ==> ok
    {
      ghost var m0 := mem;
      ok := SplitPages();
      if ok {
        ghost var m1 := mem;
        NoSplitLeft(m0, m1, root, splits);
        PatchPages();
        InitializedIs(m0, m1, mem, root, splits, protections, xdSupported);
        if Open(m0, root) { StaysOpen(m0, m1, mem, root, splits, protections, xdSupported); }
      }
    }
  }

  lemma KeepSame(m0: Memory, m: Memory, root: nat, splits: seq<Range>, k: nat)
    requires k < LARGE_PAGES && SplitBelow(m0, m, root, splits, k)
    requires Pde(m, root, k).bit7 ==> !InSplit(splits, LargeAddress(k))
    ensures SplitBelow(m0, m, root, splits, k + 1)
  {
    var k' := k + 1;
    assert SplitAt(m0, m, root, splits, k, k);
    forall n: nat | n < PAGES
      ensures RebuiltAt(m0, m, root, splits, k', n)
    {
      assert RebuiltAt(m0, m, root, splits, k, n);
    }
    forall j: nat | j < LARGE_PAGES
      ensures SplitAt(m0, m, root, splits, k', j)
    {
      assert SplitAt(m0, m, root, splits, k, j);
    }
  }

  /** Splitting the k-th 2 MB page takes the first pass one step further. */
  lemma SplitRebuilds(m0: Memory, m: Memory, root: nat, uses: Uses, splits: seq<Range>, k: nat, f: nat,
                      table: seq<Entry>)
    requires Formed(m, root, uses) && CanSplit(m, root, k, f, table) && SplitBelow(m0, m, root, splits, k)
    requires ToSplit(m, root, splits, k) && forall i :: 0 <= i < 512 ==> table[i] == Small(512 * k + i)
    ensures SplitBelow(m0, Split(m, root, k, f, table, true), root, splits, k + 1)
  {
    var m', k' := Split(m, root, k, f, table, true), k + 1;
    assert SplitAt(m0, m, root, splits, k, k);
    forall n: nat | n < PAGES ensures RebuiltAt(m0, m', root, splits, k', n) {
      assert RebuiltAt(m0, m, root, splits, k, n);
      SplitPage(m, root, uses, k, f, table, n);
    }
    SplitPde(m, root, uses, k, f, table, true, 0);
    forall j: nat | j < LARGE_PAGES ensures SplitAt(m0, m', root, splits, k', j) {
      assert SplitAt(m0, m, root, splits, k, j);
      SplitPde(m, root, uses, k, f, table, true, j);
    }
  }

  /** What a split into fixed entries makes of page n. */
  lemma SplitPage(m: Memory, root: nat, uses: Uses, k: nat, f: nat, table: seq<Entry>, n: nat)
    requires Formed(m, root, uses) && CanSplit(m, root, k, f, table) && n < PAGES
    requires Pde(m, root, k).bit7 && forall i :: 0 <= i < 512 ==> table[i] == Small(512 * k + i)
    ensures var m' := Split(m, root, k, f, table, true);
            && (Mapped(m', root, n) <==> Mapped(m, root, n))
            && Walk(m', root, n) ==
                 if n / 512 == k then View(At(m, root, n / 0x4_0000).p, true, false, false, false, false, 0, n)
                 else Walk(m, root, n)
  {
    SplitWalk(m, root, uses, k, f, table, true, n);
    SplitPde(m, root, uses, k, f, table, true, n / 512);
    assert n / 512 / 512 == n / 0x4_0000;
    assert PointsTo(At(m, root, n / 0x4_0000), m, uses, DirectoryOf(n / 0x4_0000));
    assert PdeOk(m, root, uses, n / 512);
    if n / 512 == k {
      assert 512 * k + n % 512 == n;
      assert table[n % 512] == Small(n);
    }
  }

  lemma SplitPlainAt(m: Memory, root: nat, uses: Uses, k: nat, f: nat, table: seq<Entry>, n: nat)
    requires Formed(m, root, uses) && CanSplit(m, root, k, f, table) && n < PAGES
    requires Pde(m, root, k).bit7 && Plain(Pde(m, root, k), k)
    requires forall i :: 0 <= i < 512 ==> table[i] == Small(512 * k + i)
    ensures SameAt(m, Split(m, root, k, f, table, true), root, n)
  {
    SplitPage(m, root, uses, k, f, table, n);
    if n / 512 == k {
      LargeLeaf(m, root, n);
      assert 512 * k + n % 512 == n;
    }
  }

  /** The pass writes fixed 4 KB entries, whatever the 2 MB entry said: the mapping survives a
      split exactly if the 2 MB entry was plain. */
  lemma SplitForgets(m: Memory, root: nat, uses: Uses, k: nat, f: nat, table: seq<Entry>)
    requires Formed(m, root, uses) && CanSplit(m, root, k, f, table) && At(m, root, k / 512).p
    requires Pde(m, root, k).bit7 && Pde(m, root, k).frame == 512 * k && Pde(m, root, k).high == 0
    requires forall i :: 0 <= i < 512 ==> table[i] == Small(512 * k + i)
    ensures SameMapping(m, Split(m, root, k, f, table, true), root) <==> Plain(Pde(m, root, k), k)
  {
    var m' := Split(m, root, k, f, table, true);
    if Plain(Pde(m, root, k), k) {
      forall n: nat | n < PAGES ensures SameAt(m, m', root, n) { SplitPlainAt(m, root, uses, k, f, table, n); }
    } else {
      var n := 512 * k;
      assert n / 512 == k && n / 0x4_0000 == k / 512 && n % 512 == 0;
      SplitWalk(m, root, uses, k, f, table, true, n);
      LargeLeaf(m, root, n);
      assert table[0] == Small(n);
      assert !SameAt(m, m', root, n);
    }
  }

  /** An uncached 2 MB page is such an entry: with any well-formed tables that have a plain 2 MB
      page, making it uncached and splitting it loses the cacheability. */
  lemma SplitForgetsUncached(m: Memory, root: nat, uses: Uses, k: nat, f: nat, table: seq<Entry>) returns (m1: Memory)
    requires Formed(m, root, uses) && CanSplit(m, root, k, f, table) && At(m, root, k / 512).p
    requires Pde(m, root, k).bit7 && Plain(Pde(m, root, k), k)
    requires forall i :: 0 <= i < 512 ==> table[i] == Small(512 * k + i)
    ensures Formed(m1, root, uses) && Pde(m1, root, k) == Pde(m, root, k).(cd := true)
    ensures CanSplit(m1, root, k, f, table)
    ensures !SameMapping(m1, Split(m1, root, k, f, table, true), root)
  {
    LargeIsMapped(m, root, uses, k);
    m1 := PutLeaf(m, root, 512 * k, Pde(m, root, k).(cd := true));
    assert 512 * k / 512 == k;
    PutLeafFormed(m, root, uses, 512 * k, Pde(m, root, k).(cd := true));
    PutLeafPde(m, root, uses, 512 * k, Pde(m, root, k).(cd := true), k);
    SplitForgets(m1, root, uses, k, f, table);
  }

  /** A page that was split has an entry. */
  lemma SplitIsMapped(m0: Memory, m1: Memory, root: nat, splits: seq<Range>, n: nat)
    requires SplitBelow(m0, m1, root, splits, LARGE_PAGES) && n < PAGES && ToSplit(m0, root, splits, n / 512)
    ensures Mapped(m0, root, n)
  {
    assert n / 512 / 512 == n / 0x4_0000;
  }

  lemma NoDirectory(m0: Memory, m: Memory, root: nat, splits: seq<Range>, d: nat)
    requires d < 4 && 0 !in m && At(m, root, d).frame == 0 && SplitBelow(m0, m, root, splits, 512 * d)
    ensures SplitBelow(m0, m, root, splits, 512 * (d + 1))
  {
    var k' := 512 * (d + 1);
    forall n: nat | n < PAGES ensures RebuiltAt(m0, m, root, splits, k', n) {
      assert RebuiltAt(m0, m, root, splits, 512 * d, n) && SplitAt(m0, m, root, splits, 512 * d, n / 512);
    }
    forall j: nat | j < LARGE_PAGES
      ensures SplitAt(m0, m, root, splits, k', j)
    {
      assert SplitAt(m0, m, root, splits, 512 * d, j);
    }
  }

  lemma NoSplitLeft(m0: Memory, m: Memory, root: nat, splits: seq<Range>)
    requires SplitBelow(m0, m, root, splits, LARGE_PAGES)
    ensures forall k: nat :: k < LARGE_PAGES ==> Pde(m, root, k).bit7 ==> !InSplit(splits, LargeAddress(k))
  {
    forall k: nat | k < LARGE_PAGES ensures Pde(m, root, k).bit7 ==> !InSplit(splits, LargeAddress(k)) {
      assert SplitAt(m0, m, root, splits, LARGE_PAGES, k);
    }
  }

  lemma LargeIsMapped(m: Memory, root: nat, uses: Uses, k: nat)
    requires Formed(m, root, uses) && k < LARGE_PAGES && Pde(m, root, k).bit7
    ensures Mapped(m, root, 512 * k) && PlaceOf(m, root, 512 * k) == Place(At(m, root, k / 512).frame, k % 512)
    ensures Leaf(m, root, 512 * k) == Pde(m, root, k) && PdeOk(m, root, uses, k)
  {
    assert 512 * k / 512 == k && 512 * k / 0x4_0000 == k / 512;
    assert PdeOk(m, root, uses, k);
    assert PointsTo(At(m, root, k / 512), m, uses, DirectoryOf(k / 512));
  }

  /** Patching the entry of page n patches exactly the pages that share it. */
  lemma LeafPatched(m: Memory, root: nat, uses: Uses, n: nat, entry: Entry, access: Access, xd: bool, i: nat)
    requires Formed(m, root, uses) && n < PAGES && i < PAGES && Mapped(m, root, n)
    requires entry == PatchEntry(Leaf(m, root, n), access, xd)
    ensures var m' := PutLeaf(m, root, n, entry);
            && (Mapped(m', root, i) <==> Mapped(m, root, i))
            && Pde(m', root, i / 512).bit7 == Pde(m, root, i / 512).bit7
            && Walk(m', root, i) == if PlaceOf(m, root, i) == PlaceOf(m, root, n)
                                    then Patch(Walk(m, root, i), access, xd)
                                    else Walk(m, root, i)
    ensures PlaceOf(m, root, i) == PlaceOf(m, root, n) <==>
              if Pde(m, root, n / 512).bit7 then i / 512 == n / 512 else i == n
  {
    assert PdeOk(m, root, uses, n / 512) && PdeOk(m, root, uses, i / 512);
    assert n / 512 / 512 == n / 0x4_0000 && i / 512 / 512 == i / 0x4_0000;
    assert Pde(m, root, n / 512).bit7 ==> Leaf(m, root, n) == Pde(m, root, n / 512);
    PutLeafWalk(m, root, uses, n, entry, i);
    PutLeafPde(m, root, uses, n, entry, i / 512);
    assert PointsTo(At(m, root, n / 0x4_0000), m, uses, DirectoryOf(n / 0x4_0000));
    assert PointsTo(At(m, root, i / 0x4_0000), m, uses, DirectoryOf(i / 0x4_0000));
  }

  lemma LargePatched(m0: Memory, m: Memory, root: nat, uses: Uses, protections: seq<Protection>, xd: bool, k: nat,
                     entry: Entry)
    requires Formed(m, root, uses) && k < LARGE_PAGES && Pde(m, root, k).bit7
    requires Ordered(protections) && !CutBySome(protections, k)
    requires PatchedBelow(m0, m, root, protections, xd, 512 * k)
    requires entry == PatchEntry(Pde(m, root, k), AccessOf(protections, LargeAddress(k)), xd)
    ensures PatchedBelow(m0, PutLeaf(m, root, 512 * k, entry), root, protections, xd, 512 * (k + 1))
  {
    var n', m' := 512 * (k + 1), PutLeaf(m, root, 512 * k, entry);
    LargeIsMapped(m, root, uses, k);
    assert 512 * k / 512 == k;
    forall i: nat | i < PAGES ensures PatchedAt(m0, m', root, protections, xd, n', i) {
      assert PatchedAt(m0, m, root, protections, xd, 512 * k, i);
      LeafPatched(m, root, uses, 512 * k, entry, AccessOf(protections, LargeAddress(k)), xd, i);
      if i / 512 == k {
        UncutIsUniform(protections, k, Address(i));
      }
    }
    forall j: nat | j < LARGE_PAGES ensures SameKind(m0, m', root, j) {
      assert SameKind(m0, m, root, j);
      PutLeafPde(m, root, uses, 512 * k, entry, j);
    }
  }

  lemma SmallPatched(m0: Memory, m: Memory, root: nat, uses: Uses, protections: seq<Protection>, xd: bool, n: nat,
                     entry: Entry)
    requires Formed(m, root, uses) && n < PAGES && !Pde(m, root, n / 512).bit7 && Mapped(m, root, n)
    requires PatchedBelow(m0, m, root, protections, xd, n)
    requires entry == PatchEntry(Leaf(m, root, n), AccessOf(protections, Address(n)), xd)
    ensures PatchedBelow(m0, PutLeaf(m, root, n, entry), root, protections, xd, n + 1)
  {
    var n', m' := n + 1, PutLeaf(m, root, n, entry);
    forall i: nat | i < PAGES ensures PatchedAt(m0, m', root, protections, xd, n', i) {
      assert PatchedAt(m0, m, root, protections, xd, n, i);
      LeafPatched(m, root, uses, n, entry, AccessOf(protections, Address(n)), xd, i);
    }
    PutLeafPde(m, root, uses, n, entry, 0);
    forall j: nat | j < LARGE_PAGES ensures SameKind(m0, m', root, j) {
      assert SameKind(m0, m, root, j);
      PutLeafPde(m, root, uses, n, entry, j);
    }
  }

  lemma SkipDirectory(m0: Memory, m: Memory, root: nat, uses: Uses, protections: seq<Protection>, xd: bool, d: nat)
    requires Framed(m, root, uses) && d < 4 && At(m, root, d).frame == 0
    requires PatchedBelow(m0, m, root, protections, xd, 0x4_0000 * d)
    ensures PatchedBelow(m0, m, root, protections, xd, 0x4_0000 * (d + 1))
  {
    var n' := 0x4_0000 * (d + 1);
    forall i: nat | i < PAGES ensures PatchedAt(m0, m, root, protections, xd, n', i) {
      assert PatchedAt(m0, m, root, protections, xd, 0x4_0000 * d, i);
      assert i / 0x4_0000 == d ==> !Mapped(m, root, i) by { assert i / 512 / 512 == i / 0x4_0000; }
    }
  }

  lemma SkipTable(m0: Memory, m: Memory, root: nat, uses: Uses, protections: seq<Protection>, xd: bool, k: nat)
    requires Framed(m, root, uses) && k < LARGE_PAGES && !Pde(m, root, k).bit7 && Pde(m, root, k).frame == 0
    requires PatchedBelow(m0, m, root, protections, xd, 512 * k)
    ensures PatchedBelow(m0, m, root, protections, xd, 512 * (k + 1))
  {
    var n' := 512 * (k + 1);
    forall i: nat | i < PAGES ensures PatchedAt(m0, m, root, protections, xd, n', i) {
      assert PatchedAt(m0, m, root, protections, xd, 512 * k, i);
      assert i / 512 == k ==> !Mapped(m, root, i);
    }
  }

  // ----- Page faults -----

  lemma OpenMaps(m: Memory, root: nat, uses: Uses, n: nat)
    requires Formed(m, root, uses) && Open(m, root) && n < PAGES
    ensures Mapped(m, root, n) && Holds(m, PlaceOf(m, root, n)) && PdeOk(m, root, uses, n / 512)
  {
    assert n / 512 / 512 == n / 0x4_0000;
    assert PointsTo(At(m, root, n / 0x4_0000), m, uses, DirectoryOf(n / 0x4_0000));
    assert PdeOk(m, root, uses, n / 512) && Reaches(Pde(m, root, n / 512));
  }

  /** On open tables a fault is due to the entry of the page, and the new entry mends it. */
  lemma FaultIsFixed(m: Memory, root: nat, uses: Uses, n: nat, fetch: bool)
    requires Formed(m, root, uses) && Open(m, root) && n < PAGES && Faults(Walk(m, root, n), fetch)
    ensures !Leaf(m, root, n).p || Leaf(m, root, n).nx
    ensures var m' := PutLeaf(m, root, n, Fixed(Pde(m, root, n / 512).bit7, n));
            Formed(m', root, uses) && Open(m', root) && Repaired(Walk(m', root, n), n, Pde(m, root, n / 512))
  {
    var large := Pde(m, root, n / 512).bit7;
    var e := Fixed(large, n);
    var m' := PutLeaf(m, root, n, e);
    OpenMaps(m, root, uses, n);
    assert n / 512 / 512 == n / 0x4_0000;
    assert Reaches(Pde(m, root, n / 512)) && At(m, root, n / 0x4_0000).p;
    assert large ==> Leaf(m, root, n) == Pde(m, root, n / 512);
    PutLeafFormed(m, root, uses, n, e);
    PutLeafWalk(m, root, uses, n, e, n);
    PutLeafPde(m, root, uses, n, e, 0);
    forall k: nat | k < LARGE_PAGES ensures Reaches(Pde(m', root, k)) {
      assert Reaches(Pde(m, root, k));
      PutLeafPde(m, root, uses, n, e, k);
    }
  }

  /** Absent pages, each with an entry of its own. */
  predicate AbsentApart(m: Memory, root: nat, pages: seq<nat>) {
    && (forall i :: 0 <= i < |pages| ==> pages[i] < PAGES && !Walk(m, root, pages[i]).present)
    && (forall i, j :: 0 <= i < j < |pages| ==> PlaceOf(m, root, pages[i]) != PlaceOf(m, root, pages[j]))
  }

  /** An instruction that touches these pages one after the other, and the single step after it:
      the tables are as before iff there were at most ten pages. */
  method TouchAndStep(t: PageTables, pages: seq<nat>)
    requires t.Valid() && Open(t.mem, t.root) && t.Logged() && t.faults == [] && t.profileStart
    requires AbsentApart(t.mem, t.root, pages)
    modifies t`mem, t`entryCount, t`faults, t.entryPointer, t.entryValue
    ensures t.mem == old(t.mem) <==> |pages| <= MAX_PF_ENTRY_COUNT
    ensures t.entryCount == 0 && t.faults == []
  {
    var j := 0;
    while j < |pages|
      invariant j <= |pages| == j + |pages[j..]| && |t.faults| == j
      invariant t.Valid() && Open(t.mem, t.root) && t.Logged() && AbsentApart(t.mem, t.root, pages[j..])
    {
      TouchNext(t, pages[j..]);
      assert pages[j..][1..] == pages[j + 1..];
      j := j + 1;
    }
    t.DebugExceptionHandler();
  }

  /** The instruction touches the first of the pages. */
  method TouchNext(t: PageTables, pages: seq<nat>)
    requires t.Valid() && Open(t.mem, t.root) && t.Logged() && pages != [] && AbsentApart(t.mem, t.root, pages)
    modifies t`mem, t`entryCount, t`faults, t.entryPointer, t.entryValue
    ensures t.Valid() && Open(t.mem, t.root) && t.Logged() && |t.faults| == old(|t.faults|) + 1
    ensures AbsentApart(t.mem, t.root, pages[1..])
  {
    ghost var m := t.mem;
    t.RestorePageTableBelow4G(pages[0], false);
    OneLess(m, t.mem, t.root, pages);
  }

  lemma OneLess(m0: Memory, m: Memory, root: nat, pages: seq<nat>)
    requires pages != [] && AbsentApart(m0, root, pages)
    requires OthersSame(m0, m, root, pages[0]) && SamePlaces(m0, m, root)
    ensures AbsentApart(m, root, pages[1..])
  {
    var rest := pages[1..];
    forall i | 0 <= i < |rest| ensures rest[i] < PAGES && !Walk(m, root, rest[i]).present {
      assert rest[i] == pages[i + 1] && PlaceOf(m0, root, pages[0]) != PlaceOf(m0, root, pages[i + 1]);
    }
    forall i, j | 0 <= i < j < |rest| ensures PlaceOf(m, root, rest[i]) != PlaceOf(m, root, rest[j]) {
      assert rest[i] == pages[i + 1] && rest[j] == pages[j + 1];
    }
  }

  /** Pages of different 2 MB pages have different entries. */
  lemma LargeApart(m: Memory, root: nat, uses: Uses, a: nat, b: nat)
    requires Formed(m, root, uses) && Open(m, root) && a < PAGES && b < PAGES && a / 512 != b / 512
    ensures PlaceOf(m, root, a) != PlaceOf(m, root, b)
  {
    OpenMaps(m, root, uses, a);
    PutLeafWalk(m, root, uses, a, Leaf(m, root, a).(bit7 := true, frame := 0), b);
  }

  // ----- SetCacheability -----

  lemma PresentMaps(m: Memory, root: nat, uses: Uses, n: nat)
    requires Formed(m, root, uses) && n < PAGES && Walk(m, root, n).present
    ensures Mapped(m, root, n)
  {
    assert n / 512 / 512 == n / 0x4_0000;
    assert PdeOk(m, root, uses, n / 512);
    assert PointsTo(At(m, root, n / 0x4_0000), m, uses, DirectoryOf(n / 0x4_0000));
  }

  lemma SplitPieces(m: Memory, root: nat, uses: Uses, k: nat, f: nat, table: seq<Entry>)
    requires Formed(m, root, uses) && CanSplit(m, root, k, f, table) && Pde(m, root, k).bit7
    requires forall i :: 0 <= i < 512 ==> table[i] == Piece(Pde(m, root, k), i)
    ensures var m' := Split(m, root, k, f, table, false);
            AllPieces(m, m', root, k) && (Open(m, root) ==> Open(m', root))
  {
    var m' := Split(m, root, k, f, table, false);
    forall j: nat | j < LARGE_PAGES
      ensures SplitOnly(m, m', root, k, j)
    {
      SplitPde(m, root, uses, k, f, table, false, j);
    }
    assert PdeOk(m, root, uses, k);
    forall i: nat | i < PAGES ensures PieceAt(m, m', root, k, i) {
      SplitWalk(m, root, uses, k, f, table, false, i);
      if i / 512 == k {
        PieceView(At(m, root, i / 0x4_0000), Pde(m, root, k), f, i, table[i % 512]);
        LargeLeaf(m, root, i);
      }
    }
    forall j: nat | j < LARGE_PAGES && Open(m, root) ensures Reaches(Pde(m', root, j)) {
      assert Reaches(Pde(m, root, j));
      SplitPde(m, root, uses, k, f, table, false, j);
    }
    SplitPde(m, root, uses, k, f, table, false, k);
  }

  lemma LargeLeaf(m: Memory, root: nat, i: nat)
    requires Pde(m, root, i / 512).bit7
    ensures Leaf(m, root, i) == Pde(m, root, i / 512)
  {
    assert i / 512 / 512 == i / 0x4_0000;
  }

  lemma LargeFrame(frame: nat)
    requires frame % 512 <= 1
    ensures frame / 2 * 2 == frame / 512 * 512
  {
    var q := frame / 512;
    assert frame == 512 * q + frame % 512;
    assert frame / 2 == 256 * q;
  }

  lemma PieceView(top: Entry, e: Entry, f: nat, i: nat, piece: Entry)
    requires e.bit7 && e.frame % 512 <= 1 && piece == Piece(e, i % 512)
    ensures ViewOf(top, Directory(f, false), piece, i) ==
              ViewOf(top, e, e, i).(writable := false, nx := false, high := 0)
  {
    LargeFrame(e.frame);
  }

  /** Page n gets its cacheability once its 2 MB page is split. */
  lemma CacheDone(m0: Memory, m: Memory, root: nat, uses: Uses, n: nat, c: Cacheability)
    requires Formed(m, root, uses) && n < PAGES && !Pde(m, root, n / 512).bit7 && Walk(m, root, n).present
    requires if Pde(m0, root, n / 512).bit7 then AllPieces(m0, m, root, n / 512) else m == m0
    ensures var m' := PutLeaf(m, root, n, Cached(Leaf(m, root, n), c));
            Formed(m', root, uses) && CacheSet(m0, m', root, n, c) && (Open(m, root) ==> Open(m', root))
  {
    var e := Cached(Leaf(m, root, n), c);
    var m' := PutLeaf(m, root, n, e);
    PresentMaps(m, root, uses, n);
    PutLeafFormed(m, root, uses, n, e);
    forall i: nat | i < PAGES
      ensures Walk(m', root, i) == Recached(Walk(m0, root, i), i, n, c, Pde(m0, root, n / 512).bit7)
    {
      assert Pde(m0, root, n / 512).bit7 ==> PieceAt(m0, m, root, n / 512, i);
      RecachedPage(m, root, uses, n, e, i);
    }
    PutLeafPde(m, root, uses, n, e, 0);
    forall k: nat | k < LARGE_PAGES
      ensures SplitOnly(m0, m', root, n / 512, k) && (Open(m, root) ==> Reaches(Pde(m', root, k)))
    {
      assert Open(m, root) ==> Reaches(Pde(m, root, k));
      assert Pde(m0, root, n / 512).bit7 ==> SplitOnly(m0, m, root, n / 512, k);
      PutLeafPde(m, root, uses, n, e, k);
    }
  }

  /** A 4 KB entry with another cacheability; the 32-bit masks clear its upper half. */
  function Cached(e: Entry, c: Cacheability): Entry {
    e.(bit7 := c.pat, cd := c.cd, wt := c.wt, nx := false, high := 0)
  }

  lemma RecachedPage(m: Memory, root: nat, uses: Uses, n: nat, e: Entry, i: nat)
    requires Formed(m, root, uses) && n < PAGES && i < PAGES && !Pde(m, root, n / 512).bit7 && Mapped(m, root, n)
    requires e == Leaf(m, root, n).(bit7 := e.bit7, cd := e.cd, wt := e.wt, nx := false, high := 0)
    ensures Walk(PutLeaf(m, root, n, e), root, i) ==
              if i == n then Walk(m, root, n).(pat := e.bit7, cd := e.cd, wt := e.wt, nx := false, high := 0)
              else Walk(m, root, i)
  {
    PutLeafWalk(m, root, uses, n, e, i);
    assert PdeOk(m, root, uses, n / 512) && PdeOk(m, root, uses, i / 512);
    assert n / 512 / 512 == n / 0x4_0000 && i / 512 / 512 == i / 0x4_0000;
    assert PointsTo(At(m, root, n / 0x4_0000), m, uses, DirectoryOf(n / 0x4_0000));
    assert PointsTo(At(m, root, i / 0x4_0000), m, uses, DirectoryOf(i / 0x4_0000));
  }

  // ----- Runs of SetCacheability -----

  datatype Request = Request(n: nat, c: Cacheability)

  /** Some request is for page i; some request is for a page of the k-th 2 MB page. */
  predicate Asked(requests: seq<Request>, i: nat) {
    exists j :: 0 <= j < |requests| && requests[j].n == i
  }

  predicate InLarge(requests: seq<Request>, k: nat) {
    exists j :: 0 <= j < |requests| && requests[j].n / 512 == k
  }

  /** What the last request for page i asked for; what it had before if there was none. */
  function LastAsked(v: View, i: nat, requests: seq<Request>): Cacheability {
    if requests == [] then Cacheability(v.wt, v.cd, v.pat)
    else if requests[|requests| - 1].n == i then requests[|requests| - 1].c
    else LastAsked(v, i, requests[..|requests| - 1])
  }

  /** Page i after the requests; large says whether it was part of a 2 MB page before them.  Its
      presence and its page number stay.  The first request for its 2 MB page splits it, and
      then the page cannot be written any more; NX and the address bits above 4 GB are lost by
      this split and by a request for the page itself. */
  function AfterAll(v: View, i: nat, requests: seq<Request>, large: bool): View {
    var c := LastAsked(v, i, requests);
    var split := large && InLarge(requests, i / 512);
    var rewritten := split || Asked(requests, i);
    View(v.present, v.writable && !split, v.nx && !rewritten, c.wt, c.cd, c.pat,
         if rewritten then 0 else v.high, v.page)
  }

  lemma AfterNext(v: View, i: nat, requests: seq<Request>, r: Request, large: bool, split: bool)
    requires r.n / 512 == i / 512 ==> split == (large && !InLarge(requests, i / 512))
    ensures Recached(AfterAll(v, i, requests, large), i, r.n, r.c, split) == AfterAll(v, i, requests + [r], large)
  {
    InLargeNext(requests, r, i / 512);
    assert Asked(requests + [r], i) <==> Asked(requests, i) || r.n == i by {
      var all := requests + [r];
      if j :| 0 <= j < |requests| && requests[j].n == i { assert all[j] == requests[j]; }
      assert all[|requests|] == r;
    }
    assert (requests + [r])[..|requests|] == requests;
  }

  lemma InLargeNext(requests: seq<Request>, r: Request, k: nat)
    ensures InLarge(requests + [r], k) <==> InLarge(requests, k) || r.n / 512 == k
  {
    var all := requests + [r];
    if j :| 0 <= j < |requests| && requests[j].n / 512 == k { assert all[j] == requests[j]; }
    assert all[|requests|] == r;
  }

  /** The tables after the requests. */
  predicate RequestsDone(m0: Memory, m: Memory, root: nat, requests: seq<Request>) {
    forall i: nat {:trigger Walk(m, root, i)} :: i < PAGES ==>
      Walk(m, root, i) == AfterAll(Walk(m0, root, i), i, requests, Pde(m0, root, i / 512).bit7)
  }

  /** Of the 2 MB entries exactly those no request has touched are left. */
  predicate LargeLeft(m0: Memory, m: Memory, root: nat, requests: seq<Request>) {
    forall k: nat {:trigger Pde(m, root, k)} :: k < LARGE_PAGES ==>
      Pde(m, root, k).bit7 == (Pde(m0, root, k).bit7 && !InLarge(requests, k))
  }

  predicate Processed(m0: Memory, m: Memory, root: nat, requests: seq<Request>) {
    RequestsDone(m0, m, root, requests) && LargeLeft(m0, m, root, requests)
  }

  predicate AllPresent(m: Memory, root: nat, requests: seq<Request>) {
    forall j :: 0 <= j < |requests| ==> requests[j].n < PAGES && Walk(m, root, requests[j].n).present
  }

  lemma RequestDone(m0: Memory, m: Memory, m': Memory, root: nat, requests: seq<Request>, r: Request)
    requires r.n < PAGES && Processed(m0, m, root, requests)
    requires CacheSet(m, m', root, r.n, r.c)
    ensures Processed(m0, m', root, requests + [r])
  {
    forall i: nat {:trigger Walk(m', root, i)} | i < PAGES
      ensures Walk(m', root, i) == AfterAll(Walk(m0, root, i), i, requests + [r], Pde(m0, root, i / 512).bit7)
    {
      assert Walk(m, root, i) == AfterAll(Walk(m0, root, i), i, requests, Pde(m0, root, i / 512).bit7);
      AfterNext(Walk(m0, root, i), i, requests, r, Pde(m0, root, i / 512).bit7, Pde(m, root, r.n / 512).bit7);
    }
    forall k: nat {:trigger Pde(m', root, k)} | k < LARGE_PAGES
      ensures Pde(m', root, k).bit7 == (Pde(m0, root, k).bit7 && !InLarge(requests + [r], k))
    {
      assert SplitOnly(m, m', root, r.n / 512, k);
      InLargeNext(requests, r, k);
    }
  }
}
