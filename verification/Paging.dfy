/** PAE page tables of the IA-32 SMM environment, as the words the code reads and writes:
    4 page-directory-pointer entries, 4 directories, and page tables.  Intel SDM Vol. 3A,
    section 4.4. */
module Paging {

  /** A 64-bit table entry.  frame is bits 12-31: a page number, in a 2 MB entry a multiple
      of 512 plus its PAT bit.  bit7 is PS in a directory and PAT in a page table.  high is
      bits 32-62, rest the remaining low bits. */
  datatype Entry = Entry(p: bool, rw: bool, wt: bool, cd: bool, bit7: bool, nx: bool, frame: nat, high: nat, rest: nat)

  const PAGES: nat := 0x10_0000      // 4 KB pages below 4 GB
  const LARGE_PAGES: nat := 2048     // 2 MB pages below 4 GB

  const ZERO := Entry(false, false, false, false, false, false, 0, 0, 0)

  function Small(n: nat): Entry { Entry(true, true, false, false, false, false, n, 0, 0) }
  function Large(k: nat): Entry { Entry(true, true, false, false, true, false, 512 * k, 0, 0) }
  function Directory(f: nat, writable: bool): Entry { Entry(true, writable, false, false, false, false, f, 0, 0) }

  /** The pages that hold tables, by page number. */
  type Memory = map<nat, seq<Entry>>

  function At(m: Memory, f: nat, i: nat): Entry {
    if f in m && i < |m[f]| then m[f][i] else ZERO
  }

  function Put(m: Memory, f: nat, i: nat, e: Entry): Memory {
    if f in m && i < |m[f]| then m[f := m[f][i := e]] else m
  }

  /** The directory entry of the k-th 2 MB page. */
  function Pde(m: Memory, root: nat, k: nat): Entry {
    At(m, At(m, root, k / 512).frame, k % 512)
  }

  /** Where the entry that maps page n is stored. */
  datatype Place = Place(page: nat, index: nat)

  function PlaceOf(m: Memory, root: nat, n: nat): Place {
    var pde := Pde(m, root, n / 512);
    if pde.bit7 then Place(At(m, root, n / 0x4_0000).frame, n / 512 % 512) else Place(pde.frame, n % 512)
  }

  function Leaf(m: Memory, root: nat, n: nat): Entry {
    var place := PlaceOf(m, root, n);
    At(m, place.page, place.index)
  }

  /** What the tables say about one 4 KB page; high is the part of the physical address above
      4 GB, page its page number below. */
  datatype View = View(present: bool, writable: bool, nx: bool, wt: bool, cd: bool, pat: bool, high: nat, page: nat)

  function ViewOf(top: Entry, pde: Entry, leaf: Entry, n: nat): View {
    if pde.bit7 then
      View(top.p && leaf.p, leaf.rw, leaf.nx, leaf.wt, leaf.cd, leaf.frame % 2 == 1, leaf.high,
           leaf.frame / 512 * 512 + n % 512)
    else
      View(top.p && pde.p && leaf.p, pde.rw && leaf.rw, pde.nx || leaf.nx, leaf.wt, leaf.cd, leaf.bit7, leaf.high,
           leaf.frame)
  }

  /** The translation of page n. */
  function Walk(m: Memory, root: nat, n: nat): View {
    ViewOf(At(m, root, n / 0x4_0000), Pde(m, root, n / 512), Leaf(m, root, n), n)
  }

  // ----- Well-formed tables -----

  /** Every page that holds a table has one use, so no two entries share a table. */
  datatype Use = Root | DirectoryOf(d: nat) | TableOf(k: nat)
  type Uses = map<nat, Use>

  predicate PointsTo(e: Entry, m: Memory, uses: Uses, use: Use) {
    if e.frame == 0 then !e.p
    else e.frame in m && e.frame in uses && uses[e.frame] == use && e.high == 0 && !e.nx
  }

  predicate PdeOk(m: Memory, root: nat, uses: Uses, k: nat) {
    var e := Pde(m, root, k);
    if e.bit7 then e.frame % 512 <= 1 else PointsTo(e, m, uses, TableOf(k))
  }

  predicate Framed(m: Memory, root: nat, uses: Uses) {
    && 0 !in m && root in m && root in uses && uses[root] == Root
    && (forall f :: f in m ==> |m[f]| == 512)
    && (forall d {:trigger At(m, root, d)} :: 0 <= d < 4 ==> PointsTo(At(m, root, d), m, uses, DirectoryOf(d)))
  }

  predicate Formed(m: Memory, root: nat, uses: Uses) {
    && Framed(m, root, uses)
    && forall k: nat :: k < LARGE_PAGES ==> PdeOk(m, root, uses, k)
  }

  /** Page n has an entry of its own or of its 2 MB page. */
  predicate Mapped(m: Memory, root: nat, n: nat) {
    PlaceOf(m, root, n).page in m
  }

  /** What may replace the entry of page n: a 2 MB entry stays one. */
  predicate Fits(m: Memory, root: nat, n: nat, e: Entry) {
    Pde(m, root, n / 512).bit7 ==> e.bit7 && e.frame % 512 <= 1
  }

  function PutLeaf(m: Memory, root: nat, n: nat, e: Entry): Memory {
    var place := PlaceOf(m, root, n);
    Put(m, place.page, place.index, e)
  }

  lemma AtPut(m: Memory, f: nat, i: nat, e: Entry, g: nat, j: nat)
    ensures At(Put(m, f, i, e), g, j) == if g == f && j == i && f in m && i < |m[f]| then e else At(m, g, j)
  {}

  /** The directory entries after the entry of page n has been replaced. */
  lemma PutLeafPde(m: Memory, root: nat, uses: Uses, n: nat, e: Entry, k: nat)
    requires Formed(m, root, uses) && n < PAGES && k < LARGE_PAGES && Mapped(m, root, n)
    ensures var m' := PutLeaf(m, root, n, e);
            && (forall d :: 0 <= d < 4 ==> At(m', root, d) == At(m, root, d))
            && Pde(m', root, k) == if Pde(m, root, n / 512).bit7 && k == n / 512 then e else Pde(m, root, k)
  {
    var place := PlaceOf(m, root, n);
    var top, topk := At(m, root, n / 0x4_0000), At(m, root, k / 512);
    assert n / 512 / 512 == n / 0x4_0000;
    assert PdeOk(m, root, uses, n / 512) && PdeOk(m, root, uses, k);
    assert PointsTo(top, m, uses, DirectoryOf(n / 0x4_0000)) && PointsTo(topk, m, uses, DirectoryOf(k / 512));
    assert place.page != root;
    forall d | 0 <= d < 4
      ensures At(PutLeaf(m, root, n, e), root, d) == At(m, root, d)
    {
      AtPut(m, place.page, place.index, e, root, d);
    }
    AtPut(m, place.page, place.index, e, topk.frame, k % 512);
  }

  /** Replacing the entry of a page keeps the tables well-formed. */
  lemma PutLeafFormed(m: Memory, root: nat, uses: Uses, n: nat, e: Entry)
    requires Formed(m, root, uses) && n < PAGES && Mapped(m, root, n) && Fits(m, root, n, e)
    ensures Formed(PutLeaf(m, root, n, e), root, uses)
  {
    var m' := PutLeaf(m, root, n, e);
    forall k: nat | k < LARGE_PAGES ensures PdeOk(m', root, uses, k) {
      PutLeafPde(m, root, uses, n, e, k);
      assert PdeOk(m, root, uses, k);
    }
    PutLeafPde(m, root, uses, n, e, 0);
    forall d {:trigger At(m', root, d)} | 0 <= d < 4 ensures PointsTo(At(m', root, d), m', uses, DirectoryOf(d)) {
      assert PointsTo(At(m, root, d), m, uses, DirectoryOf(d));
    }
    assert Framed(m', root, uses);
  }

  /** It stays where it was, and only pages with the same entry are affected. */
  lemma PutLeafWalk(m: Memory, root: nat, uses: Uses, n: nat, e: Entry, n': nat)
    requires Formed(m, root, uses) && n < PAGES && n' < PAGES && Mapped(m, root, n) && Fits(m, root, n, e)
    ensures var m' := PutLeaf(m, root, n, e);
            && PlaceOf(m', root, n') == PlaceOf(m, root, n')
            && (PlaceOf(m, root, n') != PlaceOf(m, root, n) ==> Walk(m', root, n') == Walk(m, root, n'))
            && (PlaceOf(m, root, n') == PlaceOf(m, root, n) ==>
                  n' / 512 == n / 512
                  && Walk(m', root, n') == ViewOf(At(m, root, n' / 0x4_0000),
                                                  if Pde(m, root, n / 512).bit7 then e else Pde(m, root, n / 512),
                                                  e, n'))
  {
    var place, place' := PlaceOf(m, root, n), PlaceOf(m, root, n');
    assert n' / 512 / 512 == n' / 0x4_0000 && n / 512 / 512 == n / 0x4_0000;
    PutLeafPde(m, root, uses, n, e, n' / 512);
    assert PdeOk(m, root, uses, n / 512) && PdeOk(m, root, uses, n' / 512);
    assert PointsTo(At(m, root, n / 0x4_0000), m, uses, DirectoryOf(n / 0x4_0000));
    assert PointsTo(At(m, root, n' / 0x4_0000), m, uses, DirectoryOf(n' / 0x4_0000));
    AtPut(m, place.page, place.index, e, place'.page, place'.index);
    if place == place' { assert n' / 512 == n / 512; }
  }

  // ----- Splitting a 2 MB page -----

  /** Page f becomes the table of the k-th 2 MB page. */
  function Split(m: Memory, root: nat, k: nat, f: nat, table: seq<Entry>, writable: bool): Memory {
    Put(m[f := table], At(m, root, k / 512).frame, k % 512, Directory(f, writable))
  }

  predicate CanSplit(m: Memory, root: nat, k: nat, f: nat, table: seq<Entry>) {
    k < LARGE_PAGES && At(m, root, k / 512).frame != 0 && f != 0 && f !in m && |table| == 512
  }

  lemma SplitPde(m: Memory, root: nat, uses: Uses, k: nat, f: nat, table: seq<Entry>, writable: bool, k': nat)
    requires Formed(m, root, uses) && CanSplit(m, root, k, f, table) && k' < LARGE_PAGES
    ensures var m' := Split(m, root, k, f, table, writable);
            && (forall d :: 0 <= d < 4 ==> At(m', root, d) == At(m, root, d))
            && Pde(m', root, k') == if k' == k then Directory(f, writable) else Pde(m, root, k')
  {
    assert PointsTo(At(m, root, k / 512), m, uses, DirectoryOf(k / 512));
    assert PointsTo(At(m, root, k' / 512), m, uses, DirectoryOf(k' / 512));
  }

  lemma SplitFormed(m: Memory, root: nat, uses: Uses, k: nat, f: nat, table: seq<Entry>, writable: bool)
    requires Formed(m, root, uses) && CanSplit(m, root, k, f, table)
    ensures Formed(Split(m, root, k, f, table, writable), root, uses[f := TableOf(k)])
  {
    var m', uses' := Split(m, root, k, f, table, writable), uses[f := TableOf(k)];
    SplitPde(m, root, uses, k, f, table, writable, 0);
    forall d {:trigger At(m', root, d)} | 0 <= d < 4 ensures PointsTo(At(m', root, d), m', uses', DirectoryOf(d)) {
      assert PointsTo(At(m, root, d), m, uses, DirectoryOf(d));
    }
    forall k': nat | k' < LARGE_PAGES ensures PdeOk(m', root, uses', k') {
      SplitPde(m, root, uses, k, f, table, writable, k');
      assert PdeOk(m, root, uses, k');
    }
  }

  /** The pages of the k-th 2 MB page now have the entries of the new table; all others are
      mapped as before. */
  lemma SplitWalk(m: Memory, root: nat, uses: Uses, k: nat, f: nat, table: seq<Entry>, writable: bool, n: nat)
    requires Formed(m, root, uses) && CanSplit(m, root, k, f, table) && n < PAGES
    ensures var m' := Split(m, root, k, f, table, writable);
            Walk(m', root, n) ==
              if n / 512 == k then ViewOf(At(m, root, n / 0x4_0000), Directory(f, writable), table[n % 512], n)
              else Walk(m, root, n)
  {
    assert n / 512 / 512 == n / 0x4_0000;
    SplitPde(m, root, uses, k, f, table, writable, n / 512);
    assert PdeOk(m, root, uses, n / 512);
    assert PointsTo(At(m, root, k / 512), m, uses, DirectoryOf(k / 512));
    assert PointsTo(At(m, root, n / 0x4_0000), m, uses, DirectoryOf(n / 0x4_0000));
  }
}
