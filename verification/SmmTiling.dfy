/** The SMBASE tiles of PiCpuSmmEntry: where the SMI entry point, the processor SMM descriptor
    and the save state of every processor lie. */
module SmmTiling {

  const SIZE_32KB: nat := 0x8000
  const SIZE_64KB: nat := 0x1_0000
  const SMM_HANDLER_OFFSET: nat := 0x8000
  const SMM_PSD_OFFSET: nat := 0xfb00
  const SMM_CPU_INTERVAL: nat := 0x800
  const PSD_SIZE: nat := 0x60             // sizeof (PROCESSOR_SMM_DESCRIPTOR)
  const STATE_SIZE: nat := 0x400          // sizeof (EFI_SMM_CPU_STATE): from its offset to 64 KB

  /** GetPowerOfTwo32: the largest power of two that is not above x. */
  function PowerOfTwo(x: nat): (p: nat)
    requires x > 0
    ensures p <= x < 2 * p
  {
    if x == 1 then 1 else 2 * PowerOfTwo(x / 2)
  }

  predicate IsPower(p: nat) { p == 1 || (p > 1 && p % 2 == 0 && IsPower(p / 2)) }

  lemma {:induction false} PowersApart(p: nat, q: nat)
    requires IsPower(p) && IsPower(q) && p <= q < 2 * p
    ensures p == q
  {
    if p > 1 { PowersApart(p / 2, q / 2); }
  }

  lemma {:induction false} PowerIsPower(x: nat)
    requires x > 0
    ensures IsPower(PowerOfTwo(x))
  {
    if x > 1 { PowerIsPower(x / 2); }
  }

  function TileSize(handlerSize: nat): nat
    requires STATE_SIZE + PSD_SIZE + handlerSize > 1
  {
    2 * PowerOfTwo(STATE_SIZE + PSD_SIZE + handlerSize - 1)
  }

  /** The assertion on the size of the SMI handler. */
  predicate HandlerFits(handlerSize: nat) {
    handlerSize + SIZE_64KB - SMM_PSD_OFFSET < SMM_CPU_INTERVAL
  }

  /** Whatever the handler size, a tile is one interval of 2 KB. */
  lemma TileIs(handlerSize: nat)
    requires HandlerFits(handlerSize)
    ensures TileSize(handlerSize) == SMM_CPU_INTERVAL
  {
    var p := PowerOfTwo(STATE_SIZE + PSD_SIZE + handlerSize - 1);
    PowerIsPower(STATE_SIZE + PSD_SIZE + handlerSize - 1);
    assert IsPower(0x400) by { assert IsPower(0x10) && IsPower(0x40) && IsPower(0x100); }
    if p <= 0x400 { PowersApart(p, 0x400); } else { PowersApart(0x400, p); }
  }

  // ----- The blocks -----

  /** [start, start + size) */
  datatype Block = Block(start: int, size: nat)

  predicate Apart(a: Block, b: Block) { a.start + a.size <= b.start || b.start + b.size <= a.start }

  datatype Kind = Handler | Descriptor | SaveState

  function BlockOf(smBase: int, kind: Kind, handlerSize: nat): Block {
    match kind
    case Handler => Block(smBase + SMM_HANDLER_OFFSET, handlerSize)
    case Descriptor => Block(smBase + SMM_PSD_OFFSET, PSD_SIZE)
    case SaveState => Block(smBase + SIZE_64KB - STATE_SIZE, STATE_SIZE)
  }

  /** All blocks of all processors are pairwise disjoint. */
  predicate AllApart(smBase: seq<int>, handlerSize: nat) {
    forall i, j, k: Kind, l: Kind :: 0 <= i < |smBase| && 0 <= j < |smBase| && (i != j || k != l) ==>
      Apart(BlockOf(smBase[i], k, handlerSize), BlockOf(smBase[j], l, handlerSize))
  }

  /** All blocks lie in [start, end). */
  predicate AllInside(smBase: seq<int>, handlerSize: nat, start: nat, end: nat) {
    forall i, k: Kind {:trigger BlockOf(smBase[i], k, handlerSize)} :: 0 <= i < |smBase| ==>
      var b := BlockOf(smBase[i], k, handlerSize); start <= b.start && b.start + b.size <= end
  }

  /** Every SMBASE lies on a 2 KB boundary, the first one on a 32 KB boundary. */
  predicate Aligned(smBase: seq<int>) {
    (forall i :: 0 <= i < |smBase| ==> smBase[i] % SMM_CPU_INTERVAL == 0) &&
    (smBase != [] ==> smBase[0] % SIZE_32KB == 0)
  }

  /** The i-th tile begins i intervals after the first. */
  predicate Tiled(smBase: seq<int>, tiles: nat) {
    forall i :: 0 <= i < |smBase| ==> smBase[i] == tiles + SMM_CPU_INTERVAL * i - SIZE_32KB
  }

  function PagesFor(size: nat): nat { (size + 0xfff) / 0x1000 }

  /** The size of the buffer that is allocated, in bytes. */
  function BufferSize(n: nat, tileSize: nat): nat
    requires n > 0
  {
    var others: nat := n - 1;
    0x1000 * PagesFor(SIZE_64KB + tileSize * others)
  }

  /** The allocated buffer starts anywhere; the tiles start at the next 32 KB boundary in it
      or after its start.  Every processor gets its SMBASE. */
  method ComputeTiles(buffer: nat, n: nat, handlerSize: nat) returns (smBase: array<int>)
    requires n > 0 && HandlerFits(handlerSize)
    ensures smBase.Length == n && fresh(smBase)
    ensures Aligned(smBase[..])
    ensures AllApart(smBase[..], handlerSize)
    ensures AllInside(smBase[..], handlerSize, buffer, buffer + BufferSize(n, TileSize(handlerSize)))
  {
    TileIs(handlerSize);
    var tiles := buffer / SIZE_32KB * SIZE_32KB + SIZE_32KB;
    smBase := FillTiles(tiles, n, TileSize(handlerSize));
    TilesAligned(smBase[..], tiles);
    TilesApart(smBase[..], tiles, handlerSize);
    TilesInside(smBase[..], tiles, handlerSize, buffer);
  }

  method FillTiles(tiles: nat, n: nat, tileSize: nat) returns (smBase: array<int>)
    requires tileSize == SMM_CPU_INTERVAL
    ensures smBase.Length == n && fresh(smBase) && Tiled(smBase[..], tiles)
  {
    smBase := new int[n];
    var index := 0;
    while index < n
      invariant index <= n
      invariant forall i :: 0 <= i < index ==> smBase[i] == tiles + SMM_CPU_INTERVAL * i - SIZE_32KB
    {
      smBase[index] := tiles + index * tileSize - SIZE_32KB;
      index := index + 1;
    }
  }

  lemma TilesAligned(smBase: seq<int>, tiles: nat)
    requires Tiled(smBase, tiles) && tiles % SIZE_32KB == 0
    ensures Aligned(smBase)
  {
    forall i | 0 <= i < |smBase| ensures smBase[i] % SMM_CPU_INTERVAL == 0 { TileAligned(tiles, i); }
  }

  lemma TileAligned(tiles: nat, i: nat)
    requires tiles % SIZE_32KB == 0
    ensures (tiles + SMM_CPU_INTERVAL * i - SIZE_32KB) % SMM_CPU_INTERVAL == 0
  {
    var q := tiles / SIZE_32KB;
    assert tiles == SIZE_32KB * q;
    assert tiles + SMM_CPU_INTERVAL * i - SIZE_32KB == SMM_CPU_INTERVAL * (16 * q + i - 16);
  }

  lemma TilesApart(smBase: seq<int>, tiles: nat, handlerSize: nat)
    requires HandlerFits(handlerSize)
    requires Tiled(smBase, tiles)
    ensures AllApart(smBase, handlerSize)
  {
    forall i, j, k: Kind, l: Kind | 0 <= i < |smBase| && 0 <= j < |smBase| && (i != j || k != l)
      ensures Apart(BlockOf(smBase[i], k, handlerSize), BlockOf(smBase[j], l, handlerSize))
    {
      BlocksApart(tiles, i, k, j, l, handlerSize);
    }
  }

  /** Modulo the tile size handlers, descriptors and save states never meet. */
  lemma BlocksApart(tiles: nat, i: nat, k: Kind, j: nat, l: Kind, handlerSize: nat)
    requires HandlerFits(handlerSize) && (i != j || k != l)
    ensures Apart(BlockOf(tiles + SMM_CPU_INTERVAL * i - SIZE_32KB, k, handlerSize),
                  BlockOf(tiles + SMM_CPU_INTERVAL * j - SIZE_32KB, l, handlerSize))
  {}

  lemma TilesInside(smBase: seq<int>, tiles: nat, handlerSize: nat, buffer: nat)
    requires HandlerFits(handlerSize) && |smBase| > 0 && tiles == buffer / SIZE_32KB * SIZE_32KB + SIZE_32KB
    requires Tiled(smBase, tiles)
    ensures AllInside(smBase, handlerSize, buffer, buffer + BufferSize(|smBase|, TileSize(handlerSize)))
  {
    TileIs(handlerSize);
    assert BufferSize(|smBase|, TileSize(handlerSize)) >= SIZE_64KB + SMM_CPU_INTERVAL * (|smBase| - 1);
  }
}
