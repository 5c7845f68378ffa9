// The small-memory heap of src/mem.c as a list of adjacent blocks: what rt_malloc, rt_free and
// the in-place shrink of rt_realloc mean, and what every run of them keeps.
module HeapSpec {
  import opened Options

  /** RT_ALIGN_SIZE (4 or 8), SIZEOF_STRUCT_MEM, MIN_SIZE and mem_size_aligned. */
  datatype Config = Config(align: nat, hdr: nat, minSize: nat, memSize: nat) {
    predicate Ok() {
      (align == 4 || align == 8) && hdr > 0 && minSize > 0 && Aligned(hdr) && Aligned(memSize)
    }

    /** Big enough for a minimal block; without it the scan of rt_malloc may not end. */
    predicate Roomy() {
      MinAligned() <= memSize
    }

    predicate Aligned(n: nat) {
      if align == 4 then n % 4 == 0 else n % 8 == 0
    }

    /** RT_ALIGN. */
    function AlignUp(n: nat): (r: nat)
      ensures Aligned(r) && n <= r < n + 8
    {
      if align == 4 then (n + 3) / 4 * 4 else (n + 7) / 8 * 8
    }

    function MinAligned(): nat {
      AlignUp(minSize)
    }

    /** Offset of heap_end. */
    function End(): nat {
      memSize + hdr
    }
  }

  /** A header at `at` whose `next` field is `end`. */
  datatype Block = Block(at: nat, end: nat, used: bool)

  datatype Heap = Heap(blocks: seq<Block>, lfree: nat, usedMem: int, maxMem: int)

  // ----- The invariant

  /** A gap-free chain of blocks from lo to hi. */
  predicate Tiled(bs: seq<Block>, lo: nat, hi: nat) {
    if bs == [] then lo == hi else bs[0].at == lo && bs[0].end > lo && Tiled(bs[1..], bs[0].end, hi)
  }

  predicate Shaped(c: Config, b: Block) {
    c.Aligned(b.at) && c.Aligned(b.end) && b.at + c.hdr <= b.end && (b.used ==> b.at + c.hdr < b.end)
  }

  predicate NoFreeNeighbours(bs: seq<Block>) {
    forall i :: 0 <= i < |bs| - 1 ==> bs[i].used || bs[i + 1].used
  }

  function UsedBytes(bs: seq<Block>): int {
    if bs == [] then 0
    else (if bs[0].used then bs[0].end - bs[0].at else 0) + UsedBytes(bs[1..])
  }

  predicate FreeAt(bs: seq<Block>, p: nat) {
    exists k :: 0 <= k < |bs| && bs[k].at == p && !bs[k].used
  }

  predicate AllShaped(c: Config, bs: seq<Block>) {
    forall k :: 0 <= k < |bs| ==> Shaped(c, bs[k])
  }

  predicate Chain(c: Config, bs: seq<Block>) {
    && c.Ok() && Tiled(bs, 0, c.End())
    && AllShaped(c, bs)
    && NoFreeNeighbours(bs)
  }

  predicate Inv(c: Config, h: Heap) {
    && Chain(c, h.blocks)
    && h.usedMem == UsedBytes(h.blocks) && h.usedMem <= h.maxMem
    && (h.lfree == c.End() || FreeAt(h.blocks, h.lfree))
  }

  /** The promise of the field's name, which rt_realloc breaks. */
  predicate LowestFree(h: Heap) {
    forall k :: 0 <= k < |h.blocks| && !h.blocks[k].used ==> h.lfree <= h.blocks[k].at
  }

  // ----- Positions in a chain

  lemma {:induction false} TiledPositions(bs: seq<Block>, lo: nat, hi: nat)
    requires Tiled(bs, lo, hi)
    ensures lo <= hi && (bs != [] ==> bs[0].at == lo && bs[|bs| - 1].end == hi)
    ensures forall i :: 0 <= i < |bs| ==> lo <= bs[i].at < bs[i].end <= hi
    ensures forall i :: 0 <= i < |bs| - 1 ==> bs[i].end == bs[i + 1].at
    ensures forall i, j :: 0 <= i < j < |bs| ==> bs[i].end <= bs[j].at
  {
    if bs != [] {
      var t := bs[1..];
      TiledPositions(t, bs[0].end, hi);
      assert forall i :: 1 <= i < |bs| ==> bs[i] == t[i - 1];
    }
  }

  lemma {:induction false} TiledSplit(xs: seq<Block>, ys: seq<Block>, lo: nat, mid: nat, hi: nat)
    requires Tiled(xs, lo, mid) && Tiled(ys, mid, hi)
    ensures Tiled(xs + ys, lo, hi)
  {
    if xs == [] {
      assert xs + ys == ys;
    } else {
      assert (xs + ys)[1..] == xs[1..] + ys;
      TiledSplit(xs[1..], ys, xs[0].end, mid, hi);
    }
  }

  lemma {:induction false} TiledPrefix(bs: seq<Block>, lo: nat, hi: nat, i: nat)
    requires Tiled(bs, lo, hi) && i <= |bs|
    ensures var mid := if i < |bs| then bs[i].at else hi; Tiled(bs[..i], lo, mid) && Tiled(bs[i..], mid, hi)
  {
    if i > 0 {
      TiledPrefix(bs[1..], bs[0].end, hi, i - 1);
      assert bs[..i][1..] == bs[1..][..i - 1] && bs[i..] == bs[1..][i - 1..];
    }
  }

  lemma {:induction false} UsedBytesConcat(xs: seq<Block>, ys: seq<Block>)
    ensures UsedBytes(xs + ys) == UsedBytes(xs) + UsedBytes(ys)
  {
    if xs == [] {
      assert xs + ys == ys;
    } else {
      assert (xs + ys)[1..] == xs[1..] + ys;
      UsedBytesConcat(xs[1..], ys);
    }
  }

  lemma UsedPair(a: Block, b: Block)
    ensures UsedBytes([a, b]) == UsedBytes([a]) + UsedBytes([b])
    ensures UsedBytes([a]) == if a.used then a.end - a.at else 0
  {
    assert [a, b] == [a] + [b];
    UsedBytesConcat([a], [b]);
  }

  /** The chain with blocks [i, j) replaced. */
  function Splice(bs: seq<Block>, i: nat, j: nat, mid: seq<Block>): seq<Block>
    requires i <= j <= |bs|
  {
    bs[..i] + mid + bs[j..]
  }

  /** Replacing blocks by blocks over the same span keeps the tiling and shifts the used
      total by the difference. */
  lemma SpliceTiled(bs: seq<Block>, i: nat, j: nat, mid: seq<Block>, hi: nat)
    requires i < j <= |bs| && Tiled(bs, 0, hi) && Tiled(mid, bs[i].at, bs[j - 1].end)
    ensures Tiled(Splice(bs, i, j, mid), 0, hi)
  {
    TiledPositions(bs, 0, hi);
    TiledPrefix(bs, 0, hi, i);
    TiledPrefix(bs, 0, hi, j);
    TiledSplit(bs[..i], mid, 0, bs[i].at, bs[j - 1].end);
    TiledSplit(bs[..i] + mid, bs[j..], 0, bs[j - 1].end, hi);
  }

  lemma SpliceUsed(bs: seq<Block>, i: nat, j: nat, mid: seq<Block>)
    requires i <= j <= |bs|
    ensures UsedBytes(Splice(bs, i, j, mid)) == UsedBytes(bs) - UsedBytes(bs[i..j]) + UsedBytes(mid)
  {
    UsedBytesConcat(bs[..i] + mid, bs[j..]);
    UsedBytesConcat(bs[..i], mid);
    assert bs == bs[..i] + bs[i..j] + bs[j..];
    UsedBytesConcat(bs[..i] + bs[i..j], bs[j..]);
    UsedBytesConcat(bs[..i], bs[i..j]);
  }

  /** Block k of a spliced chain. */
  lemma SpliceAt(bs: seq<Block>, i: nat, j: nat, mid: seq<Block>)
    requires i <= j <= |bs|
    ensures |Splice(bs, i, j, mid)| == |bs| - (j - i) + |mid|
    ensures forall k :: 0 <= k < |bs| - (j - i) + |mid| ==>
      Splice(bs, i, j, mid)[k] == if k < i then bs[k] else if k < i + |mid| then mid[k - i] else bs[k + j - i - |mid|]
  {
  }

  lemma SpliceShaped(c: Config, bs: seq<Block>, i: nat, j: nat, mid: seq<Block>)
    requires i <= j <= |bs| && AllShaped(c, bs) && AllShaped(c, mid)
    ensures AllShaped(c, Splice(bs, i, j, mid))
  {
    SpliceAt(bs, i, j, mid);
  }

  /** A free offset outside the replaced blocks stays free. */
  lemma SpliceFreeAt(bs: seq<Block>, i: nat, j: nat, mid: seq<Block>, p: nat)
    requires i <= j <= |bs|
    requires FreeAt(mid, p) || (FreeAt(bs, p) && !FreeAt(bs[i..j], p))
    ensures FreeAt(Splice(bs, i, j, mid), p)
  {
    SpliceAt(bs, i, j, mid);
    var r := Splice(bs, i, j, mid);
    if FreeAt(mid, p) {
      var k :| 0 <= k < |mid| && mid[k].at == p && !mid[k].used;
      assert r[i + k] == mid[k];
    } else {
      var k :| 0 <= k < |bs| && bs[k].at == p && !bs[k].used;
      if k < i {
        assert r[k] == bs[k];
      } else if k >= j {
        assert r[k - j + i + |mid|] == bs[k];
      }
    }
  }

  // ----- rt_malloc

  function Room(c: Config, b: Block): int {
    b.end - b.at - c.hdr
  }

  /** The size actually looked for; None for the requests refused outright. */
  function Request(c: Config, n: nat): Option<nat> {
    if n == 0 || c.AlignUp(n) > c.memSize then None
    else if c.AlignUp(n) < c.MinAligned() then Some(c.MinAligned())
    else Some(c.AlignUp(n))
  }

  /** The scan for an accepted request needs a heap with room for a minimal block. */
  predicate Scannable(c: Config, n: nat) {
    Request(c, n).Some? ==> c.Roomy()
  }

  /** Where in the chain offset p is (the end of the chain for heap_end). */
  function IndexAt(bs: seq<Block>, p: nat): (i: nat)
    ensures i <= |bs|
  {
    if bs == [] || bs[0].at >= p then 0 else 1 + IndexAt(bs[1..], p)
  }

  /** The scan loop, with its strict bound on the start of the block. */
  function FirstFit(c: Config, bs: seq<Block>, i: nat, size: nat): (r: Option<nat>)
    ensures r.Some? ==> i <= r.value < |bs| && !bs[r.value].used && Room(c, bs[r.value]) >= size
    decreases |bs| - i
  {
    if i >= |bs| || bs[i].at >= c.memSize - size then None
    else if !bs[i].used && Room(c, bs[i]) >= size then Some(i)
    else FirstFit(c, bs, i + 1, size)
  }

  function NextFree(c: Config, bs: seq<Block>, i: nat): nat
    decreases |bs| - i
  {
    if i >= |bs| then c.End() else if !bs[i].used then bs[i].at else NextFree(c, bs, i + 1)
  }

  predicate Splits(c: Config, b: Block, size: nat) {
    Room(c, b) >= size + c.hdr + c.MinAligned()
  }

  function Carved(c: Config, b: Block, size: nat): seq<Block> {
    if Splits(c, b, size) then
      [Block(b.at, b.at + c.hdr + size, true), Block(b.at + c.hdr + size, b.end, false)]
    else [Block(b.at, b.end, true)]
  }

  function Take(c: Config, h: Heap, i: nat, size: nat): Heap
    requires i < |h.blocks|
  {
    var b := h.blocks[i];
    var bs := Splice(h.blocks, i, i + 1, Carved(c, b, size));
    var used := h.usedMem + if Splits(c, b, size) then size + c.hdr else b.end - b.at;
    Heap(bs, if b.at == h.lfree then NextFree(c, bs, i) else h.lfree, used,
         if h.maxMem < used then used else h.maxMem)
  }

  function Malloc(c: Config, h: Heap, n: nat): (Heap, Option<nat>) {
    match Request(c, n)
    case None => (h, None)
    case Some(size) =>
      match FirstFit(c, h.blocks, IndexAt(h.blocks, h.lfree), size)
      case None => (h, None)
      case Some(i) => (Take(c, h, i, size), Some(h.blocks[i].at + c.hdr))
  }

  // ----- plug_holes, rt_free and the shrink of rt_realloc

  function MergeNext(h: Heap, i: nat): Heap
    requires i < |h.blocks|
  {
    var bs := h.blocks;
    if i + 1 < |bs| && !bs[i + 1].used then
      h.(blocks := Splice(bs, i, i + 2, [Block(bs[i].at, bs[i + 1].end, false)]),
         lfree := if h.lfree == bs[i + 1].at then bs[i].at else h.lfree)
    else h
  }

  function MergePrev(h: Heap, i: nat): Heap
    requires i < |h.blocks|
  {
    var bs := h.blocks;
    if i > 0 && !bs[i - 1].used then
      h.(blocks := Splice(bs, i - 1, i + 1, [Block(bs[i - 1].at, bs[i].end, false)]),
         lfree := if h.lfree == bs[i].at then bs[i - 1].at else h.lfree)
    else h
  }

  function PlugHoles(h: Heap, i: nat): Heap
    requires i < |h.blocks|
  {
    MergePrev(MergeNext(h, i), i)
  }

  function Freed(h: Heap, i: nat): Heap
    requires i < |h.blocks|
  {
    var b := h.blocks[i];
    h.(blocks := Splice(h.blocks, i, i + 1, [b.(used := false)]),
       lfree := if b.at < h.lfree then b.at else h.lfree,
       usedMem := h.usedMem - (b.end - b.at))
  }

  function Free(h: Heap, i: nat): Heap
    requires i < |h.blocks|
  {
    PlugHoles(Freed(h, i), i)
  }

  predicate Shrinks(c: Config, b: Block, size: nat) {
    size + c.hdr + c.minSize < Room(c, b)
  }

  function Cut(c: Config, h: Heap, i: nat, size: nat): Heap
    requires i < |h.blocks| && Shrinks(c, h.blocks[i], size)
  {
    var b := h.blocks[i];
    var cut := b.at + c.hdr + size;
    h.(blocks := Splice(h.blocks, i, i + 1, [Block(b.at, cut, true), Block(cut, b.end, false)]),
       usedMem := h.usedMem - (Room(c, b) - size))
  }

  function Shrink(c: Config, h: Heap, i: nat, size: nat): Heap
    requires i < |h.blocks| && Shrinks(c, h.blocks[i], size)
  {
    PlugHoles(Cut(c, h, i, size), i + 1)
  }

  // ----- Every operation keeps the invariant

  /** A chain that may have free neighbours only around its free block i. */
  predicate Near(c: Config, bs: seq<Block>, i: nat) {
    && c.Ok() && Tiled(bs, 0, c.End()) && AllShaped(c, bs)
    && i < |bs| && !bs[i].used
    && (forall k :: 0 <= k < |bs| - 1 && k != i && k != i - 1 ==> bs[k].used || bs[k + 1].used)
  }

  /** The bookkeeping beside the chain. */
  predicate Counted(c: Config, h: Heap) {
    && h.usedMem == UsedBytes(h.blocks) && h.usedMem <= h.maxMem
    && (h.lfree == c.End() || FreeAt(h.blocks, h.lfree))
  }

  function Merged(bs: seq<Block>, i: nat): seq<Block>
    requires i + 1 < |bs|
  {
    Splice(bs, i, i + 2, [Block(bs[i].at, bs[i + 1].end, false)])
  }

  lemma MergedTiled(c: Config, bs: seq<Block>, i: nat)
    requires Tiled(bs, 0, c.End()) && AllShaped(c, bs) && i + 1 < |bs|
    ensures Tiled(Merged(bs, i), 0, c.End()) && AllShaped(c, Merged(bs, i))
  {
    var mid := [Block(bs[i].at, bs[i + 1].end, false)];
    TiledPositions(bs, 0, c.End());
    SpliceTiled(bs, i, i + 2, mid, c.End());
    assert Shaped(c, bs[i]) && Shaped(c, bs[i + 1]);
    SpliceShaped(c, bs, i, i + 2, mid);
  }

  lemma MergedCounted(c: Config, h: Heap, i: nat)
    requires i + 1 < |h.blocks| && !h.blocks[i].used && !h.blocks[i + 1].used && Counted(c, h)
    ensures Counted(c, h.(blocks := Merged(h.blocks, i),
                          lfree := if h.lfree == h.blocks[i + 1].at then h.blocks[i].at else h.lfree))
  {
    var bs := h.blocks;
    var mid := [Block(bs[i].at, bs[i + 1].end, false)];
    SpliceUsed(bs, i, i + 2, mid);
    assert bs[i..i + 2] == [bs[i], bs[i + 1]];
    UsedPair(bs[i], bs[i + 1]);
    UsedPair(bs[i + 1], mid[0]);
    UsedPair(mid[0], mid[0]);
    assert mid[0].at == bs[i].at;
    if h.lfree == bs[i].at || h.lfree == bs[i + 1].at {
      SpliceFreeAt(bs, i, i + 2, mid, bs[i].at);
    } else if h.lfree != c.End() {
      SpliceFreeAt(bs, i, i + 2, mid, h.lfree);
    }
  }

  lemma MergeNextNear(c: Config, h: Heap, i: nat)
    requires Near(c, h.blocks, i) && Counted(c, h)
    ensures Near(c, MergeNext(h, i).blocks, i) && Counted(c, MergeNext(h, i))
    ensures var bs := MergeNext(h, i).blocks; i + 1 < |bs| ==> bs[i + 1].used
  {
    var bs := h.blocks;
    if i + 1 < |bs| && !bs[i + 1].used {
      MergedTiled(c, bs, i);
      MergedCounted(c, h, i);
      var r := Merged(bs, i);
      SpliceAt(bs, i, i + 2, [Block(bs[i].at, bs[i + 1].end, false)]);
      forall k | 0 <= k < |r| - 1 && k != i && k != i - 1 ensures r[k].used || r[k + 1].used {
        var m := if k < i then k else k + 1;
        assert r[k] == bs[m] && r[k + 1] == bs[m + 1];
      }
      assert i + 1 < |r| ==> r[i + 1] == bs[i + 2];
    }
  }

  lemma MergePrevChain(c: Config, h: Heap, i: nat)
    requires Near(c, h.blocks, i) && Counted(c, h) && (i + 1 < |h.blocks| ==> h.blocks[i + 1].used)
    ensures Inv(c, MergePrev(h, i))
  {
    var bs := h.blocks;
    if i > 0 && !bs[i - 1].used {
      MergedTiled(c, bs, i - 1);
      MergedCounted(c, h, i - 1);
      SpliceAt(bs, i - 1, i + 1, [Block(bs[i - 1].at, bs[i].end, false)]);
    }
  }

  lemma PlugHolesInv(c: Config, h: Heap, i: nat)
    requires Near(c, h.blocks, i) && Counted(c, h)
    ensures Inv(c, PlugHoles(h, i))
  {
    MergeNextNear(c, h, i);
    MergePrevChain(c, MergeNext(h, i), i);
  }

  /** Replacing one block of a chain by blocks over the same span. */
  lemma ReplacedTiled(c: Config, bs: seq<Block>, i: nat, mid: seq<Block>)
    requires i < |bs| && Tiled(bs, 0, c.End()) && AllShaped(c, bs)
    requires AllShaped(c, mid) && Tiled(mid, bs[i].at, bs[i].end)
    ensures var r := Splice(bs, i, i + 1, mid);
      && Tiled(r, 0, c.End()) && AllShaped(c, r)
      && UsedBytes(r) == UsedBytes(bs) + UsedBytes(mid) - if bs[i].used then bs[i].end - bs[i].at else 0
  {
    SpliceTiled(bs, i, i + 1, mid, c.End());
    SpliceShaped(c, bs, i, i + 1, mid);
    SpliceUsed(bs, i, i + 1, mid);
    assert bs[i..i + 1] == [bs[i]];
  }

  /** Replacing a block that is not the lowest free one leaves that one free. */
  lemma ReplacedFreeAt(c: Config, h: Heap, i: nat, mid: seq<Block>)
    requires i < |h.blocks| && (h.blocks[i].used || h.blocks[i].at != h.lfree)
    requires h.lfree == c.End() || FreeAt(h.blocks, h.lfree)
    ensures h.lfree == c.End() || FreeAt(Splice(h.blocks, i, i + 1, mid), h.lfree)
  {
    if h.lfree != c.End() {
      assert h.blocks[i..i + 1] == [h.blocks[i]];
      SpliceFreeAt(h.blocks, i, i + 1, mid, h.lfree);
    }
  }

  lemma FreedNear(c: Config, h: Heap, i: nat)
    requires Inv(c, h) && i < |h.blocks| && h.blocks[i].used
    ensures Near(c, Freed(h, i).blocks, i) && Counted(c, Freed(h, i))
  {
    var bs := h.blocks;
    var mid := [bs[i].(used := false)];
    assert Shaped(c, bs[i]);
    ReplacedTiled(c, bs, i, mid);
    SpliceAt(bs, i, i + 1, mid);
    ReplacedFreeAt(c, h, i, mid);
    assert mid[0].at == bs[i].at;
    SpliceFreeAt(bs, i, i + 1, mid, bs[i].at);
  }

  lemma FreeInv(c: Config, h: Heap, i: nat)
    requires Inv(c, h) && i < |h.blocks| && h.blocks[i].used
    ensures Inv(c, Free(h, i))
  {
    FreedNear(c, h, i);
    PlugHolesInv(c, Freed(h, i), i);
  }

  lemma PairTiled(c: Config, b: Block, cut: nat, used: bool)
    requires Shaped(c, b) && c.Aligned(cut) && b.at + c.hdr < cut && cut + c.hdr < b.end
    ensures var mid := [Block(b.at, cut, true), Block(cut, b.end, used)];
      AllShaped(c, mid) && Tiled(mid, b.at, b.end) && UsedBytes(mid) == if used then b.end - b.at else cut - b.at
  {
    var mid := [Block(b.at, cut, true), Block(cut, b.end, used)];
    UsedPair(mid[0], mid[1]);
    UsedPair(mid[1], mid[0]);
    assert mid[1..] == [mid[1]];
  }

  lemma CutNear(c: Config, h: Heap, i: nat, size: nat)
    requires Inv(c, h) && i < |h.blocks| && h.blocks[i].used
    requires size > 0 && c.Aligned(size) && Shrinks(c, h.blocks[i], size)
    ensures Near(c, Cut(c, h, i, size).blocks, i + 1) && Counted(c, Cut(c, h, i, size))
  {
    var bs, b := h.blocks, h.blocks[i];
    var cut := b.at + c.hdr + size;
    var mid := [Block(b.at, cut, true), Block(cut, b.end, false)];
    assert Shaped(c, b);
    AlignedSum(c, b.at, c.hdr);
    AlignedSum(c, b.at + c.hdr, size);
    PairTiled(c, b, cut, false);
    ReplacedTiled(c, bs, i, mid);
    SpliceAt(bs, i, i + 1, mid);
    ReplacedFreeAt(c, h, i, mid);
  }

  lemma ShrinkInv(c: Config, h: Heap, i: nat, size: nat)
    requires Inv(c, h) && i < |h.blocks| && h.blocks[i].used
    requires size > 0 && c.Aligned(size) && Shrinks(c, h.blocks[i], size)
    ensures Inv(c, Shrink(c, h, i, size))
  {
    CutNear(c, h, i, size);
    PlugHolesInv(c, Cut(c, h, i, size), i + 1);
  }

  lemma {:induction false} NextFreeFound(c: Config, bs: seq<Block>, i: nat)
    ensures var p := NextFree(c, bs, i); p == c.End() || FreeAt(bs, p)
    decreases |bs| - i
  {
    if i < |bs| { NextFreeFound(c, bs, i + 1); }
  }

  lemma CarvedTiled(c: Config, b: Block, size: nat)
    requires c.Ok() && Shaped(c, b) && size > 0 && c.Aligned(size) && Room(c, b) >= size
    ensures var mid := Carved(c, b, size);
      && AllShaped(c, mid) && Tiled(mid, b.at, b.end)
      && UsedBytes(mid) == if Splits(c, b, size) then size + c.hdr else b.end - b.at
  {
    if Splits(c, b, size) {
      AlignedSum(c, b.at, c.hdr);
      AlignedSum(c, b.at + c.hdr, size);
      PairTiled(c, b, b.at + c.hdr + size, false);
    } else {
      UsedPair(b.(used := true), b);
    }
  }

  lemma AlignedSum(c: Config, x: nat, y: nat)
    requires c.Aligned(x) && c.Aligned(y)
    ensures c.Aligned(x + y)
  {
  }

  lemma TakeInv(c: Config, h: Heap, i: nat, size: nat)
    requires Inv(c, h) && i < |h.blocks| && !h.blocks[i].used
    requires size > 0 && c.Aligned(size) && Room(c, h.blocks[i]) >= size
    ensures Inv(c, Take(c, h, i, size))
  {
    var bs, b := h.blocks, h.blocks[i];
    var mid := Carved(c, b, size);
    assert Shaped(c, b);
    CarvedTiled(c, b, size);
    ReplacedTiled(c, bs, i, mid);
    SpliceAt(bs, i, i + 1, mid);
    if b.at == h.lfree {
      NextFreeFound(c, Splice(bs, i, i + 1, mid), i);
    } else {
      ReplacedFreeAt(c, h, i, mid);
    }
  }
}
