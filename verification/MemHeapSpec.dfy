// The memory heap of src/memheap.c: blocks in address order ending in a used tail, and a free
// list in no particular order, newest first.
module MemHeapSpec {
  import opened Numbers
  import opened Lists
  import HS = HeapSpec

  type Block = HS.Block

  /** RT_MEMHEAP_SIZE, RT_MEMHEAP_MINIALLOC, RT_ALIGN_SIZE and pool_size. */
  datatype Config = Config(hdr: nat, mini: nat, align: nat, pool: nat) {
    predicate Ok() { hdr > 0 && mini > 0 && align > 0 && 2 * hdr <= pool }
  }

  datatype State = State(blocks: seq<Block>, free: seq<nat>, avail: int, maxUsed: int)

  /** MEMITEM_SIZE */
  function Size(c: Config, b: Block): int { b.end - b.at - c.hdr }

  function FreeBytes(c: Config, bs: seq<Block>): int {
    if bs == [] then 0
    else if bs[0].used then FreeBytes(c, bs[1..]) else Size(c, bs[0]) + FreeBytes(c, bs[1..])
  }

  // ----- Invariant

  /** The blocks tile the pool, the last one is the used, empty tail, no two free blocks are
      neighbours. */
  predicate Chain(c: Config, bs: seq<Block>) {
    && c.Ok() && HS.Tiled(bs, 0, c.pool) && HS.NoFreeNeighbours(bs) && bs != []
    && bs[|bs| - 1] == HS.Block(c.pool - c.hdr, c.pool, true)
    && forall k :: 0 <= k < |bs| ==> bs[k].at + c.hdr <= bs[k].end
  }

  /** The free list holds exactly the unused blocks, once each. */
  ghost predicate ListOk(bs: seq<Block>, free: seq<nat>) {
    NoDup(free) && forall p :: p in free <==> HS.FreeAt(bs, p)
  }

  ghost predicate Inv(c: Config, s: State) {
    && Chain(c, s.blocks) && ListOk(s.blocks, s.free)
    && s.avail == FreeBytes(c, s.blocks) && c.pool - s.avail <= s.maxUsed
  }

  // ----- Operations, on the block at position `i`

  /** The first and one past the last block that a release merges. */
  function From(bs: seq<Block>, i: nat): nat
    requires i < |bs|
  {
    if i > 0 && !bs[i - 1].used then i - 1 else i
  }

  function To(bs: seq<Block>, i: nat): nat
    requires i + 1 < |bs|
  {
    if !bs[i + 1].used then i + 2 else i + 1
  }

  /** A used block, and perhaps the free one behind it, cut anew. */
  function Recut(bs: seq<Block>, i: nat, e: nat, cut: nat): seq<Block>
    requires i < e <= |bs|
  {
    [HS.Block(bs[i].at, cut, true), HS.Block(cut, bs[e - 1].end, false)]
  }

  function Splits(c: Config, b: Block, size: nat): bool { Size(c, b) >= size + c.hdr + c.mini }

  /** What an allocation of `size` bytes makes of a free block. */
  function Carved(c: Config, b: Block, size: nat): seq<Block> {
    if Splits(c, b, size) then [HS.Block(b.at, b.at + c.hdr + size, true), HS.Block(b.at + c.hdr + size, b.end, false)]
    else [HS.Block(b.at, b.end, true)]
  }

  function Take(c: Config, s: State, i: nat, size: nat): State
    requires i < |s.blocks|
  {
    var b := s.blocks[i];
    var rest := Without(s.free, b.at);
    var avail := s.avail - if Splits(c, b, size) then size + c.hdr else Size(c, b);
    State(HS.Splice(s.blocks, i, i + 1, Carved(c, b, size)),
          if Splits(c, b, size) then [b.at + c.hdr + size] + rest else rest,
          avail, Max(s.maxUsed, c.pool - avail))
  }

  /** rt_memheap_free of a used block, merging with free neighbours. */
  function Release(c: Config, s: State, i: nat): State
    requires i + 1 < |s.blocks|
  {
    var bs := s.blocks;
    var left, right := i > 0 && !bs[i - 1].used, !bs[i + 1].used;
    var j, e := if left then i - 1 else i, if right then i + 2 else i + 1;
    var free := Others(bs, s.free, i);
    State(HS.Splice(bs, j, e, [HS.Block(bs[j].at, bs[e - 1].end, false)]),
          if left then free else [bs[i].at] + free,
          s.avail + Size(c, bs[i]) + (if left then c.hdr else 0) + (if right then c.hdr else 0), s.maxUsed)
  }

  /** The in-place growth of rt_memheap_realloc into a free right neighbour. */
  predicate CanGrow(c: Config, s: State, i: nat, size: nat) {
    && i + 1 < |s.blocks| && s.blocks[i].used && !s.blocks[i + 1].used && size > Size(c, s.blocks[i])
    && Size(c, s.blocks[i + 1]) + Size(c, s.blocks[i]) > size + c.mini
  }

  function Grow(c: Config, s: State, i: nat, size: nat): State
    requires CanGrow(c, s, i, size)
  {
    var b, next := s.blocks[i], s.blocks[i + 1];
    var cut := b.at + c.hdr + size;
    var avail := s.avail - (size - Size(c, b));
    State(HS.Splice(s.blocks, i, i + 2, Recut(s.blocks, i, i + 2, cut)),
          [cut] + Without(s.free, next.at), avail, Max(s.maxUsed, c.pool - avail))
  }

  /** The in-place shrinking of rt_memheap_realloc; the rest merges with a free neighbour. */
  predicate CanShrink(c: Config, s: State, i: nat, size: nat) {
    i + 1 < |s.blocks| && s.blocks[i].used && size + c.hdr + c.mini < Size(c, s.blocks[i])
  }

  function Shrink(c: Config, s: State, i: nat, size: nat): State
    requires CanShrink(c, s, i, size)
  {
    var bs := s.blocks;
    var cut, e := bs[i].at + c.hdr + size, To(bs, i);
    State(HS.Splice(bs, i, e, Recut(bs, i, e, cut)),
          [cut] + Others(bs, s.free, i),
          s.avail - (if e == i + 2 then Size(c, bs[i + 1]) else 0) + (bs[e - 1].end - cut - c.hdr), s.maxUsed)
  }

  /** The free list without the block behind `i`, if that is free. */
  function Others(bs: seq<Block>, free: seq<nat>, i: nat): seq<nat>
    requires i + 1 < |bs|
  {
    if !bs[i + 1].used then Without(free, bs[i + 1].at) else free
  }

  // ----- Splicing

  lemma {:induction false} FreeBytesConcat(c: Config, xs: seq<Block>, ys: seq<Block>)
    ensures FreeBytes(c, xs + ys) == FreeBytes(c, xs) + FreeBytes(c, ys)
  {
    if xs == [] {
      assert xs + ys == ys;
    } else {
      assert (xs + ys)[1..] == xs[1..] + ys;
      FreeBytesConcat(c, xs[1..], ys);
    }
  }

  lemma SpliceBytes(c: Config, bs: seq<Block>, i: nat, j: nat, mid: seq<Block>)
    requires i <= j <= |bs|
    ensures FreeBytes(c, HS.Splice(bs, i, j, mid)) == FreeBytes(c, bs) - FreeBytes(c, bs[i..j]) + FreeBytes(c, mid)
  {
    FreeBytesConcat(c, bs[..i] + mid, bs[j..]);
    FreeBytesConcat(c, bs[..i], mid);
    assert bs == bs[..i] + bs[i..j] + bs[j..];
    FreeBytesConcat(c, bs[..i] + bs[i..j], bs[j..]);
    FreeBytesConcat(c, bs[..i], bs[i..j]);
  }

  /** Free blocks after a splice: those of the middle, and the others outside its span. */
  lemma SpliceFree(bs: seq<Block>, i: nat, j: nat, mid: seq<Block>, hi: nat, p: nat)
    requires i < j <= |bs| && HS.Tiled(bs, 0, hi)
    ensures HS.FreeAt(HS.Splice(bs, i, j, mid), p) <==>
      HS.FreeAt(mid, p) || (HS.FreeAt(bs, p) && !(bs[i].at <= p < bs[j - 1].end))
  {
    HS.TiledPositions(bs, 0, hi);
    HS.SpliceAt(bs, i, j, mid);
    var r := HS.Splice(bs, i, j, mid);
    if HS.FreeAt(r, p) {
      var k :| 0 <= k < |r| && r[k].at == p && !r[k].used;
      FromSplice(bs, i, j, mid, hi, k);
    }
    if HS.FreeAt(mid, p) {
      var k :| 0 <= k < |mid| && mid[k].at == p && !mid[k].used;
      assert r[i + k] == mid[k];
    }
    if HS.FreeAt(bs, p) && !(bs[i].at <= p < bs[j - 1].end) {
      var k :| 0 <= k < |bs| && bs[k].at == p && !bs[k].used;
      ToSplice(bs, i, j, mid, hi, k);
    }
  }

  lemma FromSplice(bs: seq<Block>, i: nat, j: nat, mid: seq<Block>, hi: nat, k: nat)
    requires i < j <= |bs| && HS.Tiled(bs, 0, hi) && k < |HS.Splice(bs, i, j, mid)|
    ensures var x := HS.Splice(bs, i, j, mid)[k];
      (i <= k < i + |mid| && x == mid[k - i]) || (x in bs && !(bs[i].at <= x.at < bs[j - 1].end))
  {
    HS.TiledPositions(bs, 0, hi);
    HS.SpliceAt(bs, i, j, mid);
    var x := HS.Splice(bs, i, j, mid)[k];
    if k < i {
      assert x == bs[k] && bs[k].end <= bs[i].at;
    } else if k >= i + |mid| {
      var m := k + j - i - |mid|;
      assert x == bs[m] && bs[j - 1].end <= bs[m].at;
    }
  }

  lemma ToSplice(bs: seq<Block>, i: nat, j: nat, mid: seq<Block>, hi: nat, k: nat)
    requires i < j <= |bs| && HS.Tiled(bs, 0, hi) && k < |bs| && !(bs[i].at <= bs[k].at < bs[j - 1].end)
    ensures exists m :: 0 <= m < |HS.Splice(bs, i, j, mid)| && HS.Splice(bs, i, j, mid)[m] == bs[k]
    ensures k < i || k >= j
  {
    HS.TiledPositions(bs, 0, hi);
    HS.SpliceAt(bs, i, j, mid);
    var r := HS.Splice(bs, i, j, mid);
    if k < i { assert r[k] == bs[k]; } else { assert r[k - j + i + |mid|] == bs[k]; }
  }

  /** Replacing blocks before the tail by others over the same span, with no two free ones
      side by side in the new row. */
  lemma SpliceChain(c: Config, bs: seq<Block>, i: nat, j: nat, mid: seq<Block>)
    requires Chain(c, bs) && i < j < |bs| && mid != [] && HS.Tiled(mid, bs[i].at, bs[j - 1].end)
    requires forall k :: 0 <= k < |mid| ==> mid[k].at + c.hdr <= mid[k].end
    requires HS.NoFreeNeighbours(mid) && (i > 0 ==> bs[i - 1].used || mid[0].used) && (mid[|mid| - 1].used || bs[j].used)
    ensures Chain(c, HS.Splice(bs, i, j, mid))
  {
    HS.SpliceTiled(bs, i, j, mid, c.pool);
    SpliceSizes(c, bs, i, j, mid);
    SpliceApart(bs, i, j, mid);
  }

  lemma SpliceSizes(c: Config, bs: seq<Block>, i: nat, j: nat, mid: seq<Block>)
    requires i < j < |bs|
    requires forall k :: 0 <= k < |bs| ==> bs[k].at + c.hdr <= bs[k].end
    requires forall k :: 0 <= k < |mid| ==> mid[k].at + c.hdr <= mid[k].end
    ensures var r := HS.Splice(bs, i, j, mid);
      && r != [] && r[|r| - 1] == bs[|bs| - 1]
      && forall k :: 0 <= k < |r| ==> r[k].at + c.hdr <= r[k].end
  {
    HS.SpliceAt(bs, i, j, mid);
  }

  lemma SpliceApart(bs: seq<Block>, i: nat, j: nat, mid: seq<Block>)
    requires HS.NoFreeNeighbours(bs) && i < j < |bs| && mid != [] && HS.NoFreeNeighbours(mid)
    requires (i > 0 ==> bs[i - 1].used || mid[0].used) && (mid[|mid| - 1].used || bs[j].used)
    ensures HS.NoFreeNeighbours(HS.Splice(bs, i, j, mid))
  {
    var r := HS.Splice(bs, i, j, mid);
    HS.SpliceAt(bs, i, j, mid);
    forall k | 0 <= k < |r| - 1 ensures r[k].used || r[k + 1].used {
      if k + 1 < i {
        assert r[k] == bs[k] && r[k + 1] == bs[k + 1];
      } else if k >= i + |mid| {
        var m := k + j - i - |mid|;
        assert r[k] == bs[m] && r[k + 1] == bs[m + 1];
      } else if i <= k < i + |mid| - 1 {
        assert mid[k - i].used || mid[k - i + 1].used;
      }
    }
  }

  lemma SpliceList(c: Config, bs: seq<Block>, free: seq<nat>, i: nat, j: nat, mid: seq<Block>, free': seq<nat>)
    requires Chain(c, bs) && ListOk(bs, free) && i < j <= |bs| && NoDup(free')
    requires forall p: nat :: p in free' <==> HS.FreeAt(mid, p) || (p in free && !(bs[i].at <= p < bs[j - 1].end))
    ensures ListOk(HS.Splice(bs, i, j, mid), free')
  {
    forall p: nat ensures p in free' <==> HS.FreeAt(HS.Splice(bs, i, j, mid), p) {
      SpliceFree(bs, i, j, mid, c.pool, p);
    }
  }

  lemma ConsNoDup(p: nat, q: seq<nat>)
    requires NoDup(q) && p !in q
    ensures NoDup([p] + q)
  {
  }

  /** A free block is identified by its address, and addresses of free blocks inside a span
      are those of the blocks there. */
  lemma FreeInSpan(c: Config, bs: seq<Block>, i: nat, j: nat, p: nat)
    requires Chain(c, bs) && i < j <= |bs| && HS.FreeAt(bs, p) && bs[i].at <= p < bs[j - 1].end
    ensures exists k :: i <= k < j && bs[k].at == p && !bs[k].used
  {
    HS.TiledPositions(bs, 0, c.pool);
    var k :| 0 <= k < |bs| && bs[k].at == p && !bs[k].used;
  }

  lemma IsFreeAt(bs: seq<Block>, k: nat)
    requires k < |bs| && !bs[k].used
    ensures HS.FreeAt(bs, bs[k].at)
  {
  }

  /** Rows of one and of two blocks. */
  lemma OneRow(c: Config, a: Block)
    requires a.at < a.end
    ensures HS.Tiled([a], a.at, a.end) && FreeBytes(c, [a]) == if a.used then 0 else Size(c, a)
    ensures forall p: nat :: HS.FreeAt([a], p) <==> !a.used && p == a.at
  {
    assert [a][1..] == [];
    assert forall p: nat :: HS.FreeAt([a], p) ==> [a][0].at == p;
    assert !a.used ==> [a][0].at == a.at && HS.FreeAt([a], a.at);
  }

  lemma TwoRow(c: Config, a: Block, b: Block)
    requires a.at < a.end == b.at < b.end
    ensures HS.Tiled([a, b], a.at, b.end) && FreeBytes(c, [a, b]) == FreeBytes(c, [a]) + FreeBytes(c, [b])
    ensures forall p: nat :: HS.FreeAt([a, b], p) <==> HS.FreeAt([a], p) || HS.FreeAt([b], p)
  {
    OneRow(c, a);
    OneRow(c, b);
    assert [a, b] == [a] + [b];
    HS.TiledSplit([a], [b], a.at, a.end, b.end);
    FreeBytesConcat(c, [a], [b]);
    assert [a, b][0] == a && [a, b][1] == b;
  }

  // ----- Every operation keeps the invariant

  lemma CarvedRow(c: Config, b: Block, size: nat)
    requires c.Ok() && b.at + c.hdr <= b.end && !b.used && Size(c, b) >= size
    ensures var mid := Carved(c, b, size);
      && HS.Tiled(mid, b.at, b.end) && HS.NoFreeNeighbours(mid) && mid[0].used
      && (forall k :: 0 <= k < |mid| ==> mid[k].at + c.hdr <= mid[k].end)
      && FreeBytes(c, mid) == Size(c, b) - (if Splits(c, b, size) then size + c.hdr else Size(c, b))
      && (forall p: nat :: HS.FreeAt(mid, p) <==> Splits(c, b, size) && p == b.at + c.hdr + size)
  {
    var mid := Carved(c, b, size);
    OneRow(c, mid[0]);
    if Splits(c, b, size) {
      OneRow(c, mid[1]);
      TwoRow(c, mid[0], mid[1]);
    }
  }

  lemma TakeInv(c: Config, s: State, i: nat, size: nat)
    requires Inv(c, s) && i < |s.blocks| && !s.blocks[i].used && Size(c, s.blocks[i]) >= size
    ensures Inv(c, Take(c, s, i, size))
  {
    var bs, b := s.blocks, s.blocks[i];
    var mid := Carved(c, b, size);
    CarvedRow(c, b, size);
    OneRow(c, b);
    SpliceChain(c, bs, i, i + 1, mid);
    SpliceBytes(c, bs, i, i + 1, mid);
    assert bs[i..i + 1] == [b];
    TakeList(c, s, i, size);
  }

  lemma TakeList(c: Config, s: State, i: nat, size: nat)
    requires Inv(c, s) && i < |s.blocks| && !s.blocks[i].used && Size(c, s.blocks[i]) >= size
    ensures ListOk(Take(c, s, i, size).blocks, Take(c, s, i, size).free)
  {
    var bs, b := s.blocks, s.blocks[i];
    var mid, s' := Carved(c, b, size), Take(c, s, i, size);
    WithoutNoDup(s.free, b.at);
    OneFree(c, bs, i, s.free);
    CarvedRow(c, b, size);
    if Splits(c, b, size) { ConsNoDup(b.at + c.hdr + size, Without(s.free, b.at)); }
    SpliceList(c, bs, s.free, i, i + 1, mid, s'.free);
  }

  /** Inside a free block's span the only free address is its own. */
  lemma OneFree(c: Config, bs: seq<Block>, i: nat, free: seq<nat>)
    requires Chain(c, bs) && ListOk(bs, free) && i < |bs|
    ensures forall p :: p in free && bs[i].at <= p < bs[i].end ==> p == bs[i].at && !bs[i].used
  {
    forall p | p in free && bs[i].at <= p < bs[i].end ensures p == bs[i].at && !bs[i].used {
      FreeInSpan(c, bs, i, i + 1, p);
    }
  }

  // Release

  predicate Releasable(s: State, i: nat) { i + 1 < |s.blocks| && s.blocks[i].used }

  lemma ReleaseSpan(c: Config, bs: seq<Block>, i: nat)
    requires Chain(c, bs) && i + 1 < |bs| && bs[i].used
    ensures var j, e := From(bs, i), To(bs, i);
      && j <= i < e < |bs| && bs[e].used && (j > 0 ==> bs[j - 1].used) && bs[j].at + c.hdr <= bs[e - 1].end
      && Size(c, HS.Block(bs[j].at, bs[e - 1].end, false)) ==
         FreeBytes(c, bs[j..e]) + Size(c, bs[i]) + (if j < i then c.hdr else 0) + (if e > i + 1 then c.hdr else 0)
  {
    var j, e := From(bs, i), To(bs, i);
    HS.TiledPositions(bs, 0, c.pool);
    if e == i + 2 { assert bs[i + 1].used || bs[i + 2].used; }
    assert j > 0 ==> bs[j - 1].used;
    ReleaseBytes(c, bs, i, j, e);
  }

  lemma ReleaseBytes(c: Config, bs: seq<Block>, i: nat, j: nat, e: nat)
    requires i + 1 < |bs| && bs[i].used && j == From(bs, i) && e == To(bs, i)
    requires forall k :: 0 <= k < |bs| ==> bs[k].at < bs[k].end
    ensures FreeBytes(c, bs[j..e]) == (if j < i then Size(c, bs[j]) else 0) + (if e > i + 1 then Size(c, bs[i + 1]) else 0)
  {
    assert bs[j..e] == bs[j..i] + bs[i..e];
    assert bs[i..e] == [bs[i]] + bs[i + 1..e];
    FreeBytesConcat(c, bs[j..i], bs[i..e]);
    FreeBytesConcat(c, [bs[i]], bs[i + 1..e]);
    OneRow(c, bs[i]);
    if j < i { assert bs[j..i] == [bs[j]]; OneRow(c, bs[j]); } else { assert bs[j..i] == []; }
    if e > i + 1 { assert bs[i + 1..e] == [bs[i + 1]]; OneRow(c, bs[i + 1]); } else { assert bs[i + 1..e] == []; }
  }

  lemma ReleaseInv(c: Config, s: State, i: nat)
    requires Inv(c, s) && Releasable(s, i)
    ensures Inv(c, Release(c, s, i))
  {
    var bs := s.blocks;
    var j, e := From(bs, i), To(bs, i);
    var merged := HS.Block(bs[j].at, bs[e - 1].end, false);
    ReleaseSpan(c, bs, i);
    OneRow(c, merged);
    SpliceChain(c, bs, j, e, [merged]);
    SpliceBytes(c, bs, j, e, [merged]);
    ReleaseList(c, s, i);
  }

  lemma ReleaseList(c: Config, s: State, i: nat)
    requires Inv(c, s) && Releasable(s, i)
    ensures ListOk(Release(c, s, i).blocks, Release(c, s, i).free)
  {
    var bs, s' := s.blocks, Release(c, s, i);
    var j, e := From(bs, i), To(bs, i);
    var merged := HS.Block(bs[j].at, bs[e - 1].end, false);
    ReleaseSpan(c, bs, i);
    OneRow(c, merged);
    ReleaseMembers(c, s, i);
    SpliceList(c, bs, s.free, j, e, [merged], s'.free);
  }

  lemma ReleaseMembers(c: Config, s: State, i: nat)
    requires Inv(c, s) && Releasable(s, i)
    ensures var bs, free' := s.blocks, Release(c, s, i).free;
      var j, e := From(bs, i), To(bs, i);
      NoDup(free') && forall p: nat :: p in free' <==> p == bs[j].at || (p in s.free && !(bs[j].at <= p < bs[e - 1].end))
  {
    var bs := s.blocks;
    var j, e := From(bs, i), To(bs, i);
    HS.TiledPositions(bs, 0, c.pool);
    var rest := if e > i + 1 then Without(s.free, bs[i + 1].at) else s.free;
    WithoutNoDup(s.free, bs[i + 1].at);
    OneFree(c, bs, i, s.free);
    if j == i { ConsNoDup(bs[i].at, rest); }
    forall p: nat ensures p in rest <==> (j < i && p == bs[j].at) || (p in s.free && !(bs[j].at <= p < bs[e - 1].end)) {
      RestMember(c, s, i, p);
    }
  }

  lemma RestMember(c: Config, s: State, i: nat, p: nat)
    requires Inv(c, s) && Releasable(s, i)
    ensures var bs := s.blocks;
      var j, e := From(bs, i), To(bs, i);
      var rest := if e > i + 1 then Without(s.free, bs[i + 1].at) else s.free;
      p in rest <==> (j < i && p == bs[j].at) || (p in s.free && !(bs[j].at <= p < bs[e - 1].end))
  {
    var bs := s.blocks;
    var j, e := From(bs, i), To(bs, i);
    HS.TiledPositions(bs, 0, c.pool);
    if j < i { IsFreeAt(bs, j); }
    if p in s.free && bs[j].at <= p < bs[e - 1].end { FreeInSpan(c, bs, j, e, p); }
  }

  // Growing and shrinking in place

  lemma RecutChain(c: Config, bs: seq<Block>, i: nat, cut: nat)
    requires Chain(c, bs) && i + 1 < |bs| && bs[i].used
    requires bs[i].at + c.hdr <= cut && cut + c.hdr <= bs[To(bs, i) - 1].end
    ensures var e := To(bs, i);
      var r := HS.Splice(bs, i, e, Recut(bs, i, e, cut));
      && e < |bs| && Chain(c, r)
      && FreeBytes(c, r) == FreeBytes(c, bs) - (if e == i + 2 then Size(c, bs[i + 1]) else 0) + (bs[e - 1].end - cut - c.hdr)
  {
    var e := To(bs, i);
    NextUsed(c, bs, i);
    var mid := Recut(bs, i, e, cut);
    RowOf(c, mid[0], mid[1]);
    SpliceChain(c, bs, i, e, mid);
    SpliceBytes(c, bs, i, e, mid);
    TailBytes(c, bs, i);
  }

  lemma NextUsed(c: Config, bs: seq<Block>, i: nat)
    requires Chain(c, bs) && i + 1 < |bs|
    ensures To(bs, i) < |bs| && bs[To(bs, i)].used
  {
  }

  lemma GrowInv(c: Config, s: State, i: nat, size: nat)
    requires Inv(c, s) && CanGrow(c, s, i, size)
    ensures Inv(c, Grow(c, s, i, size))
  {
    var bs := s.blocks;
    HS.TiledPositions(bs, 0, c.pool);
    RecutChain(c, bs, i, bs[i].at + c.hdr + size);
    RecutList(c, s, i, bs[i].at + c.hdr + size);
  }

  /** A used block followed by a free one. */
  lemma RowOf(c: Config, a: Block, b: Block)
    requires a.at < a.end == b.at < b.end && a.used && !b.used
    ensures HS.Tiled([a, b], a.at, b.end) && FreeBytes(c, [a, b]) == Size(c, b) && HS.NoFreeNeighbours([a, b])
    ensures forall p: nat :: HS.FreeAt([a, b], p) <==> p == b.at
  {
    OneRow(c, a);
    OneRow(c, b);
    TwoRow(c, a, b);
  }

  /** In the span of a used block and perhaps a free one behind it, only the latter is free. */
  lemma SpanFree(c: Config, bs: seq<Block>, i: nat, e: nat, free: seq<nat>)
    requires Chain(c, bs) && ListOk(bs, free) && i < e <= |bs| && bs[i].used && e <= i + 2
    ensures forall p :: p in free && bs[i].at <= p < bs[e - 1].end ==> e == i + 2 && p == bs[i + 1].at
  {
    forall p | p in free && bs[i].at <= p < bs[e - 1].end ensures e == i + 2 && p == bs[i + 1].at {
      FreeInSpan(c, bs, i, e, p);
    }
  }

  lemma ShrinkInv(c: Config, s: State, i: nat, size: nat)
    requires Inv(c, s) && CanShrink(c, s, i, size)
    ensures Inv(c, Shrink(c, s, i, size))
  {
    var cut := s.blocks[i].at + c.hdr + size;
    ShrinkCut(c, s, i, size);
    RecutChain(c, s.blocks, i, cut);
    RecutList(c, s, i, cut);
  }

  /** Where the cut lies, and that it frees bytes. */
  lemma ShrinkCut(c: Config, s: State, i: nat, size: nat)
    requires Chain(c, s.blocks) && CanShrink(c, s, i, size)
    ensures var bs, cut := s.blocks, s.blocks[i].at + c.hdr + size;
      && bs[i].at + c.hdr <= cut < bs[i + 1].at && cut + c.hdr <= bs[To(bs, i) - 1].end
      && Shrink(c, s, i, size).avail >= s.avail
  {
    HS.TiledPositions(s.blocks, 0, c.pool);
    assert s.blocks[i].end == s.blocks[i + 1].at;
  }

  lemma TailBytes(c: Config, bs: seq<Block>, i: nat)
    requires Chain(c, bs) && i + 1 < |bs| && bs[i].used
    ensures FreeBytes(c, bs[i..To(bs, i)]) == if !bs[i + 1].used then Size(c, bs[i + 1]) else 0
  {
    HS.TiledPositions(bs, 0, c.pool);
    if !bs[i + 1].used {
      RowOf(c, bs[i], bs[i + 1]);
      assert bs[i..i + 2] == [bs[i], bs[i + 1]];
    } else {
      OneRow(c, bs[i]);
      assert bs[i..i + 1] == [bs[i]];
    }
  }

  /** Cutting anew replaces the free neighbour's entry, if any, by the new one's. */
  lemma RecutList(c: Config, s: State, i: nat, cut: nat)
    requires Inv(c, s) && i + 1 < |s.blocks| && s.blocks[i].used
    requires s.blocks[i].at < cut < s.blocks[To(s.blocks, i) - 1].end && cut != s.blocks[i + 1].at
    ensures var bs, e := s.blocks, To(s.blocks, i);
      ListOk(HS.Splice(bs, i, e, Recut(bs, i, e, cut)), [cut] + Others(bs, s.free, i))
  {
    var bs, e := s.blocks, To(s.blocks, i);
    var mid := Recut(bs, i, e, cut);
    HS.TiledPositions(bs, 0, c.pool);
    RowOf(c, mid[0], mid[1]);
    WithoutNoDup(s.free, bs[i + 1].at);
    SpanFree(c, bs, i, e, s.free);
    ConsNoDup(cut, Others(bs, s.free, i));
    SpliceList(c, bs, s.free, i, e, mid, [cut] + Others(bs, s.free, i));
  }
}
