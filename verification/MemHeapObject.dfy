// The block headers of src/memheap.c as they lie in the pool, circularly linked both ways, and
// the functions that rewrite them.
module MemHeapObject {
  import opened Lists
  import opened Options
  import opened MemHeapSpec
  import opened MemHeapRuns
  import Effects = MemHeapEffects

  datatype Item = Item(next: nat, prev: nat, used: bool)

  function NextAt(bs: seq<Block>, k: nat): nat
    requires k < |bs|
  {
    if k + 1 < |bs| then bs[k + 1].at else bs[0].at
  }

  function PrevAt(bs: seq<Block>, k: nat): nat
    requires k < |bs|
  {
    if k > 0 then bs[k - 1].at else bs[|bs| - 1].at
  }

  predicate LinkedAt(items: map<nat, Item>, bs: seq<Block>, k: nat)
    requires k < |bs|
  {
    bs[k].at in items && items[bs[k].at] == Item(NextAt(bs, k), PrevAt(bs, k), bs[k].used)
  }

  ghost predicate Linked(items: map<nat, Item>, bs: seq<Block>) {
    forall k: nat :: k < |bs| ==> LinkedAt(items, bs, k)
  }

  /** The headers after blocks `i` to `j` have been replaced by one or two others: only those
      and the successor's back link are written. */
  function Rewire(items: map<nat, Item>, bs: seq<Block>, i: nat, j: nat, mid: seq<Block>): map<nat, Item>
    requires i < j < |bs| && 1 <= |mid| <= 2 && bs[j].at in items
  {
    var before, succ := PrevAt(bs, i), bs[j].at;
    var it := items[succ := items[succ].(prev := mid[|mid| - 1].at)];
    if |mid| == 1 then it[mid[0].at := Item(succ, before, mid[0].used)]
    else it[mid[0].at := Item(mid[1].at, before, mid[0].used)][mid[1].at := Item(succ, mid[0].at, mid[1].used)]
  }

  lemma Apart(bs: seq<Block>, hi: nat, x: nat, y: nat)
    requires HS.Tiled(bs, 0, hi) && x < y < |bs|
    ensures bs[x].at < bs[x].end <= bs[y].at && (y == x + 1 ==> bs[x].end == bs[y].at)
  {
    HS.TiledPositions(bs, 0, hi);
  }

  /** The replacement starts where the first replaced block did and stays in their span. */
  lemma MidSpan(mid: seq<Block>, lo: nat, hi: nat)
    requires 1 <= |mid| <= 2 && HS.Tiled(mid, lo, hi)
    ensures mid[0].at == lo < hi && (|mid| == 2 ==> lo < mid[1].at < hi)
  {
    HS.TiledPositions(mid, lo, hi);
  }

  lemma SpliceIndex(bs: seq<Block>, i: nat, j: nat, mid: seq<Block>, k: nat)
    requires i <= j <= |bs| && k < |bs| - (j - i) + |mid|
    ensures |HS.Splice(bs, i, j, mid)| == |bs| - (j - i) + |mid|
    ensures HS.Splice(bs, i, j, mid)[k] == if k < i then bs[k] else if k < i + |mid| then mid[k - i] else bs[k + j - i - |mid|]
  {
  }

  /** The neighbours' addresses in the new row. */
  lemma SpliceLinks(bs: seq<Block>, i: nat, j: nat, mid: seq<Block>, k: nat)
    requires i < j < |bs| && 1 <= |mid| <= 2 && mid[0].at == bs[i].at && k < |bs| - (j - i) + |mid|
    ensures var r := HS.Splice(bs, i, j, mid);
      && |r| == |bs| - (j - i) + |mid|
      && NextAt(r, k) == (if k < i then NextAt(bs, k) else if k < i + |mid| - 1 then mid[1].at
                          else if k == i + |mid| - 1 then bs[j].at else NextAt(bs, k + j - i - |mid|))
      && PrevAt(r, k) == (if k <= i then PrevAt(bs, k) else if k < i + |mid| then mid[0].at
                          else if k == i + |mid| then mid[|mid| - 1].at else PrevAt(bs, k + j - i - |mid|))
  {
    var n := |bs| - (j - i) + |mid|;
    SpliceIndex(bs, i, j, mid, 0);
    SpliceIndex(bs, i, j, mid, n - 1);
    SpliceIndex(bs, i, j, mid, k);
    if k + 1 < n { SpliceIndex(bs, i, j, mid, k + 1); }
    if k > 0 { SpliceIndex(bs, i, j, mid, k - 1); }
  }

  /** Blocks in front keep their headers: the first replaced block keeps its address. */
  lemma RewireBefore(hi: nat, items: map<nat, Item>, bs: seq<Block>, i: nat, j: nat, mid: seq<Block>, k: nat)
    requires HS.Tiled(bs, 0, hi) && Linked(items, bs) && i < j < |bs| && 1 <= |mid| <= 2 && bs[j].at in items
    requires HS.Tiled(mid, bs[i].at, bs[j - 1].end) && k < i
    ensures k < |HS.Splice(bs, i, j, mid)| && LinkedAt(Rewire(items, bs, i, j, mid), HS.Splice(bs, i, j, mid), k)
  {
    Apart(bs, hi, k, i);
    Apart(bs, hi, k, j);
    MidSpan(mid, bs[i].at, bs[j - 1].end);
    SpliceIndex(bs, i, j, mid, k);
    SpliceLinks(bs, i, j, mid, k);
    assert LinkedAt(items, bs, k);
  }

  lemma RewireElsewhere(items: map<nat, Item>, bs: seq<Block>, i: nat, j: nat, mid: seq<Block>, a: nat)
    requires i < j < |bs| && 1 <= |mid| <= 2 && bs[j].at in items && a in items
    requires a != mid[0].at && a != mid[|mid| - 1].at
    ensures var it := Rewire(items, bs, i, j, mid);
      a in it && it[a] == if a == bs[j].at then items[a].(prev := mid[|mid| - 1].at) else items[a]
  {
  }

  lemma Distinct(hi: nat, bs: seq<Block>, i: nat, j: nat, mid: seq<Block>, m: nat)
    requires HS.Tiled(bs, 0, hi) && i < j <= m < |bs| && 1 <= |mid| <= 2
    requires HS.Tiled(mid, bs[i].at, bs[j - 1].end)
    ensures mid[0].at == bs[i].at != bs[m].at && mid[|mid| - 1].at != bs[m].at && (m > j ==> bs[m].at != bs[j].at)
  {
    Apart(bs, hi, j - 1, m);
    if m > j { Apart(bs, hi, j, m); }
    MidSpan(mid, bs[i].at, bs[j - 1].end);
  }

  /** Blocks behind keep their headers, but for the successor's back link. */
  lemma RewireOther(items: map<nat, Item>, bs: seq<Block>, i: nat, j: nat, mid: seq<Block>, m: nat)
    requires i < j <= m < |bs| && 1 <= |mid| <= 2 && bs[j].at in items && LinkedAt(items, bs, m)
    requires mid[0].at == bs[i].at != bs[m].at && mid[|mid| - 1].at != bs[m].at && (m > j ==> bs[m].at != bs[j].at)
    ensures var k := m - j + i + |mid|;
      k < |HS.Splice(bs, i, j, mid)| && LinkedAt(Rewire(items, bs, i, j, mid), HS.Splice(bs, i, j, mid), k)
  {
    var k := m - j + i + |mid|;
    SpliceIndex(bs, i, j, mid, k);
    SpliceLinks(bs, i, j, mid, k);
    RewireElsewhere(items, bs, i, j, mid, bs[m].at);
  }

  lemma RewireMid(hi: nat, items: map<nat, Item>, bs: seq<Block>, i: nat, j: nat, mid: seq<Block>, k: nat)
    requires HS.Tiled(bs, 0, hi) && i < j < |bs| && 1 <= |mid| <= 2 && bs[j].at in items
    requires HS.Tiled(mid, bs[i].at, bs[j - 1].end) && i <= k < i + |mid|
    ensures k < |HS.Splice(bs, i, j, mid)| && LinkedAt(Rewire(items, bs, i, j, mid), HS.Splice(bs, i, j, mid), k)
  {
    Apart(bs, hi, j - 1, j);
    MidSpan(mid, bs[i].at, bs[j - 1].end);
    SpliceIndex(bs, i, j, mid, k);
    SpliceLinks(bs, i, j, mid, k);
  }

  lemma RewireLinked(hi: nat, items: map<nat, Item>, bs: seq<Block>, i: nat, j: nat, mid: seq<Block>)
    requires HS.Tiled(bs, 0, hi) && Linked(items, bs) && i < j < |bs| && 1 <= |mid| <= 2
    requires HS.Tiled(mid, bs[i].at, bs[j - 1].end)
    ensures bs[j].at in items && Linked(Rewire(items, bs, i, j, mid), HS.Splice(bs, i, j, mid))
  {
    assert LinkedAt(items, bs, j);
    forall k: nat | k < |HS.Splice(bs, i, j, mid)|
      ensures LinkedAt(Rewire(items, bs, i, j, mid), HS.Splice(bs, i, j, mid), k)
    {
      HS.SpliceAt(bs, i, j, mid);
      if k < i {
        RewireBefore(hi, items, bs, i, j, mid, k);
      } else if k < i + |mid| {
        RewireMid(hi, items, bs, i, j, mid, k);
      } else {
        var m := k + j - i - |mid|;
        Distinct(hi, bs, i, j, mid, m);
        assert LinkedAt(items, bs, m);
        RewireOther(items, bs, i, j, mid, m);
      }
    }
  }

  lemma Absorbed(bs: seq<Block>, j: nat, i: nat, x: Block, y: Block)
    requires j <= i && i + 1 < |bs|
    ensures HS.Splice(HS.Splice(bs, j, i + 1, [x]), j, j + 2, [y]) == HS.Splice(bs, j, i + 2, [y])
  {
    var r := HS.Splice(bs, j, i + 1, [x]);
    HS.SpliceAt(bs, j, i + 1, [x]);
    assert r[..j] == bs[..j];
    assert r[j + 2..] == bs[i + 2..];
  }

  /** Headers strictly inside the merged block no longer matter. */
  ghost predicate SameOutside(it: map<nat, Item>, it': map<nat, Item>, lo: nat, hi: nat) {
    forall a: nat :: a in it && !(lo < a < hi) ==> a in it' && it'[a] == it[a]
  }

  lemma StaleHeaders(hi: nat, it: map<nat, Item>, it': map<nat, Item>, bs: seq<Block>, j: nat, e: nat, mid: seq<Block>)
    requires HS.Tiled(bs, 0, hi) && j < e < |bs| && 1 <= |mid| <= 2 && HS.Tiled(mid, bs[j].at, bs[e - 1].end)
    requires Linked(it, HS.Splice(bs, j, e, mid)) && SameOutside(it, it', mid[|mid| - 1].at, bs[e - 1].end)
    ensures Linked(it', HS.Splice(bs, j, e, mid))
  {
    var r := HS.Splice(bs, j, e, mid);
    MidSpan(mid, bs[j].at, bs[e - 1].end);
    forall k: nat | k < |r| ensures LinkedAt(it', r, k) {
      SpliceIndex(bs, j, e, mid, k);
      assert LinkedAt(it, r, k);
      if k < j { Apart(bs, hi, k, j); } else if k >= j + |mid| { Apart(bs, hi, e - 1, k + e - j - |mid|); }
    }
  }

  class MemHeap {
    const c: Config
    var items: map<nat, Item>
    var freeList: seq<nat>
    var available: int
    var maxUsed: int
    ghost var blocks: seq<Block>

    ghost function S(): State
      reads this
    {
      State(blocks, freeList, available, maxUsed)
    }

    ghost predicate Valid()
      reads this
    {
      Inv(c, S()) && Linked(items, blocks)
    }

    /** rt_memheap_init */
    constructor (cfg: Config)
      requires cfg.Ok()
      ensures Valid() && c == cfg && S() == Initial(cfg)
    {
      c := cfg;
      var tail := cfg.pool - cfg.hdr;
      items := map[0 := Item(tail, tail, false)][tail := Item(0, 0, true)];
      freeList, available, maxUsed := [0], cfg.pool - 2 * cfg.hdr, 2 * cfg.hdr;
      blocks := Initial(cfg).blocks;
      new;
      InitialInv(c);
      assert LinkedAt(items, blocks, 0) && LinkedAt(items, blocks, 1);
    }

    /** MEMITEM_SIZE of any block but the tail. */
    method SizeOf(p: nat) returns (size: int)
      requires Valid() && IndexOf(blocks, p) + 1 < |blocks| && blocks[IndexOf(blocks, p)].at == p
      ensures size == SizeAt(c, blocks, p)
    {
      ghost var i := IndexOf(blocks, p);
      HS.TiledPositions(blocks, 0, c.pool);
      assert LinkedAt(items, blocks, i);
      size := items[p].next - p - c.hdr;
    }

    lemma NotTail(p: nat)
      requires Valid() && p in freeList
      ensures var i := IndexOf(blocks, p); i + 1 < |blocks| && blocks[i].at == p && !blocks[i].used
    {
      FreeIndex(c, S(), p);
    }

    /** rt_memheap_alloc */
    method Allocate(n: nat) returns (r: Option<nat>)
      requires Valid()
      modifies this
      ensures Valid() && S() == Alloc(c, old(S()), n).0 && r == Alloc(c, old(S()), n).1
    {
      AllocInv(c, S(), n);
      var size := Request(c, n);
      if size >= available { return None; }
      var k := 0;
      while k < |freeList|
        invariant Valid() && S() == old(S())
        invariant 0 <= k <= |freeList| && Search(c, blocks, freeList, size) == Search(c, blocks, freeList[k..], size)
      {
        var p := freeList[k];
        assert p in freeList && freeList[k..][0] == p && freeList[k..][1..] == freeList[k + 1..];
        NotTail(p);
        var free := SizeOf(p);
        if free >= size {
          TakeInv(c, S(), IndexOf(blocks, p), size);
          TakeBlock(p, size, free, IndexOf(blocks, p));
          return Some(p + c.hdr);
        }
        k := k + 1;
      }
      r := None;
    }

    method TakeBlock(p: nat, size: nat, free: int, ghost i: nat)
      requires Chain(c, blocks) && Linked(items, blocks) && i + 1 < |blocks| && blocks[i].at == p && !blocks[i].used
      requires free == Size(c, blocks[i]) && free >= size
      modifies this
      ensures Linked(items, blocks) && S() == Take(c, old(S()), i, size)
    {
      ghost var t := Take(c, S(), i, size);
      var split := free >= size + c.hdr + c.mini;
      CarveBlock(p, size, split, i);
      freeList := if split then [p + c.hdr + size] + Without(freeList, p) else Without(freeList, p);
      available := available - if split then size + c.hdr else free;
      if c.pool - available > maxUsed { maxUsed := c.pool - available; }
      assert available == t.avail && freeList == t.free && blocks == t.blocks;
    }

    method CarveBlock(p: nat, size: nat, split: bool, ghost i: nat)
      requires Chain(c, blocks) && Linked(items, blocks) && i + 1 < |blocks| && blocks[i].at == p && !blocks[i].used
      requires Size(c, blocks[i]) >= size && split == Splits(c, blocks[i], size)
      modifies this`items, this`blocks
      ensures Linked(items, blocks) && blocks == HS.Splice(old(blocks), i, i + 1, Carved(c, old(blocks)[i], size))
    {
      ghost var mid := Carved(c, blocks[i], size);
      CarvedRow(c, blocks[i], size);
      RewireLinked(c.pool, items, blocks, i, i + 1, mid);
      assert LinkedAt(items, blocks, i) && LinkedAt(items, blocks, i + 1);
      CarveItem(p, p + c.hdr + size, split, i, mid);
      blocks := HS.Splice(blocks, i, i + 1, mid);
    }

    /** The headers of a block that becomes used, whole or in part. */
    method CarveItem(p: nat, q: nat, split: bool, ghost i: nat, ghost mid: seq<Block>)
      requires i + 1 < |blocks| && blocks[i].at == p && LinkedAt(items, blocks, i) && LinkedAt(items, blocks, i + 1)
      requires mid == if split then [HS.Block(p, q, true), HS.Block(q, blocks[i].end, false)] else [HS.Block(p, blocks[i].end, true)]
      modifies this`items
      ensures items == Rewire(old(items), blocks, i, i + 1, mid)
    {
      var header := items[p];
      if split {
        SplitItem(p, q, header);
      } else {
        items := items[p := header.(used := true)];
      }
    }

    /** The new free header between a block that becomes or stays used and its successor. */
    method SplitItem(p: nat, q: nat, header: Item)
      requires header.next in items
      modifies this`items
      ensures items == old(items)[header.next := old(items)[header.next].(prev := q)][p := header.(next := q, used := true)][q := Item(header.next, p, false)]
    {
      items := items[header.next := items[header.next].(prev := q)];
      items := items[p := header.(next := q, used := true)];
      items := items[q := Item(header.next, p, false)];
    }

    /** rt_memheap_free */
    method Free(ptr: Option<nat>)
      requires Valid() && Returnable(c, S(), ptr)
      modifies this
      ensures Valid() && S() == FreeStep(c, old(S()), ptr)
    {
      if ptr.Some? {
        FreeStepInv(c, S(), ptr);
        LiveIndex(c, S(), ptr.value);
        FreeBlock(ptr.value - c.hdr, IndexAt(c, S(), ptr.value));
      }
    }

    method FreeBlock(p: nat, ghost i: nat)
      requires Chain(c, blocks) && Linked(items, blocks) && i + 1 < |blocks| && blocks[i].at == p && blocks[i].used
      modifies this
      ensures Linked(items, blocks) && S() == Release(c, old(S()), i)
    {
      assert LinkedAt(items, blocks, i) && LinkedAt(items, blocks, i + 1);
      Apart(blocks, c.pool, i, i + 1);
      ghost var t := Release(c, S(), i);
      var after := items[p].next;
      available := available + (after - p - c.hdr);
      var left, right := MergeItems(p, i);
      if left { available := available + c.hdr; }
      if right {
        available := available + c.hdr;
        freeList := Without(freeList, after);
      }
      if !left { freeList := [p] + freeList; }
      assert available == t.avail && freeList == t.free && blocks == t.blocks;
    }

    /** The headers when the block at `p` is freed and merged with free neighbours. */
    method MergeItems(p: nat, ghost i: nat) returns (left: bool, right: bool)
      requires Chain(c, blocks) && Linked(items, blocks) && i + 1 < |blocks| && blocks[i].at == p && blocks[i].used
      modifies this`items, this`blocks
      ensures left == (i > 0 && !old(blocks)[i - 1].used) && right == !old(blocks)[i + 1].used
      ensures var bs := old(blocks);
        var j, e := From(bs, i), To(bs, i);
        Linked(items, blocks) && blocks == HS.Splice(bs, j, e, [HS.Block(bs[j].at, bs[e - 1].end, false)])
    {
      ghost var bs, j := blocks, From(blocks, i);
      var header;
      header, left := MergeLeft(p, i);
      ghost var joined := HS.Block(bs[j].at, bs[i].end, false);
      SpliceIndex(bs, j, i + 1, [joined], j);
      SpliceIndex(bs, j, i + 1, [joined], j + 1);
      SpliceIndex(bs, j, i + 1, [joined], |blocks| - 1);
      right := MergeRight(header, j);
      if right { Absorbed(bs, j, i, joined, HS.Block(bs[j].at, bs[i + 1].end, false)); }
    }

    /** Marks the block free and joins it to a free block in front. */
    method MergeLeft(p: nat, ghost i: nat) returns (header: nat, left: bool)
      requires Chain(c, blocks) && Linked(items, blocks) && i + 1 < |blocks| && blocks[i].at == p && blocks[i].used
      modifies this`items, this`blocks
      ensures left == (i > 0 && !old(blocks)[i - 1].used) && header == old(blocks)[From(old(blocks), i)].at
      ensures var bs, j := old(blocks), From(old(blocks), i);
        blocks == HS.Splice(bs, j, i + 1, [HS.Block(bs[j].at, bs[i].end, false)]) && Linked(items, blocks) && HS.Tiled(blocks, 0, c.pool)
    {
      ghost var j := From(blocks, i);
      ghost var merged := HS.Block(blocks[j].at, blocks[i].end, false);
      HS.TiledPositions(blocks, 0, c.pool);
      OneRow(c, merged);
      RewireLinked(c.pool, items, blocks, j, i + 1, [merged]);
      HS.SpliceTiled(blocks, j, i + 1, [merged], c.pool);
      header, left := LeftHeaders(p, i, merged);
      StaleHeaders(c.pool, Rewire(old(items), blocks, j, i + 1, [merged]), items, blocks, j, i + 1, [merged]);
      blocks := HS.Splice(blocks, j, i + 1, [merged]);
    }

    method LeftHeaders(p: nat, ghost i: nat, ghost merged: Block) returns (header: nat, left: bool)
      requires Chain(c, blocks) && Linked(items, blocks) && i + 1 < |blocks| && blocks[i].at == p && blocks[i].used
      requires merged == HS.Block(blocks[From(blocks, i)].at, blocks[i].end, false) && blocks[i + 1].at in items
      modifies this`items
      ensures left == (i > 0 && !blocks[i - 1].used) && header == merged.at
      ensures SameOutside(Rewire(old(items), blocks, From(blocks, i), i + 1, [merged]), items, merged.at, merged.end)
    {
      Apart(blocks, c.pool, i, i + 1);
      if i > 0 {
        Apart(blocks, c.pool, i - 1, i);
        Apart(blocks, c.pool, i - 1, i + 1);
      }
      assert LinkedAt(items, blocks, i) && LinkedAt(items, blocks, i + 1) && LinkedAt(items, blocks, |blocks| - 1);
      assert i > 0 ==> LinkedAt(items, blocks, i - 1);
      var prev, next := items[p].prev, items[p].next;
      items := items[p := items[p].(used := false)];
      header := p;
      left := !items[prev].used;
      if left {
        items := items[prev := items[prev].(next := next)];
        items := items[next := items[next].(prev := prev)];
        header := prev;
      }
    }

    /** Joins a free block to a free one behind it. */
    method MergeRight(header: nat, ghost j: nat) returns (right: bool)
      requires HS.Tiled(blocks, 0, c.pool) && Linked(items, blocks) && j + 1 < |blocks| && blocks[|blocks| - 1].used
      requires blocks[j].at == header && !blocks[j].used
      modifies this`items, this`blocks
      ensures right == !old(blocks)[j + 1].used && Linked(items, blocks)
      ensures blocks == if right then HS.Splice(old(blocks), j, j + 2, [HS.Block(header, old(blocks)[j + 1].end, false)]) else old(blocks)
    {
      HS.TiledPositions(blocks, 0, c.pool);
      assert LinkedAt(items, blocks, j) && LinkedAt(items, blocks, j + 1);
      var next := items[header].next;
      right := !items[next].used;
      if right {
        ghost var merged := HS.Block(header, blocks[j + 1].end, false);
        OneRow(c, merged);
        RewireLinked(c.pool, items, blocks, j, j + 2, [merged]);
        assert LinkedAt(items, blocks, j + 2);
        var after := items[next].next;
        items := items[after := items[after].(prev := header)];
        items := items[header := items[header].(next := after)];
        assert items == Rewire(old(items), blocks, j, j + 2, [merged]);
        blocks := HS.Splice(blocks, j, j + 2, [merged]);
      }
    }

    // ----- Reallocation in place

    /** Takes over part of a free right neighbour. */
    method GrowBlock(p: nat, size: nat, oldSize: nat, ghost i: nat)
      requires Chain(c, blocks) && Linked(items, blocks) && CanGrow(c, S(), i, size)
      requires blocks[i].at == p && oldSize == Size(c, blocks[i])
      modifies this
      ensures Linked(items, blocks) && S() == Grow(c, old(S()), i, size)
    {
      ghost var t := Grow(c, S(), i, size);
      ghost var cut := p + c.hdr + size;
      NextUsed(c, blocks, i);
      Apart(blocks, c.pool, i, i + 1);
      Apart(blocks, c.pool, i + 1, i + 2);
      RowOf(c, Recut(blocks, i, i + 2, cut)[0], Recut(blocks, i, i + 2, cut)[1]);
      RewireLinked(c.pool, items, blocks, i, i + 2, Recut(blocks, i, i + 2, cut));
      available := available - (size - oldSize);
      if c.pool - available > maxUsed { maxUsed := c.pool - available; }
      assert LinkedAt(items, blocks, i) && LinkedAt(items, blocks, i + 1) && LinkedAt(items, blocks, i + 2);
      var next := items[p].next;
      GrowItems(p, next, p + c.hdr + size, i);
      freeList := [p + c.hdr + size] + Without(freeList, next);
      blocks := HS.Splice(blocks, i, i + 2, Recut(blocks, i, i + 2, cut));
      assert available == t.avail && freeList == t.free && blocks == t.blocks;
    }

    method GrowItems(p: nat, next: nat, q: nat, ghost i: nat)
      requires i + 2 < |blocks| && LinkedAt(items, blocks, i) && LinkedAt(items, blocks, i + 1) && LinkedAt(items, blocks, i + 2)
      requires p == blocks[i].at && next == blocks[i + 1].at && blocks[i].used && q !in {p, next, blocks[i + 2].at}
      requires p != next && p != blocks[i + 2].at && next != blocks[i + 2].at
      modifies this`items
      ensures items == Rewire(old(items), blocks, i, i + 2, Recut(blocks, i, i + 2, q))
    {
      var after, before := items[next].next, items[next].prev;
      items := items[after := items[after].(prev := before)];
      items := items[before := items[before].(next := after)];
      var rest := Item(items[p].next, p, false);
      items := items[q := rest];
      items := items[rest.next := items[rest.next].(prev := q)];
      items := items[p := items[p].(next := q)];
    }

    /** Gives up the end of the block. */
    method ShrinkBlock(p: nat, size: nat, ghost i: nat)
      requires Chain(c, blocks) && Linked(items, blocks) && CanShrink(c, S(), i, size) && blocks[i].at == p
      modifies this
      ensures Linked(items, blocks) && S() == Shrink(c, old(S()), i, size)
    {
      ghost var t := Shrink(c, S(), i, size);
      var q := p + c.hdr + size;
      ShrinkCut(c, S(), i, size);
      NextUsed(c, blocks, i);
      assert LinkedAt(items, blocks, i) && LinkedAt(items, blocks, i + 1) && LinkedAt(items, blocks, To(blocks, i));
      Apart(blocks, c.pool, i, i + 1);
      var next := items[p].next;
      var right := !items[next].used;
      if right {
        Apart(blocks, c.pool, i + 1, i + 2);
        available := available - (items[next].next - next - c.hdr);
        freeList := Without(freeList, next);
      }
      ShrinkItems(p, q, next, i);
      freeList := [q] + freeList;
      available := available + (items[q].next - q - c.hdr);
      assert available == t.avail && freeList == t.free && blocks == t.blocks;
    }

    method ShrinkItems(p: nat, q: nat, next: nat, ghost i: nat)
      requires Chain(c, blocks) && Linked(items, blocks) && i + 1 < |blocks| && blocks[i].at == p && blocks[i].used
      requires next == blocks[i + 1].at && p < q < next && To(blocks, i) < |blocks|
      modifies this`items, this`blocks
      ensures var e := To(old(blocks), i);
        && Linked(items, blocks) && blocks == HS.Splice(old(blocks), i, e, Recut(old(blocks), i, e, q))
        && q in items && items[q].next == old(blocks)[e].at
    {
      ghost var e := To(blocks, i);
      ghost var mid := Recut(blocks, i, e, q);
      Apart(blocks, c.pool, i, i + 1);
      if e == i + 2 { Apart(blocks, c.pool, i + 1, i + 2); Apart(blocks, c.pool, i, i + 2); }
      RowOf(c, mid[0], mid[1]);
      RewireLinked(c.pool, items, blocks, i, e, mid);
      assert LinkedAt(items, blocks, i) && LinkedAt(items, blocks, i + 1) && LinkedAt(items, blocks, e);
      CutItems(p, q, next, i);
      StaleHeaders(c.pool, Rewire(old(items), blocks, i, e, mid), items, blocks, i, e, mid);
      blocks := HS.Splice(blocks, i, e, mid);
    }

    method CutItems(p: nat, q: nat, next: nat, ghost i: nat)
      requires i + 1 < |blocks| && To(blocks, i) < |blocks| && blocks[i].at == p && next == blocks[i + 1].at && blocks[i].used
      requires LinkedAt(items, blocks, i) && LinkedAt(items, blocks, i + 1) && LinkedAt(items, blocks, To(blocks, i))
      requires p < q < next && (To(blocks, i) == i + 2 ==> next < blocks[i + 1].end == blocks[i + 2].at)
      modifies this`items
      ensures var e := To(blocks, i);
        && SameOutside(Rewire(old(items), blocks, i, e, Recut(blocks, i, e, q)), items, q, blocks[e - 1].end)
        && q in items && items[q].next == blocks[e].at
    {
      items := items[q := Item(next, p, false)];
      items := items[next := items[next].(prev := q)];
      items := items[p := items[p].(next := q)];
      if !items[next].used {
        var after := items[next].next;
        items := items[after := items[after].(prev := q)];
        items := items[q := items[q].(next := after)];
      }
    }

    /** rt_memheap_realloc; copying the contents is left to the caller. */
    method Reallocate(ptr: Option<nat>, n: nat) returns (r: Option<nat>)
      requires Valid() && Returnable(c, S(), ptr)
      modifies this
      ensures Valid() && S() == Realloc(c, old(S()), ptr, n).0 && r == Realloc(c, old(S()), ptr, n).1
      ensures n > 0 && r.Some? ==> exists b :: Effects.Owns(c, S(), r.value, b) && Effects.Snug(c, n, b)
      ensures n > 0 && r.None? ==> S() == old(S())
    {
      if n > 0 {
        Effects.ReallocFailsIff(c, S(), ptr, n);
        if Realloc(c, S(), ptr, n).1.Some? { Effects.ReallocOwns(c, S(), ptr, n); }
      }
      if n == 0 {
        Free(ptr);
        return None;
      }
      var size := Request(c, n);
      if ptr.None? {
        r := Allocate(size);
        return;
      }
      r := ResizeBlock(ptr.value, size);
    }

    method ResizeBlock(ptr: nat, size: nat) returns (r: Option<nat>)
      requires Valid() && IsLive(c, S(), ptr)
      modifies this
      ensures Valid() && S() == Resize(c, old(S()), ptr, size).0 && r == Resize(c, old(S()), ptr, size).1
    {
      ResizeInv(c, S(), ptr, size);
      LiveIndex(c, S(), ptr);
      ghost var i := IndexAt(c, S(), ptr);
      var p := ptr - c.hdr;
      Apart(blocks, c.pool, i, i + 1);
      assert LinkedAt(items, blocks, i) && LinkedAt(items, blocks, i + 1);
      var oldSize := items[p].next - p - c.hdr;
      if size > oldSize {
        var grew := TryGrow(p, size, oldSize, i);
        if grew { return Some(ptr); }
        r := MoveBlock(ptr, size);
        return;
      }
      if size + c.hdr + c.mini < oldSize { ShrinkBlock(p, size, i); }
      r := Some(ptr);
    }

    method TryGrow(p: nat, size: nat, oldSize: nat, ghost i: nat) returns (ok: bool)
      requires Valid() && i + 1 < |blocks| && blocks[i].used && blocks[i].at == p && oldSize == Size(c, blocks[i]) && size > oldSize
      modifies this
      ensures ok == CanGrow(c, old(S()), i, size)
      ensures if ok then S() == Grow(c, old(S()), i, size) && Linked(items, blocks) else S() == old(S()) && Valid()
    {
      assert LinkedAt(items, blocks, i) && LinkedAt(items, blocks, i + 1);
      ok := false;
      var next := items[p].next;
      if !items[next].used {
        NextUsed(c, blocks, i);
        Apart(blocks, c.pool, i + 1, i + 2);
        var nextSize := items[next].next - next - c.hdr;
        if nextSize + oldSize > size + c.mini {
          GrowBlock(p, size, oldSize, i);
          ok := true;
        }
      }
    }

    method MoveBlock(ptr: nat, size: nat) returns (r: Option<nat>)
      requires Valid() && IsLive(c, S(), ptr)
      modifies this
      ensures Valid() && S() == Moved(c, old(S()), ptr, size).0 && r == Moved(c, old(S()), ptr, size).1
    {
      ghost var s := S();
      r := Allocate(size);
      if r.Some? {
        StaysLive(c, s, ptr, size);
        Free(Some(ptr));
      }
    }
  }
}
