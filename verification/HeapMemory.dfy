// The code of src/mem.c: headers linked by offsets inside the heap area, changed in place, and
// the bytes around them. Every method is proved to do what HeapSpec says and to leave the
// bytes of live allocations alone.
module HeapMemory {
  import opened Numbers
  import opened Options
  import opened HeapSpec
  import opened HeapTheorems

  type Byte = x: int | 0 <= x < 256

  /** struct heap_mem. */
  datatype Header = Header(used: bool, next: nat, prev: nat)

  /** Block k's header; prev is the inverse of next. */
  ghost predicate LinkedAt(hdr: map<nat, Header>, bs: seq<Block>, k: nat)
    requires k < |bs|
  {
    bs[k].at in hdr && hdr[bs[k].at] == Header(bs[k].used, bs[k].end, if k == 0 then 0 else bs[k - 1].at)
  }

  /** The headers spell out the chain; heap_end closes it, with a prev field that nobody
      maintains. */
  ghost predicate Linked(c: Config, hdr: map<nat, Header>, bs: seq<Block>) {
    && (forall k :: 0 <= k < |bs| ==> LinkedAt(hdr, bs, k))
    && c.End() in hdr && hdr[c.End()].used && hdr[c.End()].next == c.End()
  }

  ghost predicate Good(c: Config, bs: seq<Block>) {
    c.Ok() && Tiled(bs, 0, c.End()) && AllShaped(c, bs)
  }

  lemma NextHeader(c: Config, hdr: map<nat, Header>, bs: seq<Block>, i: nat)
    requires Good(c, bs) && Linked(c, hdr, bs) && i < |bs|
    ensures LinkedAt(hdr, bs, i) && bs[i].at < bs[i].end && bs[i].end in hdr && bs[i].at != c.End()
    ensures i + 1 < |bs| ==> bs[i].end == bs[i + 1].at != c.End() && LinkedAt(hdr, bs, i + 1)
    ensures i + 1 == |bs| ==> bs[i].end == c.End()
    ensures i > 0 ==> bs[i - 1].at < bs[i].at && LinkedAt(hdr, bs, i - 1)
    ensures i == 0 ==> bs[i].at == 0
  {
    TiledPositions(bs, 0, c.End());
    if i + 1 < |bs| { assert LinkedAt(hdr, bs, i + 1); }
  }

  lemma ReplacedLinked(c: Config, hdr: map<nat, Header>, bs: seq<Block>, i: nat, used: bool)
    requires Good(c, bs) && Linked(c, hdr, bs) && i < |bs| && LinkedAt(hdr, bs, i)
    ensures Linked(c, hdr[bs[i].at := hdr[bs[i].at].(used := used)], Splice(bs, i, i + 1, [bs[i].(used := used)]))
  {
    var r, h2 := Splice(bs, i, i + 1, [bs[i].(used := used)]), hdr[bs[i].at := hdr[bs[i].at].(used := used)];
    SpliceAt(bs, i, i + 1, [bs[i].(used := used)]);
    NextHeader(c, hdr, bs, i);
    forall k | 0 <= k < |r| ensures LinkedAt(h2, r, k) {
      assert LinkedAt(hdr, bs, k);
      Positions(bs, c.End(), i, k);
    }
  }

  /** Two neighbours become one: two header writes. */
  ghost function MergeHeaders(hdr: map<nat, Header>, mem: nat, next: nat): map<nat, Header>
    requires mem in hdr && next in hdr
  {
    var one := hdr[mem := hdr[mem].(next := next)];
    one[next := one[next].(prev := mem)]
  }

  lemma MergedLinked(c: Config, hdr: map<nat, Header>, bs: seq<Block>, i: nat)
    requires Good(c, bs) && Linked(c, hdr, bs) && i + 1 < |bs| && !bs[i].used
    ensures bs[i].at in hdr && bs[i + 1].end in hdr
    ensures Linked(c, MergeHeaders(hdr, bs[i].at, bs[i + 1].end), Merged(bs, i))
  {
    var mid := [Block(bs[i].at, bs[i + 1].end, false)];
    SpliceAt(bs, i, i + 2, mid);
    NextHeader(c, hdr, bs, i);
    NextHeader(c, hdr, bs, i + 1);
    var r, h2 := Merged(bs, i), MergeHeaders(hdr, bs[i].at, bs[i + 1].end);
    forall k | 0 <= k < |r| ensures LinkedAt(h2, r, k) {
      var m := if k <= i then k else k + 1;
      assert LinkedAt(hdr, bs, m);
      NextHeader(c, hdr, bs, m);
      Positions(bs, c.End(), i, m);
      if i + 2 < |bs| { Positions(bs, c.End(), i + 2, m); }
    }
  }

  /** One block becomes two: a new header, the old one, and the prev field behind it unless
      that is heap_end. */
  ghost function SplitHeaders(c: Config, hdr: map<nat, Header>, b: Block, cut: nat): map<nat, Header>
    requires b.at in hdr && b.end in hdr
  {
    var two := hdr[cut := Header(false, b.end, b.at)][b.at := Header(true, cut, hdr[b.at].prev)];
    if b.end != c.End() then two[b.end := two[b.end].(prev := cut)] else two
  }

  lemma SplitLinked(c: Config, hdr: map<nat, Header>, bs: seq<Block>, i: nat, cut: nat)
    requires Good(c, bs) && Linked(c, hdr, bs) && i < |bs| && bs[i].at < cut < bs[i].end
    ensures bs[i].at in hdr && bs[i].end in hdr
    ensures Linked(c, SplitHeaders(c, hdr, bs[i], cut),
                   Splice(bs, i, i + 1, [Block(bs[i].at, cut, true), Block(cut, bs[i].end, false)]))
  {
    var mid := [Block(bs[i].at, cut, true), Block(cut, bs[i].end, false)];
    SpliceAt(bs, i, i + 1, mid);
    NextHeader(c, hdr, bs, i);
    Positions(bs, c.End(), i, i);
    var r, h2 := Splice(bs, i, i + 1, mid), SplitHeaders(c, hdr, bs[i], cut);
    forall k | 0 <= k < |r| ensures LinkedAt(h2, r, k) {
      if k != i + 1 {
        var m := if k <= i then k else k - 1;
        assert LinkedAt(hdr, bs, m);
        NextHeader(c, hdr, bs, m);
        Positions(bs, c.End(), i, m);
        if i + 1 < |bs| { Positions(bs, c.End(), i + 1, m); }
      }
    }
  }

  // ----- Bytes

  /** The user bytes of the given blocks are the same in x and y. */
  ghost predicate Kept(c: Config, s: set<Block>, x: seq<Byte>, y: seq<Byte>) {
    |x| == |y| && forall b, j :: b in s && b.at + c.hdr <= j < b.end && j < |x| ==> x[j] == y[j]
  }

  /** x and y differ at most in the header at p. */
  ghost predicate HeaderWrite(c: Config, x: seq<Byte>, y: seq<Byte>, p: nat) {
    |x| == |y| && forall j :: 0 <= j < |x| && (j < p || j >= p + c.hdr) ==> x[j] == y[j]
  }

  /** A header clear of the user range of every block in s. */
  ghost predicate Clear(c: Config, s: set<Block>, p: nat) {
    forall b :: b in s ==> p + c.hdr <= b.at + c.hdr || b.end <= p
  }

  lemma ClearKept(c: Config, s: set<Block>, x: seq<Byte>, y: seq<Byte>, p: nat)
    requires HeaderWrite(c, x, y, p) && Clear(c, s, p)
    ensures Kept(c, s, x, y)
  {
  }

  /** The headers of a chain, and any place inside one of its free blocks, are clear of all
      its live ranges. */
  lemma HeadersClear(c: Config, bs: seq<Block>)
    requires Good(c, bs)
    ensures forall k :: 0 <= k < |bs| ==> Clear(c, Live(bs), bs[k].at) && Clear(c, Live(bs), bs[k].end)
    ensures forall k, p: nat :: 0 <= k < |bs| && !bs[k].used && bs[k].at <= p && p + c.hdr <= bs[k].end ==> Clear(c, Live(bs), p)
  {
    TiledPositions(bs, 0, c.End());
    forall k | 0 <= k < |bs| ensures Clear(c, Live(bs), bs[k].at) && Clear(c, Live(bs), bs[k].end) {
      forall b | b in Live(bs)
        ensures bs[k].at <= b.at || b.end <= bs[k].at
        ensures bs[k].end <= b.at || b.end <= bs[k].end
      {
        var m :| 0 <= m < |bs| && bs[m] == b;
        Positions(bs, c.End(), k, m);
      }
    }
    forall k, p: nat | 0 <= k < |bs| && !bs[k].used && bs[k].at <= p && p + c.hdr <= bs[k].end
      ensures Clear(c, Live(bs), p)
    {
      forall b | b in Live(bs) ensures p <= b.at || b.end <= p {
        var m :| 0 <= m < |bs| && bs[m] == b;
        Positions(bs, c.End(), k, m);
      }
    }
  }

  lemma KeptTransitive(c: Config, s: set<Block>, x: seq<Byte>, y: seq<Byte>, z: seq<Byte>)
    requires Kept(c, s, x, y) && Kept(c, s, y, z)
    ensures Kept(c, s, x, z)
  {
  }

  ghost function OffsetAt(c: Config, bs: seq<Block>, i: nat): nat {
    if i < |bs| then bs[i].at else c.End()
  }

  class SmallHeap {
    const c: Config
    const data: array<Byte>
    var hdr: map<nat, Header>
    var lfree: nat
    var usedMem: int
    var maxMem: int
    /** The chain these fields stand for. */
    ghost var h: Heap

    /** The fields stand for h, which may be in the middle of an operation. */
    ghost predicate Stands()
      reads this
    {
      && data.Length == c.End() + c.hdr
      && Good(c, h.blocks) && Linked(c, hdr, h.blocks)
      && lfree == h.lfree && usedMem == h.usedMem && maxMem == h.maxMem
    }

    ghost predicate Valid()
      reads this
    {
      Stands() && Inv(c, h)
    }

    /** rt_system_heap_init on an area big enough for the configuration. */
    constructor (c: Config)
      requires c.Ok()
      ensures Valid() && this.c == c && h == Initial(c) && LowestFree(h) && fresh(data)
    {
      this.c := c;
      data := new Byte[c.End() + c.hdr](_ => 0);
      hdr := map[0 := Header(false, c.End(), 0), c.End() := Header(true, c.End(), c.End())];
      lfree, usedMem, maxMem := 0, 0, 0;
      h := Initial(c);
      new;
      InitialInv(c);
    }

    /** Any store to a header field; it may disturb exactly the bytes of that header. */
    method Write(p: nat, x: Header)
      requires p + c.hdr <= data.Length
      modifies this`hdr, data
      ensures hdr == old(hdr)[p := x]
      ensures HeaderWrite(c, old(data[..]), data[..], p)
    {
      ghost var headers := hdr;
      var j := p;
      while j < p + c.hdr
        invariant p <= j <= p + c.hdr && hdr == headers
        invariant HeaderWrite(c, old(data[..]), data[..], p)
      {
        data[j] := *;
        j := j + 1;
      }
      hdr := hdr[p := x];
    }

    /** The two stores that join the block at mem to everything up to `next`. */
    method Join(mem: nat, next: nat, ghost s: set<Block>)
      requires mem in hdr && next in hdr && mem + c.hdr <= data.Length && next + c.hdr <= data.Length
      requires Clear(c, s, mem) && Clear(c, s, next)
      modifies this`hdr, data
      ensures hdr == MergeHeaders(old(hdr), mem, next)
      ensures Kept(c, s, old(data[..]), data[..])
    {
      Write(mem, hdr[mem].(next := next));
      ghost var half := data[..];
      ClearKept(c, s, old(data[..]), half, mem);
      Write(next, hdr[next].(prev := mem));
      ClearKept(c, s, half, data[..], next);
      KeptTransitive(c, s, old(data[..]), half, data[..]);
    }

    /** plug_holes, forward half. */
    method PlugForward(mem: nat, ghost i: nat)
      requires Stands() && Near(c, h.blocks, i) && Counted(c, h) && mem == h.blocks[i].at
      modifies this, data
      ensures Stands() && h == MergeNext(old(h), i)
      ensures Kept(c, Live(old(h.blocks)), old(data[..]), data[..])
    {
      NextHeader(c, hdr, h.blocks, i);
      var nmem := hdr[mem].next;
      if mem != nmem && !hdr[nmem].used && nmem != c.End() {
        MergeFacts(c, hdr, h.blocks, i);
        if lfree == nmem {
          lfree := mem;
        }
        Join(mem, hdr[nmem].next, Live(h.blocks));
        h := MergeNext(h, i);
      }
    }

    /** plug_holes, backward half. */
    method PlugBackward(mem: nat, ghost i: nat)
      requires Stands() && Near(c, h.blocks, i) && Counted(c, h) && mem == h.blocks[i].at
      modifies this, data
      ensures Stands() && h == MergePrev(old(h), i)
      ensures Kept(c, Live(old(h.blocks)), old(data[..]), data[..])
    {
      NextHeader(c, hdr, h.blocks, i);
      var pmem := hdr[mem].prev;
      if pmem != mem && !hdr[pmem].used {
        MergeFacts(c, hdr, h.blocks, i - 1);
        if lfree == mem {
          lfree := pmem;
        }
        Join(pmem, hdr[mem].next, Live(h.blocks));
        h := MergePrev(h, i);
      }
    }

    /** plug_holes. */
    method PlugHoles(mem: nat, ghost i: nat)
      requires Stands() && Near(c, h.blocks, i) && Counted(c, h) && mem == h.blocks[i].at
      modifies this, data
      ensures Valid() && h == HeapSpec.PlugHoles(old(h), i)
      ensures Kept(c, Live(old(h.blocks)), old(data[..]), data[..])
    {
      ghost var live := Live(h.blocks);
      PlugHolesInv(c, h, i);
      LivePlug(c, h, i);
      MergeNextNear(c, h, i);
      MergeNextLive(c, h, i);
      PlugForward(mem, i);
      ghost var half := data[..];
      PlugBackward(mem, i);
      KeptTransitive(c, live, old(data[..]), half, data[..]);
    }

    method MarkFree(mem: nat, ghost i: nat)
      requires Valid() && i < |h.blocks| && h.blocks[i].used && mem == h.blocks[i].at
      modifies this, data
      ensures Stands() && h == Freed(old(h), i)
      ensures Kept(c, Live(old(h.blocks)), old(data[..]), data[..])
    {
      NextHeader(c, hdr, h.blocks, i);
      ReplacedLinked(c, hdr, h.blocks, i, false);
      FreedNear(c, h, i);
      HeadersClear(c, h.blocks);
      Positions(h.blocks, c.End(), i, i);
      Write(mem, hdr[mem].(used := false));
      ClearKept(c, Live(h.blocks), old(data[..]), data[..], mem);
      if mem < lfree {
        lfree := mem;
      }
      usedMem := usedMem - (hdr[mem].next - mem);
      h := Freed(h, i);
    }

    /** rt_free. */
    method Free(rmem: Option<nat>)
      requires Valid() && Legal(c, h, OpFree(rmem))
      modifies this, data
      ensures Valid() && h == Step(c, old(h), OpFree(rmem))
      ensures Kept(c, Live(h.blocks), old(data[..]), data[..])
    {
      if rmem.Some? {
        Release(rmem.value);
      }
    }

    method Release(rmem: nat)
      requires Valid() && LivePtr(c, h, rmem)
      modifies this, data
      ensures Valid() && h == HeapSpec.Free(old(h), Index(c, old(h), rmem))
      ensures Kept(c, Live(h.blocks), old(data[..]), data[..])
    {
      ghost var i := Index(c, h, rmem);
      FreedNear(c, h, i);
      FreedLive(c, h, i);
      FreeLive(c, h, i);
      MarkFree(rmem - c.hdr, i);
      ghost var half := data[..];
      PlugHoles(rmem - c.hdr, i);
      KeptTransitive(c, Live(h.blocks), old(data[..]), half, data[..]);
    }

    /** The three stores that cut the block at mem in two at ptr2. */
    method Split(mem: nat, ptr2: nat, end: nat, ghost s: set<Block>)
      requires mem in hdr && end in hdr && mem < ptr2 < end && mem + c.hdr <= data.Length
      requires ptr2 + c.hdr <= data.Length && end + c.hdr <= data.Length && hdr[mem].next == end
      requires Clear(c, s, mem) && Clear(c, s, ptr2) && Clear(c, s, end)
      modifies this`hdr, data
      ensures hdr == SplitHeaders(c, old(hdr), Block(mem, end, true), ptr2)
      ensures Kept(c, s, old(data[..]), data[..])
    {
      Write(ptr2, Header(false, end, mem));
      ghost var d1 := data[..];
      ClearKept(c, s, old(data[..]), d1, ptr2);
      Write(mem, hdr[mem].(next := ptr2, used := true));
      ghost var d2 := data[..];
      ClearKept(c, s, d1, d2, mem);
      KeptTransitive(c, s, old(data[..]), d1, d2);
      if hdr[ptr2].next != c.End() {
        Write(end, hdr[end].(prev := ptr2));
        ClearKept(c, s, d2, data[..], end);
        KeptTransitive(c, s, old(data[..]), d2, data[..]);
      }
    }

    /** The block that rt_malloc settled on: split or taken whole. */
    method TakeBlock(mem: nat, size: nat, ghost i: nat)
      requires Valid() && i < |h.blocks| && !h.blocks[i].used && mem == h.blocks[i].at
      requires size > 0 && c.Aligned(size) && Room(c, h.blocks[i]) >= size
      modifies this, data
      ensures Valid() && h == Take(c, old(h), i, size)
      ensures Kept(c, Live(old(h.blocks)), old(data[..]), data[..])
    {
      ghost var after := Take(c, h, i, size);
      TakeInv(c, h, i, size);
      Carve(mem, size, i);
      if maxMem < usedMem {
        maxMem := usedMem;
      }
      if mem == lfree {
        AdvanceFree(after.blocks, i);
      }
      h := after;
    }

    method Carve(mem: nat, size: nat, ghost i: nat)
      requires Valid() && i < |h.blocks| && !h.blocks[i].used && mem == h.blocks[i].at
      requires size > 0 && c.Aligned(size) && Room(c, h.blocks[i]) >= size
      modifies this`hdr, this`usedMem, data
      ensures Linked(c, hdr, Take(c, h, i, size).blocks) && usedMem == Take(c, h, i, size).usedMem
      ensures Kept(c, Live(h.blocks), old(data[..]), data[..])
    {
      NextHeader(c, hdr, h.blocks, i);
      Positions(h.blocks, c.End(), i, i);
      if hdr[mem].next - (mem + c.hdr) >= size + c.hdr + c.MinAligned() {
        CarveSplit(mem, size, i);
      } else {
        CarveWhole(mem, i);
      }
    }

    /** The block is cut in two; its first part is used. */
    method CarveSplit(mem: nat, size: nat, ghost i: nat)
      requires Valid() && i < |h.blocks| && !h.blocks[i].used && mem == h.blocks[i].at
      requires size + c.hdr < Room(c, h.blocks[i])
      modifies this`hdr, this`usedMem, data
      ensures var b, cut := h.blocks[i], mem + c.hdr + size;
        Linked(c, hdr, Splice(h.blocks, i, i + 1, [Block(mem, cut, true), Block(cut, b.end, false)]))
      ensures usedMem == old(usedMem) + (size + c.hdr)
      ensures Kept(c, Live(h.blocks), old(data[..]), data[..])
    {
      var ptr2 := mem + c.hdr + size;
      NextHeader(c, hdr, h.blocks, i);
      Positions(h.blocks, c.End(), i, i);
      HeadersClear(c, h.blocks);
      SplitLinked(c, hdr, h.blocks, i, ptr2);
      Split(mem, ptr2, hdr[mem].next, Live(h.blocks));
      usedMem := usedMem + (size + c.hdr);
    }

    /** The remainder would be too small to stand alone: the whole block is used. */
    method CarveWhole(mem: nat, ghost i: nat)
      requires Valid() && i < |h.blocks| && !h.blocks[i].used && mem == h.blocks[i].at
      modifies this`hdr, this`usedMem, data
      ensures Linked(c, hdr, Splice(h.blocks, i, i + 1, [h.blocks[i].(used := true)]))
      ensures usedMem == old(usedMem) + (h.blocks[i].end - mem)
      ensures Kept(c, Live(h.blocks), old(data[..]), data[..])
    {
      NextHeader(c, hdr, h.blocks, i);
      HeadersClear(c, h.blocks);
      Positions(h.blocks, c.End(), i, i);
      ReplacedLinked(c, hdr, h.blocks, i, true);
      Write(mem, hdr[mem].(used := true));
      ClearKept(c, Live(h.blocks), old(data[..]), data[..], mem);
      usedMem := usedMem + (hdr[mem].next - mem);
    }

    /** The search for the next free block that follows the allocation of the lowest one. */
    method AdvanceFree(ghost bs: seq<Block>, ghost start: nat)
      requires Good(c, bs) && Linked(c, hdr, bs) && start < |bs| && lfree == bs[start].at
      modifies this`lfree
      ensures lfree == NextFree(c, bs, start)
    {
      ghost var k := start;
      assert LinkedAt(hdr, bs, start);
      while hdr[lfree].used && lfree != c.End()
        invariant start <= k <= |bs| && lfree == OffsetAt(c, bs, k) && lfree in hdr
        invariant NextFree(c, bs, k) == NextFree(c, bs, start)
        decreases |bs| - k
      {
        assert k < |bs|;
        NextHeader(c, hdr, bs, k);
        lfree := hdr[lfree].next;
        k := k + 1;
      }
      if k < |bs| { NextHeader(c, hdr, bs, k); }
    }

    /** The scan of rt_malloc, header by header from lfree. */
    method Scan(size: nat) returns (found: bool, ptr: nat, ghost i: nat)
      requires Valid()
      ensures var fit := FirstFit(c, h.blocks, IndexAt(h.blocks, h.lfree), size);
        found == fit.Some? && (found ==> ptr == h.blocks[fit.value].at)
      ensures found ==> i < |h.blocks| && Some(i) == FirstFit(c, h.blocks, IndexAt(h.blocks, h.lfree), size)
    {
      ptr := lfree;
      ghost var first := IndexAt(h.blocks, h.lfree);
      i := first;
      FreeOffset(c, h);
      while ptr < c.memSize - size
        invariant first <= i <= |h.blocks| && ptr == OffsetAt(c, h.blocks, i)
        invariant FirstFit(c, h.blocks, i, size) == FirstFit(c, h.blocks, first, size)
        decreases |h.blocks| - i
      {
        assert i < |h.blocks|;
        NextHeader(c, hdr, h.blocks, i);
        var mem := hdr[ptr];
        if !mem.used && mem.next - (ptr + c.hdr) >= size {
          return true, ptr, i;
        }
        ptr := mem.next;
        i := i + 1;
      }
      found := false;
    }

    /** rt_malloc. */
    method Malloc(n: nat) returns (p: Option<nat>)
      requires Valid() && Scannable(c, n)
      modifies this, data
      ensures Valid() && (h, p) == HeapSpec.Malloc(c, old(h), n)
      ensures Kept(c, Live(old(h.blocks)), old(data[..]), data[..])
    {
      if n == 0 {
        return None;
      }
      var size := c.AlignUp(n);
      if size > c.memSize {
        return None;
      }
      if size < c.MinAligned() {
        size := c.MinAligned();
      }
      RequestShape(c, n);
      var found, ptr, i := Scan(size);
      if !found {
        return None;
      }
      TakeBlock(ptr, size, i);
      return Some(ptr + c.hdr);
    }

    /** rt_memcpy between two allocations. */
    method Copy(to: nat, from: nat, len: nat)
      requires from + len <= data.Length && to + len <= data.Length
      requires from + len <= to || to + len <= from
      modifies data
      ensures data[to..to + len] == old(data[from..from + len])
      ensures forall j :: 0 <= j < data.Length && (j < to || j >= to + len) ==> data[j] == old(data[j])
    {
      var k := 0;
      while k < len
        invariant 0 <= k <= len
        invariant data[to..to + k] == old(data[from..from + k])
        invariant forall j :: 0 <= j < data.Length && (j < to || j >= to + k) ==> data[j] == old(data[j])
      {
        data[to + k] := data[from + k];
        k := k + 1;
      }
    }

    /** The in-place shrink of rt_realloc. */
    method ShrinkBlock(rmem: nat, size: nat, ghost i: nat)
      requires Valid() && i < |h.blocks| && h.blocks[i].used && rmem == h.blocks[i].at + c.hdr
      requires size > 0 && c.Aligned(size) && Shrinks(c, h.blocks[i], size)
      modifies this, data
      ensures Valid() && h == Shrink(c, old(h), i, size)
      ensures Kept(c, Live(h.blocks), old(data[..]), data[..])
      ensures Copied(old(data[..]), rmem, data[..], rmem, size)
    {
      ghost var b := Block(rmem - c.hdr, rmem + size, true);
      ShrunkBytes(c, h, i, size);
      Positions(h.blocks, c.End(), i, i);
      CutAndPlug(rmem, size, i);
      KeptAt(c, Live(h.blocks), old(data[..]), data[..], b, rmem, size);
    }

    method CutAndPlug(rmem: nat, size: nat, ghost i: nat)
      requires Valid() && i < |h.blocks| && h.blocks[i].used && rmem == h.blocks[i].at + c.hdr
      requires size > 0 && c.Aligned(size) && Shrinks(c, h.blocks[i], size)
      modifies this, data
      ensures Valid() && h == Shrink(c, old(h), i, size)
      ensures Kept(c, Live(h.blocks), old(data[..]), data[..])
    {
      CutNear(c, h, i, size);
      CutBlock(rmem - c.hdr, size, i);
      ghost var half := data[..];
      LivePlug(c, h, i + 1);
      PlugHoles(rmem + size, i + 1);
      KeptTransitive(c, Live(h.blocks), old(data[..]), half, data[..]);
    }

    method CutBlock(mem: nat, size: nat, ghost i: nat)
      requires Valid() && i < |h.blocks| && h.blocks[i].used && mem == h.blocks[i].at
      requires size > 0 && c.Aligned(size) && Shrinks(c, h.blocks[i], size)
      modifies this, data
      ensures Stands() && h == Cut(c, old(h), i, size)
      ensures i + 1 < |h.blocks| && h.blocks[i + 1].at == mem + c.hdr + size
      ensures Kept(c, Live(h.blocks), old(data[..]), data[..])
    {
      var ptr2 := mem + c.hdr + size;
      ghost var after := Cut(c, h, i, size);
      CutFacts(c, h, hdr, i, size);
      usedMem := usedMem - (hdr[mem].next - mem - c.hdr - size);
      Split(mem, ptr2, hdr[mem].next, Live(after.blocks));
      h := after;
    }

    /** rt_realloc. */
    method Realloc(rmem: Option<int>, n: nat) returns (r: Option<int>)
      requires Valid() && Legal(c, h, OpRealloc(rmem, n))
      modifies this, data
      ensures Valid() && (h, r) == HeapTheorems.Realloc(c, old(h), rmem, n)
      ensures Kept(c, Live(old(h.blocks)) * Live(h.blocks), old(data[..]), data[..])
      ensures rmem.Some? && !Outside(c, rmem.value) && r.Some? ==>
        LivePtr(c, old(h), rmem.value) && r.value >= 0 &&
        Copied(old(data[..]), rmem.value, data[..], r.value,
               Min(Room(c, old(h).blocks[Index(c, old(h), rmem.value)]), c.AlignUp(n)))
    {
      var size := c.AlignUp(n);
      if size > c.memSize {
        return None;
      }
      if size == 0 {
        if rmem.Some? {
          Release(rmem.value);
        }
        return None;
      }
      if rmem.None? {
        r := Malloc(size);
        return;
      }
      if rmem.value < 0 || rmem.value >= c.End() {
        return rmem;
      }
      r := Resize(rmem.value, size);
    }

    method Resize(rmem: nat, size: nat) returns (r: Option<nat>)
      requires Valid() && LivePtr(c, h, rmem) && c.Aligned(size) && 0 < size <= c.memSize && Scannable(c, size)
      modifies this, data
      ensures Valid() && (h, r) == HeapTheorems.Resize(c, old(h), rmem, size)
      ensures Kept(c, Live(old(h.blocks)) * Live(h.blocks), old(data[..]), data[..])
      ensures r.Some? ==>
        Copied(old(data[..]), rmem, data[..], r.value, Min(Room(c, old(h).blocks[Index(c, old(h), rmem)]), size))
    {
      var mem := rmem - c.hdr;
      ghost var i := Index(c, h, rmem);
      NextHeader(c, hdr, h.blocks, i);
      Positions(h.blocks, c.End(), i, i);
      var room := hdr[mem].next - mem - c.hdr;
      if room == size {
        return Some(rmem);
      }
      if size + c.hdr + c.minSize < room {
        ShrinkBlock(rmem, size, i);
        return Some(rmem);
      }
      r := Move(rmem, size, room);
    }

    /** The expanding path: allocate, copy, free. */
    method Move(rmem: nat, size: nat, room: nat) returns (r: Option<nat>)
      requires Valid() && LivePtr(c, h, rmem) && c.Aligned(size) && 0 < size <= c.memSize && Scannable(c, size)
      requires room == Room(c, h.blocks[Index(c, h, rmem)])
      modifies this, data
      ensures Valid() && r == HeapSpec.Malloc(c, old(h), size).1
      ensures r.None? ==> h == old(h) && Kept(c, Live(h.blocks), old(data[..]), data[..])
      ensures r.Some? ==>
        var h' := HeapSpec.Malloc(c, old(h), size).0;
        && Inv(c, h') && LivePtr(c, h', rmem) && h == HeapSpec.Free(h', Index(c, h', rmem))
        && Kept(c, Live(old(h.blocks)) * Live(h.blocks), old(data[..]), data[..])
        && Copied(old(data[..]), rmem, data[..], r.value, Min(room, size))
    {
      ghost var b := h.blocks[Index(c, h, rmem)];
      ghost var before := h;
      MallocInv(c, h, size);
      r := Malloc(size);
      if r.None? {
        return;
      }
      ghost var nb := NewBlock(c, before, size, rmem);
      Positions(before.blocks, c.End(), Index(c, before, rmem), Index(c, before, rmem));
      CopyAndFree(rmem, r.value, if room < size then room else size, Live(before.blocks), b, nb, old(data[..]));
    }

    method CopyAndFree(rmem: nat, to: nat, len: nat, ghost was: set<Block>, ghost b: Block, ghost nb: Block, ghost d0: seq<Byte>)
      requires Valid() && LivePtr(c, h, rmem) && h.blocks[Index(c, h, rmem)] == b
      requires b in was && nb !in was && Live(h.blocks) == was + {nb}
      requires rmem == b.at + c.hdr && rmem + len <= b.end <= c.End()
      requires to == nb.at + c.hdr && to + len <= nb.end <= c.End()
      requires forall a :: a in was ==> a.end <= nb.at || nb.end <= a.at
      requires Kept(c, was, d0, data[..])
      modifies this, data
      ensures Valid() && h == HeapSpec.Free(old(h), Index(c, old(h), rmem))
      ensures Kept(c, was * Live(h.blocks), d0, data[..]) && Copied(d0, rmem, data[..], to, len)
    {
      CopyInto(rmem, to, len, was, b, nb, d0);
      FreeMoved(rmem, to, len, was, b, nb, d0);
    }

    method FreeMoved(rmem: nat, ghost to: nat, ghost len: nat, ghost was: set<Block>, ghost b: Block, ghost nb: Block, ghost d0: seq<Byte>)
      requires Valid() && LivePtr(c, h, rmem) && h.blocks[Index(c, h, rmem)] == b && rmem == b.at + c.hdr
      requires b in was && nb !in was && Live(h.blocks) == was + {nb}
      requires to == nb.at + c.hdr && to + len <= nb.end <= c.End()
      requires Kept(c, was, d0, data[..]) && Copied(d0, rmem, data[..], to, len)
      modifies this, data
      ensures Valid() && h == HeapSpec.Free(old(h), Index(c, old(h), rmem))
      ensures Kept(c, was * Live(h.blocks), d0, data[..]) && Copied(d0, rmem, data[..], to, len)
    {
      ghost var d1 := data[..];
      FreeLive(c, h, Index(c, h, rmem));
      Release(rmem);
      StillThere(c, was, Live(h.blocks), nb, to, d0, d1, data[..], rmem, len);
    }

    method CopyInto(rmem: nat, to: nat, len: nat, ghost live: set<Block>, ghost b: Block, ghost nb: Block, ghost d0: seq<Byte>)
      requires b in live && rmem == b.at + c.hdr && rmem + len <= b.end <= data.Length
      requires to == nb.at + c.hdr && to + len <= nb.end <= data.Length
      requires forall a :: a in live ==> a.end <= nb.at || nb.end <= a.at
      requires Kept(c, live, d0, data[..])
      modifies data
      ensures Kept(c, live, d0, data[..]) && Copied(d0, rmem, data[..], to, len)
    {
      ghost var d1 := data[..];
      Copy(to, rmem, len);
      KeptBytes(c, live, d0, d1, b, len);
      CopyKept(c, live, nb, d1, data[..], to, len);
      KeptTransitive(c, live, d0, d1, data[..]);
    }
  }

  lemma MergeFacts(c: Config, hdr: map<nat, Header>, bs: seq<Block>, i: nat)
    requires Good(c, bs) && Linked(c, hdr, bs) && i + 1 < |bs| && !bs[i].used
    ensures LinkedAt(hdr, bs, i) && LinkedAt(hdr, bs, i + 1) && bs[i + 1].end in hdr && bs[i + 1].end <= c.End()
    ensures bs[i].at < bs[i].end == bs[i + 1].at < bs[i + 1].end
    ensures Good(c, Merged(bs, i)) && Linked(c, MergeHeaders(hdr, bs[i].at, bs[i + 1].end), Merged(bs, i))
    ensures Clear(c, Live(bs), bs[i].at) && Clear(c, Live(bs), bs[i + 1].end)
  {
    NextHeader(c, hdr, bs, i);
    MergedTiled(c, bs, i);
    MergedLinked(c, hdr, bs, i);
    HeadersClear(c, bs);
    Positions(bs, c.End(), i + 1, i);
  }

  lemma CutFacts(c: Config, h: Heap, hdr: map<nat, Header>, i: nat, size: nat)
    requires Inv(c, h) && Linked(c, hdr, h.blocks) && i < |h.blocks| && h.blocks[i].used
    requires size > 0 && c.Aligned(size) && Shrinks(c, h.blocks[i], size)
    ensures var b, bs := h.blocks[i], Cut(c, h, i, size).blocks;
      var cut := b.at + c.hdr + size;
      && LinkedAt(hdr, h.blocks, i) && b.end in hdr && b.at < cut < b.end <= c.End()
      && i + 1 < |bs| && bs[i + 1].at == cut
      && Good(c, bs) && Linked(c, SplitHeaders(c, hdr, b, cut), bs)
      && Clear(c, Live(bs), b.at) && Clear(c, Live(bs), cut) && Clear(c, Live(bs), b.end)
  {
    CutLinked(c, h, hdr, i, size);
    PairClear(c, Cut(c, h, i, size).blocks, i);
  }

  lemma CutLinked(c: Config, h: Heap, hdr: map<nat, Header>, i: nat, size: nat)
    requires Inv(c, h) && Linked(c, hdr, h.blocks) && i < |h.blocks| && h.blocks[i].used
    requires size > 0 && c.Aligned(size) && Shrinks(c, h.blocks[i], size)
    ensures var b, bs := h.blocks[i], Cut(c, h, i, size).blocks;
      var cut := b.at + c.hdr + size;
      && LinkedAt(hdr, h.blocks, i) && b.end in hdr && b.at < cut < b.end <= c.End()
      && i + 1 < |bs| && bs[i].at == b.at && bs[i + 1].at == cut && bs[i + 1].end == b.end
      && Good(c, bs) && Linked(c, SplitHeaders(c, hdr, b, cut), bs)
  {
    CutNear(c, h, i, size);
    CutBlocks(c, h, i, size);
    NextHeader(c, hdr, h.blocks, i);
    SplitLinked(c, hdr, h.blocks, i, h.blocks[i].at + c.hdr + size);
    Positions(h.blocks, c.End(), i, i);
  }

  lemma PairClear(c: Config, bs: seq<Block>, i: nat)
    requires Good(c, bs) && i + 1 < |bs|
    ensures Clear(c, Live(bs), bs[i].at) && Clear(c, Live(bs), bs[i + 1].at) && Clear(c, Live(bs), bs[i + 1].end)
  {
    HeadersClear(c, bs);
  }

  ghost predicate Copied(x: seq<Byte>, from: nat, y: seq<Byte>, to: nat, len: int) {
    0 <= len && from + len <= |x| && to + len <= |y| && y[to..to + len] == x[from..from + len]
  }

  lemma KeptBytes(c: Config, s: set<Block>, x: seq<Byte>, y: seq<Byte>, b: Block, len: nat)
    requires Kept(c, s, x, y) && b in s && b.at + c.hdr + len <= b.end <= |x|
    ensures Copied(x, b.at + c.hdr, y, b.at + c.hdr, len)
  {
  }

  lemma KeptAt(c: Config, live: set<Block>, d0: seq<Byte>, d1: seq<Byte>, b: Block, at: nat, len: nat)
    requires Kept(c, live, d0, d1) && b in live && at == b.at + c.hdr && at + len <= b.end <= |d0|
    ensures Copied(d0, at, d1, at, len)
  {
    KeptBytes(c, live, d0, d1, b, len);
  }

  lemma StillThere(c: Config, was: set<Block>, now: set<Block>, nb: Block, to: nat,
                   d0: seq<Byte>, d1: seq<Byte>, d2: seq<Byte>, from: nat, len: nat)
    requires Kept(c, was, d0, d1) && Kept(c, now, d1, d2) && nb in now && to == nb.at + c.hdr && to + len <= nb.end <= |d1|
    requires Copied(d0, from, d1, to, len)
    ensures Copied(d0, from, d2, to, len)
    ensures Kept(c, was * now, d0, d2)
  {
    KeptBytes(c, now, d1, d2, nb, len);
    KeptTransitive(c, was * now, d0, d1, d2);
  }

  lemma ShrunkBytes(c: Config, h: Heap, i: nat, size: nat)
    requires Inv(c, h) && i < |h.blocks| && h.blocks[i].used
    requires size > 0 && c.Aligned(size) && Shrinks(c, h.blocks[i], size)
    ensures Block(h.blocks[i].at, h.blocks[i].at + c.hdr + size, true) in Live(Shrink(c, h, i, size).blocks)
  {
    ShrinkLive(c, h, i, size);
  }

  /** The freshly allocated block: big enough, and disjoint from everything live before. */
  lemma NewBlock(c: Config, h: Heap, size: nat, rmem: nat) returns (nb: Block)
    requires Inv(c, h) && HeapSpec.Malloc(c, h, size).1.Some? && LivePtr(c, h, rmem)
    ensures var (h', p) := HeapSpec.Malloc(c, h, size);
      && nb.at + c.hdr == p.value && nb.end <= c.End() && Room(c, nb) >= size && nb in Live(h'.blocks)
      && Live(h'.blocks) == Live(h.blocks) + {nb} && nb !in Live(h.blocks)
      && (forall b :: b in Live(h.blocks) ==> b.end <= nb.at || nb.end <= b.at)
      && Inv(c, h') && LivePtr(c, h', rmem)
      && h'.blocks[Index(c, h', rmem)] == h.blocks[Index(c, h, rmem)]
  {
    RequestShape(c, size);
    var want := Request(c, size).value;
    var i := FirstFit(c, h.blocks, IndexAt(h.blocks, h.lfree), want).value;
    nb := Carved(c, h.blocks[i], want)[0];
    assert Shaped(c, h.blocks[i]);
    var h' := HeapSpec.Malloc(c, h, size).0;
    MallocInv(c, h, size);
    TakeLive(c, h, i, want);
    Positions(h.blocks, c.End(), i, i);
    forall b | b in Live(h.blocks) ensures b.end <= nb.at || nb.end <= b.at {
      var k :| 0 <= k < |h.blocks| && h.blocks[k] == b;
      Positions(h.blocks, c.End(), i, k);
    }
    var old_b := h.blocks[Index(c, h, rmem)];
    assert old_b in Live(h'.blocks);
    SameBlock(c, h', rmem, old_b);
  }

  lemma SameBlock(c: Config, h: Heap, p: nat, b: Block)
    requires Inv(c, h) && LivePtr(c, h, p) && b in Live(h.blocks) && b.at + c.hdr == p
    ensures h.blocks[Index(c, h, p)] == b
  {
    var k :| 0 <= k < |h.blocks| && h.blocks[k] == b;
    Positions(h.blocks, c.End(), k, Index(c, h, p));
  }

  lemma CopyKept(c: Config, live: set<Block>, nb: Block, x: seq<Byte>, y: seq<Byte>, to: nat, len: nat)
    requires to == nb.at + c.hdr && to + len <= nb.end
    requires forall a :: a in live ==> a.end <= nb.at || nb.end <= a.at
    requires |x| == |y| && forall j :: 0 <= j < |x| && (j < to || j >= to + len) ==> x[j] == y[j]
    ensures Kept(c, live, x, y)
  {
  }

  /** lfree is where its index says. */
  lemma FreeOffset(c: Config, h: Heap)
    requires Inv(c, h)
    ensures h.lfree == OffsetAt(c, h.blocks, IndexAt(h.blocks, h.lfree))
  {
    IndexAtSplits(h.blocks, h.lfree, 0, c.End());
    TiledPositions(h.blocks, 0, c.End());
    var i := IndexAt(h.blocks, h.lfree);
    if h.lfree != c.End() {
      var k :| 0 <= k < |h.blocks| && h.blocks[k].at == h.lfree && !h.blocks[k].used;
      assert k >= i;
    }
  }

  lemma FreedLive(c: Config, h: Heap, i: nat)
    requires Inv(c, h) && i < |h.blocks| && h.blocks[i].used
    ensures Live(Freed(h, i).blocks) == Live(h.blocks) - {h.blocks[i]}
  {
    assert h.blocks[i..i + 1] == [h.blocks[i]];
    LiveSplice(h.blocks, i, i + 1, [h.blocks[i].(used := false)], c.End());
  }
}
