// Allocation, release and reallocation of src/memheap.c as the callers see them, and what every
// run of them keeps.
module MemHeapRuns {
  import opened Options
  import opened Numbers
  import HT = HeapTheorems
  import opened MemHeapSpec

  // ----- Addresses

  /** The position of the block whose header is at `p`. */
  function IndexOf(bs: seq<Block>, p: nat): nat {
    if bs == [] || bs[0].at == p then 0 else 1 + IndexOf(bs[1..], p)
  }

  lemma {:induction false} IndexFinds(bs: seq<Block>, k: nat, lo: nat, hi: nat)
    requires HS.Tiled(bs, lo, hi) && k < |bs|
    ensures IndexOf(bs, bs[k].at) == k
  {
    HS.TiledPositions(bs, lo, hi);
    if k > 0 {
      assert bs[0].end <= bs[k].at;
      IndexFinds(bs[1..], k - 1, bs[0].end, hi);
    }
  }

  lemma FreeIndex(c: Config, s: State, p: nat)
    requires Inv(c, s) && p in s.free
    ensures var i := IndexOf(s.blocks, p); i < |s.blocks| && s.blocks[i].at == p && !s.blocks[i].used
  {
    assert HS.FreeAt(s.blocks, p);
    var k: nat :| k < |s.blocks| && s.blocks[k].at == p && !s.blocks[k].used;
    IndexFinds(s.blocks, k, 0, c.pool);
  }

  // ----- Allocation

  /** The size looked for. */
  function Request(c: Config, n: nat): (size: nat)
    requires c.Ok()
    ensures size >= n && size >= c.mini
  {
    var r := RoundUp(n, c.align);
    if r < c.mini then c.mini else r
  }

  /** Size of the block at address `p`; negative if there is none. */
  function SizeAt(c: Config, bs: seq<Block>, p: nat): int {
    var i := IndexOf(bs, p);
    if i < |bs| then Size(c, bs[i]) else -1
  }

  /** The first block of the free list that is large enough. */
  function Search(c: Config, bs: seq<Block>, free: seq<nat>, size: nat): Option<nat> {
    if free == [] then None
    else if SizeAt(c, bs, free[0]) >= size then Some(free[0])
    else Search(c, bs, free[1..], size)
  }

  lemma {:induction false} SearchFinds(c: Config, bs: seq<Block>, free: seq<nat>, size: nat)
    ensures var r := Search(c, bs, free, size);
      && (r.Some? ==> r.value in free && SizeAt(c, bs, r.value) >= size)
      && (r.None? ==> forall p :: p in free ==> SizeAt(c, bs, p) < size)
  {
    if free != [] { SearchFinds(c, bs, free[1..], size); }
  }

  /** rt_memheap_alloc: the address handed out, or None for RT_NULL. */
  function Alloc(c: Config, s: State, n: nat): (State, Option<nat>)
    requires c.Ok()
  {
    var size := Request(c, n);
    if size >= s.avail then (s, None) else
      match Search(c, s.blocks, s.free, size)
      case None => (s, None)
      case Some(p) =>
        var i := IndexOf(s.blocks, p);
        if i < |s.blocks| then (Take(c, s, i, size), Some(p + c.hdr)) else (s, None)
  }

  lemma AllocInv(c: Config, s: State, n: nat)
    requires Inv(c, s)
    ensures Inv(c, Alloc(c, s, n).0)
  {
    var size := Request(c, n);
    SearchFinds(c, s.blocks, s.free, size);
    var r := Search(c, s.blocks, s.free, size);
    if size < s.avail && r.Some? {
      FreeIndex(c, s, r.value);
      TakeInv(c, s, IndexOf(s.blocks, r.value), size);
    }
  }

  /** It fails exactly when the strict guard on the available size stops it, or no free block
      is large enough. */
  lemma AllocFailsIff(c: Config, s: State, n: nat)
    requires Inv(c, s)
    ensures Alloc(c, s, n).1.None? <==>
      Request(c, n) >= s.avail || forall k :: 0 <= k < |s.blocks| && !s.blocks[k].used ==> Size(c, s.blocks[k]) < Request(c, n)
  {
    var size := Request(c, n);
    SearchFinds(c, s.blocks, s.free, size);
    var r := Search(c, s.blocks, s.free, size);
    if r.Some? {
      FreeIndex(c, s, r.value);
    } else {
      forall k | 0 <= k < |s.blocks| && !s.blocks[k].used ensures Size(c, s.blocks[k]) < size {
        IsFreeAt(s.blocks, k);
        assert s.blocks[k].at in s.free;
        IndexFinds(s.blocks, k, 0, c.pool);
      }
    }
  }

  /** The header of a live allocation handed out as `p`. */
  predicate IsLive(c: Config, s: State, p: nat) {
    exists k :: 0 <= k < |s.blocks| - 1 && s.blocks[k].used && s.blocks[k].at + c.hdr == p
  }

  function IndexAt(c: Config, s: State, p: nat): nat { if p < c.hdr then 0 else IndexOf(s.blocks, p - c.hdr) }

  lemma LiveIndex(c: Config, s: State, p: nat)
    requires Inv(c, s) && IsLive(c, s, p)
    ensures var i := IndexAt(c, s, p); i + 1 < |s.blocks| && s.blocks[i].used && s.blocks[i].at + c.hdr == p
  {
    var k: nat :| k < |s.blocks| - 1 && s.blocks[k].used && s.blocks[k].at + c.hdr == p;
    IndexFinds(s.blocks, k, 0, c.pool);
  }

  /** Live allocations do not overlap. */
  lemma LiveDisjoint(c: Config, s: State, i: nat, j: nat)
    requires Inv(c, s) && i < j < |s.blocks|
    ensures s.blocks[i].at + c.hdr + Size(c, s.blocks[i]) <= s.blocks[j].at < s.blocks[j].at + c.hdr
  {
    HS.TiledPositions(s.blocks, 0, c.pool);
  }

  // ----- Splices leave every other block alone

  lemma OthersStay(c: Config, bs: seq<Block>, i: nat, j: nat, mid: seq<Block>, b: Block)
    requires Chain(c, bs) && i < j < |bs| && b in bs && !(bs[i].at <= b.at < bs[j - 1].end)
    ensures b in HS.Splice(bs, i, j, mid)
  {
    var k: nat :| k < |bs| && bs[k] == b;
    ToSplice(bs, i, j, mid, c.pool, k);
  }

  /** Every used block other than `k` survives a splice around position `k`. */
  lemma UsedStay(c: Config, bs: seq<Block>, i: nat, j: nat, mid: seq<Block>)
    requires Chain(c, bs) && i < j < |bs|
    ensures forall b :: b in bs && !(bs[i].at <= b.at < bs[j - 1].end) ==> b in HS.Splice(bs, i, j, mid)
  {
    forall b | b in bs && !(bs[i].at <= b.at < bs[j - 1].end) ensures b in HS.Splice(bs, i, j, mid) {
      OthersStay(c, bs, i, j, mid, b);
    }
  }

  /** Blocks starting inside one block's span are that block. */
  lemma InSpan(c: Config, bs: seq<Block>, i: nat, b: Block)
    requires Chain(c, bs) && i < |bs| && b in bs && bs[i].at <= b.at < bs[i].end
    ensures b == bs[i]
  {
    HS.TiledPositions(bs, 0, c.pool);
    var k: nat :| k < |bs| && bs[k] == b;
  }

  /** The block handed out is at least as large as asked for, lies where free memory was, and
      every used block is still there. */
  lemma AllocGives(c: Config, s: State, n: nat)
    requires Inv(c, s) && Alloc(c, s, n).1.Some?
    ensures var (s', p) := Alloc(c, s, n);
      && IsLive(c, s', p.value) && p.value >= c.hdr && SizeAt(c, s'.blocks, p.value - c.hdr) >= n
      && (forall b :: b in s.blocks && b.used ==> b in s'.blocks)
      && p.value - c.hdr in s.free
  {
    var size := Request(c, n);
    SearchFinds(c, s.blocks, s.free, size);
    var a := Search(c, s.blocks, s.free, size).value;
    FreeIndex(c, s, a);
    var i := IndexOf(s.blocks, a);
    TakenAt(c, s, i, size);
    TakeKeeps(c, s, i, size);
  }

  lemma TakeKeeps(c: Config, s: State, i: nat, size: nat)
    requires Inv(c, s) && i < |s.blocks| && !s.blocks[i].used
    ensures forall b :: b in s.blocks && b.used ==> b in Take(c, s, i, size).blocks
  {
    UsedStay(c, s.blocks, i, i + 1, Carved(c, s.blocks[i], size));
    forall b | b in s.blocks && b.used ensures !(s.blocks[i].at <= b.at < s.blocks[i].end) {
      if s.blocks[i].at <= b.at < s.blocks[i].end { InSpan(c, s.blocks, i, b); }
    }
  }

  lemma TakenAt(c: Config, s: State, i: nat, size: nat)
    requires Inv(c, s) && i < |s.blocks| && !s.blocks[i].used && Size(c, s.blocks[i]) >= size
    ensures var s' := Take(c, s, i, size);
      && IsLive(c, s', s.blocks[i].at + c.hdr)
      && IndexAt(c, s', s.blocks[i].at + c.hdr) == i && Size(c, s'.blocks[i]) >= size
  {
    var s', mid := Take(c, s, i, size), Carved(c, s.blocks[i], size);
    TakeInv(c, s, i, size);
    HS.SpliceAt(s.blocks, i, i + 1, mid);
    assert s'.blocks[i] == mid[0];
    IndexFinds(s'.blocks, i, 0, c.pool);
  }

  /** Releasing what was just allocated restores the blocks and the available size. */
  lemma ReleaseUndoesTake(c: Config, s: State, i: nat, size: nat)
    requires Inv(c, s) && i < |s.blocks| && !s.blocks[i].used && Size(c, s.blocks[i]) >= size
    ensures var s1 := Take(c, s, i, size);
      i + 1 < |s1.blocks| && Release(c, s1, i).blocks == s.blocks && Release(c, s1, i).avail == s.avail
  {
    var bs, b := s.blocks, s.blocks[i];
    var s1, mid := Take(c, s, i, size), Carved(c, b, size);
    TakenAround(c, s, i, size);
    HT.SpliceTwice(bs, i, i + 1, mid, |mid|, [b]);
    assert [b] + mid[|mid|..] == [b];
    HT.SpliceSame(bs, i);
  }

  /** What a release of the block just taken would merge: exactly the old free block. */
  lemma TakenAround(c: Config, s: State, i: nat, size: nat)
    requires Inv(c, s) && i < |s.blocks| && !s.blocks[i].used && Size(c, s.blocks[i]) >= size
    ensures var r, b, mid := Take(c, s, i, size).blocks, s.blocks[i], Carved(c, s.blocks[i], size);
      && i + 1 < |r| && From(r, i) == i && To(r, i) == i + |mid| <= |r|
      && HS.Block(r[i].at, r[i + |mid| - 1].end, false) == b && r[i] == mid[0]
      && (|mid| == 2 ==> r[i + 1] == mid[1])
  {
    var bs, mid := s.blocks, Carved(c, s.blocks[i], size);
    HS.SpliceAt(bs, i, i + 1, mid);
    assert i + 1 < |bs|;
    assert bs[i].used || bs[i + 1].used;
    assert i > 0 ==> bs[i - 1].used;
  }

  /** A used block other than `i` lies outside a span whose other blocks are free. */
  lemma OutsideSpan(c: Config, bs: seq<Block>, j: nat, i: nat, e: nat, b: Block)
    requires Chain(c, bs) && j <= i < e <= |bs| && forall k :: j <= k < e && k != i ==> !bs[k].used
    requires b in bs && b.used && b != bs[i]
    ensures !(bs[j].at <= b.at < bs[e - 1].end)
  {
    HS.TiledPositions(bs, 0, c.pool);
    var k: nat :| k < |bs| && bs[k] == b;
    assert k < j || k >= e;
  }

  /** A release takes away exactly the block released. */
  lemma ReleaseKeeps(c: Config, s: State, i: nat)
    requires Inv(c, s) && Releasable(s, i)
    ensures forall b :: b in s.blocks && b.used && b != s.blocks[i] ==> b in Release(c, s, i).blocks
  {
    var bs := s.blocks;
    ReleaseSpan(c, bs, i);
    forall b | b in bs && b.used && b != bs[i] ensures b in Release(c, s, i).blocks {
      StaysBeside(c, bs, From(bs, i), i, To(bs, i), b);
    }
  }

  lemma StaysBeside(c: Config, bs: seq<Block>, j: nat, i: nat, e: nat, b: Block)
    requires Chain(c, bs) && j <= i < e < |bs| && forall k :: j <= k < e && k != i ==> !bs[k].used
    requires b in bs && b.used && b != bs[i]
    ensures b in HS.Splice(bs, j, e, [HS.Block(bs[j].at, bs[e - 1].end, false)])
  {
    OutsideSpan(c, bs, j, i, e, b);
    OthersStay(c, bs, j, e, [HS.Block(bs[j].at, bs[e - 1].end, false)], b);
  }

  lemma ReleaseTakes(c: Config, s: State, i: nat, b: Block)
    requires Inv(c, s) && Releasable(s, i) && b in Release(c, s, i).blocks && b.used
    ensures b in s.blocks && b != s.blocks[i]
  {
    var bs := s.blocks;
    var j, e := From(bs, i), To(bs, i);
    ReleaseSpan(c, bs, i);
    WasThere(c, bs, j, i, e, HS.Block(bs[j].at, bs[e - 1].end, false), b);
  }

  lemma WasThere(c: Config, bs: seq<Block>, j: nat, i: nat, e: nat, m: Block, b: Block)
    requires Chain(c, bs) && j <= i < e <= |bs| && !m.used && b.used && b in HS.Splice(bs, j, e, [m])
    ensures b in bs && b != bs[i]
  {
    var r := HS.Splice(bs, j, e, [m]);
    HS.TiledPositions(bs, 0, c.pool);
    var k: nat :| k < |r| && r[k] == b;
    FromSplice(bs, j, e, [m], c.pool, k);
    assert bs[j].at <= bs[i].at < bs[e - 1].end;
  }

  /** Growing and shrinking in place move only the end of the block itself. */
  lemma RecutKeeps(c: Config, bs: seq<Block>, i: nat, cut: nat)
    requires Chain(c, bs) && i + 1 < |bs| && bs[i].used
    ensures var e := To(bs, i); var r := HS.Splice(bs, i, e, Recut(bs, i, e, cut));
      && e < |bs| && HS.Block(bs[i].at, cut, true) in r
      && forall b :: b in bs && b.used && b != bs[i] ==> b in r
  {
    var e := To(bs, i);
    NextUsed(c, bs, i);
    var mid := Recut(bs, i, e, cut);
    HS.SpliceAt(bs, i, e, mid);
    assert HS.Splice(bs, i, e, mid)[i] == mid[0];
    UsedStay(c, bs, i, e, mid);
    forall b | b in bs && b.used && b != bs[i] ensures !(bs[i].at <= b.at < bs[e - 1].end) {
      OutsideSpan(c, bs, i, i, e, b);
    }
  }

  // ----- Reallocation

  /** Only live allocations, or RT_NULL, are given back or reallocated. */
  predicate Returnable(c: Config, s: State, p: Option<nat>) {
    p.Some? ==> IsLive(c, s, p.value)
  }

  ghost function FreeStep(c: Config, s: State, p: Option<nat>): State
    requires Inv(c, s) && Returnable(c, s, p)
  {
    if p.None? then s else LiveIndex(c, s, p.value); Release(c, s, IndexAt(c, s, p.value))
  }

  ghost function Realloc(c: Config, s: State, p: Option<nat>, n: nat): (State, Option<nat>)
    requires Inv(c, s) && Returnable(c, s, p)
  {
    if n == 0 then (FreeStep(c, s, p), None)
    else if p.None? then Alloc(c, s, Request(c, n))
    else Resize(c, s, p.value, Request(c, n))
  }

  ghost function Resize(c: Config, s: State, p: nat, size: nat): (State, Option<nat>)
    requires Inv(c, s) && IsLive(c, s, p)
  {
    LiveIndex(c, s, p);
    var i := IndexAt(c, s, p);
    if CanGrow(c, s, i, size) then (Grow(c, s, i, size), Some(p))
    else if size > Size(c, s.blocks[i]) then Moved(c, s, p, size)
    else if CanShrink(c, s, i, size) then (Shrink(c, s, i, size), Some(p))
    else (s, Some(p))
  }

  /** A new block is allocated, the contents copied, and the old block released. */
  ghost function Moved(c: Config, s: State, p: nat, size: nat): (State, Option<nat>)
    requires Inv(c, s) && IsLive(c, s, p)
  {
    var (s1, q) := Alloc(c, s, size);
    if q.None? then (s, None) else
      AllocInv(c, s, size);
      StaysLive(c, s, p, size);
      LiveIndex(c, s1, p);
      (Release(c, s1, IndexAt(c, s1, p)), q)
  }

  lemma StaysLive(c: Config, s: State, p: nat, n: nat)
    requires Inv(c, s) && IsLive(c, s, p) && Alloc(c, s, n).1.Some?
    ensures IsLive(c, Alloc(c, s, n).0, p) && Inv(c, Alloc(c, s, n).0)
  {
    AllocInv(c, s, n);
    AllocGives(c, s, n);
    var k: nat :| k < |s.blocks| - 1 && s.blocks[k].used && s.blocks[k].at + c.hdr == p;
    HS.TiledPositions(s.blocks, 0, c.pool);
    assert s.blocks[k] in s.blocks && s.blocks[k].end <= s.blocks[|s.blocks| - 1].at;
    UsedIsLive(c, Alloc(c, s, n).0, s.blocks[k]);
  }

  lemma UsedIsLive(c: Config, s: State, b: Block)
    requires Inv(c, s) && b in s.blocks && b.used && b.at + c.hdr < c.pool
    ensures IsLive(c, s, b.at + c.hdr)
  {
    var m: nat :| m < |s.blocks| && s.blocks[m] == b;
    assert m != |s.blocks| - 1;
  }

  lemma FreeStepInv(c: Config, s: State, p: Option<nat>)
    requires Inv(c, s) && Returnable(c, s, p)
    ensures Inv(c, FreeStep(c, s, p))
  {
    if p.Some? {
      LiveIndex(c, s, p.value);
      ReleaseInv(c, s, IndexAt(c, s, p.value));
    }
  }

  lemma ReallocInv(c: Config, s: State, p: Option<nat>, n: nat)
    requires Inv(c, s) && Returnable(c, s, p)
    ensures Inv(c, Realloc(c, s, p, n).0)
  {
    if n == 0 {
      FreeStepInv(c, s, p);
    } else if p.None? {
      AllocInv(c, s, Request(c, n));
    } else {
      ResizeInv(c, s, p.value, Request(c, n));
    }
  }

  lemma ResizeInv(c: Config, s: State, p: nat, size: nat)
    requires Inv(c, s) && IsLive(c, s, p)
    ensures Inv(c, Resize(c, s, p, size).0)
  {
    LiveIndex(c, s, p);
    var i := IndexAt(c, s, p);
    if CanGrow(c, s, i, size) {
      GrowInv(c, s, i, size);
    } else if size > Size(c, s.blocks[i]) {
      MovedInv(c, s, p, size);
    } else if CanShrink(c, s, i, size) {
      ShrinkInv(c, s, i, size);
    }
  }

  lemma MovedInv(c: Config, s: State, p: nat, size: nat)
    requires Inv(c, s) && IsLive(c, s, p)
    ensures Inv(c, Moved(c, s, p, size).0)
  {
    var (s1, q) := Alloc(c, s, size);
    if q.Some? {
      StaysLive(c, s, p, size);
      LiveIndex(c, s1, p);
      ReleaseInv(c, s1, IndexAt(c, s1, p));
    }
  }

  /** A failed reallocation leaves the heap as it was. */
  lemma ReallocFailure(c: Config, s: State, p: Option<nat>, n: nat)
    requires Inv(c, s) && Returnable(c, s, p) && n > 0
    ensures Realloc(c, s, p, n).1.None? ==> Realloc(c, s, p, n).0 == s
  {
  }

  // ----- Whole runs

  datatype Op = DoAlloc(n: nat) | DoFree(p: Option<nat>) | DoRealloc(q: Option<nat>, n: nat)

  ghost predicate Legal(c: Config, s: State, op: Op) {
    match op
    case DoAlloc(_) => true
    case DoFree(p) => Returnable(c, s, p)
    case DoRealloc(p, _) => Returnable(c, s, p)
  }

  ghost function Step(c: Config, s: State, op: Op): State
    requires Inv(c, s) && Legal(c, s, op)
  {
    match op
    case DoAlloc(n) => Alloc(c, s, n).0
    case DoFree(p) => FreeStep(c, s, p)
    case DoRealloc(p, n) => Realloc(c, s, p, n).0
  }

  lemma StepInv(c: Config, s: State, op: Op)
    requires Inv(c, s) && Legal(c, s, op)
    ensures Inv(c, Step(c, s, op))
  {
    match op
    case DoAlloc(n) => AllocInv(c, s, n);
    case DoFree(p) => FreeStepInv(c, s, p);
    case DoRealloc(p, n) => ReallocInv(c, s, p, n);
  }

  ghost predicate Run(c: Config, s: State, ops: seq<Op>, s': State)
    decreases |ops|
  {
    if ops == [] then s' == s else Inv(c, s) && Legal(c, s, ops[0]) && Run(c, Step(c, s, ops[0]), ops[1..], s')
  }

  lemma {:induction false} Reachable(c: Config, s: State, ops: seq<Op>, s': State)
    requires Inv(c, s) && Run(c, s, ops, s')
    ensures Inv(c, s')
    decreases |ops|
  {
    if ops != [] {
      StepInv(c, s, ops[0]);
      Reachable(c, Step(c, s, ops[0]), ops[1..], s');
    }
  }

  /** rt_memheap_init: one free block and the tail. */
  function Initial(c: Config): State
    requires c.Ok()
  {
    State([HS.Block(0, c.pool - c.hdr, false), HS.Block(c.pool - c.hdr, c.pool, true)], [0],
          c.pool - 2 * c.hdr, 2 * c.hdr)
  }

  lemma InitialInv(c: Config)
    requires c.Ok()
    ensures Inv(c, Initial(c))
  {
    var s := Initial(c);
    var a, b := s.blocks[0], s.blocks[1];
    OneRow(c, a);
    OneRow(c, b);
    TwoRow(c, a, b);
  }
}
