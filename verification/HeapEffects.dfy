// What callers of src/mem.c get from an allocation, a release and a reallocation: which block is
// theirs, how large it is, and that every other live block is left alone.
module HeapEffects {
  import opened Options
  import opened HeapSpec
  import opened HeapTheorems

  /** The live block whose address for its caller is `p`. */
  ghost predicate Owns(c: Config, h: Heap, p: nat, b: Block) { b in Live(h.blocks) && b.at + c.hdr == p }

  /** The smallest block that may serve `n` bytes. */
  function Least(c: Config, n: nat): nat {
    if c.AlignUp(n) < c.MinAligned() then c.MinAligned() else c.AlignUp(n)
  }

  /** Large enough, and not larger than a split would leave it. */
  predicate Snug(c: Config, n: nat, b: Block) { n <= Room(c, b) < Least(c, n) + c.hdr + c.MinAligned() }

  /** Nothing live begins where `b` does. */
  ghost predicate Vacant(h: Heap, b: Block) { forall x :: x in Live(h.blocks) ==> x.at != b.at }

  lemma OneOwner(c: Config, h: Heap, a: Block, b: Block)
    requires Inv(c, h) && a in Live(h.blocks) && b in Live(h.blocks) && a.at == b.at
    ensures a == b
  {
    LiveDisjoint(c, h, a, b);
  }

  lemma AlignedTwice(c: Config, n: nat)
    requires c.Ok()
    ensures c.AlignUp(c.AlignUp(n)) == c.AlignUp(n) && (c.AlignUp(n) == 0 <==> n == 0)
  {
  }

  // ----- Allocation and release

  /** An allocation adds one block, of the right size, where none was live. */
  lemma MallocGains(c: Config, h: Heap, n: nat) returns (b: Block)
    requires Inv(c, h) && Malloc(c, h, n).1.Some?
    ensures var (h', q) := Malloc(c, h, n);
      q == Some(b.at + c.hdr) && Live(h'.blocks) == Live(h.blocks) + {b} && Vacant(h, b) && Snug(c, n, b)
  {
    RequestShape(c, n);
    var size := Request(c, n).value;
    var i := FirstFit(c, h.blocks, IndexAt(h.blocks, h.lfree), size).value;
    b := Carved(c, h.blocks[i], size)[0];
    TakeLive(c, h, i, size);
    forall x | x in Live(h.blocks) ensures x.at != b.at {
      var k: nat :| k < |h.blocks| && h.blocks[k] == x;
      Positions(h.blocks, c.End(), i, k);
    }
  }

  /** A release takes away the caller's block, and no other live block; so does a reallocation to
      nothing. */
  lemma FreeLoses(c: Config, h: Heap, p: nat, b: Block)
    requires Inv(c, h) && LivePtr(c, h, p) && Owns(c, h, p, b) && !Outside(c, p)
    ensures Live(Step(c, h, OpFree(Some(p))).blocks) == Live(h.blocks) - {b}
    ensures c.AlignUp(0) == 0
    ensures Realloc(c, h, Some(p), 0).1.None? && Live(Realloc(c, h, Some(p), 0).0.blocks) == Live(h.blocks) - {b}
  {
    var i := Index(c, h, p);
    OneOwner(c, h, b, h.blocks[i]);
    FreeLive(c, h, i);
  }

  // ----- Reallocation

  lemma MoveExchanges(c: Config, h: Heap, p: nat, n: nat, was: Block) returns (b: Block)
    requires Inv(c, h) && LivePtr(c, h, p) && Owns(c, h, p, was) && Malloc(c, h, n).1.Some?
    ensures var h' := Malloc(c, h, n).0; Inv(c, h') && LivePtr(c, h', p)
    ensures var (h', q) := Malloc(c, h, n);
      && q == Some(b.at + c.hdr) && Vacant(h, b) && Snug(c, n, b)
      && Live(Free(h', Index(c, h', p)).blocks) == Live(h.blocks) - {was} + {b}
  {
    MallocInv(c, h, n);
    b := MallocGains(c, h, n);
    var h' := Malloc(c, h, n).0;
    OneOwner(c, h', was, h'.blocks[Index(c, h', p)]);
    FreeLive(c, h', Index(c, h', p));
  }

  lemma StayExchanges(c: Config, h: Heap, i: nat, n: nat) returns (b: Block)
    requires Inv(c, h) && i < |h.blocks| && h.blocks[i].used && n > 0
    requires Room(c, h.blocks[i]) == c.AlignUp(n) || Shrinks(c, h.blocks[i], c.AlignUp(n))
    ensures var h' := if Room(c, h.blocks[i]) == c.AlignUp(n) then h else Shrink(c, h, i, c.AlignUp(n));
      b.at == h.blocks[i].at && Live(h'.blocks) == Live(h.blocks) - {h.blocks[i]} + {b} && Snug(c, n, b)
  {
    AlignedTwice(c, n);
    var was, size := h.blocks[i], c.AlignUp(n);
    if Room(c, was) == size {
      b := was;
      assert Live(h.blocks) - {was} + {was} == Live(h.blocks);
    } else {
      b := Block(was.at, was.at + c.hdr + size, true);
      ShrinkLive(c, h, i, size);
    }
  }

  lemma ResizeExchanges(c: Config, h: Heap, p: nat, n: nat, was: Block) returns (b: Block)
    requires Inv(c, h) && LivePtr(c, h, p) && Owns(c, h, p, was) && n > 0 && Resize(c, h, p, c.AlignUp(n)).1.Some?
    ensures Exchanged(c, h, p, n, was, Resize(c, h, p, c.AlignUp(n)).0, Resize(c, h, p, c.AlignUp(n)).1, b)
  {
    var i, size := Index(c, h, p), c.AlignUp(n);
    OneOwner(c, h, was, h.blocks[i]);
    if Room(c, was) == size || Shrinks(c, was, size) {
      b := StayExchanges(c, h, i, n);
    } else {
      b := ResizeMoves(c, h, p, n, was);
    }
  }

  lemma ResizeMoves(c: Config, h: Heap, p: nat, n: nat, was: Block) returns (b: Block)
    requires Inv(c, h) && LivePtr(c, h, p) && Owns(c, h, p, was) && n > 0 && Resize(c, h, p, c.AlignUp(n)).1.Some?
    requires h.blocks[Index(c, h, p)] == was && Room(c, was) != c.AlignUp(n) && !Shrinks(c, was, c.AlignUp(n))
    ensures Exchanged(c, h, p, n, was, Resize(c, h, p, c.AlignUp(n)).0, Resize(c, h, p, c.AlignUp(n)).1, b)
  {
    AlignedTwice(c, n);
    b := MoveExchanges(c, h, p, c.AlignUp(n), was);
  }

  /** Instead of `was`, the block of `p`, there is `b` at the address `q`, of the wanted size:
      the old address, or one where nothing was live. Everyone else's block is as it was. */
  ghost predicate Exchanged(c: Config, h: Heap, p: nat, n: nat, was: Block, h': Heap, q: Option<int>, b: Block) {
    && q == Some(b.at + c.hdr) && Live(h'.blocks) == Live(h.blocks) - {was} + {b} && Snug(c, n, b)
    && (q == Some(p) || Vacant(h, b))
  }

  /** What a successful reallocation leaves the caller with. */
  lemma ReallocExchanges(c: Config, h: Heap, p: nat, n: nat, was: Block) returns (b: Block)
    requires Inv(c, h) && Legal(c, h, OpRealloc(Some(p), n)) && !Outside(c, p) && Owns(c, h, p, was)
    requires n > 0 && Realloc(c, h, Some(p), n).1.Some?
    ensures Exchanged(c, h, p, n, was, Realloc(c, h, Some(p), n).0, Realloc(c, h, Some(p), n).1, b)
  {
    AlignedTwice(c, n);
    b := ResizeExchanges(c, h, p, n, was);
  }

  /** Reallocating RT_NULL is an allocation. */
  lemma NullExchanges(c: Config, h: Heap, n: nat) returns (b: Block)
    requires Inv(c, h) && Legal(c, h, OpRealloc(None, n)) && n > 0 && Realloc(c, h, None, n).1.Some?
    ensures var (h', q) := Realloc(c, h, None, n);
      q == Some(b.at + c.hdr) && Live(h'.blocks) == Live(h.blocks) + {b} && Vacant(h, b) && Snug(c, n, b)
  {
    AlignedTwice(c, n);
    b := MallocGains(c, h, c.AlignUp(n));
  }

  // ----- Failure

  /** No block can be had for `n` bytes. */
  predicate NoCandidate(c: Config, h: Heap, n: nat) {
    forall k :: 0 <= k < |h.blocks| ==> !Candidate(c, h, h.blocks[k], Least(c, n))
  }

  /** The block at `p` has the size already, or so much more that the rest makes a block. */
  predicate ServesInPlace(c: Config, h: Heap, p: int, size: nat) {
    exists k :: 0 <= k < |h.blocks| && h.blocks[k].used && h.blocks[k].at + c.hdr == p &&
      (Room(c, h.blocks[k]) == size || Room(c, h.blocks[k]) > size + c.hdr + c.minSize)
  }

  /** An allocation of more than nothing fails if and only if it is too large or there is no
      candidate. */
  lemma MallocFailsIff(c: Config, h: Heap, n: nat)
    requires Inv(c, h) && n > 0 && Scannable(c, n)
    ensures Malloc(c, h, n).1.None? <==> c.AlignUp(n) > c.memSize || NoCandidate(c, h, n)
    ensures Malloc(c, h, n).1.None? ==> Malloc(c, h, n).0 == h
  {
    if c.AlignUp(n) <= c.memSize { MallocFirstFit(c, h, n); }
  }

  /** A reallocation to more than nothing fails if and only if it is too large, or the block
      cannot serve where it is and there is no candidate; then nothing has changed. A pointer
      from elsewhere is handed back, and nothing has changed either. */
  lemma ReallocFailsIff(c: Config, h: Heap, p: Option<int>, n: nat)
    requires Inv(c, h) && Legal(c, h, OpRealloc(p, n)) && n > 0
    ensures var (h', q), size := Realloc(c, h, p, n), c.AlignUp(n);
      && (q.None? ==> h' == h)
      && (p.Some? && Outside(c, p.value) ==> h' == h && q == if size > c.memSize then None else p)
      && (p.None? || !Outside(c, p.value) ==>
            (q.None? <==> size > c.memSize || (NoCandidate(c, h, n) && (p.Some? ==> !ServesInPlace(c, h, p.value, size)))))
  {
    var size := c.AlignUp(n);
    AlignedTwice(c, n);
    if size <= c.memSize && (p.None? || !Outside(c, p.value)) {
      MallocFailsIff(c, h, size);
      if p.Some? { InPlaceIff(c, h, p.value, size); }
    }
  }

  lemma InPlaceIff(c: Config, h: Heap, p: nat, size: nat)
    requires Inv(c, h) && LivePtr(c, h, p)
    ensures var b := h.blocks[Index(c, h, p)];
      ServesInPlace(c, h, p, size) <==> Room(c, b) == size || Shrinks(c, b, size)
  {
    var i := Index(c, h, p);
    forall k | 0 <= k < |h.blocks| && h.blocks[k].at + c.hdr == p ensures k == i { Positions(h.blocks, c.End(), i, k); }
  }
}
