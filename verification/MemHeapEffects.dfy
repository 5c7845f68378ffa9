// What callers of src/memheap.c get from an allocation, a release and a reallocation: which
// block is theirs, how large it is, and that every other block in use is left alone.
module MemHeapEffects {
  import opened Numbers
  import opened Options
  import HT = HeapTheorems
  import HS = HeapSpec
  import opened MemHeapSpec
  import opened MemHeapRuns

  /** The blocks in use: those of the callers, and the tail. */
  ghost function InUse(s: State): set<Block> { HT.Live(s.blocks) }

  /** The block in use whose address for its caller is `p`. */
  ghost predicate Owns(c: Config, s: State, p: nat, b: Block) { b in InUse(s) && b.at + c.hdr == p }

  /** A block that is large enough, and not larger than a split would leave it. */
  predicate Snug(c: Config, n: nat, b: Block)
    requires c.align > 0
  {
    n <= Size(c, b) < Max(n, c.mini) + 2 * c.align + c.hdr + c.mini
  }

  /** Nobody else's block is at the same address. */
  lemma OneOwner(c: Config, s: State, a: Block, b: Block)
    requires Inv(c, s) && a in InUse(s) && b in InUse(s) && a.at == b.at
    ensures a == b
  {
    var k: nat :| k < |s.blocks| && s.blocks[k] == b;
    HS.TiledPositions(s.blocks, 0, c.pool);
    InSpan(c, s.blocks, k, a);
  }

  // ----- Allocation and release

  lemma TakeGains(c: Config, s: State, i: nat, size: nat) returns (b: Block)
    requires Inv(c, s) && i < |s.blocks| && !s.blocks[i].used && Size(c, s.blocks[i]) >= size
    ensures InUse(Take(c, s, i, size)) == InUse(s) + {b} && forall x :: x in InUse(s) ==> x.at != b.at
    ensures b.used && b.at == s.blocks[i].at && size <= Size(c, b) < size + c.hdr + c.mini
  {
    var bs, mid := s.blocks, Carved(c, s.blocks[i], size);
    b := mid[0];
    HT.LiveSplice(bs, i, i + 1, mid, c.pool);
    assert bs[i..i + 1] == [bs[i]];
    forall x | x in InUse(s) && x.at == b.at ensures false {
      HS.TiledPositions(bs, 0, c.pool);
      InSpan(c, bs, i, x);
    }
  }

  /** An allocation adds one block, of the right size, where none was in use. */
  lemma AllocGains(c: Config, s: State, n: nat) returns (b: Block)
    requires Inv(c, s) && Alloc(c, s, n).1.Some?
    ensures var (s', q) := Alloc(c, s, n);
      && InUse(s') == InUse(s) + {b} && q == Some(b.at + c.hdr) && (forall x :: x in InUse(s) ==> x.at != b.at)
      && n <= Size(c, b) < Request(c, n) + c.hdr + c.mini
  {
    var size := Request(c, n);
    SearchFinds(c, s.blocks, s.free, size);
    var a := Search(c, s.blocks, s.free, size).value;
    FreeIndex(c, s, a);
    b := TakeGains(c, s, IndexOf(s.blocks, a), size);
  }

  /** A release takes away the caller's block, and no other block in use; so does a reallocation
      to nothing. */
  lemma FreeLoses(c: Config, s: State, p: nat, b: Block)
    requires Inv(c, s) && IsLive(c, s, p) && Owns(c, s, p, b)
    ensures InUse(FreeStep(c, s, Some(p))) == InUse(s) - {b}
    ensures Realloc(c, s, Some(p), 0).1.None? && InUse(Realloc(c, s, Some(p), 0).0) == InUse(s) - {b}
  {
    LiveIndex(c, s, p);
    var bs, i := s.blocks, IndexAt(c, s, p);
    OneOwner(c, s, b, bs[i]);
    ReleaseLoses(c, bs, i);
  }

  lemma ReleaseLoses(c: Config, bs: seq<Block>, i: nat)
    requires Chain(c, bs) && i + 1 < |bs| && bs[i].used
    ensures HT.Live(Merged(bs, i)) == HT.Live(bs) - {bs[i]}
  {
    var j, e := From(bs, i), To(bs, i);
    ReleaseSpan(c, bs, i);
    HT.LiveSplice(bs, j, e, [HS.Block(bs[j].at, bs[e - 1].end, false)], c.pool);
    assert bs[j..e] == (if j < i then [bs[j]] else []) + [bs[i]] + (if e == i + 2 then [bs[i + 1]] else []);
    assert HT.Live(bs[j..e]) == {bs[i]};
  }

  function Merged(bs: seq<Block>, i: nat): seq<Block>
    requires i + 1 < |bs|
  {
    HS.Splice(bs, From(bs, i), To(bs, i), [HS.Block(bs[From(bs, i)].at, bs[To(bs, i) - 1].end, false)])
  }

  // ----- Reallocation

  /** Growing and shrinking in place: the block gets its new end. */
  lemma RecutMoves(c: Config, bs: seq<Block>, i: nat, cut: nat)
    requires Chain(c, bs) && i + 1 < |bs| && bs[i].used
    ensures To(bs, i) <= |bs|
    ensures var r := HS.Splice(bs, i, To(bs, i), Recut(bs, i, To(bs, i), cut));
      HT.Live(r) == HT.Live(bs) - {bs[i]} + {HS.Block(bs[i].at, cut, true)}
  {
    var e := To(bs, i);
    var mid := Recut(bs, i, e, cut);
    HT.LiveSplice(bs, i, e, mid, c.pool);
    assert HT.Live(bs[i..e]) == {bs[i]} by {
      assert bs[i..e] == if e == i + 2 then [bs[i], bs[i + 1]] else [bs[i]];
    }
    assert HT.Live(mid) == {mid[0]};
  }

  lemma MoveExchanges(c: Config, s: State, p: nat, size: nat, was: Block) returns (b: Block)
    requires Inv(c, s) && IsLive(c, s, p) && Owns(c, s, p, was) && Moved(c, s, p, size).1.Some?
    ensures var (s', q) := Moved(c, s, p, size);
      && q == Some(b.at + c.hdr) && InUse(s') == InUse(s) - {was} + {b} && (forall x :: x in InUse(s) ==> x.at != b.at)
      && size <= Size(c, b) < Request(c, size) + c.hdr + c.mini
  {
    var s1 := Alloc(c, s, size).0;
    AllocInv(c, s, size);
    b := AllocGains(c, s, size);
    StaysLive(c, s, p, size);
    FreeLoses(c, s1, p, was);
  }

  /** Reallocating RT_NULL is an allocation. */
  lemma NullExchanges(c: Config, s: State, n: nat) returns (b: Block)
    requires Inv(c, s) && n > 0 && Realloc(c, s, None, n).1.Some?
    ensures var (s', q) := Realloc(c, s, None, n);
      && q == Some(b.at + c.hdr) && Snug(c, n, b)
      && InUse(s') == InUse(s) + {b} && forall x :: x in InUse(s) ==> x.at != b.at
  {
    b := AllocGains(c, s, Request(c, n));
  }

  /** Instead of `was`, the block of `p`, there is `b` at the address `q`, of the wanted size:
      the old address, or one where nothing was in use. Everyone else's block is as it was. */
  ghost predicate Exchanged(c: Config, s: State, p: nat, n: nat, was: Block, s': State, q: Option<nat>, b: Block)
    requires c.align > 0
  {
    && q == Some(b.at + c.hdr) && InUse(s') == InUse(s) - {was} + {b} && Snug(c, n, b)
    && (q == Some(p) || forall x :: x in InUse(s) ==> x.at != b.at)
  }

  /** What a successful reallocation leaves the caller with. */
  lemma ReallocExchanges(c: Config, s: State, p: nat, n: nat, was: Block) returns (b: Block)
    requires Inv(c, s) && IsLive(c, s, p) && Owns(c, s, p, was) && n > 0 && Realloc(c, s, Some(p), n).1.Some?
    ensures Exchanged(c, s, p, n, was, Realloc(c, s, Some(p), n).0, Realloc(c, s, Some(p), n).1, b)
  {
    b := ResizeExchanges(c, s, p, n, was);
  }

  /** The block is served where it is. */
  lemma InPlace(c: Config, s: State, i: nat, size: nat) returns (b: Block)
    requires Inv(c, s) && i + 1 < |s.blocks| && s.blocks[i].used && (CanGrow(c, s, i, size) || CanShrink(c, s, i, size))
    ensures b.at == s.blocks[i].at && Size(c, b) == size
    ensures CanGrow(c, s, i, size) ==> InUse(Grow(c, s, i, size)) == InUse(s) - {s.blocks[i]} + {b}
    ensures CanShrink(c, s, i, size) ==> InUse(Shrink(c, s, i, size)) == InUse(s) - {s.blocks[i]} + {b}
  {
    var at := s.blocks[i].at;
    b := HS.Block(at, at + c.hdr + size, true);
    RecutMoves(c, s.blocks, i, b.end);
  }

  lemma ResizeExchanges(c: Config, s: State, p: nat, n: nat, was: Block) returns (b: Block)
    requires Inv(c, s) && IsLive(c, s, p) && Owns(c, s, p, was) && Resize(c, s, p, Request(c, n)).1.Some?
    ensures Exchanged(c, s, p, n, was, Resize(c, s, p, Request(c, n)).0, Resize(c, s, p, Request(c, n)).1, b)
  {
    LiveIndex(c, s, p);
    var i, size := IndexAt(c, s, p), Request(c, n);
    OneOwner(c, s, was, s.blocks[i]);
    if CanGrow(c, s, i, size) || (size <= Size(c, was) && CanShrink(c, s, i, size)) {
      b := InPlace(c, s, i, size);
    } else if size > Size(c, was) {
      b := ResizeMoves(c, s, p, n, was);
    } else {
      b := was;
      assert InUse(s) - {was} + {was} == InUse(s);
    }
  }

  lemma ResizeMoves(c: Config, s: State, p: nat, n: nat, was: Block) returns (b: Block)
    requires Inv(c, s) && IsLive(c, s, p) && Owns(c, s, p, was) && Moved(c, s, p, Request(c, n)).1.Some?
    ensures Exchanged(c, s, p, n, was, Moved(c, s, p, Request(c, n)).0, Moved(c, s, p, Request(c, n)).1, b)
  {
    b := MoveExchanges(c, s, p, Request(c, n), was);
  }

  /** Either way there is a block of the wanted size at the address returned. */
  lemma ReallocOwns(c: Config, s: State, p: Option<nat>, n: nat)
    requires Inv(c, s) && Returnable(c, s, p) && n > 0 && Realloc(c, s, p, n).1.Some?
    ensures var (s', q) := Realloc(c, s, p, n); exists b :: Owns(c, s', q.value, b) && Snug(c, n, b)
  {
    if p.None? {
      var _ := NullExchanges(c, s, n);
    } else {
      LiveIndex(c, s, p.value);
      var _ := ReallocExchanges(c, s, p.value, n, s.blocks[IndexAt(c, s, p.value)]);
    }
  }

  // ----- Failure

  /** No free block is large enough, or the strict guard on their sum forbids it. */
  ghost predicate NoRoom(c: Config, s: State, size: nat) {
    size >= s.avail || forall k :: 0 <= k < |s.blocks| && !s.blocks[k].used ==> Size(c, s.blocks[k]) < size
  }

  /** The block has `size` bytes, or a free right neighbour that can lend the rest. */
  ghost predicate RoomInPlace(c: Config, s: State, p: nat, size: nat) {
    exists k :: 0 <= k < |s.blocks| - 1 && s.blocks[k].used && s.blocks[k].at + c.hdr == p && Stretches(c, s, k, size)
  }

  predicate Stretches(c: Config, s: State, k: nat, size: nat)
    requires k + 1 < |s.blocks|
  {
    var b, next := s.blocks[k], s.blocks[k + 1];
    size <= Size(c, b) || (!next.used && Size(c, b) + Size(c, next) > size + c.mini)
  }

  function Rounded(c: Config, n: nat): nat
    requires c.align > 0
  {
    Max(RoundUp(n, c.align), c.mini)
  }

  /** A reallocation to more than nothing fails if and only if the block cannot serve where it
      is and no other block can be had; then nothing has changed. */
  lemma ReallocFailsIff(c: Config, s: State, p: Option<nat>, n: nat)
    requires Inv(c, s) && Returnable(c, s, p) && n > 0
    ensures var (s', q) := Realloc(c, s, p, n);
      && (q.None? <==> NoRoom(c, s, Rounded(c, Rounded(c, n))) && (p.Some? ==> !RoomInPlace(c, s, p.value, Rounded(c, n))))
      && (q.None? ==> s' == s)
  {
    AllocFailsIff(c, s, Request(c, n));
    if p.Some? { StretchesIff(c, s, p.value, Request(c, n)); }
  }

  lemma StretchesIff(c: Config, s: State, p: nat, size: nat)
    requires Inv(c, s) && IsLive(c, s, p)
    ensures IndexAt(c, s, p) + 1 < |s.blocks|
    ensures var i := IndexAt(c, s, p);
      RoomInPlace(c, s, p, size) <==> CanGrow(c, s, i, size) || size <= Size(c, s.blocks[i])
  {
    LiveIndex(c, s, p);
    var i := IndexAt(c, s, p);
    if Stretches(c, s, i, size) { assert RoomInPlace(c, s, p, size); }
    if RoomInPlace(c, s, p, size) {
      var k: nat :| k < |s.blocks| - 1 && s.blocks[k].used && s.blocks[k].at + c.hdr == p && Stretches(c, s, k, size);
      IndexFinds(s.blocks, k, 0, c.pool);
    }
  }
}
