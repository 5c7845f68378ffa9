// What the small-memory heap guarantees its callers, for every run of its operations.
module HeapTheorems {
  import opened Options
  import opened HeapSpec

  // ----- Live ranges

  /** The live allocations: pairwise disjoint by construction of the chain. */
  ghost function Live(bs: seq<Block>): set<Block> {
    set b | b in bs && b.used
  }

  lemma LiveConcat(xs: seq<Block>, ys: seq<Block>)
    ensures Live(xs + ys) == Live(xs) + Live(ys)
  {
  }

  /** Two live user ranges never overlap, lie inside the heap, and start aligned. */
  lemma LiveDisjoint(c: Config, h: Heap, a: Block, b: Block)
    requires Inv(c, h) && a in Live(h.blocks) && b in Live(h.blocks)
    ensures c.hdr <= a.at + c.hdr < a.end <= c.End() && c.Aligned(a.at + c.hdr)
    ensures a != b ==> a.end <= b.at || b.end <= a.at
  {
    var i :| 0 <= i < |h.blocks| && h.blocks[i] == a;
    var j :| 0 <= j < |h.blocks| && h.blocks[j] == b;
    assert Shaped(c, h.blocks[i]);
    AlignedSum(c, a.at, c.hdr);
    Positions(h.blocks, c.End(), i, j);
  }

  lemma Positions(bs: seq<Block>, hi: nat, i: nat, j: nat)
    requires Tiled(bs, 0, hi) && i < |bs| && j < |bs|
    ensures bs[i].end <= hi && (i < j ==> bs[i].end <= bs[j].at) && (j < i ==> bs[j].end <= bs[i].at)
    ensures bs[i].at < bs[i].end && (i != j ==> bs[i].at != bs[j].at)
  {
    TiledPositions(bs, 0, hi);
  }

  lemma Apart(bs: seq<Block>, i: nat, j: nat, hi: nat, b: Block)
    requires i <= j <= |bs| && Tiled(bs, 0, hi) && b in bs[i..j]
    ensures b !in bs[..i] && b !in bs[j..]
  {
    var k :| 0 <= k < |bs[i..j]| && bs[i..j][k] == b;
    forall m | 0 <= m < |bs| && (m < i || m >= j) ensures bs[m] != b {
      Positions(bs, hi, i + k, m);
    }
  }

  lemma LivePieces(x: seq<Block>, y: seq<Block>, z: seq<Block>)
    ensures Live(x + y + z) == Live(x) + Live(y) + Live(z)
  {
    LiveConcat(x + y, z);
    LiveConcat(x, y);
  }

  lemma LiveApart(bs: seq<Block>, i: nat, j: nat, hi: nat)
    requires i <= j <= |bs| && Tiled(bs, 0, hi)
    ensures forall b :: b in Live(bs[i..j]) ==> b !in Live(bs[..i]) && b !in Live(bs[j..])
  {
    forall b | b in Live(bs[i..j]) ensures b !in Live(bs[..i]) && b !in Live(bs[j..]) {
      Apart(bs, i, j, hi, b);
    }
  }

  /** Replacing blocks changes the live set by exactly those blocks. */
  lemma LiveSplice(bs: seq<Block>, i: nat, j: nat, mid: seq<Block>, hi: nat)
    requires i <= j <= |bs| && Tiled(bs, 0, hi)
    ensures Live(Splice(bs, i, j, mid)) == (Live(bs) - Live(bs[i..j])) + Live(mid)
  {
    assert bs == bs[..i] + bs[i..j] + bs[j..];
    LivePieces(bs[..i], bs[i..j], bs[j..]);
    LivePieces(bs[..i], mid, bs[j..]);
    LiveApart(bs, i, j, hi);
    Swap(Live(bs[..i]), Live(bs[i..j]), Live(bs[j..]), Live(mid));
  }

  lemma Swap(x: set<Block>, y: set<Block>, z: set<Block>, m: set<Block>)
    requires forall b :: b in y ==> b !in x && b !in z
    ensures x + m + z == ((x + y + z) - y) + m
  {
  }

  /** Joining two free neighbours makes nothing live and nothing dead. */
  lemma MergedLive(c: Config, bs: seq<Block>, i: nat)
    requires Tiled(bs, 0, c.End()) && i + 1 < |bs| && !bs[i].used && !bs[i + 1].used
    ensures Live(Merged(bs, i)) == Live(bs)
  {
    assert bs[i..i + 2] == [bs[i], bs[i + 1]];
    LiveSplice(bs, i, i + 2, [Block(bs[i].at, bs[i + 1].end, false)], c.End());
  }

  lemma MergeNextLive(c: Config, h: Heap, i: nat)
    requires Near(c, h.blocks, i)
    ensures Live(MergeNext(h, i).blocks) == Live(h.blocks)
    ensures MergeNext(h, i).blocks[i].at == h.blocks[i].at
  {
    var bs := h.blocks;
    if i + 1 < |bs| && !bs[i + 1].used {
      MergedLive(c, bs, i);
      SpliceAt(bs, i, i + 2, [Block(bs[i].at, bs[i + 1].end, false)]);
    }
  }

  lemma LivePlug(c: Config, h: Heap, i: nat)
    requires Near(c, h.blocks, i) && Counted(c, h)
    ensures Live(PlugHoles(h, i).blocks) == Live(h.blocks)
  {
    var n := MergeNext(h, i);
    MergeNextLive(c, h, i);
    MergeNextNear(c, h, i);
    if i > 0 && !n.blocks[i - 1].used {
      MergedLive(c, n.blocks, i - 1);
    }
  }

  lemma FreeLive(c: Config, h: Heap, i: nat)
    requires Inv(c, h) && i < |h.blocks| && h.blocks[i].used
    ensures Live(Free(h, i).blocks) == Live(h.blocks) - {h.blocks[i]}
  {
    assert h.blocks[i..i + 1] == [h.blocks[i]];
    LiveSplice(h.blocks, i, i + 1, [h.blocks[i].(used := false)], c.End());
    FreedNear(c, h, i);
    LivePlug(c, Freed(h, i), i);
  }

  lemma ShrinkLive(c: Config, h: Heap, i: nat, size: nat)
    requires Inv(c, h) && i < |h.blocks| && h.blocks[i].used
    requires size > 0 && c.Aligned(size) && Shrinks(c, h.blocks[i], size)
    ensures var b := h.blocks[i];
      Live(Shrink(c, h, i, size).blocks) == Live(h.blocks) - {b} + {Block(b.at, b.at + c.hdr + size, true)}
  {
    var b, cut := h.blocks[i], h.blocks[i].at + c.hdr + size;
    assert h.blocks[i..i + 1] == [b];
    LiveSplice(h.blocks, i, i + 1, [Block(b.at, cut, true), Block(cut, b.end, false)], c.End());
    CutNear(c, h, i, size);
    LivePlug(c, Cut(c, h, i, size), i + 1);
  }

  lemma TakeLive(c: Config, h: Heap, i: nat, size: nat)
    requires Inv(c, h) && i < |h.blocks| && !h.blocks[i].used
    ensures Live(Take(c, h, i, size).blocks) == Live(h.blocks) + {Carved(c, h.blocks[i], size)[0]}
  {
    var b := h.blocks[i];
    assert h.blocks[i..i + 1] == [b];
    LiveSplice(h.blocks, i, i + 1, Carved(c, b, size), c.End());
  }

  // ----- rt_malloc is first fit from lfree, under its strict bound

  /** The block would do for the request and is at or above lfree; an exact fit that ends at
      heap_end is never taken. */
  predicate Candidate(c: Config, h: Heap, b: Block, size: nat) {
    !b.used && b.at >= h.lfree && Room(c, b) >= size && b.at + c.hdr + size != c.End()
  }

  lemma {:induction false} IndexAtSplits(bs: seq<Block>, p: nat, lo: nat, hi: nat)
    requires Tiled(bs, lo, hi)
    ensures forall k :: 0 <= k < IndexAt(bs, p) ==> bs[k].at < p
    ensures forall k :: IndexAt(bs, p) <= k < |bs| ==> bs[k].at >= p
  {
    TiledPositions(bs, lo, hi);
    if bs != [] && bs[0].at < p {
      IndexAtSplits(bs[1..], p, bs[0].end, hi);
      assert forall k :: 1 <= k < |bs| ==> bs[k] == bs[1..][k - 1];
    }
  }

  lemma {:induction false} FirstFitIsFirst(c: Config, bs: seq<Block>, i: nat, size: nat)
    requires Tiled(bs, 0, c.End())
    ensures match FirstFit(c, bs, i, size)
      case None => forall k :: i <= k < |bs| && bs[k].at < c.memSize - size ==> bs[k].used || Room(c, bs[k]) < size
      case Some(r) => bs[r].at < c.memSize - size && forall k :: i <= k < r ==> bs[k].used || Room(c, bs[k]) < size
    decreases |bs| - i
  {
    TiledPositions(bs, 0, c.End());
    if i < |bs| && bs[i].at < c.memSize - size {
      FirstFitIsFirst(c, bs, i + 1, size);
    }
  }

  /** The scan bound in terms of the block: only the exact fit at heap_end is lost to it. */
  lemma BoundMeaning(c: Config, b: Block, size: nat)
    requires b.end <= c.End() && Room(c, b) >= size
    ensures b.at < c.memSize - size <==> b.at + c.hdr + size != c.End()
  {
  }

  predicate IsLowest(c: Config, h: Heap, i: nat, size: nat) {
    && i < |h.blocks| && Candidate(c, h, h.blocks[i], size)
    && forall k :: 0 <= k < i ==> !Candidate(c, h, h.blocks[k], size)
  }

  lemma ScanFindsLowest(c: Config, h: Heap, size: nat)
    requires Inv(c, h)
    ensures match FirstFit(c, h.blocks, IndexAt(h.blocks, h.lfree), size)
      case None => forall k :: 0 <= k < |h.blocks| ==> !Candidate(c, h, h.blocks[k], size)
      case Some(i) => IsLowest(c, h, i, size)
  {
    var bs, first := h.blocks, IndexAt(h.blocks, h.lfree);
    IndexAtSplits(bs, h.lfree, 0, c.End());
    FirstFitIsFirst(c, bs, first, size);
    forall k | 0 <= k < |bs| && Room(c, bs[k]) >= size
      ensures bs[k].at < c.memSize - size <==> bs[k].at + c.hdr + size != c.End()
    {
      Positions(bs, c.End(), k, k);
      BoundMeaning(c, bs[k], size);
    }
  }

  /** rt_malloc succeeds exactly when some candidate exists, takes the lowest one, and hands
      out at least the requested bytes. */
  lemma MallocFirstFit(c: Config, h: Heap, n: nat)
    requires Inv(c, h) && Request(c, n).Some? && Scannable(c, n)
    ensures Request(c, n).value >= n
    ensures var size := Request(c, n).value; var r := Malloc(c, h, n);
      if exists k :: 0 <= k < |h.blocks| && Candidate(c, h, h.blocks[k], size)
      then exists i: nat :: IsLowest(c, h, i, size) && r.0 == Take(c, h, i, size) && r.1.Some? && r.1.value == h.blocks[i].at + c.hdr
      else r.0 == h && r.1.None?
  {
    ScanFindsLowest(c, h, Request(c, n).value);
  }

  // ----- lfree is the lowest free block as long as rt_realloc does not shrink

  lemma {:induction false} NextFreeLowest(c: Config, bs: seq<Block>, i: nat)
    requires Tiled(bs, 0, c.End())
    ensures forall k :: i <= k < |bs| && !bs[k].used ==> NextFree(c, bs, i) <= bs[k].at
    decreases |bs| - i
  {
    TiledPositions(bs, 0, c.End());
    if i < |bs| { NextFreeLowest(c, bs, i + 1); }
  }

  lemma TakeLowest(c: Config, h: Heap, i: nat, size: nat)
    requires Inv(c, h) && LowestFree(h) && i < |h.blocks| && !h.blocks[i].used
    requires size > 0 && c.Aligned(size) && Room(c, h.blocks[i]) >= size
    ensures LowestFree(Take(c, h, i, size))
  {
    var b, mid := h.blocks[i], Carved(c, h.blocks[i], size);
    TakeInv(c, h, i, size);
    SpliceAt(h.blocks, i, i + 1, mid);
    TiledPositions(h.blocks, 0, c.End());
    if b.at == h.lfree {
      NextFreeLowest(c, Splice(h.blocks, i, i + 1, mid), i);
    }
  }

  lemma MergeNextLowest(c: Config, h: Heap, i: nat)
    requires Near(c, h.blocks, i) && Counted(c, h) && LowestFree(h)
    ensures LowestFree(MergeNext(h, i))
  {
    var bs := h.blocks;
    TiledPositions(bs, 0, c.End());
    if i + 1 < |bs| && !bs[i + 1].used {
      SpliceAt(bs, i, i + 2, [Block(bs[i].at, bs[i + 1].end, false)]);
    }
  }

  lemma MergePrevLowest(c: Config, h: Heap, i: nat)
    requires Near(c, h.blocks, i) && Counted(c, h) && LowestFree(h)
    ensures LowestFree(MergePrev(h, i))
  {
    var bs := h.blocks;
    TiledPositions(bs, 0, c.End());
    if i > 0 && !bs[i - 1].used {
      SpliceAt(bs, i - 1, i + 1, [Block(bs[i - 1].at, bs[i].end, false)]);
    }
  }

  lemma FreeLowest(c: Config, h: Heap, i: nat)
    requires Inv(c, h) && LowestFree(h) && i < |h.blocks| && h.blocks[i].used
    ensures LowestFree(Free(h, i))
  {
    SpliceAt(h.blocks, i, i + 1, [h.blocks[i].(used := false)]);
    FreedNear(c, h, i);
    MergeNextLowest(c, Freed(h, i), i);
    MergeNextNear(c, Freed(h, i), i);
    MergePrevLowest(c, MergeNext(Freed(h, i), i), i);
  }

  /** The shrink of rt_realloc keeps lfree lowest exactly when lfree lies below the shrunk
      block or is the free block right behind it. */
  lemma ShrinkLowest(c: Config, h: Heap, i: nat, size: nat)
    requires Inv(c, h) && LowestFree(h) && i < |h.blocks| && h.blocks[i].used
    requires size > 0 && c.Aligned(size) && Shrinks(c, h.blocks[i], size)
    ensures var b := h.blocks[i];
      LowestFree(Shrink(c, h, i, size)) <==> h.lfree < b.at || (h.lfree == b.end && b.end != c.End())
  {
    var bs, b, h' := h.blocks, h.blocks[i], Cut(c, h, i, size);
    var cut := b.at + c.hdr + size;
    CutNear(c, h, i, size);
    CutBlocks(c, h, i, size);
    MergeNextNear(c, h', i + 1);
    var n := MergeNext(h', i + 1);
    assert n.blocks[i] == h'.blocks[i] && n.blocks[i + 1].at == cut by {
      if i + 2 < |h'.blocks| && !h'.blocks[i + 2].used {
        SpliceAt(h'.blocks, i + 1, i + 3, [Block(cut, h'.blocks[i + 2].end, false)]);
      }
    }
    assert Shrink(c, h, i, size) == n;
    if h.lfree < b.at || (h.lfree == b.end && b.end != c.End()) {
      FreeAtNext(c, h, i);
      CutLowest(c, h, i, size);
    } else {
      NotBehind(c, h, i);
      TiledPositions(bs, 0, c.End());
      assert n.lfree == h.lfree && n.lfree > cut;
      assert !n.blocks[i + 1].used;
    }
  }

  lemma CutBlocks(c: Config, h: Heap, i: nat, size: nat)
    requires i < |h.blocks| && Shrinks(c, h.blocks[i], size)
    ensures var b, bs := h.blocks[i], Cut(c, h, i, size).blocks;
      var cut := b.at + c.hdr + size;
      && |bs| == |h.blocks| + 1 && bs[i] == Block(b.at, cut, true) && bs[i + 1] == Block(cut, b.end, false)
      && forall k :: 0 <= k < |bs| && k != i && k != i + 1 ==> bs[k] == if k < i then h.blocks[k] else h.blocks[k - 1]
  {
    var b, cut := h.blocks[i], h.blocks[i].at + c.hdr + size;
    SpliceAt(h.blocks, i, i + 1, [Block(b.at, cut, true), Block(cut, b.end, false)]);
  }

  /** lfree right behind block i is the next block, and it is free. */
  lemma FreeAtNext(c: Config, h: Heap, i: nat)
    requires Inv(c, h) && i < |h.blocks| && h.blocks[i].used
    ensures h.lfree == h.blocks[i].end && h.blocks[i].end != c.End() ==>
      i + 1 < |h.blocks| && h.blocks[i + 1].at == h.lfree && !h.blocks[i + 1].used
  {
    TiledPositions(h.blocks, 0, c.End());
    if h.lfree == h.blocks[i].end && h.blocks[i].end != c.End() {
      var k :| 0 <= k < |h.blocks| && h.blocks[k].at == h.lfree && !h.blocks[k].used;
      Positions(h.blocks, c.End(), k, i + 1);
    }
  }

  lemma NotBehind(c: Config, h: Heap, i: nat)
    requires Inv(c, h) && i < |h.blocks| && h.blocks[i].used && h.lfree >= h.blocks[i].at
    ensures h.lfree >= h.blocks[i].end
  {
    TiledPositions(h.blocks, 0, c.End());
    if h.lfree != c.End() {
      var k :| 0 <= k < |h.blocks| && h.blocks[k].at == h.lfree && !h.blocks[k].used;
      Positions(h.blocks, c.End(), k, i);
    }
  }

  lemma CutLowest(c: Config, h: Heap, i: nat, size: nat)
    requires Inv(c, h) && LowestFree(h) && i < |h.blocks| && h.blocks[i].used
    requires size > 0 && c.Aligned(size) && Shrinks(c, h.blocks[i], size)
    requires h.lfree >= h.blocks[i].at ==>
      h.lfree == h.blocks[i].end && i + 1 < |h.blocks| && h.blocks[i + 1].at == h.lfree && !h.blocks[i + 1].used
    ensures LowestFree(MergeNext(Cut(c, h, i, size), i + 1))
  {
    var h' := Cut(c, h, i, size);
    CutNear(c, h, i, size);
    CutBlocks(c, h, i, size);
    if h.lfree < h.blocks[i].at {
      MergeNextLowest(c, h', i + 1);
    } else {
      JoinedLowest(c, h, i, size);
    }
  }

  lemma JoinedLowest(c: Config, h: Heap, i: nat, size: nat)
    requires Inv(c, h) && LowestFree(h) && i + 1 < |h.blocks| && h.blocks[i].used
    requires Shrinks(c, h.blocks[i], size) && h.blocks[i + 1].at == h.lfree && !h.blocks[i + 1].used
    ensures LowestFree(MergeNext(Cut(c, h, i, size), i + 1))
  {
    var h' := Cut(c, h, i, size);
    CutBlocks(c, h, i, size);
    var cut := h'.blocks[i + 1].at;
    SpliceAt(h'.blocks, i + 1, i + 3, [Block(cut, h'.blocks[i + 2].end, false)]);
    var r := MergeNext(h', i + 1);
    forall k | 0 <= k < |r.blocks| && !r.blocks[k].used ensures cut <= r.blocks[k].at {
      if k <= i {
        Positions(h.blocks, c.End(), i + 1, k);
      } else if k > i + 1 {
        Positions(h.blocks, c.End(), i, k);
      }
    }
  }

  // ----- rt_free undoes rt_malloc

  lemma SpliceTwice(bs: seq<Block>, i: nat, j: nat, m: seq<Block>, k: nat, m': seq<Block>)
    requires i <= j <= |bs| && k <= |m|
    ensures Splice(Splice(bs, i, j, m), i, i + k, m') == Splice(bs, i, j, m' + m[k..])
  {
    var r := Splice(bs, i, j, m);
    assert r[..i] == bs[..i];
    assert r[i + k..] == m[k..] + bs[j..];
  }

  lemma SpliceSame(bs: seq<Block>, i: nat)
    requires i < |bs|
    ensures Splice(bs, i, i + 1, [bs[i]]) == bs
  {
  }

  /** Freeing what was just allocated gives back the same chain, lfree and used total. */
  lemma FreeUndoesTake(c: Config, h: Heap, i: nat, size: nat)
    requires Inv(c, h) && i < |h.blocks| && !h.blocks[i].used && h.blocks[i].at >= h.lfree
    requires size > 0 && c.Aligned(size) && Room(c, h.blocks[i]) >= size
    ensures var t := Take(c, h, i, size); Free(t, i) == h.(maxMem := t.maxMem)
  {
    var bs, b, t := h.blocks, h.blocks[i], Take(c, h, i, size);
    var mid, f := Carved(c, b, size), Freed(t, i);
    TakenThenFreed(c, h, i, size);
    SpliceSame(bs, i);
    TiledPositions(bs, 0, c.End());
    if Splits(c, b, size) {
      var two := [mid[0].(used := false)] + mid[1..];
      SpliceAt(bs, i, i + 1, two);
      SpliceTwice(bs, i, i + 1, two, 2, [b]);
      assert two[2..] == [] && [b] + [] == [b];
      assert MergeNext(f, i).blocks == bs && MergeNext(f, i).lfree == h.lfree;
    } else {
      assert f.blocks == bs by { assert [b] + [] == [b]; }
      assert MergeNext(f, i) == f;
    }
  }

  lemma TakenThenFreed(c: Config, h: Heap, i: nat, size: nat)
    requires Inv(c, h) && i < |h.blocks| && !h.blocks[i].used && h.blocks[i].at >= h.lfree
    requires size > 0 && c.Aligned(size) && Room(c, h.blocks[i]) >= size
    ensures var mid, t, f := Carved(c, h.blocks[i], size), Take(c, h, i, size), Freed(Take(c, h, i, size), i);
      && f.lfree == h.lfree && f.usedMem == h.usedMem && f.maxMem == t.maxMem
      && f.blocks == Splice(h.blocks, i, i + 1, [mid[0].(used := false)] + mid[1..])
  {
    var bs, t := h.blocks, Take(c, h, i, size);
    var mid := Carved(c, bs[i], size);
    TakeInv(c, h, i, size);
    SpliceAt(bs, i, i + 1, mid);
    assert t.blocks[i] == mid[0];
    NextFreeAbove(c, t.blocks, i);
    SpliceTwice(bs, i, i + 1, mid, 1, [mid[0].(used := false)]);
  }

  lemma {:induction false} NextFreeAbove(c: Config, bs: seq<Block>, i: nat)
    requires Tiled(bs, 0, c.End()) && i < |bs| && bs[i].used
    ensures NextFree(c, bs, i) > bs[i].at
    decreases |bs| - i
  {
    TiledPositions(bs, 0, c.End());
    if i + 1 < |bs| && bs[i + 1].used { NextFreeAbove(c, bs, i + 1); }
  }

  // ----- rt_realloc, and whole runs

  predicate LivePtr(c: Config, h: Heap, p: nat) {
    exists k :: 0 <= k < |h.blocks| && h.blocks[k].used && h.blocks[k].at + c.hdr == p
  }

  function Index(c: Config, h: Heap, p: nat): (i: nat)
    requires Inv(c, h) && LivePtr(c, h, p)
    ensures i < |h.blocks| && h.blocks[i].used && h.blocks[i].at + c.hdr == p
  {
    IndexAtSplits(h.blocks, p - c.hdr, 0, c.End());
    TiledPositions(h.blocks, 0, c.End());
    IndexAt(h.blocks, p - c.hdr)
  }

  lemma RequestShape(c: Config, n: nat)
    requires c.Ok() && Request(c, n).Some?
    ensures var size := Request(c, n).value; size > 0 && c.Aligned(size) && (c.Roomy() ==> size <= c.memSize)
  {
  }

  lemma MallocInv(c: Config, h: Heap, n: nat)
    requires Inv(c, h)
    ensures Inv(c, Malloc(c, h, n).0)
    ensures Malloc(c, h, n).1.None? ==> Malloc(c, h, n).0 == h
    ensures forall p :: LivePtr(c, h, p) ==> LivePtr(c, Malloc(c, h, n).0, p)
  {
    if Malloc(c, h, n).1.Some? {
      RequestShape(c, n);
      var size := Request(c, n).value;
      var i := FirstFit(c, h.blocks, IndexAt(h.blocks, h.lfree), size).value;
      TakeInv(c, h, i, size);
      forall p | LivePtr(c, h, p) ensures LivePtr(c, Malloc(c, h, n).0, p) {
        TakeKeepsPtr(c, h, i, size, p);
      }
    }
  }

  lemma TakeKeepsPtr(c: Config, h: Heap, i: nat, size: nat, p: nat)
    requires Inv(c, h) && i < |h.blocks| && !h.blocks[i].used && LivePtr(c, h, p)
    ensures LivePtr(c, Take(c, h, i, size), p)
  {
    var k := Index(c, h, p);
    var b := h.blocks[k];
    TakeLive(c, h, i, size);
    assert b in Live(h.blocks) && b in Live(Take(c, h, i, size).blocks);
  }

  /** rt_realloc of a live allocation to an aligned, non-zero, possible size. */
  function Resize(c: Config, h: Heap, p: nat, size: nat): (Heap, Option<nat>)
    requires Inv(c, h) && LivePtr(c, h, p)
  {
    var i := Index(c, h, p);
    if Room(c, h.blocks[i]) == size then (h, Some(p))
    else if Shrinks(c, h.blocks[i], size) then (Shrink(c, h, i, size), Some(p))
    else
      var (h', q) := Malloc(c, h, size);
      MallocInv(c, h, size);
      if q.None? then (h', q) else (Free(h', Index(c, h', p)), q)
  }

  /** A pointer that rt_realloc recognizes as not from this heap. */
  predicate Outside(c: Config, p: int) {
    p < 0 || p >= c.End()
  }

  predicate Reallocable(c: Config, h: Heap, p: Option<int>) {
    p.Some? && !Outside(c, p.value) ==> LivePtr(c, h, p.value)
  }

  function Realloc(c: Config, h: Heap, p: Option<int>, n: nat): (Heap, Option<int>)
    requires Inv(c, h) && Reallocable(c, h, p) && (c.AlignUp(n) == 0 && p.Some? ==> !Outside(c, p.value))
  {
    var size := c.AlignUp(n);
    if size > c.memSize then (h, None)
    else if size == 0 then (if p.None? then h else Free(h, Index(c, h, p.value)), None)
    else if p.None? then Malloc(c, h, size)
    else if Outside(c, p.value) then (h, p)
    else Resize(c, h, p.value, size)
  }

  datatype Op = OpMalloc(n: nat) | OpFree(p: Option<nat>) | OpRealloc(q: Option<int>, n: nat)

  /** What the assertions of rt_free demand: only live allocations or RT_NULL are freed; and a
      request that is scanned for must find a heap in which the scan ends. */
  predicate Legal(c: Config, h: Heap, op: Op) {
    match op
    case OpMalloc(n) => Scannable(c, n)
    case OpFree(p) => p.Some? ==> LivePtr(c, h, p.value)
    case OpRealloc(q, n) =>
      && Reallocable(c, h, q) && (c.AlignUp(n) == 0 && q.Some? ==> !Outside(c, q.value))
      && ((q.Some? && Outside(c, q.value)) || Scannable(c, c.AlignUp(n)))
  }

  function Step(c: Config, h: Heap, op: Op): Heap
    requires Inv(c, h) && Legal(c, h, op)
  {
    match op
    case OpMalloc(n) => Malloc(c, h, n).0
    case OpFree(p) => if p.None? then h else Free(h, Index(c, h, p.value))
    case OpRealloc(p, n) => Realloc(c, h, p, n).0
  }

  /** The only call that may leave lfree above a free block is a shrink in place, and it does
      unless lfree lies below the block or is the free block right behind it. */
  predicate KeepsLowest(c: Config, h: Heap, op: Op)
    requires Inv(c, h) && Legal(c, h, op)
  {
    op.OpRealloc? && op.q.Some? && !Outside(c, op.q.value) ==>
      var b, size := h.blocks[Index(c, h, op.q.value)], c.AlignUp(op.n);
      0 < size <= c.memSize && Room(c, b) != size && Shrinks(c, b, size) ==>
        h.lfree < b.at || (h.lfree == b.end && b.end != c.End())
  }

  lemma StepInv(c: Config, h: Heap, op: Op)
    requires Inv(c, h) && Legal(c, h, op)
    ensures Inv(c, Step(c, h, op))
    ensures LowestFree(h) ==> (LowestFree(Step(c, h, op)) <==> KeepsLowest(c, h, op))
  {
    match op
    case OpMalloc(n) =>
      MallocInv(c, h, n);
      MallocLowest(c, h, n);
    case OpFree(p) =>
      if p.Some? {
        FreeInv(c, h, Index(c, h, p.value));
        if LowestFree(h) { FreeLowest(c, h, Index(c, h, p.value)); }
      }
    case OpRealloc(p, n) =>
      ReallocInv(c, h, p, n);
      if LowestFree(h) { ReallocLowest(c, h, p, n); }
  }

  lemma ReallocLowest(c: Config, h: Heap, p: Option<int>, n: nat)
    requires Inv(c, h) && Legal(c, h, OpRealloc(p, n)) && LowestFree(h)
    ensures LowestFree(Realloc(c, h, p, n).0) <==> KeepsLowest(c, h, OpRealloc(p, n))
  {
    var size := c.AlignUp(n);
    if size <= c.memSize {
      MallocLowest(c, h, size);
      if p.Some? && !Outside(c, p.value) {
        var i := Index(c, h, p.value);
        if size == 0 {
          FreeLowest(c, h, i);
        } else {
          ResizeLowest(c, h, p.value, size);
        }
      }
    }
  }

  lemma ResizeLowest(c: Config, h: Heap, p: nat, size: nat)
    requires Inv(c, h) && LivePtr(c, h, p) && LowestFree(h) && size > 0 && c.Aligned(size)
    ensures var b := h.blocks[Index(c, h, p)];
      LowestFree(Resize(c, h, p, size).0) <==>
        (Room(c, b) != size && Shrinks(c, b, size) ==> h.lfree < b.at || (h.lfree == b.end && b.end != c.End()))
  {
    var i := Index(c, h, p);
    if Room(c, h.blocks[i]) == size {
    } else if Shrinks(c, h.blocks[i], size) {
      ShrinkLowest(c, h, i, size);
    } else {
      MallocInv(c, h, size);
      MallocLowest(c, h, size);
      var (h', q) := Malloc(c, h, size);
      if q.Some? { FreeLowest(c, h', Index(c, h', p)); }
    }
  }

  lemma MallocLowest(c: Config, h: Heap, n: nat)
    requires Inv(c, h)
    ensures LowestFree(h) ==> LowestFree(Malloc(c, h, n).0)
  {
    if LowestFree(h) && Malloc(c, h, n).1.Some? {
      RequestShape(c, n);
      var size := Request(c, n).value;
      TakeLowest(c, h, FirstFit(c, h.blocks, IndexAt(h.blocks, h.lfree), size).value, size);
    }
  }

  lemma ReallocInv(c: Config, h: Heap, p: Option<int>, n: nat)
    requires Inv(c, h) && Legal(c, h, OpRealloc(p, n))
    ensures Inv(c, Realloc(c, h, p, n).0)
  {
    var size := c.AlignUp(n);
    if size <= c.memSize {
      MallocInv(c, h, size);
      if p.Some? && !Outside(c, p.value) {
        var i := Index(c, h, p.value);
        if size == 0 {
          FreeInv(c, h, i);
        } else if Room(c, h.blocks[i]) == size {
        } else if Shrinks(c, h.blocks[i], size) {
          ShrinkInv(c, h, i, size);
        } else if Malloc(c, h, size).1.Some? {
          var h' := Malloc(c, h, size).0;
          FreeInv(c, h', Index(c, h', p.value));
        }
      }
    }
  }

  predicate LegalRun(c: Config, h: Heap, ops: seq<Op>)
    requires Inv(c, h)
    decreases |ops|
  {
    ops == [] || (Legal(c, h, ops[0]) && (StepInv(c, h, ops[0]); LegalRun(c, Step(c, h, ops[0]), ops[1..])))
  }

  function Run(c: Config, h: Heap, ops: seq<Op>): Heap
    requires Inv(c, h) && LegalRun(c, h, ops)
    decreases |ops|
  {
    if ops == [] then h else (StepInv(c, h, ops[0]); Run(c, Step(c, h, ops[0]), ops[1..]))
  }

  function Initial(c: Config): Heap {
    Heap([Block(0, c.End(), false)], 0, 0, 0)
  }

  lemma InitialInv(c: Config)
    requires c.Ok()
    ensures Inv(c, Initial(c)) && LowestFree(Initial(c))
  {
    var h := Initial(c);
    assert h.blocks[0].at == 0;
    AlignedSum(c, c.memSize, c.hdr);
    assert Tiled(h.blocks, 0, c.End()) by { assert h.blocks[1..] == []; }
  }

  /** No call of the run leaves lfree above a free block. */
  predicate AllKeepLowest(c: Config, h: Heap, ops: seq<Op>)
    requires Inv(c, h) && LegalRun(c, h, ops)
    decreases |ops|
  {
    ops == [] || (KeepsLowest(c, h, ops[0]) && (StepInv(c, h, ops[0]); AllKeepLowest(c, Step(c, h, ops[0]), ops[1..])))
  }

  /** Every run keeps the whole invariant; and it keeps lfree lowest unless some rt_realloc
      shrinks a block in place below lfree. */
  lemma {:induction false} RunInv(c: Config, h: Heap, ops: seq<Op>)
    requires Inv(c, h) && LegalRun(c, h, ops)
    ensures Inv(c, Run(c, h, ops))
    ensures LowestFree(h) && AllKeepLowest(c, h, ops) ==> LowestFree(Run(c, h, ops))
    ensures (forall o :: o in ops ==> !o.OpRealloc?) ==> AllKeepLowest(c, h, ops)
    decreases |ops|
  {
    if ops != [] {
      StepInv(c, h, ops[0]);
      assert ops[0] in ops && forall o :: o in ops[1..] ==> o in ops;
      RunInv(c, Step(c, h, ops[0]), ops[1..]);
    }
  }

  /** One malloc and one shrinking realloc on a new heap leave lfree above the new free block. */
  lemma ReallocLosesLowest()
    ensures var c, ops := Config(4, 12, 12, 100), [OpMalloc(96), OpRealloc(Some(12), 4)];
      Inv(c, Initial(c)) && LowestFree(Initial(c)) && LegalRun(c, Initial(c), ops) && !LowestFree(Run(c, Initial(c), ops))
  {
    var c, a, b := Config(4, 12, 12, 100), OpMalloc(96), OpRealloc(Some(12), 4);
    InitialInv(c);
    StepInv(c, Initial(c), a);
    FirstAllocation(c);
    var h := Step(c, Initial(c), a);
    ShrinkAll(c, h);
    assert [a, b][1..] == [b] && [b][1..] == [];
    assert LegalRun(c, h, [b]) && Run(c, h, [b]) == Step(c, h, b);
  }

  lemma ShrinkAll(c: Config, h: Heap)
    requires c == Config(4, 12, 12, 100) && h == Heap([Block(0, 112, true)], 112, 112, 112) && Inv(c, h)
    ensures var b := OpRealloc(Some(12), 4); Legal(c, h, b) && Inv(c, Step(c, h, b)) && !LowestFree(Step(c, h, b))
  {
    assert h.blocks[0].used && LivePtr(c, h, 12) && Index(c, h, 12) == 0;
    StepInv(c, h, OpRealloc(Some(12), 4));
  }

  lemma FirstAllocation(c: Config)
    requires c == Config(4, 12, 12, 100)
    ensures Malloc(c, Initial(c), 96).0 == Heap([Block(0, 112, true)], 112, 112, 112)
  {
    var bs := Initial(c).blocks;
    assert Request(c, 96) == Some(96) && IndexAt(bs, 0) == 0;
    assert FirstFit(c, bs, 0, 96) == Some(0);
    assert Carved(c, bs[0], 96) == [Block(0, 112, true)];
    var r := [Block(0, 112, true)];
    assert Splice(bs, 0, 1, r) == r;
    assert NextFree(c, r, 1) == 112;
    assert NextFree(c, r, 0) == NextFree(c, r, 1);
  }

  /** The whole of a new heap cannot be had, although it is free: the strict bound. */
  lemma ExactFitMissed(c: Config)
    requires c.Ok() && c.Roomy()
    ensures Request(c, c.memSize) == Some(c.memSize) && Room(c, Initial(c).blocks[0]) == c.memSize
    ensures Malloc(c, Initial(c), c.memSize).1.None?
  {
    var bs := Initial(c).blocks;
    assert c.AlignUp(c.memSize) == c.memSize;
    assert IndexAt(bs, 0) == 0 && bs[0].at >= c.memSize - c.memSize;
    assert FirstFit(c, bs, 0, c.memSize) == None;
  }
}
