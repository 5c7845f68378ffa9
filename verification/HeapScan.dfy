// The scan of rt_malloc (src/mem.c) as the machine runs it: a walk along the next fields whose
// bound is an unsigned difference. It ends for exactly those accepted requests that meet a heap
// with room for a minimal block.
module HeapScan {
  import opened Options
  import opened HeapSpec
  import opened HeapTheorems
  import opened HeapMemory

  /** The unsigned difference of two rt_size_t values below `word`. */
  function Minus(a: nat, b: nat, word: nat): nat
    requires word > 0
  {
    (a - b) % word
  }

  predicate Fits(c: Config, hdr: map<nat, Header>, ptr: nat, size: nat, word: nat)
    requires word > 0
  {
    ptr in hdr && !hdr[ptr].used && Minus(hdr[ptr].next, ptr + c.hdr, word) >= size
  }

  /** From `ptr` on, the loop leaves by its bound or with a block within `n` more rounds. */
  predicate EndsIn(c: Config, hdr: map<nat, Header>, ptr: nat, size: nat, word: nat, n: nat)
    requires word > 0
    decreases n
  {
    || ptr >= Minus(c.memSize, size, word) || Fits(c, hdr, ptr, size, word)
    || (n > 0 && ptr in hdr && EndsIn(c, hdr, hdr[ptr].next, size, word, n - 1))
  }

  ghost predicate ScanEnds(c: Config, hdr: map<nat, Header>, ptr: nat, size: nat, word: nat)
    requires word > 0
  {
    exists n: nat :: EndsIn(c, hdr, ptr, size, word, n)
  }

  /** The heap, its header behind heap_end and a minimal request fit the address space. */
  predicate Addressable(c: Config, word: nat) {
    c.Ok() && c.End() + c.hdr + c.MinAligned() < word
  }

  /** The headers spell out a chain that tiles the heap. */
  ghost predicate Spelled(c: Config, hdr: map<nat, Header>, bs: seq<Block>) {
    Good(c, bs) && Linked(c, hdr, bs)
  }

  lemma InRange(a: nat, b: nat, word: nat)
    requires b <= a < word
    ensures Minus(a, b, word) == a - b
  {
  }

  lemma Below(a: nat, b: nat, word: nat)
    requires a < b < word
    ensures Minus(a, b, word) == a - b + word
  {
    Period(a - b + word, word);
  }

  lemma Period(x: int, m: nat)
    requires 0 <= x < m
    ensures (x - m) % m == x
  {
  }

  // ----- A heap with room for a minimal block

  lemma {:induction false} RoomyEnds(c: Config, hdr: map<nat, Header>, bs: seq<Block>, i: nat, size: nat, word: nat)
    requires Addressable(c, word) && Spelled(c, hdr, bs) && i <= |bs| && size <= c.memSize
    ensures EndsIn(c, hdr, OffsetAt(c, bs, i), size, word, |bs| - i)
    decreases |bs| - i
  {
    InRange(c.memSize, size, word);
    if i < |bs| {
      NextHeader(c, hdr, bs, i);
      RoomyEnds(c, hdr, bs, i + 1, size, word);
    }
  }

  // ----- A heap without

  /** Nothing is at or beyond the wrapped bound, and nothing fits. */
  lemma TinyRound(c: Config, hdr: map<nat, Header>, bs: seq<Block>, i: nat, size: nat, word: nat)
    requires Addressable(c, word) && Spelled(c, hdr, bs) && i <= |bs| && c.memSize < size <= c.MinAligned()
    ensures var ptr := OffsetAt(c, bs, i);
      && ptr < Minus(c.memSize, size, word) && !Fits(c, hdr, ptr, size, word)
      && ptr in hdr && hdr[ptr].next == OffsetAt(c, bs, if i < |bs| then i + 1 else i)
  {
    Below(c.memSize, size, word);
    if i < |bs| {
      NextHeader(c, hdr, bs, i);
      Positions(bs, c.End(), i, i);
      assert Shaped(c, bs[i]);
      InRange(bs[i].end, bs[i].at + c.hdr, word);
    }
  }

  lemma {:induction false} TinyNeverEnds(c: Config, hdr: map<nat, Header>, bs: seq<Block>, i: nat, size: nat, word: nat, n: nat)
    requires Addressable(c, word) && Spelled(c, hdr, bs) && i <= |bs| && c.memSize < size <= c.MinAligned()
    ensures !EndsIn(c, hdr, OffsetAt(c, bs, i), size, word, n)
    decreases n
  {
    TinyRound(c, hdr, bs, i, size, word);
    if n > 0 { TinyNeverEnds(c, hdr, bs, if i < |bs| then i + 1 else i, size, word, n - 1); }
  }

  // ----- Both

  /** For an accepted request, from any header of any chain, the scan ends if and only if the
      heap has room for a minimal block. */
  lemma ScanEndsExactly(c: Config, hdr: map<nat, Header>, bs: seq<Block>, i: nat, n: nat, word: nat)
    requires Addressable(c, word) && Spelled(c, hdr, bs) && i <= |bs| && Request(c, n).Some?
    ensures ScanEnds(c, hdr, OffsetAt(c, bs, i), Request(c, n).value, word) <==> c.Roomy()
  {
    var ptr, size := OffsetAt(c, bs, i), Request(c, n).value;
    if c.Roomy() {
      RoomyEnds(c, hdr, bs, i, size, word);
    } else {
      forall k: nat ensures !EndsIn(c, hdr, ptr, size, word, k) { TinyNeverEnds(c, hdr, bs, i, size, word, k); }
    }
  }

  /** The heap as initialized: its scan ends for every accepted request if and only if there is
      room for a minimal block, or for no request at all. */
  lemma FreshScanEnds(c: Config, hdr: map<nat, Header>, word: nat)
    requires Addressable(c, word) && Spelled(c, hdr, Initial(c).blocks)
    ensures (forall n: nat :: Request(c, n).Some? ==> ScanEnds(c, hdr, 0, Request(c, n).value, word))
      <==> c.Roomy() || c.memSize == 0
  {
    var bs := Initial(c).blocks;
    forall n: nat | Request(c, n).Some?
      ensures c.memSize > 0 && (ScanEnds(c, hdr, 0, Request(c, n).value, word) <==> c.Roomy())
    {
      ScanEndsExactly(c, hdr, bs, 0, n, word);
    }
    if c.memSize > 0 { assert Request(c, 1).Some?; }
  }

  /** Eight bytes with headers of twelve on a 32-bit machine: the first request spins. */
  lemma TinyHeapScanNeverEnds()
    ensures var c, hdr := Config(4, 12, 12, 8), map[0 := Header(false, 20, 0), 20 := Header(true, 20, 20)];
      Request(c, 1) == Some(12) && !ScanEnds(c, hdr, 0, 12, 0x1_0000_0000)
  {
    var c, hdr := Config(4, 12, 12, 8), map[0 := Header(false, 20, 0), 20 := Header(true, 20, 20)];
    var bs := Initial(c).blocks;
    InitialInv(c);
    ScanEndsExactly(c, hdr, bs, 0, 1, 0x1_0000_0000);
  }
}
