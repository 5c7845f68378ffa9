// The fixed-block memory pool of src/mempool.c: a chain of free blocks threaded through the
// blocks themselves, and threads waiting for one.
module MemPool {
  import opened Options
  import opened Lists
  import opened WaitGate

  type Block = nat

  /** `free` is the chain from block_list; `live` the blocks handed out; `remaining` the local
      timeout of the calls that suspended. */
  datatype Pool = Pool(total: nat, free: seq<Block>, live: set<Block>, wait: Gate, remaining: map<Tid, int>)

  datatype Outcome = Got(block: Block) | Blocked | NoBlock | Done | Expired

  datatype Step =
    | AllocEnter(t: Tid, time: int)
    | AllocResume(t: Tid, elapsed: nat)
    | Free(block: Block)
    | Timeout(t: Tid)
    | Detach

  predicate Enabled(p: Pool, s: Step) {
    match s
    case AllocEnter(t, _) => !Inside(p.wait, t)
    case AllocResume(t, _) => t in p.wait.woken && t in p.remaining
    case Free(block) => block in p.live
    case Timeout(t) => t in p.wait.waiting
    case Detach => true
  }

  /** Loop head of rt_mp_alloc and the unlinking that follows it. */
  function TryAlloc(p: Pool, t: Tid, time: int): (Pool, Outcome) {
    if p.free != [] then
      (p.(free := p.free[1..], live := p.live + {p.free[0]}, wait := Leave(p.wait, t)), Got(p.free[0]))
    else if time == 0 then
      (p.(wait := Leave(p.wait, t)), NoBlock)
    else
      (p.(wait := WaitGate.Block(p.wait, Lifo, t), remaining := p.remaining[t := time]), Blocked)
  }

  function Do(p: Pool, s: Step): (Pool, Outcome)
    requires Enabled(p, s)
  {
    match s
    case AllocEnter(t, time) => TryAlloc(p, t, time)
    case AllocResume(t, elapsed) => TryAlloc(p, t, Remaining(p.remaining[t], elapsed))
    case Free(block) => (p.(free := [block] + p.free, live := p.live - {block}, wait := Wake(p.wait)), Done)
    case Timeout(t) => (p.(wait := Expire(p.wait, t)), Expired)
    case Detach => (p.(wait := Flush(p.wait)), Done)
  }

  /** Every block is free or live, never both. */
  ghost predicate Partition(total: nat, free: seq<Block>, live: set<Block>) {
    && NoDup(free) && (forall b :: b in free ==> b !in live)
    && (forall b: Block :: b < total <==> b in free || b in live)
    && |free| + |live| == total
  }

  lemma TakeBlock(total: nat, free: seq<Block>, live: set<Block>)
    requires Partition(total, free, live) && free != []
    ensures Partition(total, free[1..], live + {free[0]})
  {
    assert free == [free[0]] + free[1..];
  }

  /** Free and live blocks partition the pool, and no wakeup is lost. */
  ghost predicate Inv(p: Pool) {
    && Partition(p.total, p.free, p.live)
    && Sound(|p.free|, p.wait) && (forall t :: Inside(p.wait, t) ==> t in p.remaining)
  }

  lemma TryAllocInv(p: Pool, t: Tid, time: int)
    requires Inv(p) && t !in p.wait.waiting
    ensures Inv(TryAlloc(p, t, time).0)
  {
    if p.free != [] {
      TakeBlock(p.total, p.free, p.live);
      TakeSound(|p.free|, p.wait, t);
    } else if time == 0 {
      GiveUpSound(p.wait, t);
    } else {
      BlockSound(p.wait, Lifo, t);
    }
  }

  lemma FreeInv(p: Pool, block: Block)
    requires Inv(p) && block in p.live
    ensures Inv(Do(p, Free(block)).0)
  {
    WakeSound(|p.free|, p.wait);
    assert forall i :: 0 <= i < |p.free| ==> p.free[i] in p.free;
  }

  lemma StepInv(p: Pool, s: Step)
    requires Inv(p) && Enabled(p, s)
    ensures Inv(Do(p, s).0) && Do(p, s).0.total == p.total
  {
    match s
    case AllocEnter(t, time) => TryAllocInv(p, t, time);
    case AllocResume(t, elapsed) => TryAllocInv(p, t, Remaining(p.remaining[t], elapsed));
    case Free(block) => FreeInv(p, block);
    case Timeout(t) => ExpireSound(|p.free|, p.wait, t);
    case Detach => FlushSound(|p.free|, p.wait);
  }

  // ----- What each step does

  ghost predicate AllocEffect(p: Pool, t: Tid, time: int, r: Pool, out: Outcome) {
    if p.free != [] then
      out.Got? && p.free == [out.block] + r.free && r.live == p.live + {out.block} && Departs(p.wait, r.wait, t)
    else
      && r.free == [] && r.live == p.live
      && if time == 0 then out == NoBlock && Departs(p.wait, r.wait, t)
         else out == Blocked && Sleeps(p.wait, r.wait, Lifo, t) && t in r.remaining && r.remaining[t] == time
  }

  ghost predicate Effect(p: Pool, s: Step, r: Pool, out: Outcome)
    requires Enabled(p, s)
  {
    match s
    case AllocEnter(t, time) => AllocEffect(p, t, time, r, out)
    case AllocResume(t, elapsed) => AllocEffect(p, t, Left(p.remaining[t], elapsed), r, out)
    case Free(block) => r.free == [block] + p.free && r.live == p.live - {block} && WakesFirst(p.wait, r.wait)
    case Timeout(t) => r.free == p.free && r.live == p.live && Drops(p.wait.waiting, r.wait.waiting, t) && r.wait.woken == p.wait.woken
    case Detach => r.free == p.free && r.live == p.live && Flushed(p.wait, r.wait)
  }

  /** A block is had if and only if one is free, the one freed last; without one a caller sleeps
      if and only if it has time to wait; a freed block wakes the thread that came last. */
  lemma StepEffect(p: Pool, s: Step)
    requires Inv(p) && Enabled(p, s)
    ensures Effect(p, s, Do(p, s).0, Do(p, s).1)
  {
    match s
    case AllocEnter(t, _) => BlockSleeps(p.wait, Lifo, t);
    case AllocResume(t, _) => BlockSleeps(p.wait, Lifo, t);
    case Free(_) => WakeFirst(p.wait);
    case Timeout(t) => WithoutDrops(p.wait.waiting, t);
    case Detach =>
  }

  predicate LegalRun(p: Pool, ss: seq<Step>)
    decreases |ss|
  {
    ss == [] || (Enabled(p, ss[0]) && LegalRun(Do(p, ss[0]).0, ss[1..]))
  }

  function Run(p: Pool, ss: seq<Step>): Pool
    requires LegalRun(p, ss)
    decreases |ss|
  {
    if ss == [] then p else Run(Do(p, ss[0]).0, ss[1..])
  }

  /** Over every run: a block is never handed out twice, none is lost, and nobody sleeps while
      more blocks are free than threads are already on their way to take them. */
  lemma {:induction false} Reachable(p: Pool, ss: seq<Step>)
    requires Inv(p) && LegalRun(p, ss)
    ensures Inv(Run(p, ss)) && Run(p, ss).total == p.total
    decreases |ss|
  {
    if ss != [] {
      StepInv(p, ss[0]);
      Reachable(Do(p, ss[0]).0, ss[1..]);
    }
  }

  // ----- The chain

  /** The word in front of a block: the next free block, or the pool while it is live. */
  datatype Word = Next(block: Block) | Null | Owner

  predicate IsChain(words: map<Block, Word>, list: Word, s: seq<Block>)
    decreases |s|
  {
    if s == [] then list == Null
    else list == Next(s[0]) && s[0] in words && IsChain(words, words[s[0]], s[1..])
  }

  lemma {:induction false} ChainOther(words: map<Block, Word>, list: Word, s: seq<Block>, b: Block, w: Word)
    requires IsChain(words, list, s) && b !in s
    ensures IsChain(words[b := w], list, s)
    decreases |s|
  {
    if s != [] {
      assert s[0] in s && forall x :: x in s[1..] ==> x in s;
      ChainOther(words, words[s[0]], s[1..], b, w);
    }
  }

  function From(k: nat, n: nat): (s: seq<Block>)
    requires k <= n
    ensures |s| == n - k && forall i :: 0 <= i < n - k ==> s[i] == k + i
    decreases n - k
  {
    if k == n then [] else [k] + From(k + 1, n)
  }

  lemma {:induction false} InitialChain(words: map<Block, Word>, k: nat, n: nat)
    requires k <= n && (forall i :: k <= i < n ==> i in words && words[i] == if i + 1 < n then Next(i + 1) else Null)
    ensures IsChain(words, if k < n then Next(k) else Null, From(k, n))
    decreases n - k
  {
    if k < n {
      InitialChain(words, k + 1, n);
      assert From(k, n)[1..] == From(k + 1, n);
    }
  }

  lemma FreshInv(n: nat)
    ensures Inv(Pool(n, From(0, n), {}, Gate([], {}), map[]))
  {
    var s := From(0, n);
    forall b: Block ensures b < n <==> b in s {
      if b < n { assert s[b] == b; }
    }
  }

  /** Blocks of `width` bytes each behind its word never overlap and stay inside the area. */
  lemma BlocksApart(i: nat, j: nat, n: nat, word: nat, width: nat, size: nat)
    requires word > 0 && i < j < n && n == size / (width + word)
    ensures i * (width + word) + word + width <= j * (width + word)
    ensures j * (width + word) + word + width <= size
  {
    var w := width + word;
    assert i * w + w == (i + 1) * w <= j * w by { Multiples(i + 1, j, w); }
    assert j * w + w == (j + 1) * w <= n * w by { Multiples(j + 1, n, w); }
    assert n * w <= size;
  }

  lemma Multiples(a: nat, b: nat, w: nat)
    requires a <= b
    ensures a * w <= b * w
  {
    assert b * w - a * w == (b - a) * w;
  }

  class MemoryPool {
    var words: map<Block, Word>
    var list: Word
    var freeCount: nat
    var suspended: seq<Tid>
    ghost var p: Pool

    ghost predicate Stands()
      reads this
    {
      && IsChain(words, list, p.free) && freeCount == |p.free| && suspended == p.wait.waiting
      && (forall b :: b in p.live ==> b in words && words[b] == Owner)
      && Inv(p)
    }

    /** rt_mp_init for an area with room for at least one block. */
    constructor (n: nat)
      requires n >= 1
      ensures Stands() && p == Pool(n, From(0, n), {}, Gate([], {}), map[])
    {
      var ws: map<Block, Word> := map[];
      var offset := 0;
      while offset < n
        invariant 0 <= offset <= n
        invariant forall i :: 0 <= i < offset ==> i in ws && ws[i] == Next(i + 1)
      {
        ws := ws[offset := Next(offset + 1)];
        offset := offset + 1;
      }
      ws := ws[offset - 1 := Null];
      InitialChain(ws, 0, n);
      words, list, freeCount, suspended := ws, Next(0), n, [];
      p := Pool(n, From(0, n), {}, Gate([], {}), map[]);
      new;
      FreshInv(n);
    }

    /** Loop head of rt_mp_alloc. */
    method Attempt(t: Tid, time: int) returns (out: Outcome)
      requires Stands() && t !in p.wait.waiting
      modifies this
      ensures Stands() && (p, out) == TryAlloc(old(p), t, time)
    {
      TryAllocInv(p, t, time);
      if freeCount == 0 {
        if time == 0 {
          out := NoBlock;
        } else {
          suspended := [t] + suspended;
          out := Blocked;
        }
      } else {
        freeCount := freeCount - 1;
        var block := list.block;
        ChainOther(words, words[block], p.free[1..], block, Owner);
        list := words[block];
        words := words[block := Owner];
        out := Got(block);
      }
      p := TryAlloc(p, t, time).0;
    }

    /** rt_mp_free; RT_NULL is ignored. */
    method Release(block: Option<Block>)
      requires Stands() && (block.Some? ==> block.value in p.live)
      modifies this
      ensures Stands() && p == if block.None? then old(p) else Do(old(p), Free(block.value)).0
    {
      if block.None? {
        return;
      }
      var b := block.value;
      FreeInv(p, b);
      ChainOther(words, list, p.free, b, list);
      freeCount := freeCount + 1;
      words := words[b := list];
      list := Next(b);
      if suspended != [] {
        suspended := suspended[1..];
      }
      assert ([b] + p.free)[1..] == p.free;
      p := Do(p, Free(b)).0;
    }
  }
}
