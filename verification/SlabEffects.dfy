// What each critical section of src/slab.c does to the allocations its callers hold, to the
// zones behind them, and to the pages.
module SlabEffects {
  import opened Lists
  import opened Numbers
  import opened PageRuns
  import opened SlabClasses
  import opened SlabZones
  import opened Slab

  // ----- Where allocations are

  /** Address and size of an allocation are all a caller knows of it. */
  ghost predicate SamePlace(cfg: Config, s: State, s': State, p: Ptr) {
    && p in s.allocs && p in s'.allocs && s'.allocs[p] == s.allocs[p]
    && IsLive(s.blocks, p) && IsLive(s'.blocks, p) && Address(cfg, s', p) == Address(cfg, s, p)
  }

  /** The address follows from page, number and size: whatever else happens, it cannot change. */
  lemma AddressFixed(cfg: Config, s: State, s': State, p: Ptr)
    requires Inv(cfg, s) && Inv(cfg, s') && p in s.allocs && p in s'.allocs && s'.allocs[p] == s.allocs[p]
    ensures SamePlace(cfg, s, s', p)
  {
    assert Accounted(cfg, s.blocks, s.allocs, p) && Accounted(cfg, s'.blocks, s'.allocs, p);
    assert KindOk(cfg, s.blocks[p.at]) && KindOk(cfg, s'.blocks[p.at]);
  }

  /** The allocations are the old ones and `p`, which was none of them. */
  ghost predicate HandsOut(s: State, s': State, p: Ptr, size: nat) {
    && p !in s.allocs && s'.allocs == s.allocs[p := size]
    && s'.used == s.used + size && s'.maxUsed == Max(s.maxUsed, s'.used)
  }

  /** The allocations are the old ones but `p`, which was one of them and is live no more. */
  ghost predicate TakesBack(s: State, s': State, p: Ptr) {
    && p in s.allocs && s'.allocs == s.allocs - {p} && !IsLive(s'.blocks, p)
    && s'.used == s.used - s.allocs[p] && s'.maxUsed == s.maxUsed
  }

  predicate SameBooks(s: State, s': State) { s'.allocs == s.allocs && s'.used == s.used && s'.maxUsed == s.maxUsed }

  // ----- What a section does

  /** The size handed out for `n` bytes below the zone limit. */
  predicate Generous(n: nat, size: nat) { n <= size && (size - n < 8 || 8 * (size - n) < n) }

  /** A zone whose chunks serve `n` bytes has one left. */
  ghost predicate ChunkAround(s: State, n: nat)
    requires 0 < n < 16384
  {
    exists a :: a in s.blocks && s.blocks[a].kind.Used? && s.blocks[a].kind.zone.index == ClassOf(n).index && s.blocks[a].kind.zone.nfree > 0
  }

  ghost predicate Effect(cfg: Config, s: State, step: Step, s': State, out: Outcome)
    requires cfg.Ok()
  {
    match step
    case SmallMalloc(n) =>
      if n == 0 then out == Null && s' == s
      else if n >= cfg.limit || (!ChunkAround(s, n) && s.idle == []) then out == Miss && s' == s
      else out.Got? && s'.runs == s.runs && exists size :: Generous(n, size) && HandsOut(s, s', out.p, size)
    case PageAlloc(n) =>
      && SameBooks(s, s')
      && if n > 0 && exists a: nat :: Gap(s.runs, a, n)
         then out.HeldAt? && Moved(s'.runs, s.runs, out.a, n) && out.a !in s.blocks && s'.blocks == s.blocks[out.a := Block(n, Held)]
         else out == NoPages && s' == s
    case ZoneReady(a, n) =>
      out == Got(Chunk(a, 0)) && s'.runs == s.runs && exists size :: Generous(n, size) && HandsOut(s, s', Chunk(a, 0), size)
    case LargeReady(a) =>
      out == Got(Pages(a)) && s'.runs == s.runs && a in s.blocks && HandsOut(s, s', Pages(a), s.blocks[a].pages * cfg.page)
    case FreeChunk(a, i) => s'.runs == s.runs && TakesBack(s, s', Chunk(a, i))
    case FreeLarge(a) =>
      && s'.runs == s.runs && TakesBack(s, s', Pages(a))
      && a in s.blocks && s'.blocks == s.blocks[a := s.blocks[a].(kind := Held)]
    case PageFree(a) =>
      SameBooks(s, s') && a in s.blocks && Moved(s.runs, s'.runs, a, s.blocks[a].pages) && s'.blocks == s.blocks - {a}
  }

  /** `more` has the `n` pages from `a` on free, which `less` has not; otherwise they agree. */
  ghost predicate Moved(less: seq<Run>, more: seq<Run>, a: nat, n: nat) {
    && (forall p: nat :: a <= p < a + n ==> !IsFree(less, p))
    && forall p: nat :: IsFree(more, p) <==> IsFree(less, p) || a <= p < a + n
  }

  /** Each section hands out, takes back or moves exactly what it is asked to; a request misses
      if and only if no zone of its size has a chunk and no zone is idle, or it is large. */
  lemma StepEffect(cfg: Config, s: State, step: Step)
    requires cfg.Ok() && Inv(cfg, s) && Legal(cfg, s, step)
    ensures Effect(cfg, s, step, Do(cfg, s, step).0, Do(cfg, s, step).1)
  {
    match step
    case SmallMalloc(n) => SmallEffect(cfg, s, n);
    case PageAlloc(n) => PageAllocEffect(cfg, s, n);
    case ZoneReady(a, n) =>
      MarkedInv(cfg, s, a);
      OpenZoneInv(cfg, s.(usage := Marked(s.usage, a, cfg.zonePages)), a, n);
      ClassFits(n);
      assert Generous(n, ClassOf(n).chunk);
    case LargeReady(a) => LargeInv(cfg, s, a);
    case FreeChunk(a, i) => FreeChunkEffect(cfg, s, a, i);
    case FreeLarge(a) => assert Accounted(cfg, s.blocks, s.allocs, Pages(a));
    case PageFree(a) => FreeGives(s.runs, a, s.blocks[a].pages);
  }

  lemma SmallEffect(cfg: Config, s: State, n: nat)
    requires cfg.Ok() && Inv(cfg, s)
    ensures Effect(cfg, s, SmallMalloc(n), SmallStep(cfg, s, n).0, SmallStep(cfg, s, n).1)
  {
    if 0 < n < cfg.limit {
      ClassIndex(n);
      SomeChunk(cfg, s, n);
      if s.lists[ClassOf(n).index] != [] || s.idle != [] { SmallHandsOut(cfg, s, n); }
    }
  }

  lemma SmallHandsOut(cfg: Config, s: State, n: nat)
    requires cfg.Ok() && Inv(cfg, s) && 0 < n < cfg.limit && ClassOf(n).index < 72
    requires s.lists[ClassOf(n).index] != [] || s.idle != []
    ensures var (s', out) := SmallStep(cfg, s, n);
      out.Got? && s'.runs == s.runs && Generous(n, ClassOf(n).chunk) && HandsOut(s, s', out.p, ClassOf(n).chunk)
  {
    ClassFits(n);
    if s.lists[ClassOf(n).index] != [] {
      ListHandsOut(cfg, s, n);
    } else {
      IdleHandsOut(cfg, s, n);
    }
  }

  lemma ListHandsOut(cfg: Config, s: State, n: nat)
    requires cfg.Ok() && Inv(cfg, s) && 0 < n < cfg.limit && ClassOf(n).index < 72 && s.lists[ClassOf(n).index] != []
    ensures var a, zi := s.lists[ClassOf(n).index][0], ClassOf(n).index;
      && CanTake(s, a)
      && var (s', p) := FromZone(s, a, zi); s'.runs == s.runs && HandsOut(s, s', p, ClassOf(n).chunk)
  {
    var zi := ClassOf(n).index;
    FromZoneInv(cfg, s, zi);
    HeadHasChunk(cfg, s, zi);
    ClassIndex(n);
    CreditHandsOut(s, s.lists[zi][0], zi);
  }

  lemma CreditHandsOut(s: State, a: nat, zi: nat)
    requires zi < |s.lists| && s.lists[zi] != [] && CanTake(s, a) && FromZone(s, a, zi).1 !in s.allocs
    ensures var (s', p) := FromZone(s, a, zi); s'.runs == s.runs && HandsOut(s, s', p, s.blocks[a].kind.zone.chunk)
  {
  }

  lemma IdleHandsOut(cfg: Config, s: State, n: nat)
    requires cfg.Ok() && Inv(cfg, s) && 0 < n < cfg.limit && ClassOf(n).index < 72 && s.idle != []
    ensures var c, a, s1 := ClassOf(n), s.idle[0], s.(idle := s.idle[1..]);
      && a in s.blocks && c.chunk > 0
      && var s' := OpenZone(cfg, s1, a, c); s'.runs == s.runs && HandsOut(s, s', Chunk(a, 0), c.chunk)
  {
    ReuseIdleInv(cfg, s, n);
  }

  lemma SomeChunk(cfg: Config, s: State, n: nat)
    requires Inv(cfg, s) && 0 < n < 16384 && ClassOf(n).index < 72
    ensures ChunkAround(s, n) <==> s.lists[ClassOf(n).index] != []
  {
    var zi := ClassOf(n).index;
    if s.lists[zi] != [] {
      HeadHasChunk(cfg, s, zi);
    }
    if ChunkAround(s, n) {
      var a :| a in s.blocks && s.blocks[a].kind.Used? && s.blocks[a].kind.zone.index == zi && s.blocks[a].kind.zone.nfree > 0;
      assert OnList(s.blocks, a, zi);
      assert a in s.lists[zi];
    }
  }

  lemma PageAllocEffect(cfg: Config, s: State, n: nat)
    requires cfg.Ok() && Inv(cfg, s)
    ensures Effect(cfg, s, PageAlloc(n), PageAllocStep(s, n).0, PageAllocStep(s, n).1)
  {
    if n > 0 { AllocFailsIff(s.runs, n); }
    if Alloc(s.runs, n).Some? {
      AllocTakes(s.runs, n);
      AllocPages(s.runs, s.blocks, n);
    }
  }

  lemma FreeChunkEffect(cfg: Config, s: State, a: nat, i: nat)
    requires Inv(cfg, s) && IsLive(s.blocks, Chunk(a, i))
    ensures s.blocks[a].kind.zone.index < |s.lists|
    ensures var s' := FreeChunkStep(cfg, s, a, i); s'.runs == s.runs && TakesBack(s, s', Chunk(a, i))
  {
    assert Accounted(cfg, s.blocks, s.allocs, Chunk(a, i));
    ReturnedInv(cfg, s, a, i);
    FreeChunkInv(cfg, s, a, i);
    var s' := FreeChunkStep(cfg, s, a, i);
    assert Accounted(cfg, s'.blocks, s'.allocs, Chunk(a, i));
  }

  // ----- What becomes of the zone

  /** Some other chunk of the zone is handed out. */
  ghost predicate StillNeeded(z: Zone, i: nat) { exists j: nat :: j != i && InUse(z, j) }

  /** Another zone of the same size has a chunk left. */
  ghost predicate Replaceable(blocks: map<nat, Block>, a: nat, zi: nat) { exists b :: b != a && OnList(blocks, b, zi) }

  /** The zone goes on without the chunk, unless it was the last one handed out and another
      zone can serve the size; then it is kept idle, or held to be released if two are. */
  ghost predicate ZoneFate(s: State, s': State, a: nat, i: nat)
    requires a in s.blocks && s.blocks[a].kind.Used?
  {
    var z := s.blocks[a].kind.zone;
    && s'.blocks.Keys == s.blocks.Keys && (forall b :: b in s.blocks && b != a ==> s'.blocks[b] == s.blocks[b])
    && if StillNeeded(z, i) || !Replaceable(s.blocks, a, z.index)
       then s'.idle == s.idle && s'.blocks[a].kind.Used? && s'.blocks[a].kind.zone.freed == [i] + z.freed
       else if |s.idle| < 2 then s'.blocks[a].kind.Idle? && s'.idle == [a] + s.idle
       else s'.blocks[a].kind.Held? && s'.idle == s.idle
  }

  lemma FreeChunkFate(cfg: Config, s: State, a: nat, i: nat)
    requires cfg.Ok() && Inv(cfg, s) && IsLive(s.blocks, Chunk(a, i))
    ensures ZoneFate(s, Do(cfg, s, FreeChunk(a, i)).0, a, i)
  {
    assert KindOk(cfg, s.blocks[a]);
    RetiresIff(cfg, s, a, i);
  }

  lemma RetiresIff(cfg: Config, s: State, a: nat, i: nat)
    requires cfg.Ok() && Inv(cfg, s) && IsLive(s.blocks, Chunk(a, i)) && s.blocks[a].kind.zone.index < 72
    ensures var z, s' := s.blocks[a].kind.zone, Returned(s, a, i);
      Put(z, i).nfree == z.nmax && s'.lists[z.index] != [a] <==> !StillNeeded(z, i) && Replaceable(s.blocks, a, z.index)
  {
    var z := s.blocks[a].kind.zone;
    assert KindOk(cfg, s.blocks[a]);
    ReturnedInv(cfg, s, a, i);
    PutOk(cfg, z, i);
    LastOne(cfg, z, i);
    AloneOnList(cfg, s, a, i);
  }

  /** Counting free chunks tells whether any is still handed out. */
  lemma LastOne(cfg: Config, z: Zone, i: nat)
    requires ZoneOk(cfg, z) && InUse(z, i)
    ensures Put(z, i).nfree == z.nmax <==> !StillNeeded(z, i)
  {
    var z' := Put(z, i);
    PutOk(cfg, z, i);
    if z'.nfree == z.nmax {
      AllFree(cfg, z');
      forall j: nat | j != i ensures !InUse(z, j) { assert !InUse(z', j); }
    } else if !StillNeeded(z, i) {
      forall j: nat ensures !InUse(z', j) { assert j != i ==> !InUse(z, j); }
      NoneInUse(cfg, z');
    }
  }

  lemma NoneInUse(cfg: Config, z: Zone)
    requires ZoneOk(cfg, z) && forall j: nat :: !InUse(z, j)
    ensures z.nfree == z.nmax
  {
    forall j: nat | j < z.uindex + 1 ensures j in z.freed { assert !InUse(z, j); }
    Covers(z.freed, z.uindex + 1);
    AtMost(z.freed, z.uindex + 1);
  }

  lemma AtMost(q: seq<nat>, n: nat)
    requires NoDup(q) && forall k :: 0 <= k < |q| ==> q[k] < n
    ensures |q| <= n
  {
    Elements(q);
    assert Elems(q) <= Below(n);
    Smaller(Elems(q), Below(n));
  }

  lemma Covers(q: seq<nat>, n: nat)
    requires NoDup(q) && forall j: nat :: j < n ==> j in q
    ensures |q| >= n
  {
    Elements(q);
    assert Below(n) <= Elems(q);
    Smaller(Below(n), Elems(q));
  }

  lemma Smaller(a: set<int>, b: set<int>)
    requires a <= b
    ensures |a| <= |b|
  {
    assert b == a + (b - a);
  }

  lemma AloneOnList(cfg: Config, s: State, a: nat, i: nat)
    requires Inv(cfg, s) && IsLive(s.blocks, Chunk(a, i)) && s.blocks[a].kind.zone.index < 72
    requires Inv(cfg, Returned(s, a, i)) && OnList(Returned(s, a, i).blocks, a, s.blocks[a].kind.zone.index)
    ensures Returned(s, a, i).lists[s.blocks[a].kind.zone.index] == [a] <==> !Replaceable(s.blocks, a, s.blocks[a].kind.zone.index)
  {
    var zi, s' := s.blocks[a].kind.zone.index, Returned(s, a, i);
    var q := s'.lists[zi];
    assert a in q;
    forall b | b != a ensures b in q <==> OnList(s.blocks, b, zi) {
      assert OnList(s'.blocks, b, zi) <==> OnList(s.blocks, b, zi);
    }
    if q == [a] {
      forall b | b != a ensures !OnList(s.blocks, b, zi) { assert b !in q; }
    } else {
      var k: nat :| k < |q| && q[k] != a;
      assert q[k] in q;
    }
  }

  // ----- Whole runs

  predicate Frees(step: Step, p: Ptr) {
    match step
    case FreeChunk(a, i) => p == Chunk(a, i)
    case FreeLarge(a) => p == Pages(a)
    case _ => false
  }

  /** Whatever others allocate and free, an allocation stays where it is, with its size, until
      it is freed itself. */
  lemma {:induction false} StaysPut(cfg: Config, s: State, steps: seq<Step>, s': State, p: Ptr)
    requires cfg.Ok() && Inv(cfg, s) && Leads(cfg, s, steps, s') && p in s.allocs
    requires forall k :: 0 <= k < |steps| ==> !Frees(steps[k], p)
    ensures SamePlace(cfg, s, s', p)
    decreases |steps|
  {
    Reachable(cfg, s, steps, s');
    if steps != [] {
      var m := Do(cfg, s, steps[0]).0;
      StepInv(cfg, s, steps[0]);
      StepEffect(cfg, s, steps[0]);
      assert p in m.allocs && m.allocs[p] == s.allocs[p];
      StaysPut(cfg, m, steps[1..], s', p);
    }
    AddressFixed(cfg, s, s', p);
  }
}
