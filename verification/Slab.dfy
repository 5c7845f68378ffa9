// Whole-allocator state of src/slab.c, its steps, and what every run of them keeps.
module Slab {
  import opened Lists
  import opened Numbers
  import opened Options
  import opened PageRuns
  import opened SlabClasses
  import opened SlabZones

  /** What a block of pages taken from the page allocator is: a zone in use, an idle zone, a
      large allocation, or in the hands of an operation between two sections. */
  datatype Kind = Used(zone: Zone) | Idle | Large | Held
  datatype Block = Block(pages: nat, kind: Kind)

  /** A chunk of the zone that starts at a page, or whole pages. */
  datatype Ptr = Chunk(at: nat, i: nat) | Pages(at: nat)

  /** An entry of the memusage table. */
  datatype Usage = Small(off: nat) | Whole(pages: nat) | Unused

  datatype State = State(runs: seq<Run>, blocks: map<nat, Block>, lists: seq<seq<nat>>, idle: seq<nat>,
                         usage: map<nat, Usage>, allocs: map<Ptr, nat>, used: int, maxUsed: int)

  datatype Outcome = Got(p: Ptr) | Miss | HeldAt(a: nat) | NoPages | Done | Null

  datatype Step =
    | SmallMalloc(n: nat) | PageAlloc(n: nat) | ZoneReady(a: nat, n: nat) | LargeReady(a: nat)
    | FreeChunk(a: nat, i: nat) | FreeLarge(a: nat) | PageFree(a: nat)

  // ----- Accounting

  ghost function Sum(m: map<Ptr, nat>): nat
    decreases |m|
  {
    if m == map[] then 0 else
      var k :| k in m;
      m[k] + Sum(m - {k})
  }

  lemma {:induction false} SumWithout(m: map<Ptr, nat>, k: Ptr)
    requires k in m
    ensures Sum(m) == m[k] + Sum(m - {k})
    decreases |m|
  {
    var c :| c in m && Sum(m) == m[c] + Sum(m - {c});
    if c != k {
      SumWithout(m - {c}, k);
      SumWithout(m - {k}, c);
      assert (m - {c}) - {k} == (m - {k}) - {c};
    }
  }

  lemma SumWith(m: map<Ptr, nat>, k: Ptr, v: nat)
    requires k !in m
    ensures Sum(m[k := v]) == Sum(m) + v
  {
    SumWithout(m[k := v], k);
    assert m[k := v] - {k} == m;
  }

  function Credit(s: State, p: Ptr, size: nat): State {
    var used := s.used + size;
    s.(allocs := s.allocs[p := size], used := used, maxUsed := if used > s.maxUsed then used else s.maxUsed)
  }

  function Debit(s: State, p: Ptr, size: nat): State {
    s.(allocs := s.allocs - {p}, used := s.used - size)
  }

  ghost predicate Tally(s: State) { s.used == Sum(s.allocs) && s.used <= s.maxUsed }

  lemma CreditTally(s: State, p: Ptr, size: nat)
    requires Tally(s) && p !in s.allocs
    ensures Tally(Credit(s, p, size))
  {
    SumWith(s.allocs, p, size);
  }

  lemma DebitTally(s: State, p: Ptr)
    requires Tally(s) && p in s.allocs
    ensures Tally(Debit(s, p, s.allocs[p]))
  {
    SumWithout(s.allocs, p);
  }

  // ----- Steps

  function WithKind(s: State, a: nat, k: Kind): State
    requires a in s.blocks
  {
    s.(blocks := s.blocks[a := s.blocks[a].(kind := k)])
  }

  /** The pages of a block at `a`, numbered from its start. */
  function Marked(u: map<nat, Usage>, a: nat, n: nat): map<nat, Usage> {
    if n == 0 then u else Marked(u, a, n - 1)[a + n - 1 := Small(n - 1)]
  }

  function Unmarked(u: map<nat, Usage>, a: nat, n: nat): map<nat, Usage> {
    if n == 0 then u else Unmarked(u, a, n - 1)[a + n - 1 := Unused]
  }

  /** A zone is laid out for the class and gives its first chunk. */
  function OpenZone(cfg: Config, s: State, a: nat, c: Class): State
    requires a in s.blocks && c.chunk > 0 && c.index < |s.lists|
  {
    var s1 := WithKind(s, a, Used(NewZone(cfg, c)));
    Credit(s1.(lists := s.lists[c.index := [a] + s.lists[c.index]]), Chunk(a, 0), c.chunk)
  }

  /** A chunk from a zone that has some. */
  function FromZone(s: State, a: nat, zi: nat): (State, Ptr)
    requires a in s.blocks && s.blocks[a].kind.Used? && zi < |s.lists| && s.lists[zi] != []
    requires var z := s.blocks[a].kind.zone; z.uindex >= 0 && (z.uindex + 1 == z.nmax ==> z.freed != [])
  {
    var (z, i) := Take(s.blocks[a].kind.zone);
    var s1 := WithKind(s, a, Used(z));
    var s2 := if z.nfree == 0 then s1.(lists := s.lists[zi := s.lists[zi][1..]]) else s1;
    (Credit(s2, Chunk(a, i), z.chunk), Chunk(a, i))
  }

  /** Chunk `i` goes back on its zone's list; the zone joins the list of its class if it was full. */
  function Returned(s: State, a: nat, i: nat): State
    requires a in s.blocks && s.blocks[a].kind.Used? && s.blocks[a].kind.zone.index < |s.lists|
  {
    var z := s.blocks[a].kind.zone;
    var zi := z.index;
    var s1 := Debit(WithKind(s, a, Used(Put(z, i))), Chunk(a, i), z.chunk);
    if z.nfree == 0 then s1.(lists := s.lists[zi := [a] + s.lists[zi]]) else s1
  }

  /** A wholly free zone leaves its list, unless it is alone there, for the idle pool; a third
      idle zone is given up. */
  function Retired(cfg: Config, s: State, a: nat): State
    requires a in s.blocks && s.blocks[a].kind.Used? && s.blocks[a].kind.zone.index < |s.lists|
  {
    var zi := s.blocks[a].kind.zone.index;
    var s1 := s.(lists := s.lists[zi := Without(s.lists[zi], a)]);
    if |s.idle| + 1 > 2 then
      WithKind(s1, a, Held).(usage := Unmarked(s.usage, a, cfg.zonePages))
    else WithKind(s1, a, Idle).(idle := [a] + s.idle)
  }

  // ----- Invariant

  predicate Overlap(a: nat, n: nat, b: nat, m: nat) { a < b + m && b < a + n }

  /** Free pages and blocks do not overlap. */
  ghost predicate PagesOk(runs: seq<Run>, blocks: map<nat, Block>) {
    && Canonical(runs)
    && (forall a :: a in blocks ==> blocks[a].pages > 0 && Owned(runs, a, blocks[a].pages))
    && (forall a, b :: a in blocks && b in blocks && a != b ==> !Overlap(a, blocks[a].pages, b, blocks[b].pages))
  }

  ghost predicate ZonesOk(cfg: Config, blocks: map<nat, Block>) { forall a :: a in blocks ==> KindOk(cfg, blocks[a]) }

  ghost predicate KindOk(cfg: Config, b: Block) {
    && (b.kind.Used? ==> ZoneOk(cfg, b.kind.zone) && b.pages == cfg.zonePages)
    && (b.kind.Idle? ==> b.pages == cfg.zonePages)
  }

  /** Zones that are not idle are listed under their class exactly when they have free chunks;
      the pool lists the idle ones. */
  ghost predicate ListsOk(blocks: map<nat, Block>, lists: seq<seq<nat>>, idle: seq<nat>) {
    && |lists| == 72 && NoDup(idle) && |idle| <= 2
    && (forall i :: 0 <= i < 72 ==> NoDup(lists[i]))
    && (forall i, a :: 0 <= i < 72 ==> (a in lists[i] <==> OnList(blocks, a, i)))
    && (forall a :: a in idle <==> a in blocks && blocks[a].kind.Idle?)
  }

  predicate OnList(blocks: map<nat, Block>, a: nat, i: nat) {
    a in blocks && blocks[a].kind.Used? && blocks[a].kind.zone.index == i && blocks[a].kind.zone.nfree > 0
  }

  /** The table leads from every page of a zone to its start, and from a large block's first
      page to its length. */
  ghost predicate UsageOk(cfg: Config, blocks: map<nat, Block>, usage: map<nat, Usage>) {
    forall a :: a in blocks ==> Described(cfg, a, blocks[a], usage)
  }

  ghost predicate Described(cfg: Config, a: nat, b: Block, usage: map<nat, Usage>) {
    && (b.kind.Used? || b.kind.Idle? ==> forall p: nat :: a <= p < a + cfg.zonePages ==> OfZone(usage, p, a))
    && (b.kind.Large? ==> PageIs(usage, a, Whole(b.pages)))
  }

  /** Subtracting the entry of page `p` gives the zone's first page. */
  predicate OfZone(usage: map<nat, Usage>, p: nat, a: nat) { p in usage && usage[p].Small? && p - usage[p].off == a }

  predicate PageIs(usage: map<nat, Usage>, p: nat, u: Usage) { p in usage && usage[p] == u }

  /** Live allocations are exactly the chunks in use, with their chunk size, and the large
      blocks, with their pages. */
  ghost predicate AllocsOk(cfg: Config, blocks: map<nat, Block>, allocs: map<Ptr, nat>) {
    forall p :: Accounted(cfg, blocks, allocs, p)
  }

  predicate Accounted(cfg: Config, blocks: map<nat, Block>, allocs: map<Ptr, nat>, p: Ptr) {
    && (p in allocs <==> IsLive(blocks, p))
    && (p in allocs ==> allocs[p] == SizeOf(cfg, blocks, p))
  }

  predicate IsLive(blocks: map<nat, Block>, p: Ptr) {
    p.at in blocks &&
    match p
    case Chunk(a, i) => blocks[a].kind.Used? && InUse(blocks[a].kind.zone, i)
    case Pages(a) => blocks[a].kind.Large?
  }

  function SizeOf(cfg: Config, blocks: map<nat, Block>, p: Ptr): nat {
    if !IsLive(blocks, p) then 0 else
      match p
      case Chunk(a, _) => blocks[a].kind.zone.chunk
      case Pages(a) => blocks[a].pages * cfg.page
  }

  ghost predicate Inv(cfg: Config, s: State) {
    && PagesOk(s.runs, s.blocks) && ZonesOk(cfg, s.blocks) && ListsOk(s.blocks, s.lists, s.idle)
    && UsageOk(cfg, s.blocks, s.usage) && AllocsOk(cfg, s.blocks, s.allocs) && Tally(s)
  }

  // ----- The sections

  function Legal(cfg: Config, s: State, step: Step): bool {
    match step
    case ZoneReady(a, n) => a in s.blocks && s.blocks[a] == Block(cfg.zonePages, Held) && 0 < n < cfg.limit
    case LargeReady(a) => a in s.blocks && s.blocks[a].kind == Held
    case FreeChunk(a, i) => IsLive(s.blocks, Chunk(a, i))
    case FreeLarge(a) => IsLive(s.blocks, Pages(a))
    case PageFree(a) => a in s.blocks && s.blocks[a].kind == Held
    case _ => true
  }

  ghost function Do(cfg: Config, s: State, step: Step): (State, Outcome)
    requires cfg.Ok() && Inv(cfg, s) && Legal(cfg, s, step)
  {
    match step
    case SmallMalloc(n) => SmallStep(cfg, s, n)
    case PageAlloc(n) => PageAllocStep(s, n)
    case ZoneReady(a, n) =>
      ClassIndex(n);
      (OpenZone(cfg, s.(usage := Marked(s.usage, a, cfg.zonePages)), a, ClassOf(n)), Got(Chunk(a, 0)))
    case LargeReady(a) => (LargeStep(cfg, s, a), Got(Pages(a)))
    case FreeChunk(a, i) => (FreeChunkStep(cfg, s, a, i), Done)
    case FreeLarge(a) => (FreeLargeStep(cfg, s, a), Done)
    case PageFree(a) => (s.(runs := Free(s.runs, a, s.blocks[a].pages), blocks := s.blocks - {a}), Done)
  }

  /** The first section of rt_malloc for a small request; a miss goes on to the page allocator. */
  ghost function SmallStep(cfg: Config, s: State, n: nat): (State, Outcome)
    requires cfg.Ok() && Inv(cfg, s)
  {
    if n == 0 then (s, Null)
    else if n >= cfg.limit then (s, Miss)
    else
      var c := ClassOf(n);
      ClassIndex(n);
      if s.lists[c.index] != [] then
        HeadHasChunk(cfg, s, c.index);
        var (s', p) := FromZone(s, s.lists[c.index][0], c.index);
        (s', Got(p))
      else if s.idle != [] then
        assert s.idle[0] in s.idle;
        (OpenZone(cfg, s.(idle := s.idle[1..]), s.idle[0], c), Got(Chunk(s.idle[0], 0)))
      else (s, Miss)
  }

  function PageAllocStep(s: State, n: nat): (State, Outcome) {
    match Alloc(s.runs, n)
    case None => (s, NoPages)
    case Some(r) => (s.(runs := r.1, blocks := s.blocks[r.0 := Block(n, Held)]), HeldAt(r.0))
  }

  function LargeStep(cfg: Config, s: State, a: nat): State
    requires a in s.blocks
  {
    var n := s.blocks[a].pages;
    Credit(WithKind(s, a, Large).(usage := s.usage[a := Whole(n)]), Pages(a), n * cfg.page)
  }

  function FreeLargeStep(cfg: Config, s: State, a: nat): State
    requires a in s.blocks
  {
    Debit(WithKind(s, a, Held).(usage := s.usage[a := Whole(0)]), Pages(a), s.blocks[a].pages * cfg.page)
  }

  function FreeChunkStep(cfg: Config, s: State, a: nat, i: nat): State
    requires a in s.blocks && s.blocks[a].kind.Used? && s.blocks[a].kind.zone.index < |s.lists|
  {
    var s1 := Returned(s, a, i);
    var z := s1.blocks[a].kind.zone;
    if z.nfree == z.nmax && s1.lists[z.index] != [a] then Retired(cfg, s1, a) else s1
  }

  lemma HeadHasChunk(cfg: Config, s: State, zi: nat)
    requires Inv(cfg, s) && zi < 72 && s.lists[zi] != []
    ensures var a := s.lists[zi][0];
      && a in s.blocks && s.blocks[a].kind.Used?
      && var z := s.blocks[a].kind.zone; z.index == zi && z.nfree > 0 && ZoneOk(cfg, z) && (z.uindex + 1 == z.nmax ==> z.freed != [])
  {
    var a := s.lists[zi][0];
    assert a in s.lists[zi];
    assert OnList(s.blocks, a, zi);
    TakeOk(cfg, s.blocks[a].kind.zone);
  }

  // ----- Parts of the invariant under a change of one block's kind

  lemma KindPages(runs: seq<Run>, blocks: map<nat, Block>, a: nat, k: Kind)
    requires PagesOk(runs, blocks) && a in blocks
    ensures PagesOk(runs, blocks[a := blocks[a].(kind := k)])
  {
  }

  lemma {:induction false} MarkedAt(u: map<nat, Usage>, a: nat, n: nat, p: nat)
    ensures if a <= p < a + n then OfZone(Marked(u, a, n), p, a) else SameEntry(u, Marked(u, a, n), p)
  {
    if n > 0 { MarkedAt(u, a, n - 1, p); }
  }

  lemma {:induction false} UnmarkedAt(u: map<nat, Usage>, a: nat, n: nat, p: nat)
    requires !(a <= p < a + n)
    ensures SameEntry(u, Unmarked(u, a, n), p)
  {
    if n > 0 { UnmarkedAt(u, a, n - 1, p); }
  }

  predicate SameEntry(u: map<nat, Usage>, u': map<nat, Usage>, p: nat) {
    (p in u' <==> p in u) && (p in u ==> u'[p] == u[p])
  }

  /** The tables differ only in `n` pages from `a` on. */
  ghost predicate OnlyInside(u: map<nat, Usage>, u': map<nat, Usage>, a: nat, n: nat) {
    forall p: nat :: !(a <= p < a + n) ==> SameEntry(u, u', p)
  }

  lemma StillDescribed(cfg: Config, b: nat, block: Block, u: map<nat, Usage>, u': map<nat, Usage>, a: nat, n: nat)
    requires Described(cfg, b, block, u) && KindOk(cfg, block) && block.pages > 0
    requires OnlyInside(u, u', a, n) && !Overlap(a, n, b, block.pages)
    ensures Described(cfg, b, block, u')
  {
    if block.kind.Used? || block.kind.Idle? {
      forall p: nat | b <= p < b + cfg.zonePages ensures OfZone(u', p, b) {
        assert OfZone(u, p, b) && SameEntry(u, u', p);
      }
    } else if block.kind.Large? {
      assert SameEntry(u, u', b);
    }
  }

  lemma OthersUsage(cfg: Config, runs: seq<Run>, blocks: map<nat, Block>, u: map<nat, Usage>, u': map<nat, Usage>, a: nat, k: Kind)
    requires PagesOk(runs, blocks) && ZonesOk(cfg, blocks) && UsageOk(cfg, blocks, u)
    requires a in blocks && OnlyInside(u, u', a, blocks[a].pages) && Described(cfg, a, blocks[a].(kind := k), u')
    ensures UsageOk(cfg, blocks[a := blocks[a].(kind := k)], u')
  {
    forall b | b in blocks && b != a ensures Described(cfg, b, blocks[b], u') {
      StillDescribed(cfg, b, blocks[b], u, u', a, blocks[a].pages);
    }
  }

  lemma OthersAllocs(cfg: Config, blocks: map<nat, Block>, allocs: map<Ptr, nat>, a: nat, k: Kind, allocs': map<Ptr, nat>)
    requires AllocsOk(cfg, blocks, allocs) && a in blocks
    requires forall p: Ptr :: p.at != a ==> (p in allocs' <==> p in allocs) && (p in allocs ==> allocs'[p] == allocs[p])
    requires var blocks' := blocks[a := blocks[a].(kind := k)];
      forall p: Ptr :: p.at == a ==>
        Accounted(cfg, blocks', allocs', p)
    ensures AllocsOk(cfg, blocks[a := blocks[a].(kind := k)], allocs')
  {
    var blocks' := blocks[a := blocks[a].(kind := k)];
    forall p: Ptr ensures Accounted(cfg, blocks', allocs', p) {
      if p.at != a {
        assert IsLive(blocks', p) <==> IsLive(blocks, p);
        assert Accounted(cfg, blocks, allocs, p);
      }
    }
  }

  // ----- Lists

  /** The lists stay right when a block that is on none of them changes to another such kind. */
  predicate Unlisted(b: Block) { !b.kind.Idle? && (b.kind.Used? ==> b.kind.zone.nfree <= 0) }

  lemma UnlistedStays(blocks: map<nat, Block>, lists: seq<seq<nat>>, idle: seq<nat>, a: nat, k: Kind)
    requires ListsOk(blocks, lists, idle) && a in blocks && Unlisted(blocks[a]) && Unlisted(blocks[a].(kind := k))
    ensures ListsOk(blocks[a := blocks[a].(kind := k)], lists, idle)
  {
    var blocks' := blocks[a := blocks[a].(kind := k)];
    forall i, x | 0 <= i < 72 ensures x in lists[i] <==> OnList(blocks', x, i) {
      assert x in lists[i] <==> OnList(blocks, x, i);
    }
  }

  /** A zone with free chunks stays on its list while it keeps some. */
  lemma ListedStays(blocks: map<nat, Block>, lists: seq<seq<nat>>, idle: seq<nat>, a: nat, z: Zone)
    requires ListsOk(blocks, lists, idle) && a in blocks && blocks[a].kind.Used? && z.index == blocks[a].kind.zone.index
    requires z.nfree > 0 && blocks[a].kind.zone.nfree > 0
    ensures ListsOk(blocks[a := blocks[a].(kind := Used(z))], lists, idle)
  {
    var blocks' := blocks[a := blocks[a].(kind := Used(z))];
    forall i, x | 0 <= i < 72 ensures x in lists[i] <==> OnList(blocks', x, i) {
      assert x in lists[i] <==> OnList(blocks, x, i);
    }
  }

  lemma JoinsList(blocks: map<nat, Block>, lists: seq<seq<nat>>, idle: seq<nat>, a: nat, z: Zone)
    requires ListsOk(blocks, lists, idle) && a in blocks && Unlisted(blocks[a]) && z.nfree > 0 && z.index < 72
    ensures ListsOk(blocks[a := blocks[a].(kind := Used(z))], lists[z.index := [a] + lists[z.index]], idle)
  {
    var blocks' := blocks[a := blocks[a].(kind := Used(z))];
    var lists' := lists[z.index := [a] + lists[z.index]];
    assert !OnList(blocks, a, z.index);
    forall i, x | 0 <= i < 72 ensures x in lists'[i] <==> OnList(blocks', x, i) {
      assert x in lists[i] <==> OnList(blocks, x, i);
      assert x in lists'[i] <==> x in lists[i] || (i == z.index && x == a);
    }
  }

  lemma LeavesList(blocks: map<nat, Block>, lists: seq<seq<nat>>, idle: seq<nat>, a: nat, k: Kind)
    requires ListsOk(blocks, lists, idle) && a in blocks && blocks[a].kind.Used? && blocks[a].kind.zone.index < 72
    requires Unlisted(blocks[a].(kind := k))
    ensures var i := blocks[a].kind.zone.index;
      ListsOk(blocks[a := blocks[a].(kind := k)], lists[i := Without(lists[i], a)], idle)
  {
    var zi := blocks[a].kind.zone.index;
    var blocks', lists' := blocks[a := blocks[a].(kind := k)], lists[zi := Without(lists[zi], a)];
    WithoutNoDup(lists[zi], a);
    forall i, x | 0 <= i < 72 ensures x in lists'[i] <==> OnList(blocks', x, i) {
      assert x in lists[i] <==> OnList(blocks, x, i);
    }
  }

  /** Into the idle pool, and out of it. */
  lemma JoinsPool(blocks: map<nat, Block>, lists: seq<seq<nat>>, idle: seq<nat>, a: nat)
    requires ListsOk(blocks, lists, idle) && a in blocks && Unlisted(blocks[a]) && |idle| < 2
    ensures ListsOk(blocks[a := blocks[a].(kind := Idle)], lists, [a] + idle)
  {
    var blocks' := blocks[a := blocks[a].(kind := Idle)];
    forall i, x | 0 <= i < 72 ensures x in lists[i] <==> OnList(blocks', x, i) {
      assert x in lists[i] <==> OnList(blocks, x, i);
    }
    assert a !in idle;
  }

  lemma LeavesPool(blocks: map<nat, Block>, lists: seq<seq<nat>>, idle: seq<nat>)
    requires ListsOk(blocks, lists, idle) && idle != []
    ensures idle[0] in blocks && ListsOk(blocks[idle[0] := blocks[idle[0]].(kind := Held)], lists, idle[1..])
  {
    var a := idle[0];
    assert a in idle;
    var blocks' := blocks[a := blocks[a].(kind := Held)];
    forall i, x | 0 <= i < 72 ensures x in lists[i] <==> OnList(blocks', x, i) {
      assert x in lists[i] <==> OnList(blocks, x, i);
    }
    assert idle == [a] + idle[1..];
  }

  // ----- Every section keeps the invariant

  lemma SameUsage(cfg: Config, s: State, a: nat, k: Kind)
    requires Inv(cfg, s) && a in s.blocks
    requires k.Held? || (k.Used? && s.blocks[a].kind.Used?) || (k.Idle? && s.blocks[a].kind.Used?)
    ensures UsageOk(cfg, s.blocks[a := s.blocks[a].(kind := k)], s.usage)
  {
    assert Described(cfg, a, s.blocks[a], s.usage);
    OthersUsage(cfg, s.runs, s.blocks, s.usage, s.usage, a, k);
  }

  /** What taking a chunk from the first zone of a list does to the list. */
  lemma FromZoneLists(cfg: Config, s: State, zi: nat)
    requires Inv(cfg, s) && zi < 72 && s.lists[zi] != [] && CanTake(s, s.lists[zi][0])
    ensures var a := s.lists[zi][0]; var s' := FromZone(s, a, zi).0; ListsOk(s'.blocks, s'.lists, s'.idle)
  {
    var a := s.lists[zi][0];
    HeadHasChunk(cfg, s, zi);
    TakeOk(cfg, s.blocks[a].kind.zone);
    var z' := Take(s.blocks[a].kind.zone).0;
    if z'.nfree == 0 {
      LeavesList(s.blocks, s.lists, s.idle, a, Used(z'));
      WithoutHead(s.lists[zi]);
    } else {
      ListedStays(s.blocks, s.lists, s.idle, a, z');
    }
  }

  predicate CanTake(s: State, a: nat) {
    && a in s.blocks && s.blocks[a].kind.Used? && s.blocks[a].kind.zone.uindex >= 0
    && (s.blocks[a].kind.zone.uindex + 1 == s.blocks[a].kind.zone.nmax ==> s.blocks[a].kind.zone.freed != [])
  }

  /** A chunk taken from the first zone of a list. */
  lemma FromZoneInv(cfg: Config, s: State, zi: nat)
    requires Inv(cfg, s) && zi < 72 && s.lists[zi] != []
    ensures var a := s.lists[zi][0];
      CanTake(s, a) && Inv(cfg, FromZone(s, a, zi).0) && FromZone(s, a, zi).1 !in s.allocs
  {
    var a := s.lists[zi][0];
    HeadHasChunk(cfg, s, zi);
    FromZoneLists(cfg, s, zi);
    var z := s.blocks[a].kind.zone;
    TakeOk(cfg, z);
    var (z', i) := Take(z);
    TakenInv(cfg, s, a, z', i);
  }

  lemma TakenInv(cfg: Config, s: State, a: nat, z': Zone, i: nat)
    requires Inv(cfg, s) && a in s.blocks && s.blocks[a].kind.Used? && ZoneOk(cfg, z')
    requires var z := s.blocks[a].kind.zone;
      z'.chunk == z.chunk && !InUse(z, i) && InUse(z', i) && forall j: nat :: j != i ==> (InUse(z', j) <==> InUse(z, j))
    ensures var s1 := Credit(WithKind(s, a, Used(z')), Chunk(a, i), z'.chunk);
      && PagesOk(s1.runs, s1.blocks) && ZonesOk(cfg, s1.blocks) && UsageOk(cfg, s1.blocks, s1.usage)
      && AllocsOk(cfg, s1.blocks, s1.allocs) && Tally(s1) && Chunk(a, i) !in s.allocs
  {
    assert KindOk(cfg, s.blocks[a]);
    KindPages(s.runs, s.blocks, a, Used(z'));
    SameUsage(cfg, s, a, Used(z'));
    assert Accounted(cfg, s.blocks, s.allocs, Chunk(a, i));
    TakenAllocs(cfg, s.blocks, s.allocs, a, z', i);
    CreditTally(s, Chunk(a, i), z'.chunk);
  }

  lemma TakenAllocs(cfg: Config, blocks: map<nat, Block>, allocs: map<Ptr, nat>, a: nat, z': Zone, i: nat)
    requires AllocsOk(cfg, blocks, allocs) && a in blocks && blocks[a].kind.Used?
    requires var z := blocks[a].kind.zone;
      z'.chunk == z.chunk && InUse(z', i) && forall j: nat :: j != i ==> (InUse(z', j) <==> InUse(z, j))
    ensures AllocsOk(cfg, blocks[a := blocks[a].(kind := Used(z'))], allocs[Chunk(a, i) := z'.chunk])
  {
    var blocks' := blocks[a := blocks[a].(kind := Used(z'))];
    var allocs' := allocs[Chunk(a, i) := z'.chunk];
    forall p: Ptr | p.at == a ensures Accounted(cfg, blocks', allocs', p) {
      assert Accounted(cfg, blocks, allocs, p);
    }
    OthersAllocs(cfg, blocks, allocs, a, Used(z'), allocs');
  }

  /** A block of zone size, held and described as a zone, becomes one. */
  lemma OpenZoneInv(cfg: Config, s: State, a: nat, n: nat)
    requires cfg.Ok() && Inv(cfg, s) && 0 < n < cfg.limit
    requires a in s.blocks && s.blocks[a] == Block(cfg.zonePages, Held)
    requires forall p: nat :: a <= p < a + cfg.zonePages ==> OfZone(s.usage, p, a)
    ensures var c := ClassOf(n);
      && c.chunk > 0 && c.index < 72 && Inv(cfg, OpenZone(cfg, s, a, c)) && Chunk(a, 0) !in s.allocs
  {
    var c := ClassOf(n);
    ClassIndex(n);
    NewZoneOk(cfg, n);
    var z := NewZone(cfg, c);
    KindPages(s.runs, s.blocks, a, Used(z));
    OthersUsage(cfg, s.runs, s.blocks, s.usage, s.usage, a, Used(z));
    JoinsList(s.blocks, s.lists, s.idle, a, z);
    assert Accounted(cfg, s.blocks, s.allocs, Chunk(a, 0));
    OpenedAllocs(cfg, s.blocks, s.allocs, a, z);
    CreditTally(s, Chunk(a, 0), c.chunk);
  }

  lemma OpenedAllocs(cfg: Config, blocks: map<nat, Block>, allocs: map<Ptr, nat>, a: nat, z: Zone)
    requires AllocsOk(cfg, blocks, allocs) && a in blocks && blocks[a].kind.Held?
    requires forall i: nat :: InUse(z, i) <==> i == 0
    ensures AllocsOk(cfg, blocks[a := blocks[a].(kind := Used(z))], allocs[Chunk(a, 0) := z.chunk])
  {
    var blocks' := blocks[a := blocks[a].(kind := Used(z))];
    var allocs' := allocs[Chunk(a, 0) := z.chunk];
    forall p: Ptr | p.at == a ensures Accounted(cfg, blocks', allocs', p) {
      assert Accounted(cfg, blocks, allocs, p);
    }
    OthersAllocs(cfg, blocks, allocs, a, Used(z), allocs');
  }

  /** The first idle zone leaves the pool. */
  lemma PoolOutInv(cfg: Config, s: State)
    requires Inv(cfg, s) && s.idle != []
    ensures var a := s.idle[0];
      && a in s.blocks && s.blocks[a] == Block(cfg.zonePages, Idle)
      && (forall p: nat :: a <= p < a + cfg.zonePages ==> OfZone(s.usage, p, a))
      && Inv(cfg, WithKind(s, a, Held).(idle := s.idle[1..]))
  {
    var a := s.idle[0];
    assert a in s.idle;
    LeavesPool(s.blocks, s.lists, s.idle);
    assert KindOk(cfg, s.blocks[a]) && Described(cfg, a, s.blocks[a], s.usage);
    KindPages(s.runs, s.blocks, a, Held);
    SameUsage(cfg, s, a, Held);
    NothingLive(cfg, s.blocks, s.allocs, a, Held);
  }

  lemma ReuseIdleInv(cfg: Config, s: State, n: nat)
    requires cfg.Ok() && Inv(cfg, s) && 0 < n < cfg.limit && s.idle != []
    ensures var c, a := ClassOf(n), s.idle[0];
      && a in s.blocks && c.chunk > 0 && c.index < 72
      && Inv(cfg, OpenZone(cfg, s.(idle := s.idle[1..]), a, c)) && Chunk(a, 0) !in s.allocs
  {
    var a := s.idle[0];
    PoolOutInv(cfg, s);
    ClassIndex(n);
    OpenZoneInv(cfg, WithKind(s, a, Held).(idle := s.idle[1..]), a, n);
    OpenOverwrites(cfg, s, a, ClassOf(n), s.idle[1..]);
  }

  lemma OpenOverwrites(cfg: Config, s: State, a: nat, c: Class, idle: seq<nat>)
    requires a in s.blocks && c.chunk > 0 && c.index < |s.lists|
    ensures OpenZone(cfg, WithKind(s, a, Held).(idle := idle), a, c) == OpenZone(cfg, s.(idle := idle), a, c)
  {
    var z := Used(NewZone(cfg, c));
    var b := s.blocks[a];
    assert s.blocks[a := b.(kind := Held)][a := b.(kind := z)] == s.blocks[a := b.(kind := z)];
  }

  /** A block with no live allocation changes to another such kind. */
  lemma NothingLive(cfg: Config, blocks: map<nat, Block>, allocs: map<Ptr, nat>, a: nat, k: Kind)
    requires AllocsOk(cfg, blocks, allocs) && a in blocks
    requires !blocks[a].kind.Large? && !k.Large? && !k.Used?
    requires blocks[a].kind.Used? ==> forall i: nat :: !InUse(blocks[a].kind.zone, i)
    ensures AllocsOk(cfg, blocks[a := blocks[a].(kind := k)], allocs)
  {
    var blocks' := blocks[a := blocks[a].(kind := k)];
    forall p: Ptr | p.at == a ensures Accounted(cfg, blocks', allocs, p) {
      assert Accounted(cfg, blocks, allocs, p);
    }
    OthersAllocs(cfg, blocks, allocs, a, k, allocs);
  }

  /** A chunk comes back to its zone. */
  lemma ReturnedInv(cfg: Config, s: State, a: nat, i: nat)
    requires Inv(cfg, s) && IsLive(s.blocks, Chunk(a, i))
    ensures s.blocks[a].kind.zone.index < 72 && Inv(cfg, Returned(s, a, i))
    ensures var s' := Returned(s, a, i);
      && s'.blocks[a].kind == Used(Put(s.blocks[a].kind.zone, i)) && s'.allocs == s.allocs - {Chunk(a, i)}
      && s'.idle == s.idle && s'.usage == s.usage && OnList(s'.blocks, a, s.blocks[a].kind.zone.index)
  {
    var z := s.blocks[a].kind.zone;
    assert KindOk(cfg, s.blocks[a]);
    PutOk(cfg, z, i);
    var z' := Put(z, i);
    KindPages(s.runs, s.blocks, a, Used(z'));
    SameUsage(cfg, s, a, Used(z'));
    if z.nfree == 0 {
      JoinsList(s.blocks, s.lists, s.idle, a, z');
    } else {
      ListedStays(s.blocks, s.lists, s.idle, a, z');
    }
    assert Accounted(cfg, s.blocks, s.allocs, Chunk(a, i));
    ReturnedAllocs(cfg, s.blocks, s.allocs, a, i);
    DebitTally(s, Chunk(a, i));
  }

  lemma ReturnedAllocs(cfg: Config, blocks: map<nat, Block>, allocs: map<Ptr, nat>, a: nat, i: nat)
    requires AllocsOk(cfg, blocks, allocs) && IsLive(blocks, Chunk(a, i))
    ensures var z' := Put(blocks[a].kind.zone, i);
      AllocsOk(cfg, blocks[a := blocks[a].(kind := Used(z'))], allocs - {Chunk(a, i)})
  {
    var z' := Put(blocks[a].kind.zone, i);
    var blocks', allocs' := blocks[a := blocks[a].(kind := Used(z'))], allocs - {Chunk(a, i)};
    forall p: Ptr | p.at == a ensures Accounted(cfg, blocks', allocs', p) {
      assert Accounted(cfg, blocks, allocs, p);
    }
    OthersAllocs(cfg, blocks, allocs, a, Used(z'), allocs');
  }

  /** A wholly free zone goes to the pool, or back towards the page allocator. */
  lemma RetiredInv(cfg: Config, s: State, a: nat)
    requires Inv(cfg, s) && a in s.blocks && s.blocks[a].kind.Used?
    requires s.blocks[a].kind.zone.nfree == s.blocks[a].kind.zone.nmax
    ensures s.blocks[a].kind.zone.index < 72 && Inv(cfg, Retired(cfg, s, a))
  {
    var z := s.blocks[a].kind.zone;
    assert KindOk(cfg, s.blocks[a]);
    AllFree(cfg, z);
    var lists' := s.lists[z.index := Without(s.lists[z.index], a)];
    var full := |s.idle| + 1 > 2;
    var k := if full then Held else Idle;
    KindPages(s.runs, s.blocks, a, k);
    NothingLive(cfg, s.blocks, s.allocs, a, k);
    LeavesList(s.blocks, s.lists, s.idle, a, Held);
    if full {
      GivenUpUsage(cfg, s, a);
    } else {
      SameUsage(cfg, s, a, Idle);
      var blocks1 := s.blocks[a := s.blocks[a].(kind := Held)];
      JoinsPool(blocks1, lists', s.idle, a);
      assert blocks1[a := blocks1[a].(kind := Idle)] == s.blocks[a := s.blocks[a].(kind := Idle)];
    }
  }

  lemma GivenUpUsage(cfg: Config, s: State, a: nat)
    requires Inv(cfg, s) && a in s.blocks && s.blocks[a].pages == cfg.zonePages
    ensures UsageOk(cfg, s.blocks[a := s.blocks[a].(kind := Held)], Unmarked(s.usage, a, cfg.zonePages))
  {
    var u' := Unmarked(s.usage, a, cfg.zonePages);
    forall p: nat | !(a <= p < a + cfg.zonePages) ensures SameEntry(s.usage, u', p) {
      UnmarkedAt(s.usage, a, cfg.zonePages, p);
    }
    OthersUsage(cfg, s.runs, s.blocks, s.usage, u', a, Held);
  }

  lemma FreeChunkInv(cfg: Config, s: State, a: nat, i: nat)
    requires Inv(cfg, s) && IsLive(s.blocks, Chunk(a, i))
    ensures s.blocks[a].kind.zone.index < 72 && Inv(cfg, FreeChunkStep(cfg, s, a, i))
  {
    ReturnedInv(cfg, s, a, i);
    var s1 := Returned(s, a, i);
    var z := s1.blocks[a].kind.zone;
    if z.nfree == z.nmax { RetiredInv(cfg, s1, a); }
  }

  /** A held block's pages are described as a zone's. */
  lemma MarkedInv(cfg: Config, s: State, a: nat)
    requires Inv(cfg, s) && a in s.blocks && s.blocks[a] == Block(cfg.zonePages, Held)
    ensures var s' := s.(usage := Marked(s.usage, a, cfg.zonePages));
      Inv(cfg, s') && forall p: nat :: a <= p < a + cfg.zonePages ==> OfZone(s'.usage, p, a)
  {
    var u' := Marked(s.usage, a, cfg.zonePages);
    forall p: nat
      ensures if a <= p < a + cfg.zonePages then OfZone(u', p, a) else SameEntry(s.usage, u', p)
    {
      MarkedAt(s.usage, a, cfg.zonePages, p);
    }
    OthersUsage(cfg, s.runs, s.blocks, s.usage, u', a, Held);
    assert s.blocks[a := s.blocks[a].(kind := Held)] == s.blocks;
  }

  lemma LargeInv(cfg: Config, s: State, a: nat)
    requires Inv(cfg, s) && a in s.blocks && s.blocks[a].kind == Held
    ensures Inv(cfg, LargeStep(cfg, s, a)) && Pages(a) !in s.allocs
  {
    var n := s.blocks[a].pages;
    KindPages(s.runs, s.blocks, a, Large);
    UnlistedStays(s.blocks, s.lists, s.idle, a, Large);
    OthersUsage(cfg, s.runs, s.blocks, s.usage, s.usage[a := Whole(n)], a, Large);
    assert Accounted(cfg, s.blocks, s.allocs, Pages(a));
    LargeAllocs(cfg, s.blocks, s.allocs, a);
    CreditTally(s, Pages(a), n * cfg.page);
  }

  lemma LargeAllocs(cfg: Config, blocks: map<nat, Block>, allocs: map<Ptr, nat>, a: nat)
    requires AllocsOk(cfg, blocks, allocs) && a in blocks && blocks[a].kind == Held
    ensures AllocsOk(cfg, blocks[a := blocks[a].(kind := Large)], allocs[Pages(a) := blocks[a].pages * cfg.page])
  {
    var blocks', allocs' := blocks[a := blocks[a].(kind := Large)], allocs[Pages(a) := blocks[a].pages * cfg.page];
    forall p: Ptr | p.at == a ensures Accounted(cfg, blocks', allocs', p) {
      assert Accounted(cfg, blocks, allocs, p);
    }
    OthersAllocs(cfg, blocks, allocs, a, Large, allocs');
  }

  lemma FreeLargeInv(cfg: Config, s: State, a: nat)
    requires Inv(cfg, s) && IsLive(s.blocks, Pages(a))
    ensures Inv(cfg, FreeLargeStep(cfg, s, a))
  {
    KindPages(s.runs, s.blocks, a, Held);
    UnlistedStays(s.blocks, s.lists, s.idle, a, Held);
    OthersUsage(cfg, s.runs, s.blocks, s.usage, s.usage[a := Whole(0)], a, Held);
    assert Accounted(cfg, s.blocks, s.allocs, Pages(a));
    FreedLargeAllocs(cfg, s.blocks, s.allocs, a);
    DebitTally(s, Pages(a));
  }

  lemma FreedLargeAllocs(cfg: Config, blocks: map<nat, Block>, allocs: map<Ptr, nat>, a: nat)
    requires AllocsOk(cfg, blocks, allocs) && IsLive(blocks, Pages(a))
    ensures AllocsOk(cfg, blocks[a := blocks[a].(kind := Held)], allocs - {Pages(a)})
  {
    var blocks', allocs' := blocks[a := blocks[a].(kind := Held)], allocs - {Pages(a)};
    forall p: Ptr | p.at == a ensures Accounted(cfg, blocks', allocs', p) {
      assert Accounted(cfg, blocks, allocs, p);
    }
    OthersAllocs(cfg, blocks, allocs, a, Held, allocs');
  }

  // ----- Pages in and out

  lemma PageAllocInv(cfg: Config, s: State, n: nat)
    requires Inv(cfg, s)
    ensures Inv(cfg, PageAllocStep(s, n).0)
  {
    if Alloc(s.runs, n).Some? {
      var (a, r') := Alloc(s.runs, n).value;
      AllocTakes(s.runs, n);
      AllocPages(s.runs, s.blocks, n);
      HeldAdded(cfg, s, a, n);
    }
  }

  lemma AllocPages(runs: seq<Run>, blocks: map<nat, Block>, n: nat)
    requires PagesOk(runs, blocks) && Alloc(runs, n).Some?
    ensures var (a, r') := Alloc(runs, n).value; a !in blocks && PagesOk(r', blocks[a := Block(n, Held)])
  {
    var (a, r') := Alloc(runs, n).value;
    AllocTakes(runs, n);
    assert n > 0;
    forall b | b in blocks ensures !Overlap(a, n, b, blocks[b].pages) && b != a && Owned(r', b, blocks[b].pages) {
      var p := if a > b then a else b;
      assert Owned(runs, b, blocks[b].pages);
      assert a <= p < a + n ==> IsFree(runs, p);
    }
  }

  lemma HeldAdded(cfg: Config, s: State, a: nat, n: nat)
    requires Inv(cfg, s) && a !in s.blocks
    ensures var blocks' := s.blocks[a := Block(n, Held)];
      && ZonesOk(cfg, blocks') && ListsOk(blocks', s.lists, s.idle) && UsageOk(cfg, blocks', s.usage)
      && AllocsOk(cfg, blocks', s.allocs)
  {
    var blocks' := s.blocks[a := Block(n, Held)];
    forall i, x | 0 <= i < 72 ensures x in s.lists[i] <==> OnList(blocks', x, i) {
      assert x in s.lists[i] <==> OnList(s.blocks, x, i);
    }
    forall p: Ptr ensures Accounted(cfg, blocks', s.allocs, p) {
      assert Accounted(cfg, s.blocks, s.allocs, p);
    }
  }

  lemma PageFreeInv(cfg: Config, s: State, a: nat)
    requires Inv(cfg, s) && a in s.blocks && s.blocks[a].kind == Held
    ensures Inv(cfg, s.(runs := Free(s.runs, a, s.blocks[a].pages), blocks := s.blocks - {a}))
  {
    var blocks', n := s.blocks - {a}, s.blocks[a].pages;
    FreePages(s.runs, s.blocks, a);
    forall i, x | 0 <= i < 72 ensures x in s.lists[i] <==> OnList(blocks', x, i) {
      assert x in s.lists[i] <==> OnList(s.blocks, x, i);
    }
    forall p: Ptr ensures Accounted(cfg, blocks', s.allocs, p) {
      assert Accounted(cfg, s.blocks, s.allocs, p);
    }
  }

  lemma FreePages(runs: seq<Run>, blocks: map<nat, Block>, a: nat)
    requires PagesOk(runs, blocks) && a in blocks
    ensures PagesOk(Free(runs, a, blocks[a].pages), blocks - {a})
  {
    var n := blocks[a].pages;
    var r' := Free(runs, a, n);
    FreeGives(runs, a, n);
    forall b | b in blocks - {a} ensures Owned(r', b, blocks[b].pages) {
      assert Owned(runs, b, blocks[b].pages) && !Overlap(a, n, b, blocks[b].pages);
    }
  }

  // ----- No page gets lost

  predicate InBlock(blocks: map<nat, Block>, p: nat) { exists a :: a in blocks && a <= p < a + blocks[a].pages }

  /** Page `p` belongs to the allocator: it is free or part of a block; never both, by PagesOk. */
  predicate Owns(s: State, p: nat) { IsFree(s.runs, p) || InBlock(s.blocks, p) }

  ghost predicate SamePages(s: State, s': State) { forall p: nat :: Owns(s', p) <==> Owns(s, p) }

  /** The same runs, and blocks of the same extent. */
  predicate SameExtents(s: State, s': State) {
    s'.runs == s.runs && s'.blocks.Keys == s.blocks.Keys && forall a :: a in s.blocks ==> s'.blocks[a].pages == s.blocks[a].pages
  }

  lemma ExtentsKeep(s: State, s': State)
    requires SameExtents(s, s')
    ensures SamePages(s, s')
  {
    forall p: nat ensures InBlock(s'.blocks, p) <==> InBlock(s.blocks, p) { }
  }

  lemma PageAllocKeeps(cfg: Config, s: State, n: nat)
    requires Inv(cfg, s)
    ensures SamePages(s, PageAllocStep(s, n).0)
  {
    if Alloc(s.runs, n).Some? {
      var (a, r') := Alloc(s.runs, n).value;
      AllocTakes(s.runs, n);
      AllocPages(s.runs, s.blocks, n);
      var blocks' := s.blocks[a := Block(n, Held)];
      forall p: nat ensures InBlock(blocks', p) <==> InBlock(s.blocks, p) || a <= p < a + n {
        if InBlock(s.blocks, p) {
          var b :| b in s.blocks && b <= p < b + s.blocks[b].pages;
          assert b in blocks' && blocks'[b] == s.blocks[b];
        }
        if a <= p < a + n { assert a in blocks' && blocks'[a].pages == n; }
      }
    }
  }

  lemma PageFreeKeeps(cfg: Config, s: State, a: nat)
    requires Inv(cfg, s) && a in s.blocks
    ensures SamePages(s, s.(runs := Free(s.runs, a, s.blocks[a].pages), blocks := s.blocks - {a}))
  {
    var n, blocks' := s.blocks[a].pages, s.blocks - {a};
    FreeGives(s.runs, a, n);
    forall p: nat ensures InBlock(s.blocks, p) <==> InBlock(blocks', p) || a <= p < a + n {
      if InBlock(s.blocks, p) && !(a <= p < a + n) {
        var b :| b in s.blocks && b <= p < b + s.blocks[b].pages;
        assert b in blocks' && blocks'[b] == s.blocks[b];
      }
      if InBlock(blocks', p) {
        var b :| b in blocks' && b <= p < b + blocks'[b].pages;
        assert b in s.blocks && s.blocks[b] == blocks'[b];
      }
    }
  }

  lemma OtherKeeps(cfg: Config, s: State, step: Step)
    requires cfg.Ok() && Inv(cfg, s) && Legal(cfg, s, step) && !step.PageAlloc? && !step.PageFree?
    ensures SameExtents(s, Do(cfg, s, step).0)
  {
    match step
    case SmallMalloc(n) => SmallKeeps(cfg, s, n);
    case ZoneReady(a, n) => ClassIndex(n);
    case FreeChunk(a, i) => FreeChunkKeeps(cfg, s, a, i);
    case _ =>
  }

  lemma SmallKeeps(cfg: Config, s: State, n: nat)
    requires cfg.Ok() && Inv(cfg, s)
    ensures SameExtents(s, SmallStep(cfg, s, n).0)
  {
    if 0 < n < cfg.limit {
      var zi := ClassOf(n).index;
      ClassIndex(n);
      if s.lists[zi] != [] {
        HeadHasChunk(cfg, s, zi);
        FromZoneKeeps(s, s.lists[zi][0], zi);
      } else if s.idle != [] {
        assert s.idle[0] in s.idle;
      }
    }
  }

  lemma FromZoneKeeps(s: State, a: nat, zi: nat)
    requires zi < |s.lists| && s.lists[zi] != [] && CanTake(s, a)
    ensures SameExtents(s, FromZone(s, a, zi).0)
  {
  }

  lemma FreeChunkKeeps(cfg: Config, s: State, a: nat, i: nat)
    requires a in s.blocks && s.blocks[a].kind.Used? && s.blocks[a].kind.zone.index < |s.lists|
    ensures SameExtents(s, FreeChunkStep(cfg, s, a, i))
  {
    var s1 := Returned(s, a, i);
    assert SameExtents(s, s1);
  }

  // ----- Main results

  /** Every section of every operation keeps the whole invariant, and the allocator's pages. */
  lemma StepInv(cfg: Config, s: State, step: Step)
    requires cfg.Ok() && Inv(cfg, s) && Legal(cfg, s, step)
    ensures Inv(cfg, Do(cfg, s, step).0) && SamePages(s, Do(cfg, s, step).0)
  {
    if !step.PageAlloc? && !step.PageFree? {
      OtherKeeps(cfg, s, step);
      ExtentsKeep(s, Do(cfg, s, step).0);
    }
    match step
    case SmallMalloc(n) => SmallInv(cfg, s, n);
    case PageAlloc(n) =>
      PageAllocInv(cfg, s, n);
      PageAllocKeeps(cfg, s, n);
    case ZoneReady(a, n) =>
      MarkedInv(cfg, s, a);
      OpenZoneInv(cfg, s.(usage := Marked(s.usage, a, cfg.zonePages)), a, n);
    case LargeReady(a) => LargeInv(cfg, s, a);
    case FreeChunk(a, i) => FreeChunkInv(cfg, s, a, i);
    case FreeLarge(a) => FreeLargeInv(cfg, s, a);
    case PageFree(a) =>
      PageFreeInv(cfg, s, a);
      PageFreeKeeps(cfg, s, a);
  }

  lemma SmallInv(cfg: Config, s: State, n: nat)
    requires cfg.Ok() && Inv(cfg, s)
    ensures Inv(cfg, SmallStep(cfg, s, n).0)
  {
    if 0 < n < cfg.limit {
      var c := ClassOf(n);
      ClassIndex(n);
      if s.lists[c.index] != [] {
        FromZoneInv(cfg, s, c.index);
      } else if s.idle != [] {
        ReuseIdleInv(cfg, s, n);
      }
    }
  }

  ghost predicate Leads(cfg: Config, s: State, steps: seq<Step>, s': State)
    requires cfg.Ok()
    decreases |steps|
  {
    if steps == [] then s' == s else
      Inv(cfg, s) && Legal(cfg, s, steps[0]) && Leads(cfg, Do(cfg, s, steps[0]).0, steps[1..], s')
  }

  lemma {:induction false} Reachable(cfg: Config, s: State, steps: seq<Step>, s': State)
    requires cfg.Ok() && Inv(cfg, s) && Leads(cfg, s, steps, s')
    ensures Inv(cfg, s') && SamePages(s, s')
    decreases |steps|
  {
    if steps != [] {
      StepInv(cfg, s, steps[0]);
      Reachable(cfg, Do(cfg, s, steps[0]).0, steps[1..], s');
    }
  }

  // ----- What it means for the callers

  /** The first byte of an allocation. */
  function Address(cfg: Config, s: State, p: Ptr): nat
    requires IsLive(s.blocks, p)
  {
    match p
    case Chunk(a, i) => a * cfg.page + s.blocks[a].kind.zone.off + i * s.blocks[a].kind.zone.chunk
    case Pages(a) => a * cfg.page
  }

  lemma MulLe(a: nat, b: nat, c: nat)
    requires a <= b
    ensures a * c <= b * c
  {
  }

  /** A live allocation lies inside the pages of its block. */
  lemma InsideBlock(cfg: Config, s: State, p: Ptr)
    requires Inv(cfg, s) && p in s.allocs
    ensures IsLive(s.blocks, p)
    ensures var b, x := s.blocks[p.at], Address(cfg, s, p);
      p.at * cfg.page <= x && x + s.allocs[p] <= (p.at + b.pages) * cfg.page
  {
    assert Accounted(cfg, s.blocks, s.allocs, p) && KindOk(cfg, s.blocks[p.at]);
    InsidePages(cfg, s, p);
  }

  lemma InsidePages(cfg: Config, s: State, p: Ptr)
    requires IsLive(s.blocks, p) && KindOk(cfg, s.blocks[p.at])
    ensures var b, x := s.blocks[p.at], Address(cfg, s, p);
      p.at * cfg.page <= x && x + SizeOf(cfg, s.blocks, p) <= (p.at + b.pages) * cfg.page
  {
    match p
    case Chunk(a, i) => ChunkInside(cfg, s.blocks[a].kind.zone, a, i);
    case Pages(a) =>
      assert (a + s.blocks[a].pages) * cfg.page == a * cfg.page + s.blocks[a].pages * cfg.page;
  }

  lemma ChunkInside(cfg: Config, z: Zone, a: nat, i: nat)
    requires ZoneOk(cfg, z) && InUse(z, i)
    ensures a * cfg.page <= a * cfg.page + z.off + i * z.chunk
    ensures a * cfg.page + z.off + i * z.chunk + z.chunk <= (a + cfg.zonePages) * cfg.page
  {
    LastByte(a, cfg.page, cfg.zonePages, z.off, i, z.chunk, z.nmax);
  }

  lemma LastByte(a: nat, page: nat, zonePages: nat, off: nat, i: nat, c: nat, nmax: nat)
    requires i < nmax && off + nmax * c <= page * zonePages
    ensures a * page <= a * page + off + i * c && a * page + off + i * c + c <= (a + zonePages) * page
  {
    ChunkGap(i, nmax, c);
    assert (a + zonePages) * page == a * page + page * zonePages;
  }

  /** Live allocations never share a byte. */
  lemma LiveDisjoint(cfg: Config, s: State, p: Ptr, q: Ptr)
    requires Inv(cfg, s) && p in s.allocs && q in s.allocs && p != q
    ensures IsLive(s.blocks, p) && IsLive(s.blocks, q)
    ensures var x, y := Address(cfg, s, p), Address(cfg, s, q); x + s.allocs[p] <= y || y + s.allocs[q] <= x
  {
    InsideBlock(cfg, s, p);
    InsideBlock(cfg, s, q);
    assert Accounted(cfg, s.blocks, s.allocs, p) && Accounted(cfg, s.blocks, s.allocs, q);
    if p.at != q.at {
      var n, m := s.blocks[p.at].pages, s.blocks[q.at].pages;
      assert !Overlap(p.at, n, q.at, m);
      if p.at + n <= q.at { MulLe(p.at + n, q.at, cfg.page); } else { MulLe(q.at + m, p.at, cfg.page); }
    } else {
      assert p.Chunk? && q.Chunk?;
      var c := s.blocks[p.at].kind.zone.chunk;
      if p.i < q.i { ChunkGap(p.i, q.i, c); } else { ChunkGap(q.i, p.i, c); }
    }
  }

  lemma ChunkGap(i: nat, j: nat, c: nat)
    requires i < j
    ensures i * c + c <= j * c
  {
    MulLe(i + 1, j, c);
    assert (i + 1) * c == i * c + c;
  }

  /** rt_free's lookup: from the page an allocation starts in, the table leads back to the
      zone, or to the length of the large block. */
  lemma LookupFinds(cfg: Config, s: State, p: Ptr)
    requires cfg.Ok() && Inv(cfg, s) && p in s.allocs
    ensures IsLive(s.blocks, p)
    ensures var k := Address(cfg, s, p) / cfg.page;
      k in s.usage &&
      if p.Chunk? then OfZone(s.usage, k, p.at) else k == p.at && s.usage[k] == Whole(s.blocks[p.at].pages)
  {
    InsideBlock(cfg, s, p);
    var b, x := s.blocks[p.at], Address(cfg, s, p);
    assert Accounted(cfg, s.blocks, s.allocs, p) && Described(cfg, p.at, b, s.usage) && KindOk(cfg, b);
    SizePositive(cfg, s, p);
    if p.Chunk? {
      PageOf(x, cfg.page, p.at, p.at + b.pages);
      assert OfZone(s.usage, x / cfg.page, p.at);
    } else {
      assert (p.at + 1) * cfg.page == p.at * cfg.page + cfg.page;
      PageOf(x, cfg.page, p.at, p.at + 1);
    }
  }

  lemma SizePositive(cfg: Config, s: State, p: Ptr)
    requires cfg.Ok() && Inv(cfg, s) && p in s.allocs
    ensures s.allocs[p] > 0
  {
    assert Accounted(cfg, s.blocks, s.allocs, p) && KindOk(cfg, s.blocks[p.at]);
    if p.Pages? { MulLe(1, s.blocks[p.at].pages, cfg.page); }
  }

  lemma PageOf(x: nat, page: nat, lo: nat, hi: nat)
    requires page > 0 && lo * page <= x < hi * page
    ensures lo <= x / page < hi
  {
    var q := x / page;
    assert x == page * q + x % page;
    assert q * page <= x < (q + 1) * page;
    if q + 1 <= lo { MulLe(q + 1, lo, page); }
    if hi <= q { MulLe(hi, q, page); }
  }

  lemma {:induction false} PowersDivide(a: nat, b: nat) returns (q: nat)
    requires PowerOfTwo(a) && PowerOfTwo(b) && a <= b
    ensures b == q * a
    decreases b
  {
    if a == 1 {
      q := b;
    } else {
      q := PowersDivide(a / 2, b / 2);
      assert b == 2 * (b / 2) && a == 2 * (a / 2);
      assert q * a == 2 * (q * (a / 2));
    }
  }

  /** A chunk whose size is a power of two lies at a multiple of its size behind the start of
      its zone, and so at a multiple of its size or of the page size, whichever is smaller. */
  lemma ChunkAligned(cfg: Config, s: State, p: Ptr) returns (k: nat, q: nat)
    requires Inv(cfg, s) && p in s.allocs && p.Chunk? && PowerOfTwo(cfg.page) && PowerOfTwo(s.allocs[p])
    ensures IsLive(s.blocks, p)
    ensures Address(cfg, s, p) == p.at * cfg.page + k * s.allocs[p]
    ensures Address(cfg, s, p) == q * Min(s.allocs[p], cfg.page)
  {
    assert Accounted(cfg, s.blocks, s.allocs, p) && KindOk(cfg, s.blocks[p.at]);
    var z := s.blocks[p.at].kind.zone;
    var first := OffsetMultiple(cfg, z.chunk);
    k := first + p.i;
    Distribute(first, 1, p.i, z.chunk);
    q := Multiple(p.at, cfg.page, k, z.chunk);
  }

  lemma OffsetMultiple(cfg: Config, chunk: nat) returns (q: nat)
    requires chunk > 0 && PowerOfTwo(chunk)
    ensures Offset(cfg, chunk) == q * chunk
  {
    q := (cfg.header + chunk - 1) / chunk;
  }

  lemma Multiple(a: nat, page: nat, k: nat, chunk: nat) returns (q: nat)
    requires PowerOfTwo(page) && PowerOfTwo(chunk)
    ensures a * page + k * chunk == q * Min(chunk, page)
  {
    if chunk <= page {
      var m := PowersDivide(chunk, page);
      q := a * m + k;
      Distribute(a, m, k, chunk);
    } else {
      var m := PowersDivide(page, chunk);
      q := k * m + a;
      Distribute(k, m, a, page);
    }
  }

  lemma Distribute(a: nat, m: nat, k: nat, c: nat)
    ensures (a * m + k) * c == a * (m * c) + k * c
  {
  }

  /** Each page of the allocator is either free or in exactly one block. */
  lemma OnePlace(cfg: Config, s: State, p: nat)
    requires Inv(cfg, s) && Owns(s, p)
    ensures IsFree(s.runs, p) <==> !InBlock(s.blocks, p)
    ensures forall a, b :: a in s.blocks && b in s.blocks && a <= p < a + s.blocks[a].pages && b <= p < b + s.blocks[b].pages ==> a == b
  {
    if InBlock(s.blocks, p) {
      var a :| a in s.blocks && a <= p < a + s.blocks[a].pages;
      assert Owned(s.runs, a, s.blocks[a].pages);
    }
  }

  /** Each chunk of a zone is exactly one of never used, freed, and live. */
  lemma ChunksPartitioned(cfg: Config, s: State, a: nat, i: nat)
    requires Inv(cfg, s) && a in s.blocks && s.blocks[a].kind.Used? && i < s.blocks[a].kind.zone.nmax
    ensures var z := s.blocks[a].kind.zone;
      var unused, freed, live := i > z.uindex, i in z.freed, Chunk(a, i) in s.allocs;
      && (unused || freed || live) && !(unused && freed) && !(unused && live) && !(freed && live)
      && z.nfree == |z.freed| + (z.nmax - 1 - z.uindex) && NoDup(z.freed)
  {
    assert Accounted(cfg, s.blocks, s.allocs, Chunk(a, i)) && KindOk(cfg, s.blocks[a]);
  }

  /** rt_system_heap_init: all pages free, less those of the usage table itself. */
  function Initial(first: nat, pages: nat, table: nat): State
    requires table < pages
  {
    State([Run(first + table, pages - table)], map[first := Block(table, Held)], seq(72, _ => []), [], map[], map[], 0, 0)
  }

  lemma InitialInv(cfg: Config, first: nat, pages: nat, table: nat)
    requires 0 < table < pages
    ensures Inv(cfg, Initial(first, pages, table))
    ensures forall p: nat :: Owns(Initial(first, pages, table), p) <==> first <= p < first + pages
    ensures Alloc([Run(first, pages)], table) == Some((first, Initial(first, pages, table).runs))
  {
    var s := Initial(first, pages, table);
    assert s.runs[1..] == [];
    var one := [Run(first, pages)];
    assert [Run(first + table, pages - table)] + one[1..] == s.runs;
    forall p: nat ensures IsFree(s.runs, p) <==> first + table <= p < first + pages {
      assert s.runs[0].Has(p) <==> first + table <= p < first + pages;
    }
    forall p: Ptr ensures Accounted(cfg, s.blocks, s.allocs, p) { }
    forall p: nat ensures InBlock(s.blocks, p) <==> first <= p < first + table {
      assert first in s.blocks;
    }
  }
}
