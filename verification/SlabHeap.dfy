// The sections of rt_malloc and rt_free in src/slab.c as they update zone headers, the zone
// lists, the usage table and the counters.
module SlabHeap {
  import opened Lists
  import opened Options
  import opened PageRuns
  import opened Numbers
  import opened SlabClasses
  import opened SlabZones
  import opened Slab
  import opened SlabEffects

  class SlabGlobals {
    const cfg: Config
    var zones: map<nat, Zone>
    var zoneArray: seq<seq<nat>>
    var zoneFree: seq<nat>
    var zoneFreeCnt: int
    var usage: map<nat, Usage>
    var usedMem: int
    var maxMem: int
    ghost var runs: seq<Run>
    ghost var blocks: map<nat, Block>
    ghost var allocs: map<Ptr, nat>

    ghost function S(): State
      reads this
    {
      State(runs, blocks, zoneArray, zoneFree, usage, allocs, usedMem, maxMem)
    }

    /** Zone headers in memory are those of the blocks. */
    ghost predicate Headers()
      reads this
    {
      zoneFreeCnt == |zoneFree| && forall a :: a in blocks && blocks[a].kind.Used? ==> a in zones && zones[a] == blocks[a].kind.zone
    }

    ghost predicate Valid()
      reads this
    {
      cfg.Ok() && Inv(cfg, S()) && Headers()
    }

    /** Takes over the state after rt_system_heap_init. */
    constructor (c: Config, ghost first: nat, ghost pages: nat, ghost table: nat)
      requires c.Ok() && 0 < table < pages
      ensures Valid() && cfg == c && S() == Initial(first, pages, table)
    {
      cfg := c;
      zones, zoneFree, zoneFreeCnt, usage, usedMem, maxMem := map[], [], 0, map[], 0, 0;
      zoneArray := seq(72, _ => []);
      runs, blocks, allocs := Initial(first, pages, table).runs, Initial(first, pages, table).blocks, map[];
      new;
      InitialInv(cfg, first, pages, table);
      assert S() == Initial(first, pages, table);
    }

    method Account(size: nat)
      modifies this`usedMem, this`maxMem
      ensures usedMem == old(usedMem) + size
      ensures maxMem == if usedMem > old(maxMem) then usedMem else old(maxMem)
    {
      usedMem := usedMem + size;
      if usedMem > maxMem { maxMem := usedMem; }
    }

    /** rt_malloc for a small request: from a listed zone, or from an idle one; a miss leads to
        the page allocator. */
    method Malloc(n: nat) returns (r: Outcome)
      requires Valid()
      modifies this
      ensures Valid() && S() == SmallStep(cfg, old(S()), n).0 && r == SmallStep(cfg, old(S()), n).1
      ensures r.Got? ==> r.p !in old(allocs) && r.p in allocs && allocs[r.p] >= n && allocs == old(allocs)[r.p := allocs[r.p]]
    {
      SmallInv(cfg, S(), n);
      StepEffect(cfg, S(), SmallMalloc(n));
      if n == 0 { return Null; }
      if n >= cfg.limit { return Miss; }
      ClassIndex(n);
      ClassFits(n);
      var c := ClassOf(n);
      if zoneArray[c.index] != [] {
        r := FromList(c.index);
      } else if zoneFree != [] {
        ReuseIdleInv(cfg, S(), n);
        var a := zoneFree[0];
        zoneFree, zoneFreeCnt := zoneFree[1..], zoneFreeCnt - 1;
        SetUpZone(a, c);
        r := Got(Chunk(a, 0));
      } else {
        r := Miss;
      }
    }

    method FromList(zi: nat) returns (r: Outcome)
      requires Valid() && zi < 72 && zoneArray[zi] != []
      modifies this
      ensures CanTake(old(S()), old(zoneArray[zi][0])) && Headers()
      ensures var f := FromZone(old(S()), old(zoneArray[zi][0]), zi); S() == f.0 && r == Got(f.1)
      ensures r.p !in old(allocs) && r.p in allocs && allocs[r.p] == ChunkOf(zi)
    {
      FromZoneInv(cfg, S(), zi);
      HeadHasChunk(cfg, S(), zi);
      r := TakeFrom(zoneArray[zi][0], zi);
    }

    method TakeFrom(a: nat, zi: nat) returns (r: Outcome)
      requires Headers() && CanTake(S(), a) && zi < |zoneArray| && zoneArray[zi] != []
      modifies this
      ensures Headers() && S() == FromZone(old(S()), a, zi).0 && r == Got(FromZone(old(S()), a, zi).1)
      ensures r.p in allocs && allocs[r.p] == old(blocks)[a].kind.zone.chunk
    {
      var z := zones[a];
      z := z.(nfree := z.nfree - 1);
      if z.nfree == 0 { zoneArray := zoneArray[zi := zoneArray[zi][1..]]; }
      var i;
      if z.uindex + 1 != z.nmax {
        z := z.(uindex := z.uindex + 1);
        i := z.uindex;
      } else {
        i := z.freed[0];
        z := z.(freed := z.freed[1..]);
      }
      zones := zones[a := z];
      Account(z.chunk);
      blocks, allocs := blocks[a := blocks[a].(kind := Used(z))], allocs[Chunk(a, i) := z.chunk];
      r := Got(Chunk(a, i));
    }

    /** Lays out the zone and links it. */
    method SetUpZone(a: nat, c: Class)
      requires a in blocks && c.chunk > 0 && c.index < |zoneArray| && Headers()
      modifies this
      ensures S() == OpenZone(cfg, old(S()), a, c) && Headers()
    {
      var off := if PowerOfTwo(c.chunk) then RoundUp(cfg.header, c.chunk) else RoundUp(cfg.header, 8);
      var nmax := (cfg.ZoneSize() - off) / c.chunk;
      var z := Zone(c.index, c.chunk, off, nmax, nmax - 1, 0, []);
      zones := zones[a := z];
      zoneArray := zoneArray[c.index := [a] + zoneArray[c.index]];
      Account(c.chunk);
      blocks, allocs := blocks[a := blocks[a].(kind := Used(z))], allocs[Chunk(a, 0) := c.chunk];
    }

    /** The section after the page allocator delivered a zone. */
    method ZoneArrived(a: nat, n: nat)
      requires Valid() && Legal(cfg, S(), ZoneReady(a, n))
      modifies this
      ensures Valid() && S() == Do(cfg, old(S()), ZoneReady(a, n)).0
    {
      StepInv(cfg, S(), ZoneReady(a, n));
      MarkPages(a);
      ClassIndex(n);
      SetUpZone(a, ClassOf(n));
    }

    method MarkPages(a: nat)
      modifies this`usage
      ensures usage == Marked(old(usage), a, cfg.zonePages)
    {
      var off := 0;
      while off < cfg.zonePages
        invariant 0 <= off <= cfg.zonePages && usage == Marked(old(usage), a, off)
      {
        usage := usage[a + off := Small(off)];
        off := off + 1;
      }
    }

    method UnmarkPages(a: nat)
      modifies this`usage
      ensures usage == Unmarked(old(usage), a, cfg.zonePages)
    {
      var i := 0;
      while i < cfg.zonePages
        invariant 0 <= i <= cfg.zonePages && usage == Unmarked(old(usage), a, i)
      {
        usage := usage[a + i := Unused];
        i := i + 1;
      }
    }

    /** The usage table tells from the address what is freed, and where its zone begins. */
    method Locate(x: nat, ghost p: Ptr) returns (a: nat, chunk: bool, i: nat)
      requires Valid() && p in allocs && IsLive(blocks, p) && x == Address(cfg, S(), p)
      ensures p == if chunk then Chunk(a, i) else Pages(a)
    {
      LookupFinds(cfg, S(), p);
      var k := x / cfg.page;
      chunk := !usage[k].Whole?;
      a, i := k, 0;
      if chunk {
        a := k - usage[k].off;
        assert a == p.at && KindOk(cfg, blocks[a]);
        Divided(p.i, zones[a].chunk);
        i := (x - a * cfg.page - zones[a].off) / zones[a].chunk;
      }
    }

    /** rt_free. The pages of a large allocation go back to the page allocator in a section of
        their own. */
    method FreePointer(x: Option<nat>, ghost p: Ptr)
      requires Valid() && (x.Some? ==> p in allocs && IsLive(blocks, p) && x.value == Address(cfg, S(), p))
      modifies this
      ensures Valid() && (x.None? ==> S() == old(S()))
      ensures x.Some? ==> S() == Do(cfg, old(S()), if p.Chunk? then FreeChunk(p.at, p.i) else FreeLarge(p.at)).0
      ensures x.Some? ==> allocs == old(allocs) - {p} && usedMem == old(usedMem) - old(allocs)[p] && !IsLive(blocks, p)
    {
      if x.Some? {
        StepEffect(cfg, S(), if p.Chunk? then FreeChunk(p.at, p.i) else FreeLarge(p.at));
        var a, chunk, i := Locate(x.value, p);
        if chunk { FreeSmall(a, i); } else { FreeWhole(a); }
      }
    }

    method FreeWhole(a: nat)
      requires Valid() && IsLive(blocks, Pages(a))
      modifies this
      ensures Valid() && S() == FreeLargeStep(cfg, old(S()), a)
    {
      FreeLargeInv(cfg, S(), a);
      assert Described(cfg, a, blocks[a], usage);
      var size := usage[a].pages;
      usage := usage[a := Whole(0)];
      usedMem := usedMem - size * cfg.page;
      blocks := blocks[a := blocks[a].(kind := Held)];
      allocs := allocs - {Pages(a)};
    }

    /** rt_free of a chunk. */
    method FreeSmall(a: nat, i: nat)
      requires Valid() && IsLive(blocks, Chunk(a, i))
      modifies this
      ensures Valid() && S() == Do(cfg, old(S()), FreeChunk(a, i)).0
    {
      StepInv(cfg, S(), FreeChunk(a, i));
      ReturnedInv(cfg, S(), a, i);
      PutChunk(a, i);
      var z := zones[a];
      if z.nfree == z.nmax && zoneArray[z.index] != [a] { Retire(a, z.index); }
    }

    method PutChunk(a: nat, i: nat)
      requires Headers() && a in blocks && blocks[a].kind.Used? && blocks[a].kind.zone.index < |zoneArray|
      modifies this
      ensures Headers() && S() == Returned(old(S()), a, i)
    {
      var z := zones[a];
      usedMem := usedMem - z.chunk;
      if z.nfree == 0 { zoneArray := zoneArray[z.index := [a] + zoneArray[z.index]]; }
      z := z.(nfree := z.nfree + 1, freed := [i] + z.freed);
      zones := zones[a := z];
      blocks, allocs := blocks[a := blocks[a].(kind := Used(z))], allocs - {Chunk(a, i)};
    }

    method Unlink(a: nat, zi: nat)
      requires zi < |zoneArray| && a in zoneArray[zi] && NoDup(zoneArray[zi])
      modifies this`zoneArray
      ensures zoneArray == old(zoneArray)[zi := Without(old(zoneArray)[zi], a)]
    {
      var q := zoneArray[zi];
      var k := Find(q, a);
      WithoutAt(q, k);
      zoneArray := zoneArray[zi := q[..k] + q[k + 1..]];
    }

    /** A wholly free zone that is not alone on its list. */
    method Retire(a: nat, zi: nat)
      requires Headers() && OnList(blocks, a, zi) && zi < |zoneArray| && a in zoneArray[zi] && NoDup(zoneArray[zi])
      modifies this
      ensures S() == Retired(cfg, old(S()), a) && Headers()
    {
      Unlink(a, zi);
      assert ([a] + zoneFree)[1..] == zoneFree;
      zoneFree := [a] + zoneFree;
      zoneFreeCnt := zoneFreeCnt + 1;
      if zoneFreeCnt > 2 {
        var z := zoneFree[0];
        zoneFree := zoneFree[1..];
        zoneFreeCnt := zoneFreeCnt - 1;
        UnmarkPages(z);
        blocks := blocks[a := blocks[a].(kind := Held)];
      } else {
        blocks := blocks[a := blocks[a].(kind := Idle)];
      }
    }
  }

  lemma Divided(i: nat, c: nat)
    requires c > 0
    ensures i * c / c == i
  {
    var q, r := i * c / c, i * c % c;
    assert i * c == c * q + r && c * (q + 1) == c * q + c && c * (i + 1) == c * i + c;
    Times(c, i, q + 1);
    Times(c, q, i + 1);
  }

  /** The walk along z_next to the zone that leaves. */
  method Find(q: seq<nat>, a: nat) returns (k: nat)
    requires a in q
    ensures k < |q| && q[k] == a
  {
    k := 0;
    while q[k] != a
      invariant k < |q| && a in q[k..]
      decreases |q| - k
    {
      assert q[k..] == [q[k]] + q[k + 1..];
      k := k + 1;
    }
  }
}
