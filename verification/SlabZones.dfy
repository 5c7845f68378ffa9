// The slab allocator of src/slab.c over its page allocator: zones of equal chunks, one list of
// zones with free chunks per size class, a small pool of idle zones, and the page usage table.
// Each section under the heap semaphore is one step.
module SlabZones {
  import opened Lists
  import opened Numbers
  import opened SlabClasses

  /** RT_MM_PAGE_SIZE, zone_page_cnt, sizeof(slab_zone) and zone_limit. */
  datatype Config = Config(page: nat, zonePages: nat, header: nat, limit: nat) {
    function ZoneSize(): nat { page * zonePages }
    predicate Ok() {
      && page > 0 && zonePages > 0 && (limit == 8192 || limit == 16384)
      && 4 * limit <= ZoneSize() && 4 * (header + 8) <= ZoneSize()
    }
  }

  // ----- One zone

  /** z_nfree, z_uindex and the list of freed chunks, by number. */
  datatype Zone = Zone(index: nat, chunk: nat, off: nat, nmax: int, nfree: int, uindex: int, freed: seq<nat>)

  predicate PowerOfTwo(n: nat) { n == 1 || (n > 1 && n % 2 == 0 && PowerOfTwo(n / 2)) }

  /** Where the chunks begin: aligned to their size when that is a power of two, else to 8. */
  function Offset(cfg: Config, chunk: nat): nat
    requires chunk > 0
  {
    if PowerOfTwo(chunk) then RoundUp(cfg.header, chunk) else RoundUp(cfg.header, 8)
  }

  function NewZone(cfg: Config, c: Class): Zone
    requires c.chunk > 0
  {
    var off := Offset(cfg, c.chunk);
    var nmax := (cfg.ZoneSize() - off) / c.chunk;
    Zone(c.index, c.chunk, off, nmax, nmax - 1, 0, [])
  }

  /** Freed and never used chunks add up to nfree; all chunks lie inside the zone. */
  ghost predicate ZoneOk(cfg: Config, z: Zone) {
    && z.index < 72 && z.chunk == ChunkOf(z.index) && z.chunk > 0
    && z.nmax >= 2 && z.off == Offset(cfg, z.chunk) && z.off + z.nmax * z.chunk <= cfg.ZoneSize()
    && 0 <= z.uindex < z.nmax && NoDup(z.freed)
    && (forall k :: 0 <= k < |z.freed| ==> z.freed[k] <= z.uindex)
    && z.nfree == |z.freed| + (z.nmax - 1 - z.uindex)
  }

  /** Chunk `i` has been handed out and not returned. */
  predicate InUse(z: Zone, i: nat) { i <= z.uindex && i !in z.freed }

  lemma NewZoneOk(cfg: Config, n: nat)
    requires cfg.Ok() && 0 < n < cfg.limit
    ensures var c := ClassOf(n); c.chunk > 0 && ZoneOk(cfg, NewZone(cfg, c)) && NewZone(cfg, c).nfree > 0
    ensures forall i: nat :: InUse(NewZone(cfg, ClassOf(n)), i) <==> i == 0
  {
    var c := ClassOf(n);
    ClassFits(n);
    ClassIndex(n);
    var z := NewZone(cfg, c);
    assert 4 * c.chunk <= cfg.ZoneSize();
    Quotient(cfg.ZoneSize() - z.off, c.chunk);
  }

  lemma Quotient(x: nat, c: nat)
    requires c > 0 && x >= 2 * c
    ensures x / c >= 2 && x / c * c <= x
  {
    var q := x / c;
    assert x == c * q + x % c;
    assert c * q > c;
  }

  /** The chunk given next: a never used one while there are any, else the last one freed. */
  function Take(z: Zone): (Zone, nat)
    requires z.uindex + 1 == z.nmax ==> z.freed != []
    requires z.uindex >= 0
  {
    if z.uindex + 1 != z.nmax then (z.(nfree := z.nfree - 1, uindex := z.uindex + 1), z.uindex + 1)
    else (z.(nfree := z.nfree - 1, freed := z.freed[1..]), z.freed[0])
  }

  function Put(z: Zone, i: nat): Zone { z.(nfree := z.nfree + 1, freed := [i] + z.freed) }

  lemma TakeOk(cfg: Config, z: Zone)
    requires ZoneOk(cfg, z) && z.nfree > 0
    ensures z.uindex + 1 == z.nmax ==> z.freed != []
    ensures var (z', i) := Take(z);
      && ZoneOk(cfg, z') && i < z.nmax && !InUse(z, i) && InUse(z', i) && z'.nfree == z.nfree - 1
      && (forall j: nat :: j != i ==> (InUse(z', j) <==> InUse(z, j)))
      && z'.index == z.index && z'.chunk == z.chunk && z'.off == z.off && z'.nmax == z.nmax
  {
    if z.uindex + 1 == z.nmax {
      assert z.freed == [z.freed[0]] + z.freed[1..];
      assert z.freed[0] !in z.freed[1..];
    }
  }

  lemma PutOk(cfg: Config, z: Zone, i: nat)
    requires ZoneOk(cfg, z) && InUse(z, i)
    ensures ZoneOk(cfg, Put(z, i)) && Put(z, i).nfree > 0 && !InUse(Put(z, i), i)
    ensures forall j: nat :: j != i ==> (InUse(Put(z, i), j) <==> InUse(z, j))
  {
  }

  /** A zone all of whose chunks count as free has none in use. */
  lemma AllFree(cfg: Config, z: Zone)
    requires ZoneOk(cfg, z) && z.nfree == z.nmax
    ensures forall i: nat :: !InUse(z, i)
  {
    forall i: nat | i <= z.uindex ensures i in z.freed {
      Pigeonhole(z.freed, z.uindex, i);
    }
  }

  lemma {:induction false} Pigeonhole(q: seq<nat>, m: int, i: nat)
    requires NoDup(q) && (forall k :: 0 <= k < |q| ==> q[k] <= m) && |q| == m + 1 && i <= m
    ensures i in q
  {
    Elements(q);
    assert Elems(q) <= Below(m + 1);
    Equal(Elems(q), Below(m + 1));
    assert i in Below(m + 1);
  }

  function Below(n: nat): (s: set<int>)
    ensures forall x :: x in s <==> 0 <= x < n
    ensures |s| == n
  {
    if n == 0 then {} else Below(n - 1) + {n - 1}
  }

  function Elems(q: seq<nat>): set<int> { if q == [] then {} else {q[0]} + Elems(q[1..]) }

  lemma {:induction false} Elements(q: seq<nat>)
    requires NoDup(q)
    ensures |Elems(q)| == |q| && forall x :: x in Elems(q) <==> x in q
  {
    if q != [] {
      Elements(q[1..]);
      assert q[0] !in q[1..];
      assert forall x :: x in q <==> x == q[0] || x in q[1..];
    }
  }

  lemma Equal(a: set<int>, b: set<int>)
    requires a <= b && |a| == |b|
    ensures a == b
  {
    assert b == a + (b - a);
    assert |b - a| == 0;
  }
}
