// Size classes and zone layout of src/slab.c: zoneindex() and the placement of chunks.
module SlabClasses {

  datatype Class = Class(chunk: nat, index: nat)

  /** (n + unit - 1) & ~(unit - 1), and that many units past `base`. */
  function Units(n: nat, unit: nat, base: int): Class
    requires n > 0 && unit > 0 && base >= -1
  {
    var q := (n + unit - 1) / unit;
    UnitsUp(n, unit);
    Class(unit * q, q + base)
  }

  lemma UnitsUp(n: nat, unit: nat)
    requires n > 0 && unit > 0
    ensures var q := (n + unit - 1) / unit; q >= 1 && n <= unit * q < n + unit
  {
    var q := (n + unit - 1) / unit;
    assert n + unit - 1 == unit * q + (n + unit - 1) % unit;
  }

  /** zoneindex(): the chunk size and the zone index for a request below 16384 bytes. */
  function ClassOf(n: nat): Class
    requires 0 < n < 16384
  {
    if n < 128 then Units(n, 8, -1)
    else if n < 256 then Units(n, 16, 7)
    else if n < 512 then Units(n, 32, 15)
    else if n < 1024 then Units(n, 64, 23)
    else if n < 2048 then Units(n, 128, 31)
    else if n < 4096 then Units(n, 256, 39)
    else if n < 8192 then Units(n, 512, 47)
    else Units(n, 1024, 55)
  }

  /** The chunk size of a zone index. */
  function ChunkOf(i: nat): nat {
    if i < 16 then 8 * (i + 1)
    else if i < 24 then 16 * (i - 7)
    else if i < 32 then 32 * (i - 15)
    else if i < 40 then 64 * (i - 23)
    else if i < 48 then 128 * (i - 31)
    else if i < 56 then 256 * (i - 39)
    else if i < 64 then 512 * (i - 47)
    else 1024 * (i - 55)
  }

  /** The chunk holds the request and wastes less than an eighth of it, or less than 8 bytes. */
  lemma ClassFits(n: nat)
    requires 0 < n < 16384
    ensures var c := ClassOf(n);
      && n <= c.chunk <= 16384 && (n < 8192 ==> c.chunk <= 8192)
      && (c.chunk - n < 8 || 8 * (c.chunk - n) < n)
  {
  }

  /** The index is in range and gives the chunk size, a multiple of 8. */
  predicate Matched(c: Class) { c.index < 72 && c.chunk == ChunkOf(c.index) && c.chunk % 8 == 0 }

  /** The octave of indices behind `base` holds eight to sixteen units each. */
  predicate Octave(unit: nat, base: nat) {
    base + 16 < 72 && forall q: nat :: 8 <= q <= 16 ==> ChunkOf(q + base) == unit * q
  }

  /** A request of eight to sixteen units. */
  lemma UnitIndex(n: nat, unit: nat, base: nat)
    requires 0 < unit && 8 * unit <= n < 16 * unit && Octave(unit, base)
    ensures Matched(Units(n, unit, base))
  {
    var q := (n + unit - 1) / unit;
    UnitsUp(n, unit);
    UnitsBetween(q, unit, n);
    assert ChunkOf(q + base) == unit * q;
    ChunkEights(q + base);
  }

  lemma ChunkEights(i: nat)
    ensures ChunkOf(i) % 8 == 0
  {
  }

  lemma UnitsBetween(q: nat, unit: nat, n: nat)
    requires 8 * unit <= n < 16 * unit && n <= unit * q < n + unit
    ensures 8 <= q <= 16
  {
    Times(unit, q, 7);
    Times(unit, q, 17);
  }

  lemma Times(unit: nat, q: nat, k: nat)
    ensures q <= k ==> unit * q <= unit * k
    ensures q >= k ==> unit * q >= unit * k
  {
  }

  /** Chunk size and index determine each other, so all zones of an index hold equal chunks. */
  lemma ClassIndex(n: nat)
    requires 0 < n < 16384
    ensures Matched(ClassOf(n))
  {
    if n < 128 { SmallestIndex(n); }
    else if n < 256 { UnitIndex(n, 16, 7); }
    else if n < 512 { UnitIndex(n, 32, 15); }
    else if n < 1024 { UnitIndex(n, 64, 23); }
    else if n < 2048 { UnitIndex(n, 128, 31); }
    else if n < 4096 { UnitIndex(n, 256, 39); }
    else if n < 8192 { UnitIndex(n, 512, 47); }
    else { UnitIndex(n, 1024, 55); }
  }

  lemma SmallestIndex(n: nat)
    requires 0 < n < 128
    ensures Matched(ClassOf(n))
  {
  }
}
