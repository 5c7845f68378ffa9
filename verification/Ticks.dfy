// The 32-bit system tick (include/rtdef.h, src/clock.c) against true, unbounded time.
module Ticks {

  const TICK_MAX: nat := 0xFFFF_FFFF
  const HALF: nat := TICK_MAX / 2

  type Tick = t: nat | t <= TICK_MAX

  /** The 32-bit image of a point in true time. */
  function Wrap(x: int): Tick {
    x % 0x1_0000_0000
  }

  /** Unsigned subtraction and addition on `rt_tick_t`. */
  function Minus(a: Tick, b: Tick): Tick {
    Wrap(a - b)
  }

  function Plus(a: Tick, b: Tick): Tick {
    Wrap(a + b)
  }

  lemma WrapUnique(x: int, t: Tick, k: int)
    requires x == t + k * 0x1_0000_0000
    ensures Wrap(x) == t
  {
  }

  lemma WrapDifference(x: int, y: int)
    ensures Minus(Wrap(x), Wrap(y)) == Wrap(x - y)
  {
    var a, b, t := Wrap(x), Wrap(y), Wrap(Wrap(x) - Wrap(y));
    var m := 0x1_0000_0000;
    WrapUnique(x - y, t, (a - b) / m + x / m - y / m);
  }

  lemma PlusWrapped(x: int, d: Tick)
    ensures Plus(Wrap(x), d) == Wrap(x + d)
  {
    var a, m := Wrap(x), 0x1_0000_0000;
    WrapUnique(x + d, Wrap(a + d), (a + d) / m + x / m);
  }

  /** The wrapped comparison of src/timer.c (difference below half the range) decides the
      order of two true times exactly when they are less than half the range apart. */
  lemma WindowOrder(x: int, y: int)
    requires -(HALF + 2) <= x - y < HALF
    ensures Minus(Wrap(x), Wrap(y)) == 0 <==> x == y
    ensures Minus(Wrap(x), Wrap(y)) < HALF <==> x >= y
  {
    WrapDifference(x, y);
    if x >= y {
      WrapUnique(x - y, x - y, 0);
    } else {
      WrapUnique(x - y, x - y + 0x1_0000_0000, -1);
    }
  }

  /** Both ends of the window are sharp: one tick further and the comparison is wrong. */
  lemma WindowIsSharp(y: int)
    ensures Minus(Wrap(y + HALF), Wrap(y)) >= HALF
    ensures Minus(Wrap(y - (HALF + 3)), Wrap(y)) < HALF
  {
    WrapDifference(y + HALF, y);
    WrapUnique(HALF, HALF, 0);
    WrapDifference(y - (HALF + 3), y);
    WrapUnique(-(HALF + 3), 0x1_0000_0000 - (HALF + 3), -1);
  }
}
