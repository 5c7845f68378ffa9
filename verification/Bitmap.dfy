// The ready bitmap of src/scheduler.c and the find-first-set lookup of src/kservice.c.
module Bitmap {

  // ----- Bits of a number

  predicate Bit(n: nat, i: nat)
    decreases i
  {
    if i == 0 then n % 2 == 1 else Bit(n / 2, i - 1)
  }

  /** n | 1 << i */
  function SetBit(n: nat, i: nat): nat
    decreases i
  {
    if i == 0 then (if n % 2 == 1 then n else n + 1) else n % 2 + 2 * SetBit(n / 2, i - 1)
  }

  /** n & ~(1 << i) */
  function ClearBit(n: nat, i: nat): nat
    decreases i
  {
    if i == 0 then (if n % 2 == 1 then n - 1 else n) else n % 2 + 2 * ClearBit(n / 2, i - 1)
  }

  lemma {:induction false} SetBitAt(n: nat, i: nat, j: nat)
    ensures Bit(SetBit(n, i), j) <==> i == j || Bit(n, j)
    decreases i
  {
    if i > 0 && j > 0 { SetBitAt(n / 2, i - 1, j - 1); }
  }

  lemma {:induction false} ClearBitAt(n: nat, i: nat, j: nat)
    ensures Bit(ClearBit(n, i), j) <==> i != j && Bit(n, j)
    decreases i
  {
    if i > 0 && j > 0 { ClearBitAt(n / 2, i - 1, j - 1); }
  }

  function Power(k: nat): nat { if k == 0 then 1 else 2 * Power(k - 1) }

  lemma {:induction false} SetBitBound(n: nat, i: nat, k: nat)
    requires n < Power(k) && i < k
    ensures 0 < SetBit(n, i) < Power(k)
    decreases i
  {
    if i > 0 { SetBitBound(n / 2, i - 1, k - 1); }
  }

  lemma {:induction false} ClearBitBound(n: nat, i: nat)
    ensures ClearBit(n, i) <= n
    decreases i
  {
    if i > 0 { ClearBitBound(n / 2, i - 1); }
  }

  lemma {:induction false} HighBitsZero(n: nat, k: nat, i: nat)
    requires n < Power(k) && i >= k
    ensures !Bit(n, i)
    decreases i
  {
    if k > 0 { HighBitsZero(n / 2, k - 1, i - 1); } else if i > 0 { HighBitsZero(0, 0, i - 1); }
  }

  lemma {:induction false} NonzeroHasBit(n: nat, k: nat) returns (i: nat)
    requires 0 < n < Power(k)
    ensures i < k && Bit(n, i)
    decreases k
  {
    if n % 2 == 1 {
      i := 0;
    } else {
      var j := NonzeroHasBit(n / 2, k - 1);
      i := j + 1;
    }
  }

  lemma {:induction false} BitMeansNonzero(n: nat, i: nat)
    requires Bit(n, i)
    ensures n > 0
    decreases i
  {
    if i > 0 { BitMeansNonzero(n / 2, i - 1); }
  }

  /** n >> k */
  function Shift(n: nat, k: nat): nat { if k == 0 then n else Shift(n / 2, k - 1) }

  /** The low `k` bits of `n`. */
  function Low(n: nat, k: nat): nat { if k == 0 then 0 else n % 2 + 2 * Low(n / 2, k - 1) }

  lemma {:induction false} ShiftAt(n: nat, k: nat, i: nat)
    ensures Bit(Shift(n, k), i) <==> Bit(n, i + k)
    decreases k
  {
    if k > 0 { ShiftAt(n / 2, k - 1, i); }
  }

  lemma {:induction false} ShiftBound(n: nat, k: nat, m: nat)
    requires n < Power(k + m)
    ensures Shift(n, k) < Power(m)
    decreases k
  {
    if k > 0 { ShiftBound(n / 2, k - 1, m); }
  }

  lemma {:induction false} LowAt(n: nat, k: nat, i: nat)
    ensures Bit(Low(n, k), i) <==> i < k && Bit(n, i)
    decreases k
  {
    if k == 0 {
      HighBitsZero(0, 0, i);
    } else if i > 0 {
      LowAt(n / 2, k - 1, i - 1);
    }
  }

  lemma {:induction false} LowBound(n: nat, k: nat)
    ensures Low(n, k) < Power(k)
    decreases k
  {
    if k > 0 { LowBound(n / 2, k - 1); }
  }

  // ----- Lookup

  /** `i` is the lowest set bit of `n`. */
  predicate IsLowest(n: nat, i: nat) { Bit(n, i) && forall j: nat :: j < i ==> !Bit(n, j) }

  /** __lowest_bit_bitmap: its sixteen rows differ only in their first column. */
  const Row: seq<nat> := [0, 0, 1, 0, 2, 0, 1, 0, 3, 0, 1, 0, 2, 0, 1, 0]
  const FirstColumn: seq<nat> := [0, 4, 5, 4, 6, 4, 5, 4, 7, 4, 5, 4, 6, 4, 5, 4]

  function LowestOfByte(b: nat): nat {
    var row, column := Low(Shift(b, 4), 4), Low(b, 4);
    LowBound(Shift(b, 4), 4);
    LowBound(b, 4);
    if column == 0 then FirstColumn[row] else Row[column]
  }

  /** The byte of `n` that starts at bit `at`. */
  function ByteAt(n: nat, at: nat): nat { Low(Shift(n, at), 8) }

  /** __rt_ffs */
  function Ffs(n: nat): nat {
    if n == 0 then 0
    else if ByteAt(n, 0) != 0 then LowestOfByte(ByteAt(n, 0)) + 1
    else if ByteAt(n, 8) != 0 then LowestOfByte(ByteAt(n, 8)) + 9
    else if ByteAt(n, 16) != 0 then LowestOfByte(ByteAt(n, 16)) + 17
    else LowestOfByte(ByteAt(n, 24)) + 25
  }

  lemma NibbleLowest(v: nat)
    requires 0 < v < 16
    ensures IsLowest(v, Row[v]) && FirstColumn[v] == Row[v] + 4
  {
    assert v == 1 || v == 2 || v == 3 || v == 4 || v == 5 || v == 6 || v == 7 || v == 8
        || v == 9 || v == 10 || v == 11 || v == 12 || v == 13 || v == 14 || v == 15;
  }

  lemma LowestInLow(n: nat, k: nat, i: nat)
    requires IsLowest(Low(n, k), i)
    ensures IsLowest(n, i) && i < k
  {
    LowAt(n, k, i);
    forall j: nat | j < i ensures !Bit(n, j) { LowAt(n, k, j); }
  }

  lemma LowestInShift(n: nat, k: nat, i: nat)
    requires IsLowest(Shift(n, k), i) && Low(n, k) == 0
    ensures IsLowest(n, i + k)
  {
    ShiftAt(n, k, i);
    forall j: nat | j < i + k ensures !Bit(n, j) {
      if j < k {
        LowAt(n, k, j);
        HighBitsZero(0, 0, j);
      } else {
        ShiftAt(n, k, j - k);
      }
    }
  }

  lemma ByteLowest(b: nat)
    requires 0 < b < Power(8)
    ensures IsLowest(b, LowestOfByte(b))
  {
    LowBound(b, 4);
    var column := Low(b, 4);
    if column != 0 {
      NibbleLowest(column);
      LowestInLow(b, 4, Row[column]);
    } else {
      HighNibble(b);
    }
  }

  lemma HighNibble(b: nat)
    requires 0 < b < Power(8) && Low(b, 4) == 0
    ensures IsLowest(b, LowestOfByte(b))
  {
    var high := Shift(b, 4);
    ShiftBound(b, 4, 4);
    LowBound(high, 4);
    var row := Low(high, 4);
    if row == 0 {
      var i := NonzeroHasBit(b, 8);
      LowAt(b, 4, i);
      if i >= 4 { ShiftAt(b, 4, i - 4); LowAt(high, 4, i - 4); }
      HighBitsZero(0, 0, i);
      if i >= 4 { HighBitsZero(0, 0, i - 4); }
      assert false;
    }
    NibbleLowest(row);
    LowestInLow(high, 4, Row[row]);
    LowestInShift(b, 4, Row[row]);
  }

  /** Find-first-set: zero for zero, else one more than the number of the lowest set bit. */
  lemma FfsLowest(n: nat)
    requires 0 < n < Power(32)
    ensures Ffs(n) > 0 && IsLowest(n, Ffs(n) - 1)
  {
    var at := FirstByte(n);
    var b := ByteAt(n, at);
    LowBound(Shift(n, at), 8);
    ByteLowest(b);
    var i := LowestOfByte(b);
    LowestInLow(Shift(n, at), 8, i);
    LowestInShift(n, at, i);
  }

  /** The byte the lookup settles on, and nothing below it. */
  lemma FirstByte(n: nat) returns (at: nat)
    requires 0 < n < Power(32)
    ensures ByteAt(n, at) != 0 && Low(n, at) == 0 && Ffs(n) == LowestOfByte(ByteAt(n, at)) + at + 1
  {
    at := if ByteAt(n, 0) != 0 then 0 else if ByteAt(n, 8) != 0 then 8 else if ByteAt(n, 16) != 0 then 16 else 24;
    if Low(n, at) != 0 {
      LowBound(n, at);
      var i := NonzeroHasBit(Low(n, at), at);
      LowAt(n, at, i);
      BitInByte(n, i);
      assert false;
    }
    if ByteAt(n, at) == 0 {
      var i := NonzeroHasBit(n, 32);
      BitInByte(n, i);
      assert false;
    }
  }

  /** A set bit makes its byte nonzero. */
  lemma BitInByte(n: nat, i: nat)
    requires Bit(n, i) && i < 32
    ensures i < 8 ==> ByteAt(n, 0) != 0
    ensures 8 <= i < 16 ==> ByteAt(n, 8) != 0
    ensures 16 <= i < 24 ==> ByteAt(n, 16) != 0
    ensures 24 <= i < 32 ==> ByteAt(n, 24) != 0
  {
    var at := if i < 8 then 0 else if i < 16 then 8 else if i < 24 then 16 else 24;
    ShiftAt(n, at, i - at);
    LowAt(Shift(n, at), 8, i - at);
    BitMeansNonzero(ByteAt(n, at), i - at);
  }

  // ----- One- and two-level ready maps

  /** `two`: more than 32 priorities, grouped by eight; `table` is unused otherwise. */
  datatype Map = Map(two: bool, group: nat, table: seq<nat>)

  function Blank(two: bool): Map { Map(two, 0, seq(32, _ => 0)) }

  /** Priorities `p` of a map: below 32, or below 256. */
  predicate InRange(two: bool, p: nat) { p < if two then 256 else 32 }

  function Mark(m: Map, p: nat): Map
    requires InRange(m.two, p) && |m.table| == 32
  {
    if m.two then
      var number := p / 8;
      m.(table := m.table[number := SetBit(m.table[number], p % 8)], group := SetBit(m.group, number))
    else m.(group := SetBit(m.group, p))
  }

  function Unmark(m: Map, p: nat): Map
    requires InRange(m.two, p) && |m.table| == 32
  {
    if m.two then
      var number := p / 8;
      var byte := ClearBit(m.table[number], p % 8);
      var m' := m.(table := m.table[number := byte]);
      if byte == 0 then m'.(group := ClearBit(m.group, number)) else m'
    else m.(group := ClearBit(m.group, p))
  }

  /** The lookup of _get_highest_priority_thread. */
  function Lowest(m: Map): int
    requires |m.table| == 32
  {
    var number := Ffs(m.group) - 1;
    if m.two then (if 0 <= number < 32 then number * 8 + Ffs(m.table[number]) - 1 else 0) else number
  }

  /** The map holds exactly the priorities in `busy`. */
  ghost predicate Tracks(m: Map, busy: set<nat>) {
    && |m.table| == 32 && m.group < Power(32)
    && (forall p :: p in busy ==> InRange(m.two, p))
    && if m.two then TableTracks(m.table, busy) && GroupTracks(m.group, m.table) else
         forall p: nat :: Bit(m.group, p) <==> p in busy
  }

  ghost predicate TableTracks(table: seq<nat>, busy: set<nat>)
    requires |table| == 32
  {
    && (forall k :: 0 <= k < 32 ==> table[k] < Power(8))
    && forall k: nat, b: nat :: k < 32 && b < 8 ==> (Bit(table[k], b) <==> Number(k, b) in busy)
  }

  /** The priority with the given group number and bit. */
  function Number(k: nat, b: nat): nat { 8 * k + b }

  ghost predicate GroupTracks(group: nat, table: seq<nat>)
    requires |table| == 32
  {
    forall k: nat :: Bit(group, k) <==> k < 32 && table[k] != 0
  }

  lemma BlankTracks(two: bool)
    ensures Tracks(Blank(two), {})
  {
    PowerGrows(0, 32);
    PowerGrows(0, 8);
    forall i: nat ensures !Bit(0, i) { HighBitsZero(0, 0, i); }
  }

  lemma NumberParts(p: nat)
    ensures p == Number(p / 8, p % 8) && p % 8 < 8
    ensures forall k: nat, b: nat :: b < 8 && Number(k, b) == p ==> k == p / 8 && b == p % 8
  {
  }

  lemma TableMark(table: seq<nat>, busy: set<nat>, p: nat)
    requires |table| == 32 && p < 256 && TableTracks(table, busy)
    ensures var t := SetBit(table[p / 8], p % 8); 0 < t < Power(8) && TableTracks(table[p / 8 := t], busy + {p})
  {
    NumberParts(p);
    var n, c := p / 8, p % 8;
    var t := SetBit(table[n], c);
    SetBitBound(table[n], c, 8);
    var table' := table[n := t];
    forall k: nat, b: nat | k < 32 && b < 8
      ensures Bit(table'[k], b) <==> Number(k, b) in busy + {p}
    {
      if k == n { SetBitAt(table[n], c, b); }
    }
  }

  lemma TableUnmark(table: seq<nat>, busy: set<nat>, p: nat)
    requires |table| == 32 && p < 256 && TableTracks(table, busy)
    ensures var t := ClearBit(table[p / 8], p % 8); t < Power(8) && TableTracks(table[p / 8 := t], busy - {p})
  {
    NumberParts(p);
    var n, c := p / 8, p % 8;
    var t := ClearBit(table[n], c);
    ClearBitBound(table[n], c);
    var table' := table[n := t];
    forall k: nat, b: nat | k < 32 && b < 8
      ensures Bit(table'[k], b) <==> Number(k, b) in busy - {p}
    {
      if k == n { ClearBitAt(table[n], c, b); }
    }
  }

  lemma GroupMark(group: nat, table: seq<nat>, n: nat, t: nat)
    requires |table| == 32 && n < 32 && t != 0 && GroupTracks(group, table)
    ensures GroupTracks(SetBit(group, n), table[n := t])
  {
    forall k: nat ensures Bit(SetBit(group, n), k) <==> k < 32 && table[n := t][k] != 0 {
      SetBitAt(group, n, k);
    }
  }

  lemma GroupUnmark(group: nat, table: seq<nat>, n: nat)
    requires |table| == 32 && n < 32 && GroupTracks(group, table)
    ensures GroupTracks(ClearBit(group, n), table[n := 0])
  {
    forall k: nat ensures Bit(ClearBit(group, n), k) <==> k < 32 && table[n := 0][k] != 0 {
      ClearBitAt(group, n, k);
    }
  }

  /** Setting the mask of a list that is no longer empty. */
  lemma MarkTracks(m: Map, busy: set<nat>, p: nat)
    requires Tracks(m, busy) && InRange(m.two, p)
    ensures Tracks(Mark(m, p), busy + {p}) && Mark(m, p).two == m.two
  {
    if m.two {
      var t := SetBit(m.table[p / 8], p % 8);
      TableMark(m.table, busy, p);
      GroupMark(m.group, m.table, p / 8, t);
      SetBitBound(m.group, p / 8, 32);
    } else {
      SetBitBound(m.group, p, 32);
      forall q: nat ensures Bit(Mark(m, p).group, q) <==> q in busy + {p} { SetBitAt(m.group, p, q); }
    }
  }

  /** Clearing the mask of a list that has become empty. */
  lemma UnmarkTracks(m: Map, busy: set<nat>, p: nat)
    requires Tracks(m, busy) && InRange(m.two, p)
    ensures Tracks(Unmark(m, p), busy - {p}) && Unmark(m, p).two == m.two
  {
    if m.two {
      var n, t := p / 8, ClearBit(m.table[p / 8], p % 8);
      TableUnmark(m.table, busy, p);
      if t == 0 {
        GroupUnmark(m.group, m.table, n);
        ClearBitBound(m.group, n);
      } else {
        ClearNonzero(m.table[n], p % 8, t);
      }
    } else {
      ClearBitBound(m.group, p);
      forall q: nat ensures Bit(Unmark(m, p).group, q) <==> q in busy - {p} { ClearBitAt(m.group, p, q); }
    }
  }

  lemma {:induction false} ClearIdle(n: nat, i: nat)
    requires !Bit(n, i)
    ensures ClearBit(n, i) == n
    decreases i
  {
    if i > 0 { ClearIdle(n / 2, i - 1); }
  }

  /** Clearing the mask of an empty list changes nothing. */
  lemma UnmarkIdle(m: Map, busy: set<nat>, p: nat)
    requires Tracks(m, busy) && InRange(m.two, p) && p !in busy
    ensures Unmark(m, p) == m
  {
    if m.two {
      NumberParts(p);
      assert !Bit(m.table[p / 8], p % 8);
      ClearIdle(m.table[p / 8], p % 8);
      if m.table[p / 8] == 0 { ClearIdle(m.group, p / 8); }
    } else {
      ClearIdle(m.group, p);
    }
  }

  lemma ClearNonzero(n: nat, i: nat, t: nat)
    requires t == ClearBit(n, i) && t != 0
    ensures n != 0
  {
    ClearBitBound(n, i);
  }

  /** The lookup finds the lowest-numbered priority in the map, and the group is zero exactly
      when there is none. */
  lemma LowestTracks(m: Map, busy: set<nat>)
    requires Tracks(m, busy)
    ensures m.group == 0 <==> busy == {}
    ensures busy != {} ==> Lowest(m) >= 0 && Lowest(m) in busy && forall p :: p in busy ==> Lowest(m) <= p
  {
    if m.group == 0 {
      forall p | p in busy ensures false {
        InGroup(m, busy, p);
        HighBitsZero(0, 0, if m.two then p / 8 else p);
      }
    } else {
      FfsLowest(m.group);
      if m.two { LowestInTable(m, busy); }
    }
  }

  /** A priority in the map shows in the group. */
  lemma InGroup(m: Map, busy: set<nat>, p: nat)
    requires Tracks(m, busy) && p in busy
    ensures Bit(m.group, if m.two then p / 8 else p)
    ensures m.two ==> Bit(m.table[p / 8], p % 8)
  {
    if m.two {
      NumberParts(p);
      assert Bit(m.table[p / 8], p % 8);
      BitMeansNonzero(m.table[p / 8], p % 8);
    }
  }

  lemma GroupIndex(m: Map, busy: set<nat>)
    requires Tracks(m, busy) && m.two && m.group != 0
    ensures 0 < Ffs(m.group) <= 32
  {
    FfsLowest(m.group);
  }

  lemma LowestInTable(m: Map, busy: set<nat>)
    requires Tracks(m, busy) && m.two && m.group != 0 && Ffs(m.group) > 0 && IsLowest(m.group, Ffs(m.group) - 1)
    ensures Lowest(m) >= 0 && Lowest(m) in busy && forall p :: p in busy ==> Lowest(m) <= p
  {
    var n := Ffs(m.group) - 1;
    assert n < 32 && m.table[n] != 0;
    assert Power(8) <= Power(32) by { PowerGrows(8, 32); }
    FfsLowest(m.table[n]);
    var b := Ffs(m.table[n]) - 1;
    if b >= 8 {
      HighBitsZero(m.table[n], 8, b);
      assert false;
    }
    assert Lowest(m) == Number(n, b);
    forall p | p in busy ensures Lowest(m) <= p {
      InGroup(m, busy, p);
      NumberParts(p);
    }
  }

  lemma {:induction false} PowerGrows(a: nat, b: nat)
    requires a <= b
    ensures Power(a) <= Power(b)
    decreases b - a
  {
    if a < b { PowerGrows(a, b - 1); }
  }
}
