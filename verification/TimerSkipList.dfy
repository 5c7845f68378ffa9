// The skip list of src/timer.c: rows of timers, row 0 the sparsest, the last row holding every
// linked timer, all comparisons on 32-bit ticks. Proved to refine the single list of TimerQueue.
module TimerSkipList {
  import opened Lists
  import opened Ticks
  import opened TimerQueue

  /** struct rt_timer: the stored timeout is the 32-bit image of the true expiry. */
  datatype Node = Node(timeout: Tick, init: Tick, periodic: bool, active: bool)

  ghost function Image(t: Timer): Node {
    Node(Wrap(t.due), t.init, t.periodic, t.active)
  }

  // ----- Rows

  function Elems(q: seq<Id>): set<Id> {
    set x | x in q
  }

  /** Every row holds exactly its own members of the row below it, in that row's order. */
  predicate Nested(rows: seq<seq<Id>>) {
    forall k :: 0 <= k < |rows| - 1 ==> rows[k] == Keep(rows[k + 1], Elems(rows[k]))
  }

  lemma NestedMeansSubsequence(rows: seq<seq<Id>>, k: nat)
    requires Nested(rows) && k + 1 < |rows|
    ensures IsSubseq(rows[k], rows[k + 1])
  {
    SubseqKeep(rows[k + 1], Elems(rows[k]));
  }

  lemma {:induction false} KeepOrdered(q: seq<Id>, s: set<Id>, ts: map<Id, Timer>)
    requires Known(q, ts) && Sorted(q, ts) && NoDup(q)
    ensures Known(Keep(q, s), ts) && Sorted(Keep(q, s), ts) && NoDup(Keep(q, s))
  {
    if q != [] {
      HeadLeast(q, ts);
      KeepOrdered(q[1..], s, ts);
      ConsOrdered(q[0], Keep(q[1..], s), ts);
    }
  }

  lemma {:induction false} RowsOrdered(rows: seq<seq<Id>>, ts: map<Id, Timer>, k: nat)
    requires Nested(rows) && k < |rows|
    requires var q := rows[|rows| - 1]; Known(q, ts) && Sorted(q, ts) && NoDup(q)
    ensures Known(rows[k], ts) && Sorted(rows[k], ts) && NoDup(rows[k])
    ensures forall x :: x in rows[k] ==> x in rows[|rows| - 1]
    decreases |rows| - k
  {
    if k < |rows| - 1 {
      RowsOrdered(rows, ts, k + 1);
      KeepOrdered(rows[k + 1], Elems(rows[k]), ts);
      assert rows[k] == Keep(rows[k + 1], Elems(rows[k]));
    }
  }

  lemma NestedWithout(upper: seq<Id>, lower: seq<Id>, x: Id)
    requires upper == Keep(lower, Elems(upper))
    ensures Without(upper, x) == Keep(Without(lower, x), Elems(Without(upper, x)))
  {
    KeepWithout(lower, Elems(upper), x);
    KeepAgrees(Without(lower, x), Elems(upper), Elems(Without(upper, x)));
  }

  lemma NestedInsertBoth(upper: seq<Id>, lower: seq<Id>, ts: map<Id, Timer>, x: Id)
    requires Known(lower, ts) && Sorted(lower, ts) && x in ts && x !in lower
    requires upper == Keep(lower, Elems(upper))
    ensures Known(upper, ts)
    ensures Insert(upper, ts, x) == Keep(Insert(lower, ts, x), Elems(Insert(upper, ts, x)))
  {
    var s := Elems(upper) + {x};
    KeepAgrees(lower, Elems(upper), s);
    KeepInsertIn(lower, ts, x, s);
    assert Elems(Insert(upper, ts, x)) == s;
  }

  lemma NestedInsertLower(upper: seq<Id>, lower: seq<Id>, ts: map<Id, Timer>, x: Id)
    requires Known(lower, ts) && x in ts && x !in upper
    requires upper == Keep(lower, Elems(upper))
    ensures upper == Keep(Insert(lower, ts, x), Elems(upper))
  {
    KeepInsertOut(lower, ts, x, Elems(upper));
  }

  /** The rows after a removal from all of them. */
  ghost function AllWithout(rows: seq<seq<Id>>, x: Id): seq<seq<Id>> {
    seq(|rows|, k requires 0 <= k < |rows| => Without(rows[k], x))
  }

  lemma AllWithoutNested(rows: seq<seq<Id>>, x: Id)
    requires Nested(rows)
    ensures Nested(AllWithout(rows, x))
  {
    forall k | 0 <= k < |rows| - 1
      ensures Without(rows[k], x) == Keep(Without(rows[k + 1], x), Elems(Without(rows[k], x)))
    {
      NestedWithout(rows[k], rows[k + 1], x);
    }
  }

  /** The rows after an insertion into rows `from` and below. */
  ghost predicate InsertedFrom(rows: seq<seq<Id>>, after: seq<seq<Id>>, from: nat, ts: map<Id, Timer>, x: Id)
    requires x in ts && forall k :: 0 <= k < |rows| ==> Known(rows[k], ts)
  {
    && |after| == |rows|
    && forall k :: 0 <= k < |rows| ==> after[k] == if k < from then rows[k] else Insert(rows[k], ts, x)
  }

  lemma InsertedNested(rows: seq<seq<Id>>, after: seq<seq<Id>>, from: nat, ts: map<Id, Timer>, x: Id)
    requires x in ts && Nested(rows) && forall k :: 0 <= k < |rows| ==> Known(rows[k], ts)
    requires forall k :: 0 <= k < |rows| ==> Sorted(rows[k], ts) && x !in rows[k]
    requires InsertedFrom(rows, after, from, ts, x)
    ensures Nested(after)
  {
    forall k | 0 <= k < |rows| - 1
      ensures after[k] == Keep(after[k + 1], Elems(after[k]))
    {
      assert rows[k] == Keep(rows[k + 1], Elems(rows[k]));
      if k >= from {
        NestedInsertBoth(rows[k], rows[k + 1], ts, x);
      } else if k + 1 >= from {
        NestedInsertLower(rows[k], rows[k + 1], ts, x);
      }
    }
  }

  // ----- Positions

  /** How many leading timers expire no later than d: where the search stops. */
  function Pos(q: seq<Id>, ts: map<Id, Timer>, d: int): (p: nat)
    requires Known(q, ts)
    ensures p <= |q|
  {
    if q == [] || ts[q[0]].due > d then 0 else 1 + Pos(q[1..], ts, d)
  }

  lemma {:induction false} PosUnique(q: seq<Id>, ts: map<Id, Timer>, d: int, p: nat)
    requires Known(q, ts) && p <= |q|
    requires forall i :: 0 <= i < p ==> ts[q[i]].due <= d
    requires p < |q| ==> ts[q[p]].due > d
    ensures p == Pos(q, ts, d)
  {
    if p > 0 {
      assert forall i :: 0 <= i < p - 1 ==> q[1..][i] == q[i + 1];
      PosUnique(q[1..], ts, d, p - 1);
    }
  }

  lemma {:induction false} InsertAtPos(q: seq<Id>, ts: map<Id, Timer>, x: Id)
    requires Known(q, ts) && x in ts
    ensures var p := Pos(q, ts, ts[x].due); Insert(q, ts, x) == q[..p] + [x] + q[p..]
  {
    if q != [] && ts[q[0]].due <= ts[x].due {
      InsertAtPos(q[1..], ts, x);
    }
  }

  function IndexOf(q: seq<Id>, x: Id): (i: nat)
    requires x in q
    ensures i < |q| && q[i] == x
  {
    if q[0] == x then 0 else 1 + IndexOf(q[1..], x)
  }

  /** Dropping to the same timer one row down skips only timers that expire no later. */
  lemma DropDown(upper: seq<Id>, lower: seq<Id>, ts: map<Id, Timer>, p: nat, d: int)
    requires upper == Keep(lower, Elems(upper)) && Known(upper, ts) && Known(lower, ts) && Sorted(lower, ts)
    requires 0 < p <= |upper| && ts[upper[p - 1]].due <= d
    ensures upper[p - 1] in lower
    ensures forall i :: 0 <= i <= IndexOf(lower, upper[p - 1]) ==> ts[lower[i]].due <= d
  {
    assert upper[p - 1] in upper;
  }

  /** What the search relies on: nested rows, each ordered by true expiry, all within the
      window in which the 32-bit comparison with x is exact, x itself not linked. */
  ghost predicate Searchable(rows: seq<seq<Id>>, nodes: map<Id, Node>, ts: map<Id, Timer>, x: Id)
    requires x in ts
  {
    && Nested(rows)
    && (forall k :: 0 <= k < |rows| ==> Known(rows[k], ts) && Sorted(rows[k], ts) && x !in rows[k])
    && (forall k, y :: 0 <= k < |rows| && y in rows[k] ==>
          && y in nodes && nodes[y].timeout == Wrap(ts[y].due)
          && -(HALF + 2) <= ts[y].due - ts[x].due < HALF)
  }

  /** Unlinking the timer and giving it its new expiry makes the rows searchable for it. */
  lemma StartSearchable(s: State, rows: seq<seq<Id>>, nodes: map<Id, Node>, x: Id)
    requires Inv(s, 1) && Nested(rows) && rows != [] && rows[|rows| - 1] == s.queue
    requires Ready(s, Start(x)) && Mirrors(nodes, s.timers)
    ensures var ts := Do(s, Start(x)).timers;
      Searchable(AllWithout(rows, x), nodes[x := Image(ts[x])], ts, x)
  {
    var after := Do(s, Start(x));
    var ts, thin := after.timers, AllWithout(rows, x);
    WithoutOrdered(s.queue, x, s.timers);
    AllWithoutNested(rows, x);
    SortedAgrees(thin[|rows| - 1], s.timers, ts);
    forall k | 0 <= k < |rows|
      ensures Known(thin[k], ts) && Sorted(thin[k], ts) && x !in thin[k]
      ensures forall y :: y in thin[k] ==> y in s.queue
    {
      RowsOrdered(thin, ts, k);
    }
  }

  lemma MirrorsUpdate(nodes: map<Id, Node>, ts: map<Id, Timer>, x: Id, t: Timer)
    requires Mirrors(nodes, ts) && x in ts
    ensures Mirrors(nodes[x := Image(t)], ts[x := t])
  {
  }

  lemma ImageStarted(t: Timer, now: int)
    ensures Image(t.(due := now + t.init, active := true))
         == Image(t).(timeout := Plus(Wrap(now), t.init), active := true)
  {
    PlusWrapped(now, t.init);
  }

  lemma StartQueue(s: State, rows: seq<seq<Id>>, x: Id)
    requires Inv(s, 1) && rows != [] && rows[|rows| - 1] == s.queue && Ready(s, Start(x))
    ensures var after := Do(s, Start(x));
      && after.queue == Insert(AllWithout(rows, x)[|rows| - 1], after.timers, x)
      && Inv(after, 1) && after.now == s.now
  {
    DoKeepsInv(s, Start(x), 1);
  }

  lemma StartReady(s: State, rows: seq<seq<Id>>, nodes: map<Id, Node>, x: Id)
    requires Inv(s, 1) && Nested(rows) && rows != [] && rows[|rows| - 1] == s.queue
    requires Ready(s, Start(x)) && Mirrors(nodes, s.timers)
    ensures var after := Do(s, Start(x));
      var timeout := Plus(Wrap(s.now), nodes[x].init);
      var ns := nodes[x := nodes[x].(timeout := timeout, active := true)];
      && timeout == Wrap(after.timers[x].due) && Mirrors(ns, after.timers)
      && Searchable(AllWithout(rows, x), ns, after.timers, x)
  {
    ImageStarted(s.timers[x], s.now);
    MirrorsUpdate(nodes, s.timers, x, Do(s, Start(x)).timers[x]);
    StartSearchable(s, rows, nodes, x);
  }

  ghost predicate Mirrors(nodes: map<Id, Node>, ts: map<Id, Timer>) {
    nodes.Keys == ts.Keys && forall x :: x in nodes ==> nodes[x] == Image(ts[x])
  }

  class TimerSystem {
    const levels: nat
    const mask: nat
    var rows: seq<seq<Id>>
    var nodes: map<Id, Node>
    var tick: Tick
    var randomNr: nat
    /** The single list this system stands for. */
    ghost var s: State

    ghost predicate Valid()
      reads this
    {
      && 1 <= levels == |rows| && (mask == 1 || mask == 3)
      && tick == Wrap(s.now)
      && rows[levels - 1] == s.queue
      && Mirrors(nodes, s.timers)
      && Inv(s, 1)
      && Nested(rows)
    }

    /** rt_system_timer_init: empty rows, tick 0; the given timers are initialized, not started. */
    constructor (levels: nat, mask: nat, timers: map<Id, (Tick, bool)>)
      requires 1 <= levels && (mask == 1 || mask == 3)
      ensures Valid() && Inv(s, 0)
      ensures s == State(0, [], map x | x in timers :: Timer(timers[x].0, 0, timers[x].1, false), [])
    {
      this.levels, this.mask := levels, mask;
      rows := seq(levels, _ => []);
      nodes := map x | x in timers :: Node(0, timers[x].0, timers[x].1, false);
      tick, randomNr := 0, 0;
      s := State(0, [], map x | x in timers :: Timer(timers[x].0, 0, timers[x].1, false), []);
    }

    /** _rt_timer_remove: unlink the timer from every row. */
    method RemoveFromRows(x: Id)
      requires |rows| == levels
      modifies this`rows
      ensures rows == AllWithout(old(rows), x)
    {
      var i := 0;
      while i < levels
        invariant 0 <= i <= levels == |rows|
        invariant forall k :: 0 <= k < i ==> rows[k] == Without(old(rows)[k], x)
        invariant forall k :: i <= k < levels ==> rows[k] == old(rows)[k]
      {
        rows := rows[i := Without(rows[i], x)];
        i := i + 1;
      }
    }

    /** One row of the search: walk right while the next timer expires no later. */
    method WalkRow(row: seq<Id>, start: nat, timeout: Tick, ghost d: int, ghost ts: map<Id, Timer>) returns (p: nat)
      requires timeout == Wrap(d) && Known(row, ts) && start <= |row|
      requires forall y :: y in row ==> y in nodes && nodes[y].timeout == Wrap(ts[y].due)
      requires forall y :: y in row ==> -(HALF + 2) <= ts[y].due - d < HALF
      requires forall i :: 0 <= i < start ==> ts[row[i]].due <= d
      ensures p == Pos(row, ts, d)
      ensures forall i :: 0 <= i < p ==> ts[row[i]].due <= d
    {
      p := start;
      while p < |row|
        invariant 0 <= p <= |row|
        invariant forall i :: 0 <= i < p ==> ts[row[i]].due <= d
      {
        var t := row[p];
        assert t in row;
        WindowOrder(ts[t].due, d);
        var diff := Minus(nodes[t].timeout, timeout);
        if diff == 0 {
          p := p + 1;
          continue;
        } else if diff < HALF {
          break;
        }
        p := p + 1;
      }
      PosUnique(row, ts, d, p);
    }

    /** From a position in one row to the same timer (or the head) one row down. */
    method NextRow(upper: seq<Id>, lower: seq<Id>, p: nat, ghost d: int, ghost ts: map<Id, Timer>) returns (start: nat)
      requires upper == Keep(lower, Elems(upper)) && Known(upper, ts) && Known(lower, ts) && Sorted(lower, ts)
      requires p <= |upper| && forall i :: 0 <= i < p ==> ts[upper[i]].due <= d
      ensures start <= |lower| && forall i :: 0 <= i < start ==> ts[lower[i]].due <= d
    {
      if p == 0 {
        start := 0;
      } else {
        DropDown(upper, lower, ts, p, d);
        start := IndexOf(lower, upper[p - 1]) + 1;
      }
    }

    /** The nested search of rt_timer_start: after each row, drop to the same timer one row
        down and go on from there. */
    method FindPositions(x: Id, timeout: Tick, ghost ts: map<Id, Timer>) returns (pos: seq<nat>)
      requires 1 <= levels == |rows| && x in ts && timeout == Wrap(ts[x].due)
      requires Searchable(rows, nodes, ts, x)
      ensures |pos| == levels
      ensures forall k :: 0 <= k < levels ==> pos[k] == Pos(rows[k], ts, ts[x].due)
    {
      pos := [];
      var start: nat := 0;
      var lvl := 0;
      while lvl < levels
        invariant 0 <= lvl <= levels && |pos| == lvl
        invariant forall k :: 0 <= k < lvl ==> pos[k] == Pos(rows[k], ts, ts[x].due)
        invariant lvl < levels ==> start <= |rows[lvl]|
        invariant lvl < levels ==> forall i :: 0 <= i < start ==> ts[rows[lvl][i]].due <= ts[x].due
      {
        var row := rows[lvl];
        var p := WalkRow(row, start, timeout, ts[x].due, ts);
        pos := pos + [p];
        if lvl != levels - 1 {
          start := NextRow(row, rows[lvl + 1], p, ts[x].due, ts);
        }
        lvl := lvl + 1;
      }
    }

    /** The insertion of rt_timer_start: the last row always, rows above it as long as the
        examined bits of the insertion counter are zero. */
    method InsertIntoRows(x: Id, pos: seq<nat>, ghost ts: map<Id, Timer>)
      requires 1 <= levels == |rows| == |pos| && (mask == 1 || mask == 3) && x in ts
      requires Searchable(rows, nodes, ts, x)
      requires forall k :: 0 <= k < levels ==> pos[k] == Pos(rows[k], ts, ts[x].due)
      modifies this`rows, this`randomNr
      ensures |rows| == levels && Nested(rows)
      ensures rows[levels - 1] == Insert(old(rows[levels - 1]), ts, x)
    {
      randomNr := (randomNr + 1) % 0x1_0000_0000;
      var bits := randomNr;
      var k := levels - 1;
      InsertAtPos(rows[k], ts, x);
      rows := rows[k := rows[k][..pos[k]] + [x] + rows[k][pos[k]..]];
      var lvl := 2;
      while lvl <= levels
        invariant 2 <= lvl <= levels + 1
        invariant InsertedFrom(old(rows), rows, levels + 1 - lvl, ts, x)
      {
        if bits % (mask + 1) != 0 {
          break;
        }
        k := levels - lvl;
        InsertAtPos(rows[k], ts, x);
        rows := rows[k := rows[k][..pos[k]] + [x] + rows[k][pos[k]..]];
        bits := bits / (mask + 1);
        lvl := lvl + 1;
      }
      InsertedNested(old(rows), rows, levels + 1 - lvl, ts, x);
    }

    /** rt_timer_start. */
    method Start(x: Id)
      requires Valid() && x in nodes && nodes[x].init < HALF
      modifies this
      ensures Valid() && s == Do(old(s), TimerQueue.Start(x))
    {
      ghost var after := Do(s, TimerQueue.Start(x));
      StartQueue(s, rows, x);
      StartReady(s, rows, nodes, x);
      Relink(x, after);
      s := after;
    }

    ghost function Restamped(x: Id): Node
      requires x in nodes
      reads this
    {
      nodes[x].(timeout := Plus(tick, nodes[x].init), active := true)
    }

    method Relink(x: Id, ghost after: State)
      requires 1 <= levels == |rows| && (mask == 1 || mask == 3)
      requires x in after.timers && x in nodes && Restamped(x).timeout == Wrap(after.timers[x].due)
      requires Searchable(AllWithout(rows, x), nodes[x := Restamped(x)], after.timers, x)
      requires after.queue == Insert(AllWithout(rows, x)[levels - 1], after.timers, x)
      modifies this`rows, this`nodes, this`randomNr
      ensures nodes == old(nodes[x := Restamped(x)])
      ensures |rows| == levels && Nested(rows) && rows[levels - 1] == after.queue
    {
      RemoveFromRows(x);
      var timeout := Plus(tick, nodes[x].init);
      nodes := nodes[x := nodes[x].(timeout := timeout, active := true)];
      Link(x, timeout, after);
    }

    method Link(x: Id, timeout: Tick, ghost after: State)
      requires 1 <= levels == |rows| && (mask == 1 || mask == 3)
      requires x in after.timers && timeout == Wrap(after.timers[x].due)
      requires Searchable(rows, nodes, after.timers, x)
      requires after.queue == Insert(rows[levels - 1], after.timers, x)
      modifies this`rows, this`randomNr
      ensures |rows| == levels && Nested(rows) && rows[levels - 1] == after.queue
    {
      var pos := FindPositions(x, timeout, after.timers);
      InsertIntoRows(x, pos, after.timers);
    }

    /** rt_timer_stop: refused unless the timer is flagged active. */
    method Stop(x: Id) returns (ok: bool)
      requires Valid() && x in nodes
      modifies this
      ensures Valid() && s == Do(old(s), TimerQueue.Stop(x))
      ensures ok == old(nodes[x].active)
    {
      if !nodes[x].active {
        return false;
      }
      DoKeepsInv(s, TimerQueue.Stop(x), 1);
      AllWithoutNested(rows, x);
      RemoveFromRows(x);
      nodes := nodes[x := nodes[x].(active := false)];
      s := Do(s, TimerQueue.Stop(x));
      ok := true;
    }

    /** The settings of rt_timer_control. */
    method Control(c: Cmd)
      requires Valid() && c.id in nodes && (c.SetTime? || c.SetPeriodic?)
      modifies this
      ensures Valid() && s == Do(old(s), c)
    {
      DoKeepsInv(s, c, 1);
      match c {
        case SetTime(x, ticks) => nodes := nodes[x := nodes[x].(init := ticks)];
        case SetPeriodic(x, on) => nodes := nodes[x := nodes[x].(periodic := on)];
      }
      s := Do(s, c);
    }

    method Execute(c: Cmd)
      requires Valid() && Ready(s, c)
      modifies this
      ensures Valid() && s == Do(old(s), c)
    {
      match c {
        case Start(x) => Start(x);
        case Stop(x) => var _ := Stop(x);
        case SetTime(_, _) => Control(c);
        case SetPeriodic(_, _) => Control(c);
      }
    }

    /** A timeout function: user code that may start, stop and configure timers. */
    method CallTimeout(cs: seq<Cmd>)
      requires Valid() && AllReady(s, cs)
      modifies this
      ensures Valid() && s == DoAll(old(s), cs)
    {
      var i := 0;
      assert cs[0..] == cs;
      while i < |cs|
        invariant 0 <= i <= |cs| && Valid() && AllReady(s, cs[i..])
        invariant DoAll(s, cs[i..]) == DoAll(old(s), cs)
      {
        assert cs[i..][0] == cs[i] && cs[i..][1..] == cs[i + 1..];
        Execute(cs[i]);
        i := i + 1;
      }
    }

    /** rt_timer_check, whenever its loop ends. */
    method Check(script: Script)
      requires Valid() && Ends(s, script)
      modifies this
      ensures Valid() && s == CheckAll(old(s), script)
    {
      var current := tick;
      ghost var n := Firings(s, script);
      while rows[levels - 1] != []
        invariant Valid() && EndsIn(s, script, n) && current == tick
        invariant CheckIn(s, script, n) == CheckAll(old(s), script)
        decreases n
      {
        var t := rows[levels - 1][0];
        assert t in s.queue;
        WindowOrder(s.now, s.timers[t].due);
        if Minus(current, nodes[t].timeout) < HALF {
          FireOne(t, script);
          n := n - 1;
          current := tick;
        } else {
          break;
        }
      }
    }

    method FireOne(t: Id, script: Script)
      requires Valid() && HeadDue(s) && CanFire(s, script) && t == s.queue[0]
      modifies this
      ensures Valid() && s == Fire(old(s), script)
    {
      AllWithoutNested(rows, t);
      RemoveFromRows(t);
      s := Unlinked(s);
      CallTimeout(Commands(script, t));
      RestartIfPeriodic(t);
    }

    method RestartIfPeriodic(t: Id)
      requires Valid() && t in nodes && CanRestart(s, t)
      modifies this
      ensures Valid() && s == Restart(old(s), t)
    {
      var again := nodes[t].periodic && nodes[t].active;
      ghost var idle := s.timers[t := s.timers[t].(active := false)];
      SortedAgrees(s.queue, s.timers, idle);
      nodes := nodes[t := nodes[t].(active := false)];
      s := s.(timers := idle);
      if again {
        Start(t);
      }
    }

    /** rt_tick_increase as far as timers go: one tick, one check. */
    method TickIncrease(script: Script)
      requires Valid() && Inv(s, 0) && Ends(Ticked(s), script)
      modifies this
      ensures Valid() && Inv(s, 0) && s == Step(old(s), Event.Tick(script))
    {
      Advance();
      Check(script);
      NothingOverdue(s);
    }

    method Advance()
      requires Valid() && Inv(s, 0)
      modifies this
      ensures Valid() && s == Ticked(old(s))
    {
      PlusWrapped(s.now, 1);
      tick := Plus(tick, 1);
      s := Ticked(s);
    }

    /** rt_timer_list_next_timeout: the earliest expiry of all linked timers. */
    method NextTimeout() returns (timeout: Tick)
      requires Valid()
      ensures s.queue == [] ==> timeout == TICK_MAX
      ensures s.queue != [] ==> exists x :: x in s.queue && timeout == Wrap(s.timers[x].due)
                                            && forall y :: y in s.queue ==> s.timers[x].due <= s.timers[y].due
    {
      timeout := TICK_MAX;
      if rows[levels - 1] != [] {
        var x := rows[levels - 1][0];
        assert x in s.queue;
        timeout := nodes[x].timeout;
      }
    }
  }
}
