// When the loop of rt_timer_check ends: exactly when no expired timer is periodic with a period
// of zero ticks, provided the timeout functions start timers of zero ticks at most in a
// well-founded way.
module TimerEnding {
  import opened Lists
  import opened Ticks
  import opened TimerQueue

  /** An expired timer that its restart makes due again at once. */
  predicate StuckOn(s: State, x: Id)
    requires Known(s.queue, s.timers)
  {
    x in s.queue && var t := s.timers[x]; t.due <= s.now && t.periodic && t.active && t.init == 0
  }

  ghost predicate Stuck(s: State)
    requires Known(s.queue, s.timers)
  {
    exists x :: StuckOn(s, x)
  }

  // ----- Timers that no timeout function names

  lemma {:induction false} DoAllKeepsUnnamed(s: State, cs: seq<Cmd>, x: Id)
    requires Inv(s, 1) && AllReady(s, cs) && !Named(cs, x) && x in s.timers
    ensures var r := DoAll(s, cs); r.timers[x] == s.timers[x] && (x in r.queue <==> x in s.queue)
    decreases |cs|
  {
    if cs != [] {
      DoKeepsInv(s, cs[0], 1);
      assert !Named(cs[1..], x) by { assert forall k :: 0 <= k < |cs| - 1 ==> cs[1..][k] == cs[k + 1]; }
      DoAllKeepsUnnamed(Do(s, cs[0]), cs[1..], x);
    }
  }

  /** What firing does to a timer that no timeout function names. */
  lemma FireUnnamed(s: State, script: Script, x: Id)
    requires Inv(s, 1) && HeadDue(s) && CanFire(s, script) && !Mentions(script, x) && x in s.timers
    ensures var r, t := Fire(s, script), s.timers[x];
      if x != s.queue[0] then r.timers[x] == t && (x in r.queue <==> x in s.queue)
      else if t.periodic && t.active then x in r.queue && r.timers[x] == t.(due := s.now + t.init)
      else x !in r.queue
  {
    var h := s.queue[0];
    CommandsNamed(script, h, x);
    DoAllKeepsUnnamed(Unlinked(s), Commands(script, h), x);
  }

  // ----- Stuck for ever

  /** The head of a sorted list is due if anything is. */
  lemma DueHead(s: State, x: Id)
    requires Inv(s, 1) && x in s.queue && s.timers[x].due <= s.now
    ensures HeadDue(s)
  {
    if !HeadDue(s) { NothingOverdue(s); }
  }

  lemma StuckStays(s: State, script: Script, x: Id)
    requires Inv(s, 1) && StuckOn(s, x) && !Mentions(script, x) && HeadDue(s) && CanFire(s, script)
    ensures StuckOn(Fire(s, script), x)
  {
    FireUnnamed(s, script, x);
  }

  /** Whatever the other timeout functions do, the loop goes on as long as one likes. */
  lemma {:induction false} StuckForever(s: State, script: Script, x: Id, n: nat)
    requires Inv(s, 1) && StuckOn(s, x) && !Mentions(script, x)
    ensures !EndsIn(s, script, n)
    decreases n
  {
    DueHead(s, x);
    if n > 0 && CanFire(s, script) {
      StuckStays(s, script, x);
      StuckForever(Fire(s, script), script, x, n - 1);
    }
  }

  // ----- Timeout functions that cannot keep the loop alive themselves

  predicate FromScript(script: Script, cs: seq<Cmd>) {
    forall j :: 0 <= j < |cs| ==> exists h, k :: h in script && 0 <= k < |script[h]| && script[h][k] == cs[j]
  }

  /** The cost of the timers of zero ticks that a timeout function starts. */
  function ZeroStarts(cs: seq<Cmd>, zero: set<Id>, cost: Id -> nat): nat {
    if cs == [] then 0
    else (if cs[0].Start? && cs[0].id in zero then cost(cs[0].id) else 0) + ZeroStarts(cs[1..], zero, cost)
  }

  /** A command names a known timer, sets delays that rt_timer_start accepts, gives zero ticks
      only to timers in `zero`, and makes none of those periodic. */
  predicate TameCommand(ts: map<Id, Timer>, zero: set<Id>, c: Cmd) {
    && c.id in ts
    && (c.SetTime? ==> c.ticks < HALF && (c.ticks == 0 ==> c.id in zero))
    && (c.SetPeriodic? && c.on ==> c.id !in zero)
  }

  /** `zero` holds every timer that may have zero ticks during the check. Of those, the ones
      that timeout functions name are not periodic, and a timeout function costs more than
      what it starts: no timeout function leads back to itself through starts of zero ticks. */
  predicate Tame(ts: map<Id, Timer>, script: Script, zero: set<Id>, cost: Id -> nat) {
    && (forall h, k :: h in script && 0 <= k < |script[h]| ==> TameCommand(ts, zero, script[h][k]))
    && (forall x :: x in ts && ts[x].init == 0 ==> x in zero)
    && (forall x :: x in ts && (ts[x].periodic || Mentions(script, x)) ==> ts[x].init < HALF)
    && (forall x :: x in ts && x in zero && Mentions(script, x) ==> !ts[x].periodic)
    && (forall h :: h in ts ==> cost(h) > ZeroStarts(Commands(script, h), zero, cost))
  }

  lemma DoTame(s: State, c: Cmd, script: Script, zero: set<Id>, cost: Id -> nat)
    requires Inv(s, 1) && Tame(s.timers, script, zero, cost) && FromScript(script, [c])
    ensures Ready(s, c) && Tame(Do(s, c).timers, script, zero, cost)
  {
    assert [c][0] == c;
    var h, k :| h in script && 0 <= k < |script[h]| && script[h][k] == c;
    assert TameCommand(s.timers, zero, c) && Mentions(script, c.id);
    var ts := Do(s, c).timers;
    forall h, k | h in script && 0 <= k < |script[h]| ensures TameCommand(ts, zero, script[h][k]) {
      assert TameCommand(s.timers, zero, script[h][k]);
    }
  }

  lemma {:induction false} DoAllTame(s: State, cs: seq<Cmd>, script: Script, zero: set<Id>, cost: Id -> nat)
    requires Inv(s, 1) && Tame(s.timers, script, zero, cost) && FromScript(script, cs)
    ensures AllReady(s, cs) && Tame(DoAll(s, cs).timers, script, zero, cost)
    decreases |cs|
  {
    if cs != [] {
      assert FromScript(script, [cs[0]]);
      DoTame(s, cs[0], script, zero, cost);
      DoKeepsInv(s, cs[0], 1);
      assert FromScript(script, cs[1..]) by { assert forall k :: 0 <= k < |cs| - 1 ==> cs[1..][k] == cs[k + 1]; }
      DoAllTame(Do(s, cs[0]), cs[1..], script, zero, cost);
    }
  }

  lemma TameFires(s: State, script: Script, zero: set<Id>, cost: Id -> nat)
    requires Inv(s, 1) && HeadDue(s) && Tame(s.timers, script, zero, cost)
    ensures CanFire(s, script)
    ensures var cs := Commands(script, s.queue[0]);
      FromScript(script, cs) && Tame(DoAll(Unlinked(s), cs).timers, script, zero, cost)
  {
    var h := s.queue[0];
    assert h in s.queue;
    var cs := Commands(script, h);
    assert FromScript(script, cs);
    DoAllTame(Unlinked(s), cs, script, zero, cost);
  }

  lemma RestartTame(s: State, h: Id, script: Script, zero: set<Id>, cost: Id -> nat)
    requires Inv(s, 1) && CanRestart(s, h) && Tame(s.timers, script, zero, cost)
    ensures Tame(Restart(s, h).timers, script, zero, cost)
  {
    TameAgrees(s.timers, Restart(s, h).timers, script, zero, cost);
  }

  lemma FireTame(s: State, script: Script, zero: set<Id>, cost: Id -> nat)
    requires Inv(s, 1) && HeadDue(s) && CanFire(s, script)
    requires Tame(DoAll(Unlinked(s), Commands(script, s.queue[0])).timers, script, zero, cost)
    ensures Tame(Fire(s, script).timers, script, zero, cost)
  {
    RestartTame(DoAll(Unlinked(s), Commands(script, s.queue[0])), s.queue[0], script, zero, cost);
  }

  /** Tameness only looks at delays and modes. */
  lemma TameAgrees(ts: map<Id, Timer>, us: map<Id, Timer>, script: Script, zero: set<Id>, cost: Id -> nat)
    requires Tame(ts, script, zero, cost) && us.Keys == ts.Keys
    requires forall x :: x in ts ==> us[x].init == ts[x].init && us[x].periodic == ts[x].periodic
    ensures Tame(us, script, zero, cost)
  {
    forall h, k | h in script && 0 <= k < |script[h]| ensures TameCommand(us, zero, script[h][k]) {
      assert TameCommand(ts, zero, script[h][k]);
    }
  }

  /** Firing makes nothing stuck. */
  lemma FireUnstuck(s: State, script: Script, zero: set<Id>, cost: Id -> nat)
    requires Inv(s, 1) && HeadDue(s) && Tame(s.timers, script, zero, cost) && !Stuck(s) && CanFire(s, script)
    ensures !Stuck(Fire(s, script))
  {
    var r := Fire(s, script);
    TameFires(s, script, zero, cost);
    FireTame(s, script, zero, cost);
    forall x ensures !StuckOn(r, x) {
      if StuckOn(r, x) {
        assert x in r.timers && !Mentions(script, x);
        FireUnnamed(s, script, x);
        assert s.queue[0] in s.queue;
        assert StuckOn(s, x);
      }
    }
  }

  // ----- What the expired timers cost

  function DueCost(q: seq<Id>, ts: map<Id, Timer>, now: int, cost: Id -> nat): nat
    requires Known(q, ts)
  {
    if q == [] then 0
    else (if ts[q[0]].due <= now then cost(q[0]) else 0) + DueCost(q[1..], ts, now, cost)
  }

  function Cost(s: State, cost: Id -> nat): nat
    requires Known(s.queue, s.timers)
  {
    DueCost(s.queue, s.timers, s.now, cost)
  }

  lemma {:induction false} CostAgrees(q: seq<Id>, ts: map<Id, Timer>, us: map<Id, Timer>, now: int, cost: Id -> nat)
    requires Known(q, ts) && Known(q, us) && forall x :: x in q ==> ts[x].due == us[x].due
    ensures DueCost(q, ts, now, cost) == DueCost(q, us, now, cost)
  {
    if q != [] {
      assert q[0] in q && forall x :: x in q[1..] ==> x in q;
      CostAgrees(q[1..], ts, us, now, cost);
    }
  }

  lemma {:induction false} CostWithout(q: seq<Id>, x: Id, ts: map<Id, Timer>, now: int, cost: Id -> nat)
    requires Known(q, ts)
    ensures DueCost(Without(q, x), ts, now, cost) <= DueCost(q, ts, now, cost)
  {
    if q != [] {
      CostWithout(q[1..], x, ts, now, cost);
      if q[0] != x {
        assert ([q[0]] + Without(q[1..], x))[1..] == Without(q[1..], x);
      }
    }
  }

  lemma {:induction false} CostInsert(q: seq<Id>, ts: map<Id, Timer>, x: Id, now: int, cost: Id -> nat)
    requires Known(q, ts) && x in ts
    ensures DueCost(Insert(q, ts, x), ts, now, cost) ==
      DueCost(q, ts, now, cost) + if ts[x].due <= now then cost(x) else 0
  {
    if q == [] {
    } else if ts[q[0]].due > ts[x].due {
      assert ([x] + q)[1..] == q;
    } else {
      CostInsert(q[1..], ts, x, now, cost);
      assert ([q[0]] + Insert(q[1..], ts, x))[1..] == Insert(q[1..], ts, x);
    }
  }

  lemma DoCost(s: State, c: Cmd, cost: Id -> nat)
    requires Inv(s, 1) && Ready(s, c)
    ensures Cost(Do(s, c), cost) <= Cost(s, cost) + if c.Start? && s.timers[c.id].init == 0 then cost(c.id) else 0
  {
    var r, q := Do(s, c), Without(s.queue, c.id);
    CostWithout(s.queue, c.id, s.timers, s.now, cost);
    if c.Start? {
      CostAgrees(q, s.timers, r.timers, s.now, cost);
      CostInsert(q, r.timers, c.id, s.now, cost);
    } else {
      CostAgrees(r.queue, s.timers, r.timers, s.now, cost);
    }
  }

  lemma {:induction false} DoAllCost(s: State, cs: seq<Cmd>, script: Script, zero: set<Id>, cost: Id -> nat)
    requires Inv(s, 1) && Tame(s.timers, script, zero, cost) && FromScript(script, cs) && AllReady(s, cs)
    ensures Cost(DoAll(s, cs), cost) <= Cost(s, cost) + ZeroStarts(cs, zero, cost)
    decreases |cs|
  {
    if cs != [] {
      assert FromScript(script, [cs[0]]);
      DoTame(s, cs[0], script, zero, cost);
      DoKeepsInv(s, cs[0], 1);
      DoCost(s, cs[0], cost);
      assert FromScript(script, cs[1..]) by { assert forall k :: 0 <= k < |cs| - 1 ==> cs[1..][k] == cs[k + 1]; }
      DoAllCost(Do(s, cs[0]), cs[1..], script, zero, cost);
    }
  }

  /** Every firing brings the end closer. */
  lemma FireCost(s: State, script: Script, zero: set<Id>, cost: Id -> nat)
    requires Inv(s, 1) && HeadDue(s) && CanFire(s, script) && Tame(s.timers, script, zero, cost) && !Stuck(s)
    ensures Cost(Fire(s, script), cost) < Cost(s, cost)
  {
    var h, u := s.queue[0], Unlinked(s);
    assert h in s.queue;
    var cs := Commands(script, h);
    WithoutHead(s.queue);
    assert Cost(s, cost) == cost(h) + Cost(u, cost);
    TameFires(s, script, zero, cost);
    DoAllCost(u, cs, script, zero, cost);
    RestartsLater(s, script, zero, cost);
    RestartCost(DoAll(u, cs), h, cost);
  }

  /** A timer that is restarted has at least one tick. */
  lemma RestartsLater(s: State, script: Script, zero: set<Id>, cost: Id -> nat)
    requires Inv(s, 1) && HeadDue(s) && CanFire(s, script) && Tame(s.timers, script, zero, cost) && !Stuck(s)
    ensures var t := DoAll(Unlinked(s), Commands(script, s.queue[0])).timers[s.queue[0]];
      t.periodic && t.active ==> t.init >= 1
  {
    var h, u := s.queue[0], Unlinked(s);
    assert h in s.queue && !StuckOn(s, h);
    TameFires(s, script, zero, cost);
    if !Mentions(script, h) {
      CommandsNamed(script, h, h);
      DoAllKeepsUnnamed(u, Commands(script, h), h);
    }
  }

  lemma RestartCost(s: State, h: Id, cost: Id -> nat)
    requires Inv(s, 1) && CanRestart(s, h)
    requires s.timers[h].periodic && s.timers[h].active ==> s.timers[h].init >= 1
    ensures Cost(Restart(s, h), cost) <= Cost(s, cost)
  {
    var idle := s.(timers := s.timers[h := s.timers[h].(active := false)]);
    CostAgrees(s.queue, s.timers, idle.timers, s.now, cost);
    SortedAgrees(s.queue, s.timers, idle.timers);
    if s.timers[h].periodic && s.timers[h].active { DoCost(idle, Start(h), cost); }
  }

  lemma {:induction false} UnstuckEnds(s: State, script: Script, zero: set<Id>, cost: Id -> nat, n: nat)
    requires Inv(s, 1) && Tame(s.timers, script, zero, cost) && !Stuck(s) && Cost(s, cost) <= n
    ensures EndsIn(s, script, n)
    decreases n
  {
    if HeadDue(s) {
      FireCloser(s, script, zero, cost);
      UnstuckEnds(Fire(s, script), script, zero, cost, n - 1);
      OneMore(s, script, n);
    }
  }

  lemma OneMore(s: State, script: Script, n: nat)
    requires Inv(s, 1) && n > 0 && HeadDue(s) && CanFire(s, script) && EndsIn(Fire(s, script), script, n - 1)
    ensures EndsIn(s, script, n)
  {
  }

  lemma FireCloser(s: State, script: Script, zero: set<Id>, cost: Id -> nat)
    requires Inv(s, 1) && HeadDue(s) && Tame(s.timers, script, zero, cost) && !Stuck(s)
    ensures CanFire(s, script)
    ensures var f := Fire(s, script); Tame(f.timers, script, zero, cost) && !Stuck(f) && Cost(f, cost) < Cost(s, cost)
  {
    TameFires(s, script, zero, cost);
    FireTame(s, script, zero, cost);
    FireUnstuck(s, script, zero, cost);
    FireCost(s, script, zero, cost);
  }

  /** The check ends if and only if no expired timer is active and periodic with zero ticks. */
  lemma EndsExactly(s: State, script: Script, zero: set<Id>, cost: Id -> nat)
    requires Inv(s, 1) && Tame(s.timers, script, zero, cost)
    ensures Ends(s, script) <==> !Stuck(s)
  {
    if Stuck(s) {
      var x :| StuckOn(s, x);
      forall n: nat ensures !EndsIn(s, script, n) { StuckForever(s, script, x, n); }
    } else {
      UnstuckEnds(s, script, zero, cost, Cost(s, cost));
    }
  }

  /** Timeout functions that touch no timer, or only timers of at least one tick, are tame. */
  lemma OrdinaryTame(ts: map<Id, Timer>, script: Script, zero: set<Id>)
    requires forall h, k :: h in script && 0 <= k < |script[h]| ==>
      var c := script[h][k]; c.id in ts && 1 <= ts[c.id].init && (c.SetTime? ==> 1 <= c.ticks < HALF)
    requires forall x :: x in ts && (ts[x].periodic || Mentions(script, x)) ==> ts[x].init < HALF
    requires zero == set x | x in ts && ts[x].init == 0
    ensures Tame(ts, script, zero, (_: Id) => 1)
  {
    forall h ensures ZeroStarts(Commands(script, h), zero, (_: Id) => 1) == 0 {
      NoZeroStarts(Commands(script, h), zero, (_: Id) => 1);
    }
  }

  lemma {:induction false} NoZeroStarts(cs: seq<Cmd>, zero: set<Id>, cost: Id -> nat)
    requires forall k :: 0 <= k < |cs| ==> cs[k].id !in zero
    ensures ZeroStarts(cs, zero, cost) == 0
  {
    if cs != [] { NoZeroStarts(cs[1..], zero, cost); }
  }

  /** Started with a period of zero ticks, a timer makes the check of the very next tick spin. */
  lemma ZeroPeriodNeverEnds()
    ensures var s := State(0, [], map[7 := Timer(0, 0, true, false)], []);
      Ready(s, Start(7)) && Inv(Ticked(Do(s, Start(7))), 1) && !Ends(Ticked(Do(s, Start(7))), map[])
  {
    var s := State(0, [], map[7 := Timer(0, 0, true, false)], []);
    var r := Ticked(Do(s, Start(7)));
    assert r.queue == [7] && StuckOn(r, 7);
    forall n: nat ensures !EndsIn(r, map[], n) { StuckForever(r, map[], 7, n); }
  }
}
