// What each timer command and each firing of src/timer.c changes, timer by timer.
module TimerEffects {
  import opened Lists
  import opened TimerQueue
  import opened TimerSkipList

  /** Time, firings and every other timer stay. */
  predicate OnlyTimer(s: State, r: State, x: Id) {
    && r.now == s.now && r.log == s.log && r.timers.Keys == s.timers.Keys
    && forall y :: y in s.timers && y != x ==> r.timers[y] == s.timers[y]
  }

  /** `rest` is the list with `x`, if it is there, taken out. */
  ghost predicate Rest(q: seq<Id>, x: Id, rest: seq<Id>) {
    if x in q then Drops(q, rest, x) else rest == q
  }

  /** `x` stands in `q` behind all of `rest` that expire no later, before all that expire later. */
  predicate InPlace(q: seq<Id>, rest: seq<Id>, x: Id, ts: map<Id, Timer>, k: nat) {
    && x in ts && k <= |rest| && q == rest[..k] + [x] + rest[k..]
    && (forall j :: 0 <= j < k ==> rest[j] in ts && ts[rest[j]].due <= ts[x].due)
    && (forall j :: k <= j < |rest| ==> rest[j] in ts && ts[rest[j]].due > ts[x].due)
  }

  lemma {:induction false} PosSplits(q: seq<Id>, ts: map<Id, Timer>, d: int)
    requires Known(q, ts)
    ensures forall j :: 0 <= j < Pos(q, ts, d) ==> ts[q[j]].due <= d
    ensures Pos(q, ts, d) < |q| ==> ts[q[Pos(q, ts, d)]].due > d
  {
    if q != [] && ts[q[0]].due <= d {
      PosSplits(q[1..], ts, d);
      forall j | 0 <= j < Pos(q, ts, d) ensures ts[q[j]].due <= d {
        if j > 0 { assert q[j] == q[1..][j - 1]; }
      }
    }
  }

  lemma InsertPlaces(q: seq<Id>, ts: map<Id, Timer>, x: Id) returns (k: nat)
    requires Known(q, ts) && Sorted(q, ts) && x in ts
    ensures InPlace(Insert(q, ts, x), q, x, ts, k)
  {
    k := Pos(q, ts, ts[x].due);
    PosSplits(q, ts, ts[x].due);
    InsertAtPos(q, ts, x);
    assert forall j :: 0 <= j < |q| ==> q[j] in q;
  }

  lemma RestIs(q: seq<Id>, x: Id)
    requires NoDup(q)
    ensures Rest(q, x, Without(q, x))
  {
    if x in q { WithoutDrops(q, x); } else { WithoutAbsent(q, x); }
  }

  /** rt_timer_start: the timer is active, expires its period from now, and stands in expiry
      order behind those that expire no later. */
  lemma StartEffect(s: State, x: Id, slack: nat) returns (rest: seq<Id>, k: nat)
    requires Inv(s, slack) && Ready(s, Start(x))
    ensures var t, r := s.timers[x], Do(s, Start(x));
      && OnlyTimer(s, r, x) && r.timers[x] == Timer(t.init, s.now + t.init, t.periodic, true)
      && Rest(s.queue, x, rest) && InPlace(r.queue, rest, x, r.timers, k)
  {
    var r := Do(s, Start(x));
    rest := Without(s.queue, x);
    RestIs(s.queue, x);
    WithoutOrdered(s.queue, x, s.timers);
    SortedAgrees(rest, s.timers, r.timers);
    k := InsertPlaces(rest, r.timers, x);
  }

  /** rt_timer_stop: an active timer is unlinked, of others nothing changes. */
  lemma StopEffect(s: State, x: Id, slack: nat)
    requires Inv(s, slack) && Ready(s, Stop(x))
    ensures var t, r := s.timers[x], Do(s, Stop(x));
      && OnlyTimer(s, r, x) && r.timers[x] == Timer(t.init, t.due, t.periodic, false)
      && if t.active then Rest(s.queue, x, r.queue) else r.queue == s.queue
  {
    RestIs(s.queue, x);
  }

  /** rt_timer_control: only the period, or only the mode, changes; a linked timer keeps its
      place and its expiry. */
  lemma ControlEffect(s: State, c: Cmd)
    requires Ready(s, c) && (c.SetTime? || c.SetPeriodic?)
    ensures var t, r := s.timers[c.id], Do(s, c);
      && OnlyTimer(s, r, c.id) && r.queue == s.queue
      && r.timers[c.id] == (if c.SetTime? then Timer(c.ticks, t.due, t.periodic, t.active) else Timer(t.init, t.due, c.on, t.active))
  {
  }

  // ----- Periods last

  predicate SetsTime(c: Cmd, x: Id) { c.SetTime? && c.id == x }

  predicate NoneSets(cs: seq<Cmd>, x: Id) { forall k :: 0 <= k < |cs| ==> !SetsTime(cs[k], x) }

  predicate ScriptSets(script: Script, x: Id) { exists h :: h in script && !NoneSets(script[h], x) }

  predicate EventSets(e: Event, x: Id) {
    match e
    case Command(c) => SetsTime(c, x)
    case Tick(script) => ScriptSets(script, x)
  }

  /** `x` is there in both states, with the same period. */
  predicate SamePeriod(s: State, r: State, x: Id) {
    x in s.timers && x in r.timers && r.timers[x].init == s.timers[x].init
  }

  lemma {:induction false} DoAllPeriod(s: State, cs: seq<Cmd>, x: Id)
    requires Inv(s, 1) && AllReady(s, cs) && NoneSets(cs, x) && x in s.timers
    ensures SamePeriod(s, DoAll(s, cs), x)
    decreases |cs|
  {
    if cs != [] {
      DoKeepsInv(s, cs[0], 1);
      assert !SetsTime(cs[0], x);
      DoAllPeriod(Do(s, cs[0]), cs[1..], x);
    }
  }

  lemma {:induction false} CheckPeriod(s: State, script: Script, n: nat, x: Id)
    requires Inv(s, 1) && EndsIn(s, script, n) && !ScriptSets(script, x) && x in s.timers
    ensures SamePeriod(s, CheckIn(s, script, n), x)
    decreases n
  {
    if HeadDue(s) {
      var cs := Commands(script, s.queue[0]);
      DoAllPeriod(Unlinked(s), cs, x);
      assert SamePeriod(s, Fire(s, script), x);
      CheckPeriod(Fire(s, script), script, n - 1, x);
    }
  }

  /** A timer's period lasts, over ticks, starts, stops and firings, until it is set again: the
      next start expires that many ticks from then. */
  lemma {:induction false} PeriodLasts(s: State, es: seq<Event>, x: Id)
    requires Inv(s, 0) && Legal(s, es) && x in s.timers
    requires forall k :: 0 <= k < |es| ==> !EventSets(es[k], x)
    ensures SamePeriod(s, Run(s, es), x)
    ensures var r := Run(s, es);
      Ready(r, Start(x)) ==> Do(r, Start(x)).timers[x].due == r.now + s.timers[x].init
    decreases |es|
  {
    if es != [] {
      assert !EventSets(es[0], x);
      if es[0].Tick? { CheckPeriod(Ticked(s), es[0].script, Firings(Ticked(s), es[0].script), x); }
      PeriodLasts(Step(s, es[0]), es[1..], x);
    }
  }

  // ----- One firing

  /** A timer its timeout function leaves alone is, after firing, linked again one period later
      if it is periodic and active, and otherwise inactive and unlinked. */
  lemma FiringEffect(s: State, script: Script)
    requires Inv(s, 1) && HeadDue(s) && CanFire(s, script) && Commands(script, s.queue[0]) == []
    ensures var h, r := s.queue[0], Fire(s, script); var t := s.timers[h];
      && (forall y :: y in s.timers && y != h ==> r.timers[y] == s.timers[y] && (y in r.queue <==> y in s.queue))
      && (if t.periodic && t.active then h in r.queue && r.timers[h] == Timer(t.init, s.now + t.init, true, true)
          else h !in r.queue && r.timers[h] == Timer(t.init, t.due, t.periodic, false))
  {
    WithoutHead(s.queue);
  }
}
