// The meaning of the hard timer list of src/timer.c: one list of timers ordered by true,
// unbounded expiry, equal expiries in start order, checked once per tick.
module TimerQueue {
  import opened Numbers
  import opened Lists
  import opened Options
  import opened Ticks

  type Id = nat

  /** `due` is the true expiry; the kernel itself only stores its 32-bit image. */
  datatype Timer = Timer(init: Tick, due: int, periodic: bool, active: bool)
  datatype Firing = Firing(id: Id, due: int, at: int)
  datatype State = State(now: nat, queue: seq<Id>, timers: map<Id, Timer>, log: seq<Firing>)

  /** What user code may do to a timer, from a thread or from a timeout function. */
  datatype Cmd = Start(id: Id) | Stop(id: Id) | SetTime(id: Id, ticks: Tick) | SetPeriodic(id: Id, on: bool)

  /** What each timer's timeout function does during one check. */
  type Script = map<Id, seq<Cmd>>

  // ----- Lists of timers

  predicate Known(q: seq<Id>, ts: map<Id, Timer>) {
    forall x :: x in q ==> x in ts
  }

  predicate Sorted(q: seq<Id>, ts: map<Id, Timer>)
    requires Known(q, ts)
  {
    forall i, j :: 0 <= i < j < |q| ==> ts[q[i]].due <= ts[q[j]].due
  }

  /** The elements of q that lie in s, in order. */
  function Keep(q: seq<Id>, s: set<Id>): (r: seq<Id>)
    ensures forall x :: x in r <==> x in q && x in s
  {
    if q == [] then [] else if q[0] in s then [q[0]] + Keep(q[1..], s) else Keep(q[1..], s)
  }

  /** Insertion before the first timer that expires strictly later. */
  function Insert(q: seq<Id>, ts: map<Id, Timer>, x: Id): (r: seq<Id>)
    requires Known(q, ts) && x in ts
    ensures forall y :: y in r <==> y in q || y == x
  {
    if q == [] then [x]
    else if ts[q[0]].due > ts[x].due then [x] + q
    else [q[0]] + Insert(q[1..], ts, x)
  }

  predicate IsSubseq(a: seq<Id>, b: seq<Id>) {
    if a == [] then true
    else b != [] && if a[0] == b[0] then IsSubseq(a[1..], b[1..]) else IsSubseq(a, b[1..])
  }

  // ----- One command

  predicate Ready(s: State, c: Cmd) {
    c.id in s.timers && (c.Start? ==> s.timers[c.id].init < HALF) && Known(s.queue, s.timers)
  }

  function Do(s: State, c: Cmd): (r: State)
    requires Ready(s, c)
    ensures Known(r.queue, r.timers)
  {
    var t := s.timers[c.id];
    match c
    case Start(x) =>
      var ts := s.timers[x := t.(due := s.now + t.init, active := true)];
      s.(timers := ts, queue := Insert(Without(s.queue, x), ts, x))
    case Stop(x) =>
      if !t.active then s
      else s.(timers := s.timers[x := t.(active := false)], queue := Without(s.queue, x))
    case SetTime(x, ticks) => s.(timers := s.timers[x := t.(init := ticks)])
    case SetPeriodic(x, on) => s.(timers := s.timers[x := t.(periodic := on)])
  }

  /** The list is duplicate free, ordered, and lies within half the tick range of now;
      `slack` is 1 between the tick increment and the end of the check that follows it. */
  predicate Inv(s: State, slack: nat) {
    && Known(s.queue, s.timers)
    && NoDup(s.queue)
    && Sorted(s.queue, s.timers)
    && forall x :: x in s.queue ==> s.now - slack <= s.timers[x].due < s.now + HALF
  }

  /** Ordered lists from the front: the head is least, and a least head can be put back. */
  lemma HeadLeast(q: seq<Id>, ts: map<Id, Timer>)
    requires q != [] && NoDup(q) && Known(q, ts) && Sorted(q, ts)
    ensures NoDup(q[1..]) && Sorted(q[1..], ts)
    ensures forall y :: y in q[1..] ==> y in ts && ts[q[0]].due <= ts[y].due && y != q[0]
  {
  }

  lemma ConsOrdered(x: Id, r: seq<Id>, ts: map<Id, Timer>)
    requires x in ts && NoDup(r) && Known(r, ts) && Sorted(r, ts)
    requires forall y :: y in r ==> ts[x].due <= ts[y].due && y != x
    ensures NoDup([x] + r) && Known([x] + r, ts) && Sorted([x] + r, ts)
  {
    assert forall i :: 0 <= i < |r| ==> r[i] in r;
  }

  lemma {:induction false} WithoutOrdered(q: seq<Id>, x: Id, ts: map<Id, Timer>)
    requires NoDup(q) && Known(q, ts) && Sorted(q, ts)
    ensures NoDup(Without(q, x)) && Sorted(Without(q, x), ts)
  {
    if q != [] {
      HeadLeast(q, ts);
      WithoutOrdered(q[1..], x, ts);
      ConsOrdered(q[0], Without(q[1..], x), ts);
    }
  }

  lemma {:induction false} InsertOrdered(q: seq<Id>, ts: map<Id, Timer>, x: Id)
    requires NoDup(q) && Known(q, ts) && x in ts && x !in q && Sorted(q, ts)
    ensures NoDup(Insert(q, ts, x)) && Sorted(Insert(q, ts, x), ts)
  {
    if q == [] {
    } else if ts[q[0]].due > ts[x].due {
      HeadLeast(q, ts);
      assert forall y :: y in q ==> y == q[0] || y in q[1..];
      ConsOrdered(x, q, ts);
    } else {
      HeadLeast(q, ts);
      InsertOrdered(q[1..], ts, x);
      ConsOrdered(q[0], Insert(q[1..], ts, x), ts);
    }
  }

  /** Sortedness only looks at the due times of the listed timers. */
  lemma SortedAgrees(q: seq<Id>, ts: map<Id, Timer>, us: map<Id, Timer>)
    requires Known(q, ts) && Known(q, us)
    requires forall x :: x in q ==> ts[x].due == us[x].due
    requires Sorted(q, ts)
    ensures Sorted(q, us)
  {
  }

  lemma DoKeepsInv(s: State, c: Cmd, slack: nat)
    requires Inv(s, slack) && Ready(s, c)
    ensures Inv(Do(s, c), slack)
  {
    WithoutOrdered(s.queue, c.id, s.timers);
    var r := Do(s, c);
    if c.Start? {
      var q := Without(s.queue, c.id);
      SortedAgrees(q, s.timers, r.timers);
      InsertOrdered(q, r.timers, c.id);
    } else {
      SortedAgrees(r.queue, s.timers, r.timers);
    }
  }

  // ----- The check

  predicate Mentions(script: Script, x: Id) {
    exists h, k :: h in script && 0 <= k < |script[h]| && script[h][k].id == x
  }

  function Commands(script: Script, x: Id): seq<Cmd> {
    if x in script then script[x] else []
  }

  /** The commands can be carried out one after the other: rt_timer_start asserts that the
      delay is below half the tick range, and the timers exist. */
  predicate AllReady(s: State, cs: seq<Cmd>)
    decreases |cs|
  {
    cs == [] || (Ready(s, cs[0]) && AllReady(Do(s, cs[0]), cs[1..]))
  }

  function DoAll(s: State, cs: seq<Cmd>): (r: State)
    requires Inv(s, 1) && AllReady(s, cs)
    ensures Inv(r, 1) && r.timers.Keys == s.timers.Keys && r.now == s.now && r.log == s.log
    decreases |cs|
  {
    if cs == [] then s
    else
      DoKeepsInv(s, cs[0], 1);
      DoAll(Do(s, cs[0]), cs[1..])
  }

  predicate HeadDue(s: State)
    requires Known(s.queue, s.timers)
  {
    s.queue != [] && (assert s.queue[0] in s.queue; s.timers[s.queue[0]].due <= s.now)
  }

  /** The head is unlinked and logged before its timeout function runs. */
  function Unlinked(s: State): (r: State)
    requires Inv(s, 1) && HeadDue(s)
    ensures Inv(r, 1)
  {
    var h := s.queue[0];
    assert h in s.queue;
    WithoutOrdered(s.queue, h, s.timers);
    s.(queue := Without(s.queue, h), log := s.log + [Firing(h, s.timers[h].due, s.now)])
  }

  predicate CanRestart(s: State, h: Id) {
    h in s.timers && (s.timers[h].periodic && s.timers[h].active ==> s.timers[h].init < HALF)
  }

  /** After the timeout function: a timer that is periodic and still active starts again. */
  function Restart(s: State, h: Id): (r: State)
    requires Inv(s, 1) && CanRestart(s, h)
    ensures Inv(r, 1) && r.timers.Keys == s.timers.Keys && r.now == s.now && r.log == s.log
  {
    var t := s.timers[h];
    var idle := s.(timers := s.timers[h := t.(active := false)]);
    SortedAgrees(s.queue, s.timers, idle.timers);
    if t.periodic && t.active then
      DoKeepsInv(idle, Start(h), 1);
      Do(idle, Start(h))
    else idle
  }

  /** Firing the head trips no assertion of rt_timer_start. */
  predicate CanFire(s: State, script: Script)
    requires Inv(s, 1) && HeadDue(s)
  {
    var cs := Commands(script, s.queue[0]);
    AllReady(Unlinked(s), cs) && CanRestart(DoAll(Unlinked(s), cs), s.queue[0])
  }

  /** One iteration of the check loop on an expired head. */
  function Fire(s: State, script: Script): (r: State)
    requires Inv(s, 1) && HeadDue(s) && CanFire(s, script)
    ensures Inv(r, 1) && r.timers.Keys == s.timers.Keys && r.now == s.now
    ensures r.log == s.log + [Firing(s.queue[0], s.timers[s.queue[0]].due, s.now)]
  {
    Restart(DoAll(Unlinked(s), Commands(script, s.queue[0])), s.queue[0])
  }

  /** The check loop comes to its end after at most `n` firings. */
  predicate EndsIn(s: State, script: Script, n: nat)
    requires Inv(s, 1)
    decreases n
  {
    HeadDue(s) ==> n > 0 && CanFire(s, script) && EndsIn(Fire(s, script), script, n - 1)
  }

  ghost predicate Ends(s: State, script: Script)
    requires Inv(s, 1)
  {
    exists n: nat :: EndsIn(s, script, n)
  }

  function CheckIn(s: State, script: Script, n: nat): (r: State)
    requires Inv(s, 1) && EndsIn(s, script, n)
    ensures Inv(r, 1) && !HeadDue(r) && r.timers.Keys == s.timers.Keys && r.now == s.now
    decreases n
  {
    if HeadDue(s) then CheckIn(Fire(s, script), script, n - 1) else s
  }

  ghost function Firings(s: State, script: Script): (n: nat)
    requires Inv(s, 1) && Ends(s, script)
    ensures EndsIn(s, script, n)
  {
    var n: nat :| EndsIn(s, script, n); n
  }

  /** rt_timer_check, whenever it ends. */
  ghost function CheckAll(s: State, script: Script): (r: State)
    requires Inv(s, 1) && Ends(s, script)
    ensures Inv(r, 1) && !HeadDue(r) && r.timers.Keys == s.timers.Keys && r.now == s.now
  {
    CheckIn(s, script, Firings(s, script))
  }

  /** The bound on the firings does not matter. */
  lemma {:induction false} CheckInSame(s: State, script: Script, n: nat, m: nat)
    requires Inv(s, 1) && EndsIn(s, script, n) && EndsIn(s, script, m)
    ensures CheckIn(s, script, n) == CheckIn(s, script, m)
    decreases n
  {
    if HeadDue(s) { CheckInSame(Fire(s, script), script, n - 1, m - 1); }
  }

  /** What the check comes to: fire the head while it has expired. */
  lemma CheckUnfolds(s: State, script: Script)
    requires Inv(s, 1) && Ends(s, script)
    ensures !HeadDue(s) ==> CheckAll(s, script) == s
    ensures HeadDue(s) ==>
      CanFire(s, script) && Ends(Fire(s, script), script) && CheckAll(s, script) == CheckAll(Fire(s, script), script)
  {
    var n := Firings(s, script);
    if HeadDue(s) {
      var f := Fire(s, script);
      assert EndsIn(f, script, n - 1);
      CheckInSame(f, script, n - 1, Firings(f, script));
    }
  }

  // ----- Whole runs: commands from threads, and ticks

  datatype Event = Command(c: Cmd) | Tick(script: Script)

  function Ticked(s: State): State {
    s.(now := s.now + 1)
  }

  /** A command must be ready; the check of a tick must end. */
  ghost predicate Allowed(s: State, e: Event)
    requires Inv(s, 0)
  {
    match e
    case Command(c) => Ready(s, c)
    case Tick(script) => Ends(Ticked(s), script)
  }

  ghost function Step(s: State, e: Event): (r: State)
    requires Inv(s, 0) && Allowed(s, e)
    ensures Inv(r, 0)
    ensures r.now == if e.Tick? then s.now + 1 else s.now
  {
    match e
    case Command(c) => DoKeepsInv(s, c, 0); Do(s, c)
    case Tick(script) =>
      var r := CheckAll(Ticked(s), script);
      NothingOverdue(r);
      r
  }

  ghost predicate Legal(s: State, es: seq<Event>)
    requires Inv(s, 0)
    decreases |es|
  {
    es == [] || (Allowed(s, es[0]) && Legal(Step(s, es[0]), es[1..]))
  }

  ghost function Run(s: State, es: seq<Event>): (r: State)
    requires Inv(s, 0) && Legal(s, es)
    ensures Inv(r, 0)
    decreases |es|
  {
    if es == [] then s else Run(Step(s, es[0]), es[1..])
  }

  /** Once the head is in the future, so is every linked timer. */
  lemma NothingOverdue(s: State)
    requires Inv(s, 1) && !HeadDue(s)
    ensures forall x :: x in s.queue ==> s.timers[x].due > s.now
    ensures Inv(s, 0)
  {
    forall x | x in s.queue ensures s.timers[x].due > s.now {
      var i :| 0 <= i < |s.queue| && s.queue[i] == x;
      assert s.queue[0] in s.queue;
    }
  }

  // ----- Never early, at most one check late, in expiry order

  predicate Timely(s: State) {
    && (forall e :: e in s.log ==> e.due <= e.at <= e.due + 1 && e.at <= s.now)
    && (forall i, j :: 0 <= i < j < |s.log| ==>
          s.log[i].at < s.log[j].at || (s.log[i].at == s.log[j].at && s.log[i].due <= s.log[j].due))
  }

  /** What has fired in the check under way expired no later than anything still linked. */
  predicate InOrder(s: State)
    requires Known(s.queue, s.timers)
  {
    forall e, x :: e in s.log && e.at == s.now && x in s.queue ==> e.due <= s.timers[x].due
  }

  lemma DoKeepsOrder(s: State, c: Cmd)
    requires Ready(s, c) && Timely(s) && InOrder(s)
    ensures InOrder(Do(s, c)) && Timely(Do(s, c))
  {
  }

  lemma {:induction false} DoAllKeepsOrder(s: State, cs: seq<Cmd>)
    requires Inv(s, 1) && AllReady(s, cs) && Timely(s) && InOrder(s)
    ensures Timely(DoAll(s, cs)) && InOrder(DoAll(s, cs))
    decreases |cs|
  {
    if cs != [] {
      DoKeepsInv(s, cs[0], 1);
      DoKeepsOrder(s, cs[0]);
      DoAllKeepsOrder(Do(s, cs[0]), cs[1..]);
    }
  }

  lemma UnlinkedKeepsOrder(s: State)
    requires Inv(s, 1) && HeadDue(s) && Timely(s) && InOrder(s)
    ensures Timely(Unlinked(s)) && InOrder(Unlinked(s))
  {
    var h := s.queue[0];
    assert h in s.queue;
    forall x | x in Without(s.queue, h) ensures s.timers[h].due <= s.timers[x].due {
      assert x in s.queue;
    }
  }

  lemma FireKeepsOrder(s: State, script: Script)
    requires Inv(s, 1) && HeadDue(s) && CanFire(s, script) && Timely(s) && InOrder(s)
    ensures Timely(Fire(s, script)) && InOrder(Fire(s, script))
  {
    var h, u := s.queue[0], Unlinked(s);
    UnlinkedKeepsOrder(s);
    DoAllKeepsOrder(u, Commands(script, h));
    RestartKeepsOrder(DoAll(u, Commands(script, h)), h);
  }

  lemma RestartKeepsOrder(s: State, h: Id)
    requires Inv(s, 1) && CanRestart(s, h) && Timely(s) && InOrder(s)
    ensures Timely(Restart(s, h)) && InOrder(Restart(s, h))
  {
  }

  lemma {:induction false} CheckKeepsOrder(s: State, script: Script, n: nat)
    requires Inv(s, 1) && EndsIn(s, script, n) && Timely(s) && InOrder(s)
    ensures Timely(CheckIn(s, script, n))
    decreases n
  {
    if HeadDue(s) {
      FireKeepsOrder(s, script);
      CheckKeepsOrder(Fire(s, script), script, n - 1);
    }
  }

  /** In every run no timer fires early, none fires later than the first check at or after
      its expiry, and firings come in expiry order. */
  lemma {:induction false} EveryFiringTimely(s: State, es: seq<Event>)
    requires Inv(s, 0) && Timely(s) && Legal(s, es)
    ensures Timely(Run(s, es))
    decreases |es|
  {
    if es != [] {
      var e := es[0];
      if e.Tick? {
        assert forall f :: f in s.log ==> f.at < Ticked(s).now;
        CheckKeepsOrder(Ticked(s), e.script, Firings(Ticked(s), e.script));
      }
      EveryFiringTimely(Step(s, e), es[1..]);
    }
  }

  // ----- A timer left alone fires exactly once its time has come

  function FirstFiring(log: seq<Firing>, x: Id): Option<Firing> {
    if log == [] then None else if log[0].id == x then Some(log[0]) else FirstFiring(log[1..], x)
  }

  /** `b` is `a` as far as an untouched, linked timer x is concerned. */
  predicate Untouched(a: State, b: State, x: Id) {
    && x in a.timers && x in b.timers && a.timers[x] == b.timers[x]
    && x in a.queue && x in b.queue
    && a.log <= b.log && FirstFiring(b.log[|a.log|..], x) == None
  }

  lemma {:induction false} FirstFiringConcat(a: seq<Firing>, b: seq<Firing>, x: Id)
    ensures FirstFiring(a + b, x) == if FirstFiring(a, x) == None then FirstFiring(b, x) else FirstFiring(a, x)
  {
    if a == [] {
      assert a + b == b;
    } else {
      assert (a + b)[1..] == a[1..] + b;
      FirstFiringConcat(a[1..], b, x);
    }
  }

  lemma UntouchedTransitive(a: State, b: State, c: State, x: Id)
    requires Untouched(a, b, x) && Untouched(b, c, x)
    ensures Untouched(a, c, x)
  {
    assert c.log[|a.log|..] == b.log[|a.log|..] + c.log[|b.log|..];
    FirstFiringConcat(b.log[|a.log|..], c.log[|b.log|..], x);
  }

  lemma DoLeavesAlone(s: State, c: Cmd, x: Id)
    requires Ready(s, c) && c.id != x && x in s.queue
    ensures Untouched(s, Do(s, c), x)
  {
  }

  predicate Named(cs: seq<Cmd>, x: Id) {
    exists k :: 0 <= k < |cs| && cs[k].id == x
  }

  lemma CommandsNamed(script: Script, h: Id, x: Id)
    requires !Mentions(script, x)
    ensures !Named(Commands(script, h), x)
  {
  }

  lemma {:induction false} DoAllLeavesAlone(s: State, cs: seq<Cmd>, x: Id)
    requires Inv(s, 1) && AllReady(s, cs) && !Named(cs, x) && x in s.queue
    ensures Untouched(s, DoAll(s, cs), x)
    decreases |cs|
  {
    if cs != [] {
      DoKeepsInv(s, cs[0], 1);
      DoLeavesAlone(s, cs[0], x);
      assert !Named(cs[1..], x) by { assert forall k :: 0 <= k < |cs| - 1 ==> cs[1..][k] == cs[k + 1]; }
      DoAllLeavesAlone(Do(s, cs[0]), cs[1..], x);
      UntouchedTransitive(s, Do(s, cs[0]), DoAll(s, cs), x);
    }
  }

  lemma FireLeavesAlone(s: State, script: Script, x: Id)
    requires Inv(s, 1) && HeadDue(s) && CanFire(s, script) && !Mentions(script, x) && x in s.queue && x != s.queue[0]
    ensures Untouched(s, Fire(s, script), x)
  {
    var h := s.queue[0];
    CommandsNamed(script, h, x);
    DoAllLeavesAlone(Unlinked(s), Commands(script, h), x);
    var f := Firing(h, s.timers[h].due, s.now);
    assert Fire(s, script).log[|s.log|..] == [f];
    assert FirstFiring([f], x) == FirstFiring([], x) == None;
  }

  /** Between s and r, x stays linked and silent before `when`, and first fires at `when`. */
  predicate Served(s: State, r: State, x: Id, when: int) {
    && x in s.timers && s.log <= r.log
    && (r.now < when ==> Untouched(s, r, x))
    && (r.now >= when ==> FirstFiring(r.log[|s.log|..], x) == Some(Firing(x, s.timers[x].due, when)))
  }

  lemma ServedLater(s: State, n: State, r: State, x: Id, when: int)
    requires Untouched(s, n, x) && Served(n, r, x, when)
    ensures Served(s, r, x, when)
  {
    if r.now < when {
      UntouchedTransitive(s, n, r, x);
    } else {
      assert r.log[|s.log|..] == n.log[|s.log|..] + r.log[|n.log|..];
      FirstFiringConcat(n.log[|s.log|..], r.log[|n.log|..], x);
    }
  }

  lemma ServedAlready(s: State, n: State, r: State, x: Id, when: int)
    requires Served(s, n, x, when) && when <= n.now <= r.now && n.log <= r.log
    ensures Served(s, r, x, when)
  {
    assert r.log[|s.log|..] == n.log[|s.log|..] + r.log[|n.log|..];
    FirstFiringConcat(n.log[|s.log|..], r.log[|n.log|..], x);
  }

  lemma FireServes(s: State, script: Script)
    requires Inv(s, 1) && HeadDue(s) && CanFire(s, script)
    ensures Served(s, Fire(s, script), s.queue[0], s.now)
  {
    assert s.queue[0] in s.queue;
    assert Fire(s, script).log[|s.log|..] == [Firing(s.queue[0], s.timers[s.queue[0]].due, s.now)];
  }

  /** During one check, whatever the timeout functions do to other timers, an untouched timer
      stays linked if its time has not come, and fires if it has. */
  lemma CheckServes(s: State, script: Script, x: Id)
    requires Inv(s, 1) && Ends(s, script) && !Mentions(script, x) && x in s.queue
    ensures Served(s, CheckAll(s, script), x, Max(s.timers[x].due, s.now))
  {
    CheckInServes(s, script, Firings(s, script), x);
  }

  lemma {:induction false} CheckInServes(s: State, script: Script, n: nat, x: Id)
    requires Inv(s, 1) && EndsIn(s, script, n) && !Mentions(script, x) && x in s.queue
    ensures Served(s, CheckIn(s, script, n), x, Max(s.timers[x].due, s.now))
    decreases n
  {
    if !HeadDue(s) {
      IdleServes(s, x);
    } else if s.queue[0] == x {
      HeadServes(s, script, n);
    } else {
      FireLeavesAlone(s, script, x);
      var f := Fire(s, script);
      CheckInServes(f, script, n - 1, x);
      var r, when := CheckIn(f, script, n - 1), Max(f.timers[x].due, f.now);
      ServedLater(s, f, r, x, when);
      assert CheckIn(s, script, n) == r;
    }
  }

  lemma HeadServes(s: State, script: Script, n: nat)
    requires Inv(s, 1) && EndsIn(s, script, n) && HeadDue(s)
    ensures Served(s, CheckIn(s, script, n), s.queue[0], s.now)
  {
    var f := Fire(s, script);
    FireServes(s, script);
    LogGrows(f, script, n - 1);
    var r := CheckIn(f, script, n - 1);
    ServedAlready(s, f, r, s.queue[0], s.now);
    assert CheckIn(s, script, n) == r;
  }

  lemma IdleServes(s: State, x: Id)
    requires Inv(s, 1) && !HeadDue(s) && x in s.queue
    ensures Served(s, s, x, Max(s.timers[x].due, s.now))
  {
    NothingOverdue(s);
    assert s.log[|s.log|..] == [];
  }

  lemma {:induction false} LogGrows(s: State, script: Script, n: nat)
    requires Inv(s, 1) && EndsIn(s, script, n)
    ensures s.log <= CheckIn(s, script, n).log
    decreases n
  {
    if HeadDue(s) { LogGrows(Fire(s, script), script, n - 1); }
  }

  lemma {:induction false} RunGrows(s: State, es: seq<Event>)
    requires Inv(s, 0) && Legal(s, es)
    ensures s.log <= Run(s, es).log && s.now <= Run(s, es).now
    decreases |es|
  {
    if es != [] {
      if es[0].Tick? { LogGrows(Ticked(s), es[0].script, Firings(Ticked(s), es[0].script)); }
      RunGrows(Step(s, es[0]), es[1..]);
    }
  }

  predicate Ignores(e: Event, x: Id) {
    match e
    case Command(c) => c.id != x
    case Tick(script) => !Mentions(script, x)
  }

  /** Over unbounded time, a linked timer that nobody touches stays linked and silent until
      the first check at or after its true expiry, and fires exactly then. */
  lemma {:induction false} FiresAtFirstCheck(s: State, es: seq<Event>, x: Id)
    requires Inv(s, 0) && Legal(s, es) && x in s.queue
    requires forall e :: e in es ==> Ignores(e, x)
    ensures Served(s, Run(s, es), x, Max(s.timers[x].due, s.now + 1))
    decreases |es|
  {
    if es != [] {
      var e, n, when := es[0], Step(s, es[0]), Max(s.timers[x].due, s.now + 1);
      assert e in es && forall d :: d in es[1..] ==> d in es;
      StepServes(s, e, x);
      if n.now < when {
        assert Max(n.timers[x].due, n.now + 1) == when;
        FiresAtFirstCheck(n, es[1..], x);
        ServedLater(s, n, Run(s, es), x, when);
      } else {
        RunGrows(n, es[1..]);
        ServedAlready(s, n, Run(s, es), x, when);
      }
    }
  }

  lemma StepServes(s: State, e: Event, x: Id)
    requires Inv(s, 0) && Allowed(s, e) && x in s.queue && Ignores(e, x)
    ensures Served(s, Step(s, e), x, Max(s.timers[x].due, s.now + 1))
  {
    if e.Command? {
      DoLeavesAlone(s, e.c, x);
    } else {
      CheckServes(Ticked(s), e.script, x);
    }
  }

  // ----- Subsequences and insertion

  lemma Cons(x: Id, q: seq<Id>, s: set<Id>, y: Id)
    ensures Keep([x] + q, s) == if x in s then [x] + Keep(q, s) else Keep(q, s)
    ensures Without([x] + q, y) == if x != y then [x] + Without(q, y) else Without(q, y)
  {
    assert ([x] + q)[1..] == q;
  }

  lemma {:induction false} KeepWithout(q: seq<Id>, s: set<Id>, x: Id)
    ensures Keep(Without(q, x), s) == Without(Keep(q, s), x)
  {
    if q != [] {
      KeepWithout(q[1..], s, x);
      Cons(q[0], Without(q[1..], x), s, x);
      Cons(q[0], Keep(q[1..], s), s, x);
    }
  }

  lemma {:induction false} KeepAgrees(q: seq<Id>, s: set<Id>, r: set<Id>)
    requires forall x :: x in q ==> (x in s <==> x in r)
    ensures Keep(q, s) == Keep(q, r)
  {
    if q != [] {
      assert q[0] in q && forall x :: x in q[1..] ==> x in q;
      KeepAgrees(q[1..], s, r);
    }
  }

  lemma {:induction false} KeepInsertOut(q: seq<Id>, ts: map<Id, Timer>, x: Id, s: set<Id>)
    requires Known(q, ts) && x in ts && x !in s
    ensures Keep(Insert(q, ts, x), s) == Keep(q, s)
  {
    if q == [] || ts[q[0]].due > ts[x].due {
      Cons(x, q, s, x);
    } else {
      KeepInsertOut(q[1..], ts, x, s);
      Cons(q[0], Insert(q[1..], ts, x), s, x);
    }
  }

  lemma {:induction false} KeepInsertIn(q: seq<Id>, ts: map<Id, Timer>, x: Id, s: set<Id>)
    requires Known(q, ts) && x in ts && x in s && Sorted(q, ts)
    ensures Keep(Insert(q, ts, x), s) == Insert(Keep(q, s), ts, x)
  {
    if q == [] || ts[q[0]].due > ts[x].due {
      Cons(x, q, s, x);
      var k := Keep(q, s);
      if k != [] {
        assert k[0] in k && k[0] in q;
        assert ts[q[0]].due <= ts[k[0]].due;
      }
    } else {
      KeepInsertIn(q[1..], ts, x, s);
      Cons(q[0], Insert(q[1..], ts, x), s, x);
      if q[0] in s {
        assert ([q[0]] + Keep(q[1..], s))[1..] == Keep(q[1..], s);
      }
    }
  }

  lemma {:induction false} SubseqReflexive(a: seq<Id>)
    ensures IsSubseq(a, a)
  {
    if a != [] { SubseqReflexive(a[1..]); }
  }

  lemma {:induction false} SubseqExtend(a: seq<Id>, b: seq<Id>)
    requires IsSubseq(a, b)
    ensures forall x :: IsSubseq(a, [x] + b)
    decreases |a| + |b|
  {
    forall x ensures IsSubseq(a, [x] + b) {
      assert ([x] + b)[1..] == b;
      if a != [] && a[0] == x {
        SubseqDrop(a, b);
      }
    }
  }

  lemma {:induction false} SubseqDrop(a: seq<Id>, b: seq<Id>)
    requires IsSubseq(a, b) && a != []
    ensures IsSubseq(a[1..], b)
    decreases |b|
  {
    if a[0] == b[0] {
      if |a| > 1 && a[1] == b[0] { SubseqDrop(a[1..], b[1..]); }
    } else {
      SubseqDrop(a, b[1..]);
      if |a| > 1 && a[1] == b[0] { SubseqDrop(a[1..], b[1..]); }
    }
  }

  lemma {:induction false} SubseqTransitive(a: seq<Id>, b: seq<Id>, c: seq<Id>)
    requires IsSubseq(a, b) && IsSubseq(b, c)
    ensures IsSubseq(a, c)
    decreases |b| + |c|
  {
    if a != [] {
      if b[0] == c[0] {
        if a[0] == b[0] {
          SubseqTransitive(a[1..], b[1..], c[1..]);
        } else {
          SubseqTransitive(a, b[1..], c[1..]);
        }
      } else {
        SubseqTransitive(a, b, c[1..]);
        assert IsSubseq(a, c[1..]);
        SubseqExtend(a, c[1..]);
        assert [c[0]] + c[1..] == c;
      }
    }
  }

  lemma {:induction false} SubseqWithout(q: seq<Id>, x: Id)
    ensures IsSubseq(Without(q, x), q)
  {
    if q != [] {
      SubseqWithout(q[1..], x);
      assert ([q[0]] + Without(q[1..], x))[1..] == Without(q[1..], x);
      if q[0] == x {
        SubseqExtend(Without(q[1..], x), q[1..]);
        assert [q[0]] + q[1..] == q;
      }
    }
  }

  lemma {:induction false} SubseqKeep(q: seq<Id>, s: set<Id>)
    ensures IsSubseq(Keep(q, s), q)
  {
    if q != [] {
      SubseqKeep(q[1..], s);
      assert ([q[0]] + Keep(q[1..], s))[1..] == Keep(q[1..], s);
      if q[0] !in s {
        SubseqExtend(Keep(q[1..], s), q[1..]);
        assert [q[0]] + q[1..] == q;
      }
    }
  }
}
