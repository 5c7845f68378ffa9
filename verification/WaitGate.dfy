// Threads waiting for units of a resource (mails, messages, free slots, blocks): the suspend
// list of an IPC object in src/ipc.c, and the threads already resumed but not yet run.
module WaitGate {
  import opened Lists
  import opened Numbers

  type Tid = nat

  /** RT_IPC_FLAG_FIFO and RT_IPC_FLAG_PRIO; the memory pool pushes at the front instead. */
  datatype Order = Fifo | Prio(urgency: Tid -> nat) | Lifo

  /** `woken` holds the threads resumed without error that have not run since. */
  datatype Gate = Gate(waiting: seq<Tid>, woken: set<Tid>)

  predicate Inside(g: Gate, t: Tid) {
    t in g.waiting || t in g.woken
  }

  /** No lost wakeup: if anyone waits, every available unit is already promised to a woken
      thread. */
  predicate Sound(avail: nat, g: Gate) {
    && NoDup(g.waiting) && (forall t :: t in g.waiting ==> t !in g.woken)
    && (g.waiting != [] ==> avail <= |g.woken|)
  }

  // ----- The suspend list

  /** rt_ipc_list_suspend: before the first less urgent waiter, or at the end. */
  function Suspend(q: seq<Tid>, order: Order, t: Tid): (r: seq<Tid>)
    ensures forall x :: x in r <==> x in q || x == t
  {
    match order
    case Lifo => [t] + q
    case Fifo => q + [t]
    case Prio(urgency) => ByUrgency(q, urgency, t)
  }

  function ByUrgency(q: seq<Tid>, urgency: Tid -> nat, t: Tid): (r: seq<Tid>)
    ensures forall x :: x in r <==> x in q || x == t
  {
    if q == [] then [t]
    else if urgency(t) < urgency(q[0]) then [t] + q
    else [q[0]] + ByUrgency(q[1..], urgency, t)
  }

  lemma {:induction false} ByUrgencyNoDup(q: seq<Tid>, urgency: Tid -> nat, t: Tid)
    requires NoDup(q) && t !in q
    ensures NoDup(ByUrgency(q, urgency, t))
  {
    if q != [] && urgency(t) >= urgency(q[0]) {
      ByUrgencyNoDup(q[1..], urgency, t);
      var r := ByUrgency(q[1..], urgency, t);
      assert forall x :: x in r ==> x in q[1..] || x == t;
      assert forall i :: 0 <= i < |r| ==> r[i] in r;
    }
  }

  lemma SuspendNoDup(q: seq<Tid>, order: Order, t: Tid)
    requires NoDup(q) && t !in q
    ensures NoDup(Suspend(q, order, t))
  {
    if order.Prio? { ByUrgencyNoDup(q, order.urgency, t); }
  }

  /** By priority: the list stays ordered by urgency, and equally urgent threads stay in
      arrival order, since the newcomer goes behind every waiter that is not less urgent. */
  predicate Ranked(q: seq<Tid>, urgency: Tid -> nat) {
    forall i, j :: 0 <= i < j < |q| ==> urgency(q[i]) <= urgency(q[j])
  }

  /** The first position with a less urgent waiter. */
  function Place(q: seq<Tid>, urgency: Tid -> nat, t: Tid): (k: nat)
    ensures k <= |q|
  {
    if q == [] || urgency(t) < urgency(q[0]) then 0 else 1 + Place(q[1..], urgency, t)
  }

  lemma {:induction false} PlaceSplits(q: seq<Tid>, urgency: Tid -> nat, t: Tid)
    requires Ranked(q, urgency)
    ensures var k := Place(q, urgency, t);
      && ByUrgency(q, urgency, t) == q[..k] + [t] + q[k..]
      && (forall i :: 0 <= i < k ==> urgency(q[i]) <= urgency(t))
      && (forall i :: k <= i < |q| ==> urgency(t) < urgency(q[i]))
  {
    PlaceBounds(q, urgency, t);
    PlaceUnique(q, urgency, t, Place(q, urgency, t));
  }

  lemma {:induction false} PlaceBounds(q: seq<Tid>, urgency: Tid -> nat, t: Tid)
    requires Ranked(q, urgency)
    ensures var k := Place(q, urgency, t);
      && (forall i :: 0 <= i < k ==> urgency(q[i]) <= urgency(t))
      && (forall i :: k <= i < |q| ==> urgency(t) < urgency(q[i]))
  {
    if q != [] {
      var r := q[1..];
      assert forall i :: 1 <= i < |q| ==> q[i] == r[i - 1];
      if urgency(t) >= urgency(q[0]) { PlaceBounds(r, urgency, t); }
    }
  }

  lemma SuspendRanked(q: seq<Tid>, urgency: Tid -> nat, t: Tid)
    requires Ranked(q, urgency)
    ensures var r, k := Suspend(q, Prio(urgency), t), Place(q, urgency, t);
      && Ranked(r, urgency) && r == q[..k] + [t] + q[k..]
      && (forall i :: 0 <= i < k ==> urgency(q[i]) <= urgency(t))
      && (forall i :: k <= i < |q| ==> urgency(t) < urgency(q[i]))
  {
    PlaceSplits(q, urgency, t);
    var r, k := Suspend(q, Prio(urgency), t), Place(q, urgency, t);
    forall i, j | 0 <= i < j < |r| ensures urgency(r[i]) <= urgency(r[j]) {
      assert r[i] == if i < k then q[i] else if i == k then t else q[i - 1];
      assert r[j] == if j < k then q[j] else if j == k then t else q[j - 1];
    }
  }

  /** Thread `t` takes its place in the queue: last for FIFO, first for the memory pool, and by
      priority behind everyone at least as urgent, in front of everyone less urgent. */
  ghost predicate Joins(q: seq<Tid>, q': seq<Tid>, order: Order, t: Tid) {
    exists k :: 0 <= k <= |q| && q' == q[..k] + [t] + q[k..] && RightPlace(q, order, t, k)
  }

  predicate RightPlace(q: seq<Tid>, order: Order, t: Tid, k: nat)
    requires k <= |q|
  {
    match order
    case Lifo => k == 0
    case Fifo => k == |q|
    case Prio(u) =>
      Ranked(q, u) ==>
        (forall i :: 0 <= i < k ==> u(q[i]) <= u(t)) && (forall i :: k <= i < |q| ==> u(t) < u(q[i]))
  }

  lemma SuspendJoins(q: seq<Tid>, order: Order, t: Tid)
    ensures Joins(q, Suspend(q, order, t), order, t)
  {
    match order
    case Lifo => assert q[..0] + [t] + q[0..] == [t] + q && RightPlace(q, order, t, 0);
    case Fifo => assert q[..|q|] + [t] + q[|q|..] == q + [t] && RightPlace(q, order, t, |q|);
    case Prio(u) =>
      var k := Place(q, u, t);
      PlaceCuts(q, u, t);
      if Ranked(q, u) { PlaceBounds(q, u, t); }
      assert RightPlace(q, order, t, k);
  }

  lemma {:induction false} PlaceCuts(q: seq<Tid>, urgency: Tid -> nat, t: Tid)
    ensures var k := Place(q, urgency, t); ByUrgency(q, urgency, t) == q[..k] + [t] + q[k..]
  {
    if q != [] && urgency(t) >= urgency(q[0]) {
      PlaceCuts(q[1..], urgency, t);
      var k := Place(q[1..], urgency, t);
      assert q[1..][k..] == q[k + 1..];
      assert [q[0]] + q[1..][..k] == q[..k + 1];
    }
  }

  // ----- Transitions, each with what it does to an available count

  /** A unit is released: the first waiter, if any, is resumed. */
  function Wake(g: Gate): Gate {
    if g.waiting == [] then g else Gate(g.waiting[1..], g.woken + {g.waiting[0]})
  }

  lemma WakeSound(avail: nat, g: Gate)
    requires Sound(avail, g)
    ensures Sound(avail + 1, Wake(g))
    ensures forall t :: Inside(Wake(g), t) <==> Inside(g, t)
  {
    if g.waiting != [] {
      assert g.waiting[0] in g.waiting;
      assert g.waiting == [g.waiting[0]] + g.waiting[1..];
    }
  }

  /** A unit is released: the thread resumed is the first of the queue, everyone else stays. */
  ghost predicate WakesFirst(g: Gate, g': Gate) {
    if g.waiting == [] then g' == g
    else g.waiting == [g.waiting[0]] + g'.waiting && g'.woken == g.woken + {g.waiting[0]}
  }

  lemma WakeFirst(g: Gate)
    ensures WakesFirst(g, Wake(g))
  {
  }

  /** By priority, no waiter is more urgent than the one that is resumed. */
  lemma WakeMostUrgent(g: Gate, urgency: Tid -> nat)
    requires g.waiting != [] && Ranked(g.waiting, urgency)
    ensures exists t :: t in Wake(g).woken && t in g.waiting && forall x :: x in g.waiting ==> urgency(t) <= urgency(x)
  {
    var t := g.waiting[0];
    forall x | x in g.waiting ensures urgency(t) <= urgency(x) {
      var i :| 0 <= i < |g.waiting| && g.waiting[i] == x;
    }
    assert t in Wake(g).woken && t in g.waiting;
  }

  /** A thread finds nothing available and suspends, for the first time or again. */
  function Block(g: Gate, order: Order, t: Tid): Gate {
    Gate(Suspend(g.waiting, order, t), g.woken - {t})
  }

  lemma BlockSound(g: Gate, order: Order, t: Tid)
    requires Sound(0, g) && t !in g.waiting
    ensures Sound(0, Block(g, order, t))
    ensures forall x :: Inside(Block(g, order, t), x) <==> Inside(g, x) || x == t
  {
    SuspendNoDup(g.waiting, order, t);
  }

  /** A woken thread runs and leaves the gate. */
  function Leave(g: Gate, t: Tid): Gate {
    g.(woken := g.woken - {t})
  }

  /** A unit is taken: by a woken thread (which leaves) or by one that never waited. */
  lemma TakeSound(avail: nat, g: Gate, t: Tid)
    requires Sound(avail, g) && avail > 0 && t !in g.waiting
    ensures Sound(avail - 1, Leave(g, t))
  {
    if t in g.woken { assert |g.woken| == |g.woken - {t}| + 1; } else { assert g.woken - {t} == g.woken; }
  }

  lemma GiveUpSound(g: Gate, t: Tid)
    requires Sound(0, g)
    ensures Sound(0, Leave(g, t))
  {
  }

  /** A waiter's timer expires. */
  function Expire(g: Gate, t: Tid): Gate {
    g.(waiting := Without(g.waiting, t))
  }

  lemma ExpireSound(avail: nat, g: Gate, t: Tid)
    requires Sound(avail, g)
    ensures Sound(avail, Expire(g, t))
    ensures forall x :: Inside(Expire(g, t), x) ==> Inside(g, x)
  {
    WithoutNoDup(g.waiting, t);
  }

  /** rt_ipc_list_resume_all: every waiter is resumed with an error. */
  function Flush(g: Gate): Gate {
    g.(waiting := [])
  }

  lemma FlushSound(avail: nat, g: Gate)
    ensures Sound(avail, Flush(g))
  {
  }

  /** Thread `t`, if it was woken, has left; or it has gone to sleep, or its timer has run out. */
  ghost predicate Departs(g: Gate, g': Gate, t: Tid) { g'.waiting == g.waiting && g'.woken == g.woken - {t} }

  ghost predicate Sleeps(g: Gate, g': Gate, order: Order, t: Tid) {
    Joins(g.waiting, g'.waiting, order, t) && g'.woken == g.woken - {t}
  }

  ghost predicate Expires(g: Gate, g': Gate, t: Tid) {
    && g'.woken == g.woken
    && if t in g.waiting then Drops(g.waiting, g'.waiting, t) else g'.waiting == g.waiting
  }

  ghost predicate Flushed(g: Gate, g': Gate) { g'.waiting == [] && g'.woken == g.woken }

  lemma BlockSleeps(g: Gate, order: Order, t: Tid)
    ensures Sleeps(g, Block(g, order, t), order, t)
  {
    SuspendJoins(g.waiting, order, t);
  }

  lemma ExpireDrops(g: Gate, t: Tid)
    requires NoDup(g.waiting)
    ensures Expires(g, Expire(g, t), t)
  {
    if t in g.waiting { WithoutDrops(g.waiting, t); } else { WithoutAbsent(g.waiting, t); }
  }

  /** The remaining waiting time after `elapsed` ticks asleep: negative means forever. */
  function Remaining(timeout: int, elapsed: nat): int {
    if timeout <= 0 then timeout else if timeout < elapsed then 0 else timeout - elapsed
  }

  /** Whoever waits forever goes on to do so; otherwise the time asleep counts. */
  function Left(timeout: int, elapsed: nat): int { if timeout < 0 then timeout else Max(0, timeout - elapsed) }

  lemma {:induction false} PlaceUnique(q: seq<Tid>, urgency: Tid -> nat, t: Tid, k: nat)
    requires k <= |q| && (forall i :: 0 <= i < k ==> urgency(t) >= urgency(q[i]))
    requires k < |q| ==> urgency(t) < urgency(q[k])
    ensures ByUrgency(q, urgency, t) == q[..k] + [t] + q[k..]
  {
    if k > 0 {
      var r := q[1..];
      assert forall i :: 0 <= i < |r| ==> r[i] == q[i + 1];
      assert urgency(t) >= urgency(q[0]);
      PlaceUnique(r, urgency, t, k - 1);
      assert r[k - 1..] == q[k..];
      assert [q[0]] + r[..k - 1] == q[..k];
    } else {
      assert q[..0] == [] && q[0..] == q;
    }
  }

  /** The code of rt_ipc_list_suspend. */
  method ListSuspend(q: seq<Tid>, order: Order, t: Tid) returns (r: seq<Tid>)
    ensures r == Suspend(q, order, t)
  {
    match order {
      case Lifo => r := [t] + q;
      case Fifo => r := q + [t];
      case Prio(urgency) =>
        var n := 0;
        while n < |q|
          invariant 0 <= n <= |q|
          invariant forall i :: 0 <= i < n ==> urgency(t) >= urgency(q[i])
        {
          if urgency(t) < urgency(q[n]) {
            break;
          }
          n := n + 1;
        }
        PlaceUnique(q, urgency, t, n);
        r := q[..n] + [t] + q[n..];
    }
  }
}
