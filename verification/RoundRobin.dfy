// Time slicing between equally urgent threads: src/clock.c, rt_tick_increase, over the
// scheduler of src/scheduler.c.
module RoundRobin {
  import opened Lists
  import opened WaitGate
  import opened Bitmap
  import opened Scheduler

  /** An unlocked, settled scheduler whose threads all have time left. */
  ghost predicate Settled(s: State) {
    && Inv(s) && s.lock == 0 && s.threads[s.current].stat == Running
    && (forall t :: t in s.threads && s.threads[t].stat == Ready ==> s.threads[s.current].prio <= s.threads[t].prio)
    && (forall t :: t in s.threads ==> s.threads[t].slice >= 1 && s.threads[t].left >= 1)
  }

  /** The threads waiting at the running thread's priority. */
  function Peers(s: State): seq<Tid>
    requires s.current in s.threads && s.threads[s.current].prio < |s.lists|
  {
    s.lists[s.threads[s.current].prio]
  }

  /** The ticks left to the first `k` threads of `q`. */
  function TimeOf(threads: map<Tid, Thread>, q: seq<Tid>, k: nat): int
    requires k <= |q| && forall i :: 0 <= i < |q| ==> q[i] in threads
  {
    if k == 0 then 0 else TimeOf(threads, q, k - 1) + threads[q[k - 1]].left
  }

  ghost predicate PeersKnown(s: State) {
    && s.current in s.threads && s.threads[s.current].prio < |s.lists|
    && forall i :: 0 <= i < |Peers(s)| ==> Peers(s)[i] in s.threads && Peers(s)[i] != s.current
  }

  lemma SettledPeers(s: State)
    requires Settled(s)
    ensures PeersKnown(s)
  {
    var q := Peers(s);
    forall i | 0 <= i < |q| ensures q[i] in s.threads && q[i] != s.current { assert q[i] in q; }
  }

  /** What the current thread has left, plus those ahead of position `k`. */
  ghost function Wait(s: State, k: nat): int
    requires PeersKnown(s) && k <= |Peers(s)|
  {
    s.threads[s.current].left + TimeOf(s.threads, Peers(s), k)
  }

  lemma {:induction false} TimePositive(threads: map<Tid, Thread>, q: seq<Tid>, k: nat)
    requires k <= |q| && forall i :: 0 <= i < |q| ==> q[i] in threads && threads[q[i]].left >= 1
    ensures TimeOf(threads, q, k) >= k
  {
    if k > 0 { TimePositive(threads, q, k - 1); }
  }

  lemma {:induction false} SameTime(threads: map<Tid, Thread>, threads': map<Tid, Thread>, q: seq<Tid>, k: nat)
    requires k <= |q| && forall i :: 0 <= i < |q| ==> q[i] in threads && q[i] in threads'
    requires forall i :: 0 <= i < k ==> threads[q[i]].left == threads'[q[i]].left
    ensures TimeOf(threads, q, k) == TimeOf(threads', q, k)
  {
    if k > 0 { SameTime(threads, threads', q, k - 1); }
  }

  /** Rotating the queue shifts the sum by its first member. */
  lemma {:induction false} RotatedTime(threads: map<Tid, Thread>, q: seq<Tid>, last: Tid, k: nat)
    requires 0 < k <= |q| && last in threads && forall i :: 0 <= i < |q| ==> q[i] in threads
    ensures TimeOf(threads, q, k) == threads[q[0]].left + TimeOf(threads, q[1..] + [last], k - 1)
  {
    var r := q[1..] + [last];
    assert forall i :: 0 <= i < |r| ==> r[i] == if i < |q| - 1 then q[i + 1] else last;
    if k > 1 { RotatedTime(threads, q, last, k - 1); }
  }

  // ----- One tick

  /** Within a slice only the current thread's time changes. */
  lemma TickWithinSlice(s: State)
    requires Settled(s) && s.threads[s.current].left > 1
    ensures var s' := TickStep(s);
      && Settled(s') && PeersKnown(s) && PeersKnown(s')
      && s'.current == s.current && Peers(s') == Peers(s)
      && forall k: nat :: k <= |Peers(s)| ==> Wait(s', k) == Wait(s, k) - 1
  {
    TickInv(s);
    var s' := TickStep(s);
    SettledPeers(s);
    SettledPeers(s');
    forall k: nat | k <= |Peers(s)| ensures Wait(s', k) == Wait(s, k) - 1 {
      SameTime(s.threads, s'.threads, Peers(s), k);
    }
  }

  /** The state in which rt_schedule is called at the end of a slice. */
  function SliceOver(s: State): State
    requires s.current in s.threads
  {
    var c := s.threads[s.current];
    s.(threads := s.threads[s.current := c.(left := c.slice, yielding := true)])
  }

  /** At the end of a slice the head of the queue runs and the old thread goes to the back. */
  lemma SliceEnd(s: State)
    requires Settled(s) && s.threads[s.current].left == 1 && Peers(s) != []
    ensures var s', q := TickStep(s), Peers(s);
      && s'.current == q[0] && s'.current in s'.threads && s'.threads[q[0]].prio == s.threads[s.current].prio
      && |s'.lists| == |s.lists| && s'.lock == 0
      && s'.lists[s.threads[s.current].prio] == q[1..] + [s.current]
      && s'.threads.Keys == s.threads.Keys
      && (forall t :: t in s.threads && t != s.current ==> s'.threads[t].left == s.threads[t].left)
      && s'.threads[s.current].left == s.threads[s.current].slice
      && (forall t :: t in s.threads ==> s'.threads[t].slice == s.threads[t].slice)
  {
    var s1 := SliceOver(s);
    var p, q := s.threads[s.current].prio, Peers(s);
    ListsKept(s.lists, s.threads, s1.threads);
    assert Inv(s1);
    LookupIsHead(s1);
    assert q[0] in q;
    assert q[0] in s1.threads && s1.threads[q[0]].stat == Ready;
    assert Lowest(s1.ready) == p && Highest(s1) == q[0];
    assert s.current !in q;
    SwitchLists(s1, q[0]);
  }

  /** The switch itself, on the list of a yielding thread. */
  lemma SwitchLists(s: State, to: Tid)
    requires Inv(s) && s.threads[s.current].stat == Running && Peers(s) != [] && to == Peers(s)[0]
    requires to in s.threads && s.threads[to].stat == Ready && s.threads[to].prio == s.threads[s.current].prio
    ensures Fits(s, s.current) && Fits(Displace(s, to), to)
    ensures var s' := Dispatch(Displace(s, to), to);
      && s'.current == to && s'.threads.Keys == s.threads.Keys && |s'.lists| == |s.lists| && s'.lock == s.lock
      && s'.lists[s.threads[to].prio] == Peers(s)[1..] + [s.current]
      && (forall t :: t in s.threads ==>
           s'.threads[t].left == s.threads[t].left && s'.threads[t].slice == s.threads[t].slice && s'.threads[t].prio == s.threads[t].prio)
  {
    var q := Peers(s);
    DisplaceQueues(s, to);
    var s1 := Displace(s, to);
    assert s1.lists[s.threads[to].prio] == q + [s.current];
    assert (q + [s.current])[0] == to;
    assert NoDup(q + [s.current]);
    WithoutHead(q + [s.current]);
    assert (q + [s.current])[1..] == q[1..] + [s.current];
  }

  lemma SliceEndSettled(s: State)
    requires Settled(s) && s.threads[s.current].left == 1 && Peers(s) != []
    ensures Settled(TickStep(s))
  {
    SliceEnd(s);
    TickInv(s);
    var s1 := SliceOver(s);
    ListsKept(s.lists, s.threads, s1.threads);
    RescheduleBest(s1);
  }

  lemma TickAtSliceEnd(s: State)
    requires Settled(s) && s.threads[s.current].left == 1 && Peers(s) != []
    ensures var s' := TickStep(s);
      && Settled(s') && PeersKnown(s) && PeersKnown(s') && s'.current == Peers(s)[0]
      && Peers(s') == Peers(s)[1..] + [s.current]
      && forall k: nat :: 0 < k <= |Peers(s)| ==> Wait(s', k - 1) == Wait(s, k) - 1
  {
    var s', q := TickStep(s), Peers(s);
    SliceEnd(s);
    SettledPeers(s);
    SliceEndSettled(s);
    SettledPeers(s');
    forall k: nat | 0 < k <= |q| ensures Wait(s', k - 1) == Wait(s, k) - 1 {
      RotatedTime(s'.threads, q, s.current, k);
      SameTime(s.threads, s'.threads, q, k);
    }
  }

  /** After one tick the thread at position `k` runs, or is still waiting, one tick closer. */
  lemma OneTick(s: State, k: nat) returns (k': nat)
    requires Settled(s) && PeersKnown(s) && k < |Peers(s)|
    ensures var s', x := TickStep(s), Peers(s)[k];
      && Wait(s, k) > 0 && x != s.current
      && (Wait(s, k) == 1 ==> s'.current == x)
      && (Wait(s, k) > 1 ==>
           && Settled(s') && PeersKnown(s') && k' < |Peers(s')| && Peers(s')[k'] == x
           && Wait(s', k') == Wait(s, k) - 1)
  {
    var q := Peers(s);
    TimePositive(s.threads, q, k);
    if s.threads[s.current].left > 1 {
      TickWithinSlice(s);
      k' := k;
    } else {
      TickAtSliceEnd(s);
      k' := if k > 0 then k - 1 else 0;
    }
  }

  // ----- Runs of ticks

  ghost function Ticks(s: State, n: nat): State
    requires Inv(s)
    decreases n
  {
    if n == 0 then s else
      TickInv(s);
      Ticks(TickStep(s), n - 1)
  }

  /** The thread at position `k` of the running thread's queue starts to run after exactly the
      ticks left to the current thread and to those ahead of it, and not before. */
  lemma {:induction false} RunsInTurn(s: State, k: nat)
    requires Settled(s) && PeersKnown(s) && k < |Peers(s)|
    ensures Wait(s, k) > 0 && Ticks(s, Wait(s, k)).current == Peers(s)[k]
    ensures forall n: nat :: n < Wait(s, k) ==> Ticks(s, n).current != Peers(s)[k]
    decreases Wait(s, k)
  {
    var x, w := Peers(s)[k], Wait(s, k);
    var k' := OneTick(s, k);
    TickInv(s);
    if w > 1 { RunsInTurn(TickStep(s), k'); }
    forall n: nat | n < w ensures Ticks(s, n).current != x {
      if n > 0 { assert Ticks(s, n) == Ticks(TickStep(s), n - 1); }
    }
  }
}
