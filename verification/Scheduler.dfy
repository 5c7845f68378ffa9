// The uniprocessor scheduler: ready lists per priority with a bitmap over them, thread
// states, preemption and time slices. src/scheduler.c, src/thread.c, src/clock.c.
module Scheduler {
  import opened Lists
  import opened WaitGate
  import opened Bitmap

  datatype Stat = Init | Ready | Suspended | Running

  /** `yielding` is RT_THREAD_STAT_YIELD; `slice` and `left` are init_tick and remaining_tick. */
  datatype Thread = Thread(stat: Stat, initPrio: nat, prio: nat, yielding: bool, slice: nat, left: int)

  datatype State = State(lists: seq<seq<Tid>>, ready: Map, threads: map<Tid, Thread>, current: Tid, lock: int)

  datatype Step =
    | Startup(t: Tid) | ChangePriority(t: Tid, p: nat) | Suspend(t: Tid) | Resume(t: Tid) | Timeout(t: Tid)
    | Schedule | Tick | EnterCritical | ExitCritical

  // ----- Queue operations

  function WithStat(s: State, t: Tid, st: Stat): State
    requires t in s.threads
  {
    s.(threads := s.threads[t := s.threads[t].(stat := st)])
  }

  predicate Fits(s: State, t: Tid) {
    t in s.threads && s.threads[t].prio < |s.lists| && InRange(s.ready.two, s.threads[t].prio) && |s.ready.table| == 32
  }

  /** Appended to the list of its priority, whose mask is set. */
  function Enqueue(s: State, t: Tid): State
    requires Fits(s, t)
  {
    var p := s.threads[t].prio;
    WithStat(s, t, Ready).(lists := s.lists[p := s.lists[p] + [t]], ready := Mark(s.ready, p))
  }

  /** rt_schedule_insert_thread */
  function Insert(s: State, t: Tid): State
    requires Fits(s, t)
  {
    if t == s.current then WithStat(s, t, Running) else Enqueue(s, t)
  }

  /** rt_schedule_remove_thread: the mask is cleared when the list is empty afterwards. */
  function Remove(s: State, t: Tid): State
    requires Fits(s, t)
  {
    var p := s.threads[t].prio;
    var l := Without(s.lists[p], t);
    s.(lists := s.lists[p := l], ready := if l == [] then Unmark(s.ready, p) else s.ready)
  }

  /** _get_highest_priority_thread, when the group is not zero. */
  predicate Found(s: State) {
    |s.ready.table| == 32 && 0 <= Lowest(s.ready) < |s.lists| && s.lists[Lowest(s.ready)] != []
  }

  function Highest(s: State): Tid
    requires Found(s)
  {
    s.lists[Lowest(s.ready)][0]
  }

  // ----- Invariant

  function Busy(lists: seq<seq<Tid>>): set<nat> { set p: nat | p < |lists| && lists[p] != [] }

  /** Ready threads, and only they, stand once in the list of their priority. */
  ghost predicate ListsOk(lists: seq<seq<Tid>>, threads: map<Tid, Thread>) {
    && (forall p: nat :: p < |lists| ==> NoDup(lists[p]))
    && (forall p: nat, t: Tid :: p < |lists| ==>
         (t in lists[p] <==> t in threads && threads[t].stat == Ready && threads[t].prio == p))
  }

  ghost predicate Queues(s: State) {
    && ListsOk(s.lists, s.threads) && Tracks(s.ready, Busy(s.lists))
    && (forall p: nat :: p < |s.lists| ==> InRange(s.ready.two, p))
    && (forall t :: t in s.threads ==> s.threads[t].prio < |s.lists| && s.threads[t].initPrio < |s.lists|)
  }

  /** The current thread is in no list: it runs, or has just suspended itself. */
  ghost predicate Inv(s: State) {
    && Queues(s) && s.lock >= 0
    && s.current in s.threads && (s.threads[s.current].stat == Running || s.threads[s.current].stat == Suspended)
    && (forall t :: t in s.threads && t != s.current ==> s.threads[t].stat != Running)
  }

  lemma EnqueueQueues(s: State, t: Tid)
    requires Queues(s) && t in s.threads && s.threads[t].stat != Ready
    ensures Fits(s, t) && Queues(Enqueue(s, t))
  {
    var p := s.threads[t].prio;
    var s' := Enqueue(s, t);
    assert t !in s.lists[p];
    assert Busy(s'.lists) == Busy(s.lists) + {p};
    MarkTracks(s.ready, Busy(s.lists), p);
  }

  lemma RemoveQueues(s: State, t: Tid, st: Stat)
    requires Queues(s) && t in s.threads && s.threads[t].stat == Ready && st != Ready
    ensures Fits(s, t) && Queues(WithStat(Remove(s, t), t, st))
  {
    var p := s.threads[t].prio;
    var l := Without(s.lists[p], t);
    WithoutNoDup(s.lists[p], t);
    var s' := Remove(s, t);
    if l == [] {
      assert Busy(s'.lists) == Busy(s.lists) - {p};
      UnmarkTracks(s.ready, Busy(s.lists), p);
    } else {
      assert t in s.lists[p];
      assert Busy(s'.lists) == Busy(s.lists);
    }
  }

  /** Removing a thread that is in no list changes nothing. */
  lemma RemoveIdle(s: State, t: Tid)
    requires Queues(s) && t in s.threads && s.threads[t].stat != Ready
    ensures Fits(s, t) && Remove(s, t) == s
  {
    var p := s.threads[t].prio;
    assert t !in s.lists[p];
    WithoutAbsent(s.lists[p], t);
    if s.lists[p] == [] { UnmarkIdle(s.ready, Busy(s.lists), p); }
    assert s.lists[p := s.lists[p]] == s.lists;
  }

  /** The bitmap lookup gives the head of the lowest-numbered non-empty list. */
  lemma LookupIsHead(s: State)
    requires Queues(s)
    ensures s.ready.group == 0 <==> forall p: nat :: p < |s.lists| ==> s.lists[p] == []
    ensures s.ready.group != 0 ==>
      && Found(s) && Highest(s) in s.threads
      && s.threads[Highest(s)].stat == Ready && s.threads[Highest(s)].prio == Lowest(s.ready)
      && forall t :: t in s.threads && s.threads[t].stat == Ready ==> Lowest(s.ready) <= s.threads[t].prio
  {
    var busy := Busy(s.lists);
    LowestTracks(s.ready, busy);
    if s.ready.group == 0 {
      forall p: nat | p < |s.lists| ensures s.lists[p] == [] { assert p !in busy; }
    } else {
      var p: nat := Lowest(s.ready);
      assert p in busy;
      assert s.lists[p][0] in s.lists[p];
      forall t | t in s.threads && s.threads[t].stat == Ready ensures p <= s.threads[t].prio {
        assert t in s.lists[s.threads[t].prio];
        assert s.threads[t].prio in busy;
      }
    }
  }

  lemma NoneReady(s: State)
    requires Queues(s) && forall p: nat :: p < |s.lists| ==> s.lists[p] == []
    ensures forall t :: t in s.threads ==> s.threads[t].stat != Ready
  {
    forall t | t in s.threads ensures s.threads[t].stat != Ready {
      assert t !in s.lists[s.threads[t].prio];
    }
  }

  /** Lists stay right when nobody's readiness and no ready thread's priority changes. */
  lemma ListsKept(lists: seq<seq<Tid>>, threads: map<Tid, Thread>, threads': map<Tid, Thread>)
    requires ListsOk(lists, threads) && threads'.Keys == threads.Keys
    requires forall t :: t in threads ==> (threads[t].stat == Ready <==> threads'[t].stat == Ready)
    requires forall t :: t in threads && threads[t].stat == Ready ==> threads[t].prio == threads'[t].prio
    ensures ListsOk(lists, threads')
  {
  }

  // ----- rt_schedule

  /** The running thread keeps the processor: it is more urgent than every ready one, or as
      urgent and not yielding. */
  predicate Stays(s: State)
    requires s.current in s.threads && |s.ready.table| == 32
  {
    var c, best := s.threads[s.current], Lowest(s.ready);
    c.stat == Running && (c.prio < best || (c.prio == best && !c.yielding))
  }

  ghost function Reschedule(s: State): State
    requires Inv(s)
  {
    LookupIsHead(s);
    if s.lock != 0 || s.ready.group == 0 then s
    else if Stays(s) then
      WithStat(Remove(s, s.current), s.current, Running)
    else
      Dispatch(Displace(s, Highest(s)), Highest(s))
  }

  /** `to` becomes current; the thread it displaces, if still running, goes to the back of its
      list with its yield flag cleared. */
  function Displace(s: State, to: Tid): State
    requires Fits(s, s.current)
  {
    var c := s.threads[s.current];
    if c.stat == Running then
      Insert(s.(threads := s.threads[s.current := c.(yielding := false)], current := to), s.current)
    else s.(current := to)
  }

  function Dispatch(s: State, to: Tid): State
    requires Fits(s, to)
  {
    WithStat(Remove(s, to), to, Running)
  }

  lemma DisplaceQueues(s: State, to: Tid)
    requires Inv(s) && to in s.threads && s.threads[to].stat == Ready
    ensures Fits(s, s.current) && Queues(Displace(s, to)) && Displace(s, to).current == to
    ensures var s' := Displace(s, to);
      && s'.threads.Keys == s.threads.Keys && s'.threads[to] == s.threads[to] && s'.threads[s.current].stat != Running
      && (forall t :: t in s.threads && t != s.current ==> s'.threads[t] == s.threads[t])
      && s'.threads[s.current].prio == s.threads[s.current].prio
  {
    var c := s.threads[s.current];
    if c.stat == Running {
      var s1 := s.(threads := s.threads[s.current := c.(yielding := false)], current := to);
      ListsKept(s.lists, s.threads, s1.threads);
      EnqueueQueues(s1, s.current);
    }
  }

  lemma RescheduleInv(s: State)
    requires Inv(s)
    ensures Inv(Reschedule(s))
  {
    LookupIsHead(s);
    if s.lock == 0 && s.ready.group != 0 {
      if Stays(s) {
        RemoveIdle(s, s.current);
      } else {
        SwitchInv(s, Highest(s));
      }
    }
  }

  lemma SwitchInv(s: State, to: Tid)
    requires Inv(s) && to in s.threads && s.threads[to].stat == Ready
    ensures Fits(s, s.current) && Fits(Displace(s, to), to) && Inv(Dispatch(Displace(s, to), to))
  {
    DisplaceQueues(s, to);
    RemoveQueues(Displace(s, to), to, Running);
  }

  /** An unlocked rt_schedule leaves a running thread and no strictly more urgent ready one;
      an equally urgent current thread is kept unless it was yielding. */
  lemma RescheduleBest(s: State)
    requires Inv(s) && s.lock == 0
    requires s.threads[s.current].stat == Running || exists p: nat :: p < |s.lists| && s.lists[p] != []
    ensures var s' := Reschedule(s);
      && s'.current in s'.threads && s'.threads[s'.current].stat == Running
      && (forall t :: t in s'.threads && s'.threads[t].stat == Ready ==>
           s'.threads[s'.current].prio <= s'.threads[t].prio)
      && (s'.current != s.current ==> s.ready.group != 0 && !Stays(s) && Found(s) && s'.current == Highest(s))
  {
    LookupIsHead(s);
    RescheduleInv(s);
    if s.ready.group != 0 {
      if Stays(s) {
        RemoveIdle(s, s.current);
      } else {
        DisplaceQueues(s, Highest(s));
      }
    } else {
      NoneReady(s);
    }
  }

  // ----- Thread and clock operations

  ghost function ResumeStep(s: State, t: Tid): State
    requires Inv(s) && t in s.threads
  {
    if s.threads[t].stat != Suspended then s else Insert(s, t)
  }

  /** RT_THREAD_CTRL_CHANGE_PRIORITY */
  function Reprioritize(s: State, t: Tid, p: nat): State
    requires Fits(s, t) && p < |s.lists| && InRange(s.ready.two, p)
  {
    if s.threads[t].stat == Ready then
      var s1 := Remove(s, t);
      Insert(s1.(threads := s1.threads[t := s1.threads[t].(prio := p)]), t)
    else s.(threads := s.threads[t := s.threads[t].(prio := p)])
  }

  /** rt_tick_increase, before the timers are looked at. */
  ghost function TickStep(s: State): State
    requires Inv(s)
  {
    var c := s.threads[s.current];
    if c.left - 1 != 0 then s.(threads := s.threads[s.current := c.(left := c.left - 1)])
    else Reschedule(s.(threads := s.threads[s.current := c.(left := c.slice, yielding := true)]))
  }

  ghost predicate Legal(s: State, step: Step) {
    match step
    case Startup(t) => t in s.threads && s.threads[t].stat == Init
    case ChangePriority(t, p) => t in s.threads && p < |s.lists|
    case Suspend(t) => t in s.threads
    case Resume(t) => t in s.threads
    case Timeout(t) => t in s.threads && s.threads[t].stat == Suspended
    case _ => true
  }

  ghost function Do(s: State, step: Step): State
    requires Inv(s) && Legal(s, step)
  {
    match step
    case Startup(t) => StartupStep(s, t)
    case ChangePriority(t, p) => Reprioritize(s, t, p)
    case Suspend(t) => SuspendStep(s, t)
    case Resume(t) => ResumeStep(s, t)
    case Timeout(t) => InsertInv(s, t); Reschedule(Insert(s, t))
    case Schedule => Reschedule(s)
    case Tick => TickStep(s)
    case EnterCritical => s.(lock := s.lock + 1)
    case ExitCritical => if s.lock - 1 <= 0 then Reschedule(s.(lock := 0)) else s.(lock := s.lock - 1)
  }

  ghost function StartupStep(s: State, t: Tid): State
    requires Inv(s) && t in s.threads && s.threads[t].stat == Init
  {
    var s1 := Started(s, t);
    StartedInv(s, t);
    InsertInv(s1, t);
    Reschedule(ResumeStep(s1, t))
  }

  function Started(s: State, t: Tid): State
    requires t in s.threads
  {
    var th := s.threads[t];
    s.(threads := s.threads[t := th.(prio := th.initPrio, stat := Suspended)])
  }

  /** rt_thread_suspend */
  ghost function SuspendStep(s: State, t: Tid): State
    requires Inv(s) && t in s.threads
  {
    if s.threads[t].stat != Ready && s.threads[t].stat != Running then s
    else WithStat(Remove(s, t), t, Suspended)
  }

  lemma InsertInv(s: State, t: Tid)
    requires Inv(s) && t in s.threads && s.threads[t].stat == Suspended
    ensures Fits(s, t) && Inv(Insert(s, t))
  {
    if t == s.current {
      ListsKept(s.lists, s.threads, Insert(s, t).threads);
    } else {
      EnqueueQueues(s, t);
    }
  }

  lemma StartedInv(s: State, t: Tid)
    requires Inv(s) && t in s.threads && s.threads[t].stat == Init
    ensures Inv(Started(s, t))
  {
    ListsKept(s.lists, s.threads, Started(s, t).threads);
  }

  lemma SuspendInv(s: State, t: Tid)
    requires Inv(s) && t in s.threads
    ensures Inv(SuspendStep(s, t))
  {
    if s.threads[t].stat == Ready {
      RemoveQueues(s, t, Suspended);
    } else if s.threads[t].stat == Running {
      RemoveIdle(s, t);
      ListsKept(s.lists, s.threads, SuspendStep(s, t).threads);
    }
  }

  lemma ReprioritizeInv(s: State, t: Tid, p: nat)
    requires Inv(s) && t in s.threads && p < |s.lists|
    ensures Fits(s, t) && Inv(Reprioritize(s, t, p))
  {
    if s.threads[t].stat == Ready {
      RequeueInv(s, t, p);
    } else {
      ListsKept(s.lists, s.threads, Reprioritize(s, t, p).threads);
    }
  }

  lemma RequeueInv(s: State, t: Tid, p: nat)
    requires Inv(s) && t in s.threads && p < |s.lists| && s.threads[t].stat == Ready
    ensures Fits(s, t) && Inv(Reprioritize(s, t, p))
  {
    RemoveQueues(s, t, Suspended);
    var s2 := WithStat(Remove(s, t), t, Suspended);
    var s3 := s2.(threads := s2.threads[t := s2.threads[t].(prio := p)]);
    ListsKept(s2.lists, s2.threads, s3.threads);
    EnqueueQueues(s3, t);
    assert Enqueue(s3, t) == Reprioritize(s, t, p);
  }

  lemma TickInv(s: State)
    requires Inv(s)
    ensures Inv(TickStep(s))
  {
    var c := s.threads[s.current];
    var s1 := s.(threads := s.threads[s.current := c.(left := c.slice, yielding := true)]);
    var s2 := s.(threads := s.threads[s.current := c.(left := c.left - 1)]);
    ListsKept(s.lists, s.threads, s1.threads);
    ListsKept(s.lists, s.threads, s2.threads);
    RescheduleInv(s1);
  }

  /** Every operation keeps lists, bitmap, states and the current thread consistent. */
  lemma StepInv(s: State, step: Step)
    requires Inv(s) && Legal(s, step)
    ensures Inv(Do(s, step))
  {
    match step
    case Startup(t) =>
      StartedInv(s, t);
      InsertInv(Started(s, t), t);
      RescheduleInv(ResumeStep(Started(s, t), t));
    case ChangePriority(t, p) => ReprioritizeInv(s, t, p);
    case Suspend(t) => SuspendInv(s, t);
    case Resume(t) => if s.threads[t].stat == Suspended { InsertInv(s, t); }
    case Timeout(t) => InsertInv(s, t); RescheduleInv(Insert(s, t));
    case Schedule => RescheduleInv(s);
    case Tick => TickInv(s);
    case EnterCritical =>
    case ExitCritical => if s.lock - 1 <= 0 { RescheduleInv(s.(lock := 0)); }
  }

  // ----- What each operation does to threads and lists

  /** All lists but those of the priorities `p` and `q` are the same. */
  ghost predicate OtherLists(s: State, s': State, p: nat, q: nat) {
    && |s'.lists| == |s.lists| && s'.current == s.current && s'.lock == s.lock
    && forall r: nat :: r < |s.lists| && r != p && r != q ==> s'.lists[r] == s.lists[r]
  }

  /** A ready thread leaves its place and goes behind everyone of its new priority; for any other
      thread only the number changes. */
  ghost predicate Reprioritized(s: State, s': State, t: Tid, p: nat)
    requires t in s.threads && s.threads[t].prio < |s.lists| && p < |s.lists|
  {
    var was := s.threads[t].prio;
    && s'.threads == s.threads[t := s.threads[t].(prio := p)] && OtherLists(s, s', was, p)
    && if s.threads[t].stat != Ready then s'.lists == s.lists
       else if was != p then s'.lists[p] == s.lists[p] + [t] && Drops(s.lists[was], s'.lists[was], t)
       else s'.lists[p] != [] && s'.lists[p][|s'.lists[p]| - 1] == t && Drops(s.lists[p], s'.lists[p][..|s'.lists[p]| - 1], t)
  }

  lemma ReprioritizeEffect(s: State, t: Tid, p: nat)
    requires Inv(s) && t in s.threads && p < |s.lists|
    ensures s.threads[t].prio < |s.lists| && Fits(s, t) && Reprioritized(s, Reprioritize(s, t, p), t, p)
    ensures s.threads[t].stat == Ready ==>
      forall q: nat :: q < |s.lists| ==> (t in Reprioritize(s, t, p).lists[q] <==> q == p)
  {
    ReprioritizeInv(s, t, p);
    var was := s.threads[t].prio;
    if s.threads[t].stat == Ready {
      assert t in s.lists[was];
      WithoutDrops(s.lists[was], t);
    }
  }

  /** A suspended thread queues behind everyone of its priority, unless it is the current one,
      which just goes on. */
  ghost predicate Resumed(s: State, s': State, t: Tid)
    requires t in s.threads && s.threads[t].prio < |s.lists|
  {
    var p := s.threads[t].prio;
    && s'.threads == s.threads[t := s.threads[t].(stat := if t == s.current then Running else Ready)]
    && OtherLists(s, s', p, p) && s'.lists[p] == if t == s.current then s.lists[p] else s.lists[p] + [t]
  }

  ghost predicate Paused(s: State, s': State, t: Tid)
    requires t in s.threads && s.threads[t].prio < |s.lists|
  {
    var p := s.threads[t].prio;
    && s'.threads == s.threads[t := s.threads[t].(stat := Suspended)] && OtherLists(s, s', p, p)
    && if s.threads[t].stat == Ready then Drops(s.lists[p], s'.lists[p], t) else s'.lists[p] == s.lists[p]
  }

  lemma PauseEffect(s: State, t: Tid)
    requires Inv(s) && t in s.threads
    ensures s.threads[t].prio < |s.lists|
    ensures var th := s.threads[t];
      if th.stat == Ready || th.stat == Running then Paused(s, SuspendStep(s, t), t) else SuspendStep(s, t) == s
  {
    if s.threads[t].stat == Ready {
      assert t in s.lists[s.threads[t].prio];
      WithoutDrops(s.lists[s.threads[t].prio], t);
    } else if s.threads[t].stat == Running {
      RemoveIdle(s, t);
    }
  }

  // ----- What rt_schedule does

  /** The running thread is more urgent than every ready one, or as urgent and not yielding. */
  ghost predicate Undisputed(s: State)
    requires s.current in s.threads
  {
    var c := s.threads[s.current];
    && c.stat == Running
    && forall u :: u in s.threads && s.threads[u].stat == Ready ==>
         c.prio < s.threads[u].prio || (c.prio == s.threads[u].prio && !c.yielding)
  }

  /** `to` was first of its list and runs now; the thread it displaces, if it was still running,
      has gone to the back of its own list and no longer yields. */
  ghost predicate Switched(s: State, s': State, to: Tid)
    requires s.current in s.threads && to in s.threads
  {
    var c, p := s.threads[s.current], s.threads[to].prio;
    && s'.current == to && to != s.current && s'.lock == s.lock && |s'.lists| == |s.lists| && p < |s.lists|
    && s.lists[p] != [] && s.lists[p][0] == to
    && s'.threads == s.threads[s.current := if c.stat == Running then c.(stat := Ready, yielding := false) else c]
                              [to := s.threads[to].(stat := Running)]
    && forall q: nat :: q < |s.lists| ==>
         s'.lists[q] == (if q == p then s.lists[q][1..] else s.lists[q])
                      + (if q == c.prio && c.stat == Running then [s.current] else [])
  }

  /** Locked, or with nobody ready, or with an undisputed running thread, nothing happens;
      otherwise the first of the most urgent ready threads takes over. */
  ghost predicate Scheduled(s: State, s': State)
    requires s.current in s.threads
  {
    if s.lock != 0 || Undisputed(s) || forall u :: u in s.threads ==> s.threads[u].stat != Ready then s' == s
    else exists to :: to in s.threads && s.threads[to].stat == Ready && Switched(s, s', to)
           && forall u :: u in s.threads && s.threads[u].stat == Ready ==> s.threads[to].prio <= s.threads[u].prio
  }

  lemma ScheduleEffect(s: State)
    requires Inv(s)
    ensures Scheduled(s, Reschedule(s))
  {
    LookupIsHead(s);
    if s.ready.group == 0 {
      NoneReady(s);
    } else if s.lock == 0 {
      var to := Highest(s);
      if Stays(s) {
        RemoveIdle(s, s.current);
        assert Undisputed(s);
      } else {
        SwitchEffect(s, to);
        assert Switched(s, Reschedule(s), to);
      }
    }
  }

  /** Before the switch, a running thread has gone to the back of its list. */
  lemma DisplaceEffect(s: State, to: Tid)
    requires Inv(s) && to in s.threads && s.threads[to].stat == Ready
    ensures Fits(s, s.current)
    ensures var m, c := Displace(s, to), s.threads[s.current];
      && m.current == to && m.lock == s.lock && |m.lists| == |s.lists|
      && m.threads == s.threads[s.current := if c.stat == Running then c.(stat := Ready, yielding := false) else c]
      && forall q: nat :: q < |s.lists| ==>
           m.lists[q] == s.lists[q] + if q == c.prio && c.stat == Running then [s.current] else []
  {
    DisplaceQueues(s, to);
  }

  lemma SwitchEffect(s: State, to: Tid)
    requires Inv(s) && to in s.threads && s.threads[to].stat == Ready && s.lists[s.threads[to].prio] != []
    requires s.lists[s.threads[to].prio][0] == to
    ensures Fits(s, s.current) && Fits(Displace(s, to), to) && Switched(s, Dispatch(Displace(s, to), to), to)
  {
    SwitchInv(s, to);
    DisplaceQueues(s, to);
    DisplaceEffect(s, to);
    var p, m := s.threads[to].prio, Displace(s, to);
    assert m.lists[p][0] == to;
    WithoutHead(m.lists[p]);
    assert m.lists[p][1..] == s.lists[p][1..] + m.lists[p][|s.lists[p]|..];
  }

  /** What an operation itself changes, before it calls rt_schedule, if it does. */
  ghost predicate Direct(s: State, step: Step, m: State)
    requires Inv(s) && Legal(s, step)
  {
    var c := s.threads[s.current];
    match step
    case Startup(t) =>
      Resumed(s.(threads := s.threads[t := s.threads[t].(prio := s.threads[t].initPrio, stat := Suspended)]), m, t)
    case ChangePriority(t, p) => Reprioritized(s, m, t, p)
    case Suspend(t) => if s.threads[t].stat == Ready || s.threads[t].stat == Running then Paused(s, m, t) else m == s
    case Resume(t) => if s.threads[t].stat == Suspended then Resumed(s, m, t) else m == s
    case Timeout(t) => Resumed(s, m, t)
    case Schedule => m == s
    case Tick =>
      m == s.(threads := s.threads[s.current := if c.left == 1 then c.(left := c.slice, yielding := true) else c.(left := c.left - 1)])
    case EnterCritical => m == s.(lock := s.lock + 1)
    case ExitCritical => m == s.(lock := if s.lock == 0 then 0 else s.lock - 1)
  }

  predicate Reschedules(s: State, step: Step)
    requires s.current in s.threads
  {
    match step
    case Startup(_) => true
    case Timeout(_) => true
    case Schedule => true
    case Tick => s.threads[s.current].left == 1
    case ExitCritical => s.lock <= 1
    case _ => false
  }

  /** Every operation changes exactly what it should, and then hands over to the most urgent
      thread if it is one of those that reschedule. */
  lemma StepEffect(s: State, step: Step) returns (m: State)
    requires Inv(s) && Legal(s, step)
    ensures Direct(s, step, m) && m.current in m.threads
    ensures if Reschedules(s, step) then Scheduled(m, Do(s, step)) else Do(s, step) == m
  {
    m := Do(s, step);
    match step
    case Startup(t) => m := StartupEffect(s, t);
    case ChangePriority(t, p) => ReprioritizeEffect(s, t, p);
    case Suspend(t) => PauseEffect(s, t);
    case Resume(t) =>
    case Timeout(t) => m := TimeoutEffect(s, t);
    case Schedule =>
      m := s;
      ScheduleEffect(m);
    case Tick => m := TickEffect(s);
    case EnterCritical =>
    case ExitCritical =>
      if s.lock <= 1 {
        m := s.(lock := 0);
        ScheduleEffect(m);
      }
  }

  lemma StartupEffect(s: State, t: Tid) returns (m: State)
    requires Inv(s) && Legal(s, Startup(t))
    ensures Direct(s, Startup(t), m) && m.current in m.threads && Scheduled(m, StartupStep(s, t))
  {
    StartedInv(s, t);
    InsertInv(Started(s, t), t);
    m := ResumeStep(Started(s, t), t);
    ScheduleEffect(m);
  }

  lemma TimeoutEffect(s: State, t: Tid) returns (m: State)
    requires Inv(s) && Legal(s, Timeout(t))
    ensures Direct(s, Timeout(t), m) && m.current in m.threads && Scheduled(m, Do(s, Timeout(t)))
  {
    InsertInv(s, t);
    m := Insert(s, t);
    ScheduleEffect(m);
  }

  lemma TickEffect(s: State) returns (m: State)
    requires Inv(s)
    ensures Direct(s, Tick, m) && m.current in m.threads
    ensures if s.threads[s.current].left == 1 then Scheduled(m, TickStep(s)) else TickStep(s) == m
  {
    var c := s.threads[s.current];
    if c.left == 1 {
      m := s.(threads := s.threads[s.current := c.(left := c.slice, yielding := true)]);
      ListsKept(s.lists, s.threads, m.threads);
      ScheduleEffect(m);
    } else {
      m := TickStep(s);
    }
  }

  // ----- Whole runs

  ghost predicate Run(s: State, steps: seq<Step>, s': State)
    decreases |steps|
  {
    if steps == [] then s' == s else Inv(s) && Legal(s, steps[0]) && Run(Do(s, steps[0]), steps[1..], s')
  }

  lemma {:induction false} Reachable(s: State, steps: seq<Step>, s': State)
    requires Inv(s) && Run(s, steps, s')
    ensures Inv(s')
    decreases |steps|
  {
    if steps != [] {
      StepInv(s, steps[0]);
      Reachable(Do(s, steps[0]), steps[1..], s');
    }
  }
}
