// The scheduler's globals and the functions that update them: src/scheduler.c (without SMP),
// the state changes of src/thread.c, and the time slice of src/clock.c.
module ReadyQueue {
  import opened Lists
  import opened WaitGate
  import opened Bitmap
  import opened Scheduler

  class Globals {
    var priorityTable: seq<seq<Tid>>
    const twoLevel: bool
    var group: nat
    var readyTable: seq<nat>
    var threads: map<Tid, Thread>
    var current: Tid
    var lockNest: int

    ghost function S(): State
      reads this
    {
      State(priorityTable, Map(twoLevel, group, readyTable), threads, current, lockNest)
    }

    /** rt_system_scheduler_init, and a first thread running. */
    constructor (max: nat, two: bool, first: Tid, th: Thread)
      requires th.stat == Running && th.prio < max && th.initPrio < max && max <= if two then 256 else 32
      ensures Inv(S()) && twoLevel == two && |priorityTable| == max && current == first && lockNest == 0
    {
      twoLevel, lockNest, current := two, 0, first;
      threads := map[first := th];
      group, readyTable := 0, seq(32, _ => 0);
      var lists: seq<seq<Tid>> := [];
      for offset := 0 to max
        invariant |lists| == offset && forall p: nat :: p < offset ==> lists[p] == []
      {
        lists := lists + [[]];
      }
      priorityTable := lists;
      new;
      BlankTracks(two);
      assert Blank(two) == Map(two, 0, readyTable);
      assert Busy(priorityTable) == {};
    }

    /** rt_schedule_insert_thread */
    method InsertThread(t: Tid)
      requires Fits(S(), t)
      modifies this
      ensures S() == Insert(old(S()), t)
    {
      var th := threads[t];
      if t == current {
        threads := threads[t := th.(stat := Running)];
        return;
      }
      threads := threads[t := th.(stat := Ready)];
      priorityTable := priorityTable[th.prio := priorityTable[th.prio] + [t]];
      if twoLevel {
        var number := th.prio / 8;
        readyTable := readyTable[number := SetBit(readyTable[number], th.prio % 8)];
        group := SetBit(group, number);
      } else {
        group := SetBit(group, th.prio);
      }
    }

    /** rt_schedule_remove_thread */
    method RemoveThread(t: Tid)
      requires Fits(S(), t)
      modifies this
      ensures S() == Remove(old(S()), t)
    {
      var p := threads[t].prio;
      priorityTable := priorityTable[p := Without(priorityTable[p], t)];
      if priorityTable[p] == [] {
        if twoLevel {
          var number := p / 8;
          readyTable := readyTable[number := ClearBit(readyTable[number], p % 8)];
          if readyTable[number] == 0 { group := ClearBit(group, number); }
        } else {
          group := ClearBit(group, p);
        }
      }
    }

    /** _get_highest_priority_thread */
    method GetHighest() returns (t: Tid, prio: nat)
      requires Queues(S()) && group != 0
      ensures Found(S()) && t == Highest(S()) && prio == Lowest(S().ready)
      ensures t in threads && threads[t].stat == Ready && threads[t].prio == prio
    {
      LookupIsHead(S());
      if twoLevel {
        GroupIndex(S().ready, Busy(priorityTable));
        var number := Ffs(group) - 1;
        prio := number * 8 + Ffs(readyTable[number]) - 1;
      } else {
        prio := Ffs(group) - 1;
      }
      t := priorityTable[prio][0];
    }

    /** rt_schedule */
    method DoSchedule()
      requires Inv(S())
      modifies this
      ensures S() == Reschedule(old(S())) && Inv(S())
    {
      RescheduleInv(S());
      LookupIsHead(S());
      if lockNest != 0 || group == 0 { return; }
      var to, best := GetHighest();
      var c := threads[current];
      if c.stat == Running && (c.prio < best || (c.prio == best && !c.yielding)) {
        RemoveThread(current);
        threads := threads[current := threads[current].(stat := Running)];
        return;
      }
      SwitchTo(to);
    }

    method SwitchTo(to: Tid)
      requires Inv(S()) && to in threads && threads[to].stat == Ready
      modifies this
      ensures Fits(old(S()), old(current)) && Fits(Displace(old(S()), to), to)
      ensures S() == Dispatch(Displace(old(S()), to), to)
    {
      SwitchInv(S(), to);
      var from, c := current, threads[current];
      var needInsert := c.stat == Running;
      if needInsert { threads := threads[from := c.(yielding := false)]; }
      current := to;
      if needInsert { InsertThread(from); }
      RemoveThread(to);
      threads := threads[to := threads[to].(stat := Running)];
    }

    /** RT_THREAD_CTRL_CHANGE_PRIORITY */
    method SetPriority(t: Tid, p: nat)
      requires Inv(S()) && t in threads && p < |priorityTable|
      modifies this
      ensures Fits(old(S()), t) && S() == Reprioritize(old(S()), t, p) && Inv(S())
      ensures threads == old(threads)[t := old(threads)[t].(prio := p)]
      ensures old(threads)[t].stat == Ready ==>
        forall q :: 0 <= q < |priorityTable| ==> (t in priorityTable[q] <==> q == p)
    {
      ReprioritizeInv(S(), t, p);
      ReprioritizeEffect(S(), t, p);
      if threads[t].stat == Ready {
        RemoveThread(t);
        threads := threads[t := threads[t].(prio := p)];
        InsertThread(t);
      } else {
        threads := threads[t := threads[t].(prio := p)];
      }
    }

    /** rt_thread_suspend; false is the error for a thread that is neither ready nor running. */
    method SuspendThread(t: Tid) returns (ok: bool)
      requires Inv(S()) && t in threads
      modifies this
      ensures S() == SuspendStep(old(S()), t) && Inv(S())
      ensures ok == (old(threads)[t].stat == Ready || old(threads)[t].stat == Running)
    {
      SuspendInv(S(), t);
      ok := threads[t].stat == Ready || threads[t].stat == Running;
      if ok {
        RemoveThread(t);
        threads := threads[t := threads[t].(stat := Suspended)];
      }
    }

    /** rt_thread_resume */
    method ResumeThread(t: Tid) returns (ok: bool)
      requires Inv(S()) && t in threads
      modifies this
      ensures S() == ResumeStep(old(S()), t) && Inv(S()) && ok == (old(threads)[t].stat == Suspended)
    {
      ok := threads[t].stat == Suspended;
      if ok {
        InsertInv(S(), t);
        InsertThread(t);
      }
    }

    /** rt_thread_startup */
    method StartThread(t: Tid)
      requires Inv(S()) && t in threads && threads[t].stat == Init
      modifies this
      ensures S() == StartupStep(old(S()), t) && Inv(S())
    {
      StartedInv(S(), t);
      threads := threads[t := threads[t].(prio := threads[t].initPrio, stat := Suspended)];
      var _ := ResumeThread(t);
      DoSchedule();
    }

    /** rt_tick_increase, before the timers are looked at. */
    method TickIncrease()
      requires Inv(S())
      modifies this
      ensures S() == TickStep(old(S())) && Inv(S())
    {
      TickInv(S());
      var c := threads[current];
      c := c.(left := c.left - 1);
      if c.left != 0 {
        threads := threads[current := c];
        return;
      }
      ghost var s0 := S();
      threads := threads[current := c.(left := c.slice, yielding := true)];
      ListsKept(priorityTable, s0.threads, threads);
      DoSchedule();
    }

    /** rt_enter_critical */
    method EnterCriticalSection()
      requires Inv(S())
      modifies this
      ensures S() == Do(old(S()), EnterCritical) && Inv(S())
    {
      lockNest := lockNest + 1;
    }

    /** rt_exit_critical */
    method ExitCriticalSection()
      requires Inv(S())
      modifies this
      ensures S() == Do(old(S()), ExitCritical) && Inv(S())
    {
      lockNest := lockNest - 1;
      if lockNest <= 0 {
        lockNest := 0;
        DoSchedule();
      }
    }
  }
}
