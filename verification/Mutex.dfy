// One mutex with recursion, priority inheritance, timeouts and direct hand-over: src/ipc.c,
// rt_mutex_take and rt_mutex_release. Smaller numbers are more urgent.
module Mutex {
  import opened Lists
  import opened Numbers
  import opened Options
  import opened WaitGate

  /** Current priorities. */
  type Levels = map<Tid, nat>

  function Level(p: Levels, t: Tid): nat { if t in p then p[t] else 0 }

  function Urgency(p: Levels): Tid -> nat { t => Level(p, t) }

  const NoPriority: nat := 0xff

  /** `tenure` records, for the proofs, who has waited since the owner got the mutex. */
  datatype State = State(fifo: bool, value: int, owner: Option<Tid>, original: nat, hold: int,
                         waiting: seq<Tid>, prio: Levels, tenure: set<Tid>)

  datatype Outcome = Taken | Released | Handed(to: Tid) | Blocked | TimedOut | NotOwner

  datatype Step = Take(t: Tid, time: int) | Release(t: Tid) | Expire(t: Tid)

  function Fresh(fifo: bool, base: Levels): State { State(fifo, 1, None, NoPriority, 0, [], base, {}) }

  function OrderOf(s: State): Order { if s.fifo then Fifo else Prio(Urgency(s.prio)) }

  // ----- One atomic section each

  function TakeStep(s: State, t: Tid, time: int): (State, Outcome) {
    if s.owner == Some(t) then (s.(hold := s.hold + 1), Taken)
    else if s.value > 0 then
      (s.(value := s.value - 1, owner := Some(t), original := Level(s.prio, t), hold := s.hold + 1), Taken)
    else if time == 0 then (s, TimedOut)
    else
      var s1 := Boosted(s, t);
      (s1.(waiting := Suspend(s1.waiting, OrderOf(s1), t), tenure := s1.tenure + {t}), Blocked)
  }

  /** A more urgent waiter lends its priority to the owner. */
  function Boosted(s: State, t: Tid): State {
    if s.owner.Some? && Level(s.prio, t) < Level(s.prio, s.owner.value)
    then s.(prio := s.prio[s.owner.value := Level(s.prio, t)]) else s
  }

  function ReleaseStep(s: State, t: Tid): (State, Outcome) {
    if s.owner != Some(t) then (s, NotOwner)
    else if s.hold != 1 then (s.(hold := s.hold - 1), Released)
    else
      var s1 := if s.original != Level(s.prio, t) then s.(prio := s.prio[t := s.original]) else s;
      if s.waiting == [] then
        (s1.(hold := 0, value := s.value + 1, owner := None, original := NoPriority, tenure := {}), Released)
      else
        var next := s.waiting[0];
        (s1.(owner := Some(next), original := Level(s1.prio, next), waiting := s.waiting[1..],
             tenure := set x | x in s.waiting[1..]), Handed(next))
  }

  function Do(s: State, step: Step): (State, Outcome) {
    match step
    case Take(t, time) => TakeStep(s, t, time)
    case Release(t) => ReleaseStep(s, t)
    case Expire(t) => (s.(waiting := Without(s.waiting, t)), TimedOut)
  }

  /** A waiting thread does not run; only a waiter's timer expires. */
  predicate Legal(s: State, step: Step) {
    match step
    case Expire(t) => t in s.waiting
    case _ => step.t !in s.waiting
  }

  // ----- Invariants; `base` holds the threads' own priorities

  /** Ownership, counters, and who may have a changed priority: for either flag. */
  ghost predicate Core(base: Levels, s: State) {
    && NoDup(s.waiting)
    && (s.owner.None? ==> s.value == 1 && s.hold == 0 && s.original == NoPriority && s.waiting == [] && s.tenure == {})
    && (s.owner.Some? ==> s.value == 0 && s.hold > 0 && OwnerCore(base, s, s.owner.value))
    && (forall t: Tid :: s.owner != Some(t) ==> Level(s.prio, t) == Level(base, t))
  }

  /** The owner has at least its own priority, kept aside, and never gets one that nobody
      who waited during its tenure had. */
  ghost predicate OwnerCore(base: Levels, s: State, o: Tid) {
    && o !in s.waiting && o !in s.tenure && s.original == Level(base, o) && Level(s.prio, o) <= Level(base, o)
    && (forall t :: t in s.waiting ==> t in s.tenure)
    && (Level(s.prio, o) == Level(base, o) || exists w :: w in s.tenure && Level(base, w) == Level(s.prio, o))
  }

  /** Priority inheritance: the owner is as urgent as everyone waiting, and as everyone who
      has waited during its tenure. */
  predicate Inherits(s: State) {
    s.owner.Some? ==> forall w :: w in s.tenure ==> Level(s.prio, s.owner.value) <= Level(s.prio, w)
  }

  /** What waiters see of it. */
  predicate Urgent(s: State) {
    s.owner.Some? ==> forall w :: w in s.waiting ==> Level(s.prio, s.owner.value) <= Level(s.prio, w)
  }

  ghost predicate Inv(base: Levels, s: State) {
    && Core(base, s)
    && (!s.fifo ==> Inherits(s) && Ranked(s.waiting, Urgency(s.prio)))
  }

  // ----- Every step keeps them

  lemma TakeCore(base: Levels, s: State, t: Tid, time: int)
    requires Core(base, s) && t !in s.waiting
    ensures Core(base, TakeStep(s, t, time).0)
  {
    var (s', r) := TakeStep(s, t, time);
    if r == Blocked {
      var s1 := Boosted(s, t);
      SuspendNoDup(s.waiting, OrderOf(s1), t);
      assert t in s'.tenure;
      assert forall w :: w in s.tenure ==> w in s'.tenure;
    }
  }

  lemma TakeInherits(base: Levels, s: State, t: Tid, time: int)
    requires Inv(base, s) && t !in s.waiting && !s.fifo
    ensures var s' := TakeStep(s, t, time).0; Inherits(s') && Ranked(s'.waiting, Urgency(s'.prio))
  {
    var (s', r) := TakeStep(s, t, time);
    if r == Blocked {
      var s1 := Boosted(s, t);
      SameRank(s.waiting, s.prio, s1.prio);
      SuspendRanked(s.waiting, Urgency(s1.prio), t);
    }
  }

  lemma SameRank(q: seq<Tid>, p: Levels, p': Levels)
    requires Ranked(q, Urgency(p)) && forall i :: 0 <= i < |q| ==> Level(p, q[i]) == Level(p', q[i])
    ensures Ranked(q, Urgency(p'))
  {
    assert forall t :: Urgency(p)(t) == Level(p, t) && Urgency(p')(t) == Level(p', t);
  }

  lemma ReleaseCore(base: Levels, s: State, t: Tid)
    requires Core(base, s)
    ensures Core(base, ReleaseStep(s, t).0)
  {
    var (s', r) := ReleaseStep(s, t);
    if r.Handed? {
      assert s.waiting == [r.to] + s.waiting[1..];
      assert r.to in s.waiting;
    }
  }

  lemma ReleaseInherits(base: Levels, s: State, t: Tid)
    requires Inv(base, s) && !s.fifo
    ensures var s' := ReleaseStep(s, t).0; Inherits(s') && Ranked(s'.waiting, Urgency(s'.prio))
  {
    var (s', r) := ReleaseStep(s, t);
    if s'.prio != s.prio { SameRank(s.waiting, s.prio, s'.prio); }
    if r.Handed? {
      forall w | w in s'.tenure ensures Level(s'.prio, r.to) <= Level(s'.prio, w) {
        var i :| 0 <= i < |s.waiting[1..]| && s.waiting[1..][i] == w;
        assert Urgency(s'.prio)(s.waiting[0]) <= Urgency(s'.prio)(s.waiting[i + 1]);
      }
      assert forall i :: 0 <= i < |s.waiting[1..]| ==> s.waiting[1..][i] == s.waiting[i + 1];
    }
  }

  lemma {:induction false} WithoutRanked(q: seq<Tid>, u: Tid -> nat, t: Tid)
    requires Ranked(q, u)
    ensures Ranked(Without(q, t), u)
  {
    if q != [] {
      WithoutRanked(q[1..], u, t);
      var r := Without(q[1..], t);
      assert forall i :: 0 <= i < |r| ==> r[i] in q[1..];
    }
  }

  /** Ownership and priority inheritance survive every step of every thread. */
  lemma StepInv(base: Levels, s: State, step: Step)
    requires Inv(base, s) && Legal(s, step)
    ensures Inv(base, Do(s, step).0)
  {
    match step
    case Take(t, time) =>
      TakeCore(base, s, t, time);
      if !s.fifo { TakeInherits(base, s, t, time); }
    case Release(t) =>
      ReleaseCore(base, s, t);
      if !s.fifo { ReleaseInherits(base, s, t); }
    case Expire(t) =>
      WithoutNoDup(s.waiting, t);
      if !s.fifo { WithoutRanked(s.waiting, Urgency(s.prio), t); }
  }

  // ----- Whole runs

  function Run(s: State, steps: seq<Step>): State {
    if steps == [] then s else Do(Run(s, steps[..|steps| - 1]), steps[|steps| - 1]).0
  }

  predicate AllLegal(s: State, steps: seq<Step>) {
    steps == [] ||
    (AllLegal(s, steps[..|steps| - 1]) && Legal(Run(s, steps[..|steps| - 1]), steps[|steps| - 1]))
  }

  lemma {:induction false} RunInv(fifo: bool, base: Levels, steps: seq<Step>)
    requires AllLegal(Fresh(fifo, base), steps)
    ensures var s := Run(Fresh(fifo, base), steps); Inv(base, s) && s.fifo == fifo
  {
    if steps != [] {
      RunInv(fifo, base, steps[..|steps| - 1]);
      StepInv(base, Run(Fresh(fifo, base), steps[..|steps| - 1]), steps[|steps| - 1]);
    }
  }

  /** With the priority flag, after any run: the owner is at least as urgent as every waiter,
      everyone else has its own priority, and value, owner and hold agree. */
  lemma Reachable(base: Levels, steps: seq<Step>)
    requires AllLegal(Fresh(false, base), steps)
    ensures var s := Run(Fresh(false, base), steps);
      && Urgent(s)
      && (forall t: Tid :: s.owner != Some(t) ==> Level(s.prio, t) == Level(base, t))
      && (s.value == 0 <==> s.owner.Some?) && (s.owner.Some? <==> s.hold > 0)
  {
    RunInv(false, base, steps);
  }

  /** The inherited priority is exactly the most urgent one among the owner's own and those
      of the threads that have waited during its tenure. */
  lemma ExactInheritance(base: Levels, steps: seq<Step>)
    requires AllLegal(Fresh(false, base), steps) && Run(Fresh(false, base), steps).owner.Some?
    ensures var s := Run(Fresh(false, base), steps);
      var mine := Level(s.prio, s.owner.value);
      && mine <= Level(base, s.owner.value) && (forall w :: w in s.tenure ==> mine <= Level(base, w))
      && (mine == Level(base, s.owner.value) || exists w :: w in s.tenure && mine == Level(base, w))
  {
    RunInv(false, base, steps);
  }

  /** Letting go completely restores the priority held at acquisition, whatever happened in
      between, and a waiter that gets the mutex owns it at once with hold count one. */
  lemma ReleaseRestores(base: Levels, s: State, t: Tid)
    requires Inv(base, s) && s.owner == Some(t) && s.hold == 1
    ensures var (s', r) := ReleaseStep(s, t);
      && Level(s'.prio, t) == Level(base, t) && s'.owner != Some(t)
      && (s.waiting == [] ==> s'.owner == None)
      && (s.waiting != [] ==> r == Handed(s.waiting[0]) && s'.owner == Some(s.waiting[0]) && s'.hold == 1)
  {
    ReleaseCore(base, s, t);
    if s.waiting != [] { assert s.waiting[0] in s.waiting; }
  }

  // ----- What each step does

  /** Only `t`'s priority may differ. */
  ghost predicate OthersKeep(p: Levels, p': Levels, t: Tid) { forall x: Tid :: x != t ==> Level(p', x) == Level(p, x) }

  /** A free mutex, or one's own, is had at once, one hold deeper. A mutex of another is not: the
      caller gives up, or queues by arrival or by urgency and lends the owner its priority. */
  lemma TakeEffect(base: Levels, s: State, t: Tid, time: int)
    requires Inv(base, s) && Legal(s, Take(t, time))
    ensures var (s', r) := TakeStep(s, t, time);
      if s.owner.None? || s.owner == Some(t) then
        r == Taken && s'.owner == Some(t) && s'.hold == s.hold + 1 && s'.prio == s.prio && s'.waiting == s.waiting
      else if time == 0 then r == TimedOut && s' == s
      else
        var o := s.owner.value;
        && r == Blocked && s'.owner == s.owner && s'.hold == s.hold && s'.original == s.original
        && Joins(s.waiting, s'.waiting, if s.fifo then Fifo else Prio(Urgency(s'.prio)), t)
        && Level(s'.prio, o) == Min(Level(s.prio, o), Level(s.prio, t)) && OthersKeep(s.prio, s'.prio, o)
  {
    SuspendJoins(s.waiting, OrderOf(Boosted(s, t)), t);
  }

  /** Only the owner releases. The last release gives the mutex to the first waiter, any other
      one only lowers the hold; a waiter whose time is up leaves the queue and nothing else. */
  lemma ReleaseEffect(base: Levels, s: State, step: Step)
    requires Inv(base, s) && Legal(s, step) && !step.Take?
    ensures var (s', r) := Do(s, step);
      if step.Expire? then r == TimedOut && Drops(s.waiting, s'.waiting, step.t) && s' == s.(waiting := s'.waiting)
      else if s.owner != Some(step.t) then r == NotOwner && s' == s
      else if s.hold > 1 then r == Released && s' == s.(hold := s.hold - 1)
      else
        && Level(s'.prio, step.t) == Level(base, step.t) && OthersKeep(s.prio, s'.prio, step.t)
        && if s.waiting == [] then r == Released && s'.owner.None? && s'.waiting == []
           else r == Handed(s.waiting[0]) && s'.owner == Some(s.waiting[0]) && s'.hold == 1
                && s.waiting == [s.waiting[0]] + s'.waiting
  {
    if step.Expire? { WithoutDrops(s.waiting, step.t); }
  }

  /** How often `t` takes and releases in a run. */
  function Takes(steps: seq<Step>, t: Tid): nat {
    if steps == [] then 0 else
      var last := steps[|steps| - 1];
      Takes(steps[..|steps| - 1], t) + if last.Take? && last.t == t then 1 else 0
  }

  function Releases(steps: seq<Step>, t: Tid): nat {
    if steps == [] then 0 else
      var last := steps[|steps| - 1];
      Releases(steps[..|steps| - 1], t) + if last == Release(t) then 1 else 0
  }

  /** After every part of the run, `t` has released less often than it has taken. */
  predicate Holding(steps: seq<Step>, t: Tid, hold: int) {
    hold + Takes(steps, t) - Releases(steps, t) > 0 && (steps == [] || Holding(steps[..|steps| - 1], t, hold))
  }

  /** The mutex changes hands only after as many releases as takes: until then, whatever others
      do, its owner stays, and the hold count is the balance. */
  lemma {:induction false} OwnerStays(base: Levels, s: State, steps: seq<Step>, t: Tid)
    requires Inv(base, s) && AllLegal(s, steps) && s.owner == Some(t) && Holding(steps, t, s.hold)
    ensures var r := Run(s, steps);
      Inv(base, r) && r.owner == Some(t) && r.hold == s.hold + Takes(steps, t) - Releases(steps, t)
  {
    if steps != [] {
      var init, last := steps[..|steps| - 1], steps[|steps| - 1];
      OwnerStays(base, s, init, t);
      StepInv(base, Run(s, init), last);
      if last.Take? { TakeEffect(base, Run(s, init), last.t, last.time); } else { ReleaseEffect(base, Run(s, init), last); }
    }
  }

  // ----- With the FIFO flag, hand-over does not boost

  /** Exactly when a hand-over leaves the new owner as urgent as those still waiting: when the
      head of the queue already is. */
  lemma FifoHandOver(base: Levels, s: State, t: Tid)
    requires Inv(base, s) && s.fifo && s.owner == Some(t) && s.hold == 1 && s.waiting != []
    ensures Urgent(ReleaseStep(s, t).0) <==>
      forall i :: 0 < i < |s.waiting| ==> Level(base, s.waiting[0]) <= Level(base, s.waiting[i])
  {
    var s' := ReleaseStep(s, t).0;
    assert s.waiting[0] in s.waiting;
    assert forall i :: 0 < i < |s.waiting| ==> s.waiting[i] in s.waiting && s'.waiting[i - 1] == s.waiting[i];
    assert forall i :: 0 <= i < |s'.waiting| ==> s'.waiting[i] == s.waiting[i + 1];
    assert forall i :: 0 <= i < |s.waiting| ==> Level(s'.prio, s.waiting[i]) == Level(base, s.waiting[i]);
    if Urgent(s') {
      forall i | 0 < i < |s.waiting| ensures Level(base, s.waiting[0]) <= Level(base, s.waiting[i]) {
        assert s'.waiting[i - 1] in s'.waiting;
      }
    }
  }

  lemma RunMore(s: State, steps: seq<Step>, step: Step)
    requires AllLegal(s, steps) && Legal(Run(s, steps), step)
    ensures AllLegal(s, steps + [step]) && Run(s, steps + [step]) == Do(Run(s, steps), step).0
  {
    assert (steps + [step])[..|steps|] == steps;
  }

  /** It can fail: a low-priority waiter first in line is handed the mutex while a more urgent
      one still waits. */
  lemma FifoInversion(base: Levels)
    requires base == map[1 := 5, 2 := 9, 3 := 1]
    ensures exists steps :: AllLegal(Fresh(true, base), steps) && !Urgent(Run(Fresh(true, base), steps))
  {
    var s0 := Fresh(true, base);
    var three := FifoQueue(base);
    RunMore(s0, three, Release(1));
    var s := Run(s0, three + [Release(1)]);
    assert s.waiting == [3] && s.owner == Some(2) && 3 in s.waiting;
    assert AllLegal(s0, three + [Release(1)]) && !Urgent(s);
  }

  lemma FifoQueue(base: Levels) returns (steps: seq<Step>)
    requires base == map[1 := 5, 2 := 9, 3 := 1]
    ensures AllLegal(Fresh(true, base), steps)
    ensures Run(Fresh(true, base), steps) == State(true, 0, Some(1), 5, 1, [2, 3], base[1 := 1], {2, 3})
  {
    var s0 := Fresh(true, base);
    var one := [Take(1, -1)];
    assert [] + one == one;
    RunMore(s0, [], Take(1, -1));
    assert Run(s0, one) == State(true, 0, Some(1), 5, 1, [], base, {});
    RunMore(s0, one, Take(2, -1));
    var two := one + [Take(2, -1)];
    assert Run(s0, two) == State(true, 0, Some(1), 5, 1, [2], base, {2});
    RunMore(s0, two, Take(3, -1));
    steps := two + [Take(3, -1)];
  }

  // ----- The object the kernel keeps

  class MutexObject {
    const fifo: bool
    var value: int
    var owner: Option<Tid>
    var originalPriority: nat
    var hold: int
    var suspended: seq<Tid>
    var prio: Levels
    ghost var tenure: set<Tid>

    ghost function Contents(): State
      reads this
    {
      State(fifo, value, owner, originalPriority, hold, suspended, prio, tenure)
    }

    constructor (flag: bool, base: Levels)
      ensures Contents() == Fresh(flag, base)
    {
      fifo, value, owner, originalPriority, hold := flag, 1, None, NoPriority, 0;
      suspended, prio, tenure := [], base, {};
    }

    /** rt_mutex_take, up to the point where the caller would sleep. */
    method TakeMutex(ghost base: Levels, t: Tid, time: int) returns (r: Outcome)
      requires Inv(base, Contents()) && t !in suspended
      modifies this
      ensures Contents() == TakeStep(old(Contents()), t, time).0 && r == TakeStep(old(Contents()), t, time).1
      ensures Inv(base, Contents()) && (r == Taken <==> owner == Some(t))
    {
      StepInv(base, Contents(), Take(t, time));
      if owner == Some(t) {
        hold := hold + 1;
        return Taken;
      }
      if value > 0 {
        value := value - 1;
        owner, originalPriority := Some(t), Level(prio, t);
        hold := hold + 1;
        return Taken;
      }
      if time == 0 { return TimedOut; }
      if Level(prio, t) < Level(prio, owner.value) { prio := prio[owner.value := Level(prio, t)]; }
      suspended := ListSuspend(suspended, if fifo then Fifo else Prio(Urgency(prio)), t);
      tenure := tenure + {t};
      r := Blocked;
    }

    /** rt_mutex_release */
    method ReleaseMutex(ghost base: Levels, t: Tid) returns (r: Outcome)
      requires Inv(base, Contents())
      modifies this
      ensures Contents() == ReleaseStep(old(Contents()), t).0 && r == ReleaseStep(old(Contents()), t).1
      ensures Inv(base, Contents())
    {
      ReleaseCore(base, Contents(), t);
      if !fifo { ReleaseInherits(base, Contents(), t); }
      if owner != Some(t) { return NotOwner; }
      if hold != 1 {
        hold := hold - 1;
        return Released;
      }
      r := LetGo(t);
    }

    /** The owner gives up its last hold. */
    method LetGo(t: Tid) returns (r: Outcome)
      requires owner == Some(t) && hold == 1
      modifies this
      ensures Contents() == ReleaseStep(old(Contents()), t).0 && r == ReleaseStep(old(Contents()), t).1
    {
      hold := hold - 1;
      if originalPriority != Level(prio, t) { prio := prio[t := originalPriority]; }
      if suspended != [] {
        var next := suspended[0];
        owner, originalPriority := Some(next), Level(prio, next);
        hold := hold + 1;
        suspended := suspended[1..];
        tenure := set x | x in suspended;
        r := Handed(next);
      } else {
        value := value + 1;
        owner, originalPriority := None, NoPriority;
        tenure := {};
        r := Released;
      }
    }

    /** rt_thread_timeout on a thread suspended here. */
    method Timeout(ghost base: Levels, t: Tid)
      requires Inv(base, Contents()) && t in suspended
      modifies this
      ensures Contents() == Do(old(Contents()), Expire(t)).0 && Inv(base, Contents())
    {
      StepInv(base, Contents(), Expire(t));
      suspended := Without(suspended, t);
    }
  }
}
