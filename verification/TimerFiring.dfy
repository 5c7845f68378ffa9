// In which order rt_timer_check fires timers, and when its firings keep "linked" and
// "activated" in step.
module TimerFiring {
  import opened Lists
  import opened TimerQueue
  import opened TimerEnding

  // ----- Timers left alone fire once each, in list order, so equal expiries in start order

  /** The expired timers among `u`, in list order. */
  ghost function DuePart(s: State, u: set<Id>): seq<Id>
    requires Known(s.queue, s.timers)
  {
    Keep(s.queue, DueSet(s) * u)
  }

  ghost function DueSet(s: State): set<Id>
    requires Known(s.queue, s.timers)
  {
    set x | x in s.queue && s.timers[x].due <= s.now
  }

  function Ids(fs: seq<Firing>): seq<Id> {
    if fs == [] then [] else [fs[0].id] + Ids(fs[1..])
  }

  /** A command on another timer does not change what is due of `u`. */
  lemma DoKeepsPart(s: State, c: Cmd, u: set<Id>)
    requires Inv(s, 1) && Ready(s, c) && c.id !in u
    ensures DuePart(Do(s, c), u) == DuePart(s, u)
  {
    var r, q, d, e := Do(s, c), Without(s.queue, c.id), DueSet(s) * u, DueSet(Do(s, c)) * u;
    KeepWithout(s.queue, d, c.id);
    WithoutAbsent(Keep(s.queue, d), c.id);
    if c.Start? {
      KeepInsertOut(q, r.timers, c.id, e);
      KeepAgrees(q, d, e);
    } else {
      KeepAgrees(r.queue, d, e);
    }
  }

  lemma {:induction false} DoAllKeepsPart(s: State, cs: seq<Cmd>, u: set<Id>)
    requires Inv(s, 1) && AllReady(s, cs) && forall x :: x in u ==> !Named(cs, x)
    ensures DuePart(DoAll(s, cs), u) == DuePart(s, u)
    decreases |cs|
  {
    if cs != [] {
      DoKeepsInv(s, cs[0], 1);
      assert Named(cs, cs[0].id);
      DoKeepsPart(s, cs[0], u);
      forall x | x in u ensures !Named(cs[1..], x) {
        assert forall k :: 0 <= k < |cs| - 1 ==> cs[1..][k] == cs[k + 1];
      }
      DoAllKeepsPart(Do(s, cs[0]), cs[1..], u);
    }
  }

  lemma UnlinkedPart(s: State, u: set<Id>)
    requires Inv(s, 1) && HeadDue(s)
    ensures DuePart(s, u) == (if s.queue[0] in u then [s.queue[0]] else []) + DuePart(Unlinked(s), u)
  {
    var h := s.queue[0];
    assert h in s.queue && h in DueSet(s);
    WithoutHead(s.queue);
    KeepAgrees(s.queue[1..], DueSet(s) * u, DueSet(Unlinked(s)) * u);
  }

  /** A restart adds nothing that is due, except a timer of zero ticks. */
  lemma RestartPart(s: State, h: Id, u: set<Id>)
    requires Inv(s, 1) && CanRestart(s, h)
    requires h in u ==> h !in s.queue && (s.timers[h].periodic && s.timers[h].active ==> s.timers[h].init >= 1)
    ensures DuePart(Restart(s, h), u) == DuePart(s, u)
  {
    var t := s.timers[h];
    var idle := s.(timers := s.timers[h := t.(active := false)]);
    KeepAgrees(s.queue, DueSet(s) * u, DueSet(idle) * u);
    if t.periodic && t.active {
      SortedAgrees(s.queue, s.timers, idle.timers);
      if h in u { StartPart(idle, h, u); } else { DoKeepsPart(idle, Start(h), u); }
    }
  }

  lemma StartPart(s: State, h: Id, u: set<Id>)
    requires Inv(s, 1) && Ready(s, Start(h)) && h !in s.queue && s.timers[h].init >= 1
    ensures DuePart(Do(s, Start(h)), u) == DuePart(s, u)
  {
    var r := Do(s, Start(h));
    WithoutAbsent(s.queue, h);
    KeepInsertOut(s.queue, r.timers, h, DueSet(r) * u);
    KeepAgrees(s.queue, DueSet(s) * u, DueSet(r) * u);
  }

  /** One firing takes the head off what is due of the timers that no timeout function names. */
  lemma FirePart(s: State, script: Script, u: set<Id>)
    requires Inv(s, 1) && HeadDue(s) && CanFire(s, script)
    requires forall x :: x in u ==> !Mentions(script, x) && !StuckOn(s, x)
    ensures DuePart(s, u) == (if s.queue[0] in u then [s.queue[0]] else []) + DuePart(Fire(s, script), u)
  {
    var h, v := s.queue[0], Unlinked(s);
    assert h in s.queue;
    var cs := Commands(script, h);
    UnlinkedPart(s, u);
    forall x | x in u ensures !Named(cs, x) { CommandsNamed(script, h, x); }
    DoAllKeepsPart(v, cs, u);
    if h in u { DoAllKeepsUnnamed(v, cs, h); }
    RestartPart(DoAll(v, cs), h, u);
  }

  /** Of the timers that no timeout function names, one check fires exactly the expired ones,
      once each, in list order. */
  lemma FiredInListOrder(s: State, script: Script, u: set<Id>)
    requires Inv(s, 1) && Ends(s, script) && forall x :: x in u ==> !Mentions(script, x)
    ensures var r := CheckAll(s, script); s.log <= r.log && Keep(Ids(r.log[|s.log|..]), u) == DuePart(s, u)
  {
    FiredIn(s, script, Firings(s, script), u);
  }

  lemma {:induction false} FiredIn(s: State, script: Script, n: nat, u: set<Id>)
    requires Inv(s, 1) && EndsIn(s, script, n) && forall x :: x in u ==> !Mentions(script, x)
    ensures var r := CheckIn(s, script, n); s.log <= r.log && Keep(Ids(r.log[|s.log|..]), u) == DuePart(s, u)
    decreases n
  {
    if HeadDue(s) {
      var f := Fire(s, script);
      forall x | x in u ensures !StuckOn(s, x) {
        if StuckOn(s, x) { StuckForever(s, script, x, n); }
      }
      FirePart(s, script, u);
      FiredIn(f, script, n - 1, u);
      var r := CheckIn(f, script, n - 1);
      assert CheckIn(s, script, n) == r;
      LogHead(s.log, Firing(s.queue[0], s.timers[s.queue[0]].due, s.now), r.log, u);
    } else {
      assert s.log[|s.log|..] == [];
      NothingDue(s, u);
    }
  }

  lemma NothingDue(s: State, u: set<Id>)
    requires Inv(s, 1) && !HeadDue(s)
    ensures DuePart(s, u) == []
  {
    NothingOverdue(s);
    KeepNone(s.queue, DueSet(s) * u);
  }

  lemma {:induction false} KeepNone(q: seq<Id>, s: set<Id>)
    requires forall x :: x in q ==> x !in s
    ensures Keep(q, s) == []
  {
    if q != [] {
      assert q[0] in q && forall x :: x in q[1..] ==> x in q;
      KeepNone(q[1..], s);
    }
  }

  lemma LogHead(log: seq<Firing>, f: Firing, later: seq<Firing>, u: set<Id>)
    requires log + [f] <= later
    ensures Keep(Ids(later[|log|..]), u) == (if f.id in u then [f.id] else []) + Keep(Ids(later[|log| + 1..]), u)
  {
    var rest := later[|log| + 1..];
    assert later[|log|..] == [f] + rest;
    assert Ids([f] + rest) == [f.id] + Ids(rest) by { assert ([f] + rest)[1..] == rest; }
    Cons(f.id, Ids(rest), u, f.id);
  }

  // ----- Without starts of zero ticks nothing else fires

  ghost function AllDue(s: State): seq<Id>
    requires Known(s.queue, s.timers)
  {
    Keep(s.queue, DueSet(s))
  }

  lemma DoThinsDue(s: State, c: Cmd)
    requires Ready(s, c) && (c.Start? ==> s.timers[c.id].init >= 1)
    ensures IsSubseq(AllDue(Do(s, c)), AllDue(s))
  {
    if c.Start? {
      StartThinsDue(s, c.id);
    } else {
      var r := Do(s, c);
      KeepAgrees(r.queue, DueSet(r), DueSet(s));
      if r.queue == s.queue {
        SubseqReflexive(AllDue(s));
      } else {
        KeepWithout(s.queue, DueSet(s), c.id);
        SubseqWithout(AllDue(s), c.id);
      }
    }
  }

  lemma StartThinsDue(s: State, x: Id)
    requires Ready(s, Start(x)) && s.timers[x].init >= 1
    ensures AllDue(Do(s, Start(x))) == Without(AllDue(s), x)
    ensures IsSubseq(AllDue(Do(s, Start(x))), AllDue(s))
  {
    var r, q := Do(s, Start(x)), Without(s.queue, x);
    KeepInsertOut(q, r.timers, x, DueSet(r));
    KeepAgrees(q, DueSet(r), DueSet(s));
    KeepWithout(s.queue, DueSet(s), x);
    SubseqWithout(AllDue(s), x);
  }

  /** No timeout function starts a timer that may have zero ticks. */
  predicate NoZeroStart(script: Script, zero: set<Id>) {
    forall h, k :: h in script && 0 <= k < |script[h]| && script[h][k].Start? ==> script[h][k].id !in zero
  }

  lemma {:induction false} DoAllThinsDue(s: State, cs: seq<Cmd>, script: Script, zero: set<Id>, cost: Id -> nat)
    requires Inv(s, 1) && AllReady(s, cs) && FromScript(script, cs)
    requires Tame(s.timers, script, zero, cost) && NoZeroStart(script, zero)
    ensures IsSubseq(AllDue(DoAll(s, cs)), AllDue(s))
    decreases |cs|
  {
    if cs == [] {
      SubseqReflexive(AllDue(s));
    } else {
      assert FromScript(script, [cs[0]]);
      DoTame(s, cs[0], script, zero, cost);
      DoKeepsInv(s, cs[0], 1);
      assert FromScript(script, cs[1..]) by { assert forall k :: 0 <= k < |cs| - 1 ==> cs[1..][k] == cs[k + 1]; }
      DoThinsDue(s, cs[0]);
      DoAllThinsDue(Do(s, cs[0]), cs[1..], script, zero, cost);
      SubseqTransitive(AllDue(DoAll(s, cs)), AllDue(Do(s, cs[0])), AllDue(s));
    }
  }

  lemma UnlinkedThinsDue(s: State)
    requires Inv(s, 1) && HeadDue(s)
    ensures AllDue(s) == [s.queue[0]] + AllDue(Unlinked(s))
  {
    var h := s.queue[0];
    assert h in s.queue && h in DueSet(s);
    WithoutHead(s.queue);
    KeepAgrees(s.queue[1..], DueSet(s), DueSet(Unlinked(s)));
  }

  lemma RestartThinsDue(s: State, h: Id)
    requires Inv(s, 1) && CanRestart(s, h)
    requires s.timers[h].periodic && s.timers[h].active ==> s.timers[h].init >= 1
    ensures IsSubseq(AllDue(Restart(s, h)), AllDue(s))
  {
    var t := s.timers[h];
    var idle := s.(timers := s.timers[h := t.(active := false)]);
    KeepAgrees(s.queue, DueSet(idle), DueSet(s));
    SubseqReflexive(AllDue(s));
    if t.periodic && t.active {
      DoThinsDue(idle, Start(h));
    }
  }

  lemma FireThinsDue(s: State, script: Script, zero: set<Id>, cost: Id -> nat)
    requires Inv(s, 1) && HeadDue(s) && CanFire(s, script) && !Stuck(s)
    requires Tame(s.timers, script, zero, cost) && NoZeroStart(script, zero)
    ensures AllDue(s) != [] && AllDue(s)[0] == s.queue[0] && IsSubseq(AllDue(Fire(s, script)), AllDue(s)[1..])
  {
    var h, v := s.queue[0], Unlinked(s);
    var cs := Commands(script, h);
    UnlinkedThinsDue(s);
    TameFires(s, script, zero, cost);
    DoAllThinsDue(v, cs, script, zero, cost);
    RestartsLater(s, script, zero, cost);
    RestartThinsDue(DoAll(v, cs), h);
    SubseqTransitive(AllDue(Fire(s, script)), AllDue(DoAll(v, cs)), AllDue(v));
    assert AllDue(s)[1..] == AllDue(v);
  }

  /** One check fires, in list order, only timers that had expired when it began. */
  lemma FiresOnlyExpired(s: State, script: Script, zero: set<Id>, cost: Id -> nat)
    requires Inv(s, 1) && Ends(s, script) && Tame(s.timers, script, zero, cost) && NoZeroStart(script, zero)
    ensures var r := CheckAll(s, script); s.log <= r.log && IsSubseq(Ids(r.log[|s.log|..]), AllDue(s))
  {
    EndsExactly(s, script, zero, cost);
    OnlyExpired(s, script, Firings(s, script), zero, cost);
  }

  lemma {:induction false} OnlyExpired(s: State, script: Script, n: nat, zero: set<Id>, cost: Id -> nat)
    requires Inv(s, 1) && EndsIn(s, script, n) && !Stuck(s)
    requires Tame(s.timers, script, zero, cost) && NoZeroStart(script, zero)
    ensures var r := CheckIn(s, script, n); s.log <= r.log && IsSubseq(Ids(r.log[|s.log|..]), AllDue(s))
    decreases n
  {
    if HeadDue(s) {
      var f := Fire(s, script);
      FireCloser(s, script, zero, cost);
      OnlyExpired(f, script, n - 1, zero, cost);
      FiredStep(s, script, CheckIn(f, script, n - 1), zero, cost);
    } else {
      assert s.log[|s.log|..] == [];
    }
  }

  lemma FiredStep(s: State, script: Script, r: State, zero: set<Id>, cost: Id -> nat)
    requires Inv(s, 1) && HeadDue(s) && CanFire(s, script) && !Stuck(s)
    requires Tame(s.timers, script, zero, cost) && NoZeroStart(script, zero)
    requires var f := Fire(s, script); f.log <= r.log && IsSubseq(Ids(r.log[|f.log|..]), AllDue(f))
    ensures s.log <= r.log && IsSubseq(Ids(r.log[|s.log|..]), AllDue(s))
  {
    FireThinsDue(s, script, zero, cost);
    FiredCons(s.log, Firing(s.queue[0], s.timers[s.queue[0]].due, s.now), r.log, AllDue(Fire(s, script)), AllDue(s));
  }

  lemma FiredCons(log: seq<Firing>, f: Firing, later: seq<Firing>, rest: seq<Id>, all: seq<Id>)
    requires log + [f] <= later && IsSubseq(Ids(later[|log| + 1..]), rest)
    requires all != [] && all[0] == f.id && IsSubseq(rest, all[1..])
    ensures IsSubseq(Ids(later[|log|..]), all)
  {
    assert later[|log|..] == [f] + later[|log| + 1..];
    SubseqTransitive(Ids(later[|log| + 1..]), rest, all[1..]);
  }

  // ----- Linked means activated, except for one-shot timers that restart themselves

  predicate Agree(s: State) {
    forall x :: x in s.timers ==> (x in s.queue <==> s.timers[x].active)
  }

  lemma DoKeepsAgree(s: State, c: Cmd)
    requires Ready(s, c) && Agree(s)
    ensures Agree(Do(s, c))
  {
  }

  /** Whether a timeout function leaves its own timer linked, activated, periodic. */
  function LeavesLinked(cs: seq<Cmd>, h: Id, linked: bool): bool {
    if cs == [] then linked
    else LeavesLinked(cs[1..], h, cs[0] == Start(h) || (cs[0] != Stop(h) && linked))
  }

  function LeavesPeriodic(cs: seq<Cmd>, h: Id, periodic: bool): bool {
    if cs == [] then periodic
    else LeavesPeriodic(cs[1..], h, if cs[0].SetPeriodic? && cs[0].id == h then cs[0].on else periodic)
  }

  predicate AgreeBut(s: State, h: Id) {
    && h in s.timers && (h in s.queue ==> s.timers[h].active)
    && forall x :: x in s.timers && x != h ==> (x in s.queue <==> s.timers[x].active)
  }

  lemma {:induction false} DoAllAgrees(s: State, cs: seq<Cmd>, h: Id)
    requires Inv(s, 1) && AllReady(s, cs) && AgreeBut(s, h)
    ensures var r := DoAll(s, cs);
      && AgreeBut(r, h)
      && (h in r.queue <==> LeavesLinked(cs, h, h in s.queue))
      && r.timers[h].periodic == LeavesPeriodic(cs, h, s.timers[h].periodic)
    decreases |cs|
  {
    if cs != [] {
      DoKeepsInv(s, cs[0], 1);
      DoAgrees(s, cs[0], h);
      DoAllAgrees(Do(s, cs[0]), cs[1..], h);
    }
  }

  lemma DoAgrees(s: State, c: Cmd, h: Id)
    requires Ready(s, c) && AgreeBut(s, h)
    ensures AgreeBut(Do(s, c), h)
    ensures h in Do(s, c).queue <==> c == Start(h) || (c != Stop(h) && h in s.queue)
    ensures Do(s, c).timers[h].periodic == if c.SetPeriodic? && c.id == h then c.on else s.timers[h].periodic
  {
  }

  /** Firing keeps "linked iff activated" exactly when the timer ends up periodic or its
      timeout function does not leave it started. */
  lemma FireAgreement(s: State, script: Script)
    requires Inv(s, 1) && HeadDue(s) && CanFire(s, script) && Agree(s)
    ensures var h := s.queue[0]; var cs := Commands(script, h);
      Agree(Fire(s, script)) <==> LeavesPeriodic(cs, h, s.timers[h].periodic) || !LeavesLinked(cs, h, false)
  {
    var h := s.queue[0];
    assert h in s.queue;
    assert AgreeBut(Unlinked(s), h);
    DoAllAgrees(Unlinked(s), Commands(script, h), h);
  }

  /** A one-shot timer that restarts itself is linked but not activated, and can then not be
      stopped: `rt_timer_stop` refuses and it fires anyway. */
  lemma RestartedOneShotCannotBeStopped()
    ensures exists s: State, script: Script ::
      && Inv(s, 1) && HeadDue(s) && CanFire(s, script) && Agree(s)
      && Ready(Fire(s, script), Stop(s.queue[0]))
      && s.queue[0] in Do(Fire(s, script), Stop(s.queue[0])).queue
  {
    var s := State(9, [7], map[7 := Timer(5, 9, false, true)], []);
    var script: Script := map[7 := [Start(7)]];
    var cs, u := Commands(script, 7), Unlinked(s);
    assert cs[1..] == [] && AllReady(u, cs) && DoAll(u, cs) == Do(u, Start(7));
    var r := Fire(s, script);
    assert 7 in r.queue && !r.timers[7].active;
    assert Do(r, Stop(7)) == r;
  }
}
