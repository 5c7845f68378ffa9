// Event sets: src/ipc.c, rt_event_send, rt_event_recv and the reset command.
module Event {
  import opened Lists
  import opened Options
  import opened WaitGate

  /** A 32-bit mask, as the set of the numbers of its bits. */
  type Bits = set<nat>

  /** What a receiver asks for: RT_EVENT_FLAG_AND, _OR and _CLEAR. */
  datatype Want = Want(bits: Bits, all: bool, any: bool, clear: bool)

  /** `got` holds what threads resumed by a send, and not run since, will report. */
  datatype State = State(bits: Bits, waiting: seq<Tid>, want: map<Tid, Want>, got: map<Tid, Bits>)

  datatype Hit = Hit(recved: Bits, left: Bits)

  datatype Outcome = Received(recved: Bits) | Blocked | TimedOut | Error | Sent | Done

  datatype Step = Send(sent: Bits) | Recv(t: Tid, w: Want, timeout: int) | Finish(t: Tid) | Expire(t: Tid) | Reset

  const Empty := State({}, [], map[], map[])

  predicate Satisfied(e: Bits, w: Want) {
    if w.all then w.bits <= e else w.any && e * w.bits != {}
  }

  /** What an immediate receive answers on event set `e`. */
  function Answer(e: Bits, w: Want): Option<Hit> {
    if Satisfied(e, w) then Some(Hit(e * w.bits, if w.clear then e - w.bits else e)) else None
  }

  // ----- A send, as a round of immediate receives

  datatype Round = Round(bits: Bits, waiting: seq<Tid>, got: map<Tid, Bits>)

  /** Each waiter in turn receives from what those before it have left. */
  function Serve(e: Bits, q: seq<Tid>, want: map<Tid, Want>): Round
    requires forall i :: 0 <= i < |q| ==> q[i] in want
  {
    if q == [] then Round(e, [], map[]) else
      var t := q[|q| - 1];
      Attend(Serve(e, q[..|q| - 1], want), t, want[t])
  }

  function Attend(r: Round, t: Tid, w: Want): Round {
    match Answer(r.bits, w)
    case None => r.(waiting := r.waiting + [t])
    case Some(h) => r.(bits := h.left, got := r.got[t := h.recved])
  }

  function Do(s: State, order: Order, step: Step): (State, Outcome)
    requires Listed(s) && (step.Finish? ==> step.t in s.got)
  {
    match step
    case Send(sent) =>
      if sent == {} then (s, Error) else
        var r := Serve(s.bits + sent, s.waiting, s.want);
        (s.(bits := r.bits, waiting := r.waiting, got := s.got + r.got), Sent)
    case Recv(t, w, timeout) =>
      var a := Answer(s.bits, w);
      if w.bits == {} then (s, Error)
      else if a.Some? then (s.(bits := a.value.left), Received(a.value.recved))
      else if timeout == 0 then (s, TimedOut)
      else (s.(waiting := Suspend(s.waiting, order, t), want := s.want[t := w]), Blocked)
    case Finish(t) => (s.(got := s.got - {t}), Received(s.got[t]))
    case Expire(t) => (s.(waiting := Without(s.waiting, t)), TimedOut)
    case Reset => (s.(bits := {}, waiting := []), Done)
  }

  predicate Listed(s: State) { forall t :: t in s.waiting ==> t in s.want }

  /** Only threads that are neither suspended nor still to return call; the option names AND
      or OR, which the code asserts. */
  predicate Legal(s: State, step: Step) {
    match step
    case Recv(t, w, _) => t !in s.waiting && t !in s.got && (w.all || w.any)
    case Finish(t) => t in s.got
    case Expire(t) => t in s.waiting
    case _ => true
  }

  // ----- Invariant: nobody sleeps on a satisfied condition

  predicate Inv(s: State) {
    && NoDup(s.waiting) && Listed(s)
    && (forall t :: t in s.waiting ==> t !in s.got && s.want[t].bits != {} && (s.want[t].all || s.want[t].any))
    && (forall t :: t in s.waiting ==> !Satisfied(s.bits, s.want[t]))
  }

  /** Clearing bits satisfies nobody. */
  lemma FewerBits(e: Bits, e': Bits, w: Want)
    requires e' <= e && !Satisfied(e, w)
    ensures !Satisfied(e', w)
  {
    assert e' * w.bits <= e * w.bits;
  }

  /** A round only clears bits, resumes exactly those it does not leave waiting, and leaves
      nobody satisfied. */
  lemma {:induction false} ServeLeavesNobody(e: Bits, q: seq<Tid>, want: map<Tid, Want>)
    requires NoDup(q) && forall i :: 0 <= i < |q| ==> q[i] in want
    ensures var r := Serve(e, q, want);
      && r.bits <= e && NoDup(r.waiting)
      && (forall t :: t in q <==> t in r.waiting || t in r.got)
      && (forall t :: t in r.waiting ==> t !in r.got)
      && (forall t :: t in r.waiting ==> !Satisfied(r.bits, want[t]))
  {
    if q != [] {
      var rest, t := q[..|q| - 1], q[|q| - 1];
      assert q == rest + [t];
      ServeLeavesNobody(e, rest, want);
      var r1 := Serve(e, rest, want);
      var r := Attend(r1, t, want[t]);
      assert t !in rest;
      assert forall i :: 0 <= i < |r1.waiting| ==> r1.waiting[i] in r1.waiting;
      forall x | x in r1.waiting ensures !Satisfied(r.bits, want[x]) { FewerBits(r1.bits, r.bits, want[x]); }
    }
  }

  /** Later turns do not touch what earlier ones decided. */
  lemma {:induction false} DecidedForGood(e: Bits, q: seq<Tid>, want: map<Tid, Want>, k: nat, t: Tid)
    requires NoDup(q) && (forall i :: 0 <= i < |q| ==> q[i] in want) && k <= |q| && t in q[..k]
    ensures var r, r' := Serve(e, q[..k], want), Serve(e, q, want);
      && (t in r.waiting <==> t in r'.waiting)
      && (t in r.got <==> t in r'.got) && (t in r.got ==> r'.got[t] == r.got[t])
    decreases |q|
  {
    if k < |q| {
      var rest := q[..|q| - 1];
      assert rest[..k] == q[..k];
      DecidedForGood(e, rest, want, k, t);
      var i :| 0 <= i < |q[..k]| && q[..k][i] == t;
      assert q[i] != q[|q| - 1];
    } else {
      assert q[..k] == q;
    }
  }

  /** A thread woken by a send gets what an immediate receive at its turn would have given it,
      and takes the same bits away from those behind it; the others would have got nothing. */
  lemma ServedInTurn(e: Bits, q: seq<Tid>, want: map<Tid, Want>, k: nat)
    requires NoDup(q) && k < |q| && forall i :: 0 <= i < |q| ==> q[i] in want
    ensures var r, now, after := Serve(e, q, want), Serve(e, q[..k], want).bits, Serve(e, q[..k + 1], want).bits;
      var a := Answer(now, want[q[k]]);
      && (a.None? ==> q[k] in r.waiting && q[k] !in r.got && after == now)
      && (a.Some? ==> q[k] !in r.waiting && q[k] in r.got && r.got[q[k]] == a.value.recved && after == a.value.left)
  {
    assert q[..k + 1][..k] == q[..k] && q[..k + 1][k] == q[k];
    DecidedForGood(e, q, want, k + 1, q[k]);
    ServeLeavesNobody(e, q[..k], want);
    assert q[k] !in q[..k];
  }

  lemma StepInv(s: State, order: Order, step: Step)
    requires Inv(s) && Legal(s, step)
    ensures Inv(Do(s, order, step).0)
  {
    match step
    case Send(sent) =>
      if sent != {} {
        ServeLeavesNobody(s.bits + sent, s.waiting, s.want);
        var q := Serve(s.bits + sent, s.waiting, s.want).waiting;
        assert forall i :: 0 <= i < |q| ==> q[i] in q;
      }
    case Recv(t, w, timeout) =>
      RecvInv(s, order, t, w, timeout);
    case Finish(t) =>
    case Expire(t) =>
      WithoutNoDup(s.waiting, t);
      var q := Without(s.waiting, t);
      assert forall i :: 0 <= i < |q| ==> q[i] in s.waiting;
    case Reset =>
  }

  lemma RecvInv(s: State, order: Order, t: Tid, w: Want, timeout: int)
    requires Inv(s) && Legal(s, Recv(t, w, timeout))
    ensures Inv(Do(s, order, Recv(t, w, timeout)).0)
  {
    if w.bits != {} {
      if Answer(s.bits, w).Some? {
        var left := Answer(s.bits, w).value.left;
        forall x | x in s.waiting ensures !Satisfied(left, s.want[x]) { FewerBits(s.bits, left, s.want[x]); }
      } else if timeout != 0 {
        SuspendNoDup(s.waiting, order, t);
        var s' := Do(s, order, Recv(t, w, timeout)).0;
        assert forall i :: 0 <= i < |s'.waiting| ==> s'.waiting[i] in s'.waiting;
      }
    }
  }

  // ----- What it comes to, bit by bit

  /** AND: every wanted bit is set; OR: some wanted bit is set. */
  ghost predicate Met(e: Bits, w: Want) {
    if w.all then forall b :: b in w.bits ==> b in e else exists b :: b in w.bits && b in e
  }

  /** The bits reported and the bits that stay, when a receive on `e` is answered. */
  ghost predicate Reported(e: Bits, w: Want, recved: Bits, left: Bits) {
    && (forall b :: b in recved <==> b in e && b in w.bits)
    && (forall b :: b in left <==> b in e && (b !in w.bits || !w.clear))
  }

  lemma AnswerBits(e: Bits, w: Want)
    requires w.all || w.any
    ensures Answer(e, w).Some? <==> Met(e, w)
    ensures Answer(e, w).Some? ==> Reported(e, w, Answer(e, w).value.recved, Answer(e, w).value.left)
  {
    if e * w.bits != {} {
      var b :| b in e * w.bits;
      assert b in w.bits && b in e;
    }
    if exists b :: b in w.bits && b in e {
      var b :| b in w.bits && b in e;
      assert b in e * w.bits;
    }
  }

  /** A receive is answered if and only if the wanted bits are set; it reports those that are
      set and wanted, and takes them away only with CLEAR. Otherwise it sleeps, or gives up at
      once, and no bit changes. */
  lemma RecvBits(s: State, order: Order, t: Tid, w: Want, timeout: int)
    requires Inv(s) && Legal(s, Recv(t, w, timeout))
    ensures w.bits == {} ==> Do(s, order, Recv(t, w, timeout)) == (s, Error)
    ensures w.bits != {} ==>
      var (s', r) := Do(s, order, Recv(t, w, timeout));
      && (r.Received? <==> Met(s.bits, w)) && s'.got == s.got
      && (r.Received? ==> Reported(s.bits, w, r.recved, s'.bits) && s' == s.(bits := s'.bits))
      && (!r.Received? && timeout == 0 ==> r == TimedOut && s' == s)
      && (!r.Received? && timeout != 0 ==> r == Blocked && s' == s.(waiting := s'.waiting, want := s.want[t := w]))
      && (!r.Received? && timeout != 0 ==> Joins(s.waiting, s'.waiting, order, t))
  {
    AnswerBits(s.bits, w);
    SuspendJoins(s.waiting, order, t);
  }

  /** What the turn of waiter `t` in a send does to the bits, `e` before it and `e'` after. */
  ghost predicate Turn(e: Bits, e': Bits, t: Tid, w: Want, s': State) {
    && (Met(e, w) <==> t in s'.got) && (Met(e, w) <==> t !in s'.waiting)
    && if Met(e, w) then t in s'.got && Reported(e, w, s'.got[t], e') else e' == e
  }

  lemma TurnBits(s: State, order: Order, sent: Bits, k: nat)
    requires Inv(s) && sent != {} && k < |s.waiting|
    ensures var e, q := s.bits + sent, s.waiting;
      && (forall i :: 0 <= i < |q| ==> q[i] in s.want)
      && Turn(Serve(e, q[..k], s.want).bits, Serve(e, q[..k + 1], s.want).bits, q[k], s.want[q[k]], Do(s, order, Send(sent)).0)
  {
    var e, q := s.bits + sent, s.waiting;
    assert forall i :: 0 <= i < |q| ==> q[i] in q;
    ServedInTurn(e, q, s.want, k);
    AnswerBits(Serve(e, q[..k], s.want).bits, s.want[q[k]]);
  }

  /** Answers already given stay, and only waiters get one. */
  ghost predicate Keeps(s: State, s': State) {
    && (forall t :: t in s.got ==> t in s'.got && s'.got[t] == s.got[t])
    && (forall t :: t in s'.got ==> t in s.got || t in s.waiting) && (forall t :: t in s'.waiting ==> t in s.waiting)
  }

  lemma SendKeeps(s: State, order: Order, sent: Bits)
    requires Inv(s) && sent != {}
    ensures Keeps(s, Do(s, order, Send(sent)).0)
  {
    ServeLeavesNobody(s.bits + sent, s.waiting, s.want);
  }

  /** A send sets its bits; then each waiter in list order is answered if and only if the bits
      left by those before it meet its condition. */
  lemma SendBits(s: State, order: Order, sent: Bits) returns (turns: seq<Bits>)
    requires Inv(s) && sent != {}
    ensures var s' := Do(s, order, Send(sent)).0;
      && |turns| == |s.waiting| + 1 && turns[0] == s.bits + sent && turns[|s.waiting|] == s'.bits
      && (forall k :: 0 <= k < |s.waiting| ==> Turn(turns[k], turns[k + 1], s.waiting[k], s.want[s.waiting[k]], s'))
    ensures Keeps(s, Do(s, order, Send(sent)).0)
  {
    var e, q := s.bits + sent, s.waiting;
    SendKeeps(s, order, sent);
    assert forall i :: 0 <= i < |q| ==> q[i] in q;
    turns := seq(|q| + 1, k requires 0 <= k <= |q| => Serve(e, q[..k], s.want).bits);
    assert q[..|q|] == q && q[..0] == [];
    forall k | 0 <= k < |q| ensures Turn(turns[k], turns[k + 1], q[k], s.want[q[k]], Do(s, order, Send(sent)).0) {
      TurnBits(s, order, sent, k);
    }
  }

  ghost predicate Drained(got: map<Tid, Bits>, got': map<Tid, Bits>, t: Tid) {
    forall x :: (x in got' <==> x in got && x != t) && (x in got' ==> got'[x] == got[x])
  }

  /** A waiter whose timer expires leaves its place, a resumed receiver takes its answer along,
      a reset leaves no bit and nobody waiting; nothing else changes. */
  lemma LeaveBits(s: State, order: Order, step: Step)
    requires Inv(s) && Legal(s, step) && (step.Expire? || step.Finish? || step.Reset?)
    ensures var (s', r) := Do(s, order, step);
      && s'.want == s.want
      && (step.Expire? ==> r == TimedOut && Drops(s.waiting, s'.waiting, step.t) && s'.bits == s.bits && s'.got == s.got)
      && (step.Finish? ==> r == Received(s.got[step.t]) && s' == s.(got := s'.got) && Drained(s.got, s'.got, step.t))
      && (step.Reset? ==> s'.bits == {} && s'.waiting == [] && s'.got == s.got)
  {
    if step.Expire? { WithoutDrops(s.waiting, step.t); }
  }

  // ----- Whole runs

  ghost predicate Run(s: State, order: Order, steps: seq<Step>, s': State)
    decreases |steps|
  {
    if steps == [] then s' == s else
      Inv(s) && Legal(s, steps[0]) && Run(Do(s, order, steps[0]).0, order, steps[1..], s')
  }

  /** In every reachable state no suspended thread's condition is met. */
  lemma {:induction false} Reachable(s: State, order: Order, steps: seq<Step>, s': State)
    requires Inv(s) && Run(s, order, steps, s')
    ensures Inv(s')
    decreases |steps|
  {
    if steps != [] {
      StepInv(s, order, steps[0]);
      Reachable(Do(s, order, steps[0]).0, order, steps[1..], s');
    }
  }

  lemma EmptyInv()
    ensures Inv(Empty)
  {
  }

  // ----- The code: the thread's own fields carry request and answer

  /** A thread's event_set and event_info. */
  datatype Info = Info(eventSet: Bits, all: bool, any: bool, clear: bool)

  function Asked(i: Info): Want { Want(i.eventSet, i.all, i.any, i.clear) }

  predicate AllIn(q: seq<Tid>, want: map<Tid, Want>) { forall i :: 0 <= i < |q| ==> q[i] in want }

  /** `t` still asks for what it asked when the send began. */
  predicate Asks(info: map<Tid, Info>, want: map<Tid, Want>, t: Tid) {
    t in info && t in want && Asked(info[t]) == want[t]
  }

  /** Halfway through the scan of a send: the first `k` waiters in `q` have been visited. */
  ghost predicate Scanning(bits: Bits, list: seq<Tid>, info: map<Tid, Info>,
                           e: Bits, q: seq<Tid>, want: map<Tid, Want>, k: nat)
    requires k <= |q| && AllIn(q, want)
  {
    var r := Serve(e, q[..k], want);
    && bits == r.bits && list == r.waiting + q[k..]
    && (forall t :: t in r.got ==> t in info && info[t].eventSet == r.got[t])
    && (forall i :: k <= i < |q| ==> Asks(info, want, q[i]))
    && (forall t :: t in r.waiting ==> Asks(info, want, t))
  }

  lemma NextWaiter(bits: Bits, list: seq<Tid>, info: map<Tid, Info>, e: Bits, q: seq<Tid>, want: map<Tid, Want>, k: nat)
    requires k <= |q| && AllIn(q, want) && NoDup(q) && Scanning(bits, list, info, e, q, want, k)
    requires |Serve(e, q[..k], want).waiting| < |list|
    ensures var r := Serve(e, q[..k], want);
      && k < |q| && list[|r.waiting|] == q[k] && Asks(info, want, q[k])
      && Serve(e, q[..k + 1], want) == Attend(r, q[k], want[q[k]])
      && q[k] !in r.waiting && q[k] !in r.got
  {
    ServeLeavesNobody(e, q[..k], want);
    assert q[..k + 1][..k] == q[..k];
    assert q[k] !in q[..k];
  }

  lemma DropAt(w: seq<Tid>, q: seq<Tid>, k: nat)
    requires k < |q|
    ensures var l := w + q[k..]; l[..|w|] + l[|w| + 1..] == w + q[k + 1..]
  {
    var l := w + q[k..];
    assert l[..|w|] == w;
    assert l[|w| + 1..] == q[k + 1..];
  }

  lemma AppendAt(w: seq<Tid>, q: seq<Tid>, k: nat)
    requires k < |q|
    ensures w + q[k..] == (w + [q[k]]) + q[k + 1..]
  {
    assert q[k..] == [q[k]] + q[k + 1..];
  }

  lemma Visited(b0: Bits, l0: seq<Tid>, i0: map<Tid, Info>, b1: Bits, l1: seq<Tid>, i1: map<Tid, Info>,
                e: Bits, q: seq<Tid>, want: map<Tid, Want>, k: nat)
    requires k < |q| && AllIn(q, want) && NoDup(q) && Scanning(b0, l0, i0, e, q, want, k)
    requires i1.Keys == i0.Keys && forall x :: x in i0 && x != q[k] ==> i1[x] == i0[x]
    requires var a, n := Answer(b0, want[q[k]]), |Serve(e, q[..k], want).waiting|;
      if a.Some? then b1 == a.value.left && i1[q[k]].eventSet == a.value.recved && l1 == l0[..n] + l0[n + 1..]
      else b1 == b0 && i1[q[k]] == i0[q[k]] && l1 == l0
    ensures Scanning(b1, l1, i1, e, q, want, k + 1)
  {
    var r := Serve(e, q[..k], want);
    assert |l0| > |r.waiting|;
    NextWaiter(b0, l0, i0, e, q, want, k);
    if Answer(b0, want[q[k]]).None? {
      AppendAt(r.waiting, q, k);
    } else {
      DropAt(r.waiting, q, k);
    }
    forall i | k + 1 <= i < |q| ensures Asks(i1, want, q[i]) { assert q[i] != q[k]; }
  }

  /** The fields of the object and of its threads are in state `s`. */
  ghost predicate Shown(bits: Bits, list: seq<Tid>, info: map<Tid, Info>, s: State) {
    && bits == s.bits && list == s.waiting && Listed(s)
    && (forall t :: t in s.waiting ==> Asks(info, s.want, t))
    && (forall t :: t in s.got ==> t in info && info[t].eventSet == s.got[t])
  }

  lemma ScanStart(bits: Bits, list: seq<Tid>, info: map<Tid, Info>, s: State, e: Bits)
    requires Inv(s) && Shown(bits, list, info, s)
    ensures Scanning(e, list, info, e, s.waiting, s.want, 0)
  {
    assert s.waiting[..0] == [];
    assert forall i :: 0 <= i < |s.waiting| ==> s.waiting[i] in s.waiting;
  }

  /** After the scan, the fields show the state after the send. */
  lemma ScanEnd(bits: Bits, list: seq<Tid>, info: map<Tid, Info>, s: State, order: Order, x: Bits)
    requires Inv(s) && x != {} && Scanning(bits, list, info, s.bits + x, s.waiting, s.want, |s.waiting|)
    requires forall t :: t in s.got ==> t in info && info[t].eventSet == s.got[t]
    ensures Shown(bits, list, info, Do(s, order, Send(x)).0)
  {
    assert s.waiting[..|s.waiting|] == s.waiting;
    var r := Serve(s.bits + x, s.waiting, s.want);
    ServeLeavesNobody(s.bits + x, s.waiting, s.want);
    assert forall i :: 0 <= i < |r.waiting| ==> r.waiting[i] in r.waiting;
  }

  lemma BlockShown(bits: Bits, list: seq<Tid>, info: map<Tid, Info>, s: State, order: Order, t: Tid, i: Info)
    requires Inv(s) && Shown(bits, list, info, s) && t !in s.waiting && t !in s.got
    ensures Shown(bits, Suspend(list, order, t), info[t := i],
                  s.(waiting := Suspend(s.waiting, order, t), want := s.want[t := Asked(i)]))
  {
  }

  class EventObject {
    var bits: Bits
    var suspended: seq<Tid>
    var info: map<Tid, Info>

    constructor ()
      ensures Shows(Empty)
    {
      bits, suspended, info := {}, [], map[];
    }

    /** The object and its threads' fields are in state `s`. */
    ghost predicate Shows(s: State)
      reads this
    {
      Shown(bits, suspended, info, s)
    }

    /** rt_event_send's visit to one waiter: whether it is satisfied, and the bits taken. */
    method Visit(t: Tid) returns (ok: bool)
      requires t in info
      modifies this
      ensures suspended == old(suspended) && info.Keys == old(info.Keys)
      ensures forall x :: x in info && x != t ==> info[x] == old(info)[x]
      ensures var a := Answer(old(bits), Asked(old(info)[t]));
        && ok == a.Some?
        && (ok ==> bits == a.value.left && info[t].eventSet == a.value.recved)
        && (!ok ==> bits == old(bits) && info[t] == old(info)[t])
    {
      var th := info[t];
      ok := false;
      if th.all {
        ok := th.eventSet * bits == th.eventSet;
        assert th.eventSet <= bits <==> th.eventSet * bits == th.eventSet;
      } else if th.any {
        if th.eventSet * bits != {} {
          // narrowing first clears the same bits
          assert bits - th.eventSet * bits == bits - th.eventSet;
          th := th.(eventSet := th.eventSet * bits);
          info := info[t := th];
          ok := true;
        }
      }
      if ok && th.clear { bits := bits - th.eventSet; }
    }

    /** The scan of rt_event_send over the suspend list. */
    method Scan(ghost e: Bits, ghost q: seq<Tid>, ghost want: map<Tid, Want>)
      requires NoDup(q) && AllIn(q, want) && Scanning(bits, suspended, info, e, q, want, 0)
      modifies this
      ensures suspended == Serve(e, q, want).waiting && Scanning(bits, suspended, info, e, q, want, |q|)
      ensures forall t :: t in old(info) && t !in q ==> t in info && info[t] == old(info)[t]
    {
      var n := 0;
      ghost var k := 0;
      while n < |suspended|
        invariant 0 <= k <= |q| && Scanning(bits, suspended, info, e, q, want, k)
        invariant n == |Serve(e, q[..k], want).waiting|
        invariant forall t :: t in old(info) && t !in q ==> t in info && info[t] == old(info)[t]
        decreases |q| - k
      {
        n := ScanOne(n, e, q, want, k);
        k := k + 1;
      }
      assert q[..|q|] == q;
    }

    method ScanOne(n: nat, ghost e: Bits, ghost q: seq<Tid>, ghost want: map<Tid, Want>, ghost k: nat) returns (m: nat)
      requires NoDup(q) && AllIn(q, want) && k <= |q| && Scanning(bits, suspended, info, e, q, want, k)
      requires n == |Serve(e, q[..k], want).waiting| && n < |suspended|
      modifies this
      ensures k < |q| && Scanning(bits, suspended, info, e, q, want, k + 1)
      ensures m == |Serve(e, q[..k + 1], want).waiting|
      ensures forall t :: t in old(info) && t !in q ==> t in info && info[t] == old(info)[t]
    {
      var t := suspended[n];
      ghost var b0, l0, i0 := bits, suspended, info;
      NextWaiter(b0, l0, i0, e, q, want, k);
      var ok := Visit(t);
      if ok {
        suspended := suspended[..n] + suspended[n + 1..];
        m := n;
      } else {
        m := n + 1;
      }
      Visited(b0, l0, i0, bits, suspended, info, e, q, want, k);
    }

    /** rt_event_send */
    method SendEvent(ghost s: State, ghost order: Order, x: Bits) returns (r: Outcome)
      requires Inv(s) && Shows(s)
      modifies this
      ensures Shows(Do(s, order, Send(x)).0) && r == Do(s, order, Send(x)).1
    {
      if x == {} { return Error; }
      ScanStart(bits, suspended, info, s, bits + x);
      bits := bits + x;
      Scan(bits, s.waiting, s.want);
      ScanEnd(bits, suspended, info, s, order, x);
      r := Sent;
    }

    /** rt_event_recv, up to the point where the caller would sleep. */
    method Receive(ghost s: State, order: Order, t: Tid, x: Bits, all: bool, any: bool, clear: bool, timeout: int)
      returns (r: Outcome)
      requires Inv(s) && Shows(s) && Legal(s, Recv(t, Want(x, all, any, clear), timeout))
      modifies this
      ensures var d := Do(s, order, Recv(t, Want(x, all, any, clear), timeout)); Shows(d.0) && r == d.1
    {
      if x == {} { return Error; }
      var ok := false;
      if all {
        ok := bits * x == x;
        assert x <= bits <==> bits * x == x;
      } else if any {
        ok := bits * x != {};
      }
      if ok {
        r := Received(bits * x);
        if clear { bits := bits - x; }
      } else if timeout == 0 {
        r := TimedOut;
      } else {
        BlockShown(bits, suspended, info, s, order, t, Info(x, all, any, clear));
        info := info[t := Info(x, all, any, clear)];
        suspended := ListSuspend(suspended, order, t);
        r := Blocked;
      }
    }

    /** A receiver resumed by a send returns its event_set. */
    method FinishReceive(ghost s: State, ghost order: Order, t: Tid) returns (r: Outcome)
      requires Inv(s) && Shows(s) && t in s.got
      ensures var d := Do(s, order, Finish(t)); Shows(d.0) && r == d.1
    {
      r := Received(info[t].eventSet);
    }

    /** rt_thread_timeout on a thread suspended here. */
    method Timeout(ghost s: State, ghost order: Order, t: Tid)
      requires Inv(s) && Shows(s) && t in suspended
      modifies this
      ensures Shows(Do(s, order, Expire(t)).0)
    {
      StepInv(s, order, Expire(t));
      suspended := Without(suspended, t);
    }

    /** RT_IPC_CMD_RESET: everyone is resumed with an error. */
    method ResetEvent(ghost s: State, ghost order: Order)
      requires Inv(s) && Shows(s)
      modifies this
      ensures Shows(Do(s, order, Reset).0)
    {
      while suspended != []
        invariant bits == old(bits) && info == old(info)
        decreases |suspended|
      {
        suspended := suspended[1..];
      }
      bits := {};
    }
  }
}
