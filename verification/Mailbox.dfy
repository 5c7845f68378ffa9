// The mailbox of src/ipc.c: a ring buffer of words, senders waiting for room and receivers
// waiting for mail.
module Mailbox {
  import opened Lists
  import opened WaitGate

  /** `sending` and `receiving` are the local variables (mail, remaining timeout) of the calls
      that suspended; entries of finished calls are stale. */
  datatype Box = Box(size: nat, mails: seq<int>, send: Gate, recv: Gate,
                     sending: map<Tid, (int, int)>, receiving: map<Tid, int>)

  datatype Outcome = Done | Mail(value: int) | Blocked | Full | Empty | Expired

  datatype Step =
    | SendEnter(t: Tid, value: int, timeout: int)
    | SendResume(t: Tid, elapsed: nat)
    | RecvEnter(t: Tid, timeout: int)
    | RecvResume(t: Tid, elapsed: nat)
    | Timeout(t: Tid)
    | Reset

  predicate Enabled(b: Box, s: Step) {
    match s
    case SendEnter(t, _, _) => !Inside(b.send, t) && !Inside(b.recv, t)
    case RecvEnter(t, _) => !Inside(b.send, t) && !Inside(b.recv, t)
    case SendResume(t, _) => t in b.send.woken && t in b.sending
    case RecvResume(t, _) => t in b.recv.woken && t in b.receiving
    case Timeout(t) => t in b.send.waiting || t in b.recv.waiting
    case Reset => true
  }

  /** Loop head of rt_mb_send_wait. */
  function TrySend(b: Box, order: Order, t: Tid, value: int, timeout: int): (Box, Outcome) {
    if |b.mails| != b.size then
      (b.(mails := b.mails + [value], send := Leave(b.send, t), recv := Wake(b.recv)), Done)
    else if timeout == 0 then
      (b.(send := Leave(b.send, t)), Full)
    else
      (b.(send := Block(b.send, order, t), sending := b.sending[t := (value, timeout)]), Blocked)
  }

  /** Loop head of rt_mb_recv. */
  function TryRecv(b: Box, order: Order, t: Tid, timeout: int): (Box, Outcome) {
    if b.mails != [] then
      (b.(mails := b.mails[1..], recv := Leave(b.recv, t), send := Wake(b.send)), Mail(b.mails[0]))
    else if timeout == 0 then
      (b.(recv := Leave(b.recv, t)), Empty)
    else
      (b.(recv := Block(b.recv, order, t), receiving := b.receiving[t := timeout]), Blocked)
  }

  function TimedOut(b: Box, t: Tid): Box {
    b.(send := Expire(b.send, t), recv := Expire(b.recv, t))
  }

  function Cleared(b: Box): Box {
    b.(mails := [], send := Flush(b.send), recv := Flush(b.recv))
  }

  function Do(b: Box, order: Order, s: Step): (Box, Outcome)
    requires Enabled(b, s)
  {
    match s
    case SendEnter(t, value, timeout) => TrySend(b, order, t, value, timeout)
    case SendResume(t, elapsed) => TrySend(b, order, t, b.sending[t].0, Remaining(b.sending[t].1, elapsed))
    case RecvEnter(t, timeout) => TryRecv(b, order, t, timeout)
    case RecvResume(t, elapsed) => TryRecv(b, order, t, Remaining(b.receiving[t], elapsed))
    case Timeout(t) => (TimedOut(b, t), Expired)
    case Reset => (Cleared(b), Done)
  }

  // ----- Every reachable state

  /** A thread is inside at most one gate, with its local variables at hand. */
  ghost predicate Places(b: Box) {
    forall t :: (Inside(b.send, t) ==> t in b.sending && !Inside(b.recv, t)) && (Inside(b.recv, t) ==> t in b.receiving)
  }

  /** Never over-full, and no lost wakeup on either side. */
  ghost predicate Inv(b: Box) {
    && Places(b) && |b.mails| <= b.size
    && Sound(b.size - |b.mails|, b.send) && Sound(|b.mails|, b.recv)
  }

  lemma TrySendInv(b: Box, order: Order, t: Tid, value: int, timeout: int)
    requires Inv(b) && t !in b.send.waiting && !Inside(b.recv, t)
    ensures Inv(TrySend(b, order, t, value, timeout).0)
  {
    if |b.mails| != b.size {
      TakeSound(b.size - |b.mails|, b.send, t);
      WakeSound(|b.mails|, b.recv);
    } else if timeout == 0 {
      GiveUpSound(b.send, t);
    } else {
      BlockSound(b.send, order, t);
    }
  }

  lemma TryRecvInv(b: Box, order: Order, t: Tid, timeout: int)
    requires Inv(b) && t !in b.recv.waiting && !Inside(b.send, t)
    ensures Inv(TryRecv(b, order, t, timeout).0)
  {
    if b.mails != [] {
      TakeSound(|b.mails|, b.recv, t);
      WakeSound(b.size - |b.mails|, b.send);
    } else if timeout == 0 {
      GiveUpSound(b.recv, t);
    } else {
      BlockSound(b.recv, order, t);
    }
  }

  lemma StepInv(b: Box, order: Order, s: Step)
    requires Inv(b) && Enabled(b, s)
    ensures Inv(Do(b, order, s).0)
  {
    match s
    case SendEnter(t, value, timeout) => TrySendInv(b, order, t, value, timeout);
    case SendResume(t, elapsed) =>
      assert Inside(b.send, t);
      TrySendInv(b, order, t, b.sending[t].0, Remaining(b.sending[t].1, elapsed));
    case RecvEnter(t, timeout) => TryRecvInv(b, order, t, timeout);
    case RecvResume(t, elapsed) =>
      assert Inside(b.recv, t);
      TryRecvInv(b, order, t, Remaining(b.receiving[t], elapsed));
    case Timeout(t) =>
      ExpireSound(b.size - |b.mails|, b.send, t);
      ExpireSound(|b.mails|, b.recv, t);
    case Reset =>
      FlushSound(b.size, b.send);
      FlushSound(0, b.recv);
  }

  predicate LegalRun(b: Box, order: Order, ss: seq<Step>)
    decreases |ss|
  {
    ss == [] || (Enabled(b, ss[0]) && LegalRun(Do(b, order, ss[0]).0, order, ss[1..]))
  }

  function Run(b: Box, order: Order, ss: seq<Step>): Box
    requires LegalRun(b, order, ss)
    decreases |ss|
  {
    if ss == [] then b else Run(Do(b, order, ss[0]).0, order, ss[1..])
  }

  /** Over every run of senders, receivers, timeouts and resets, from an empty mailbox: never
      more mails than slots, and whenever somebody waits, everything available is promised to
      threads already woken. */
  lemma {:induction false} Reachable(b: Box, order: Order, ss: seq<Step>)
    requires Inv(b) && LegalRun(b, order, ss)
    ensures Inv(Run(b, order, ss)) && Run(b, order, ss).size == b.size
    decreases |ss|
  {
    if ss != [] {
      StepInv(b, order, ss[0]);
      Reachable(Do(b, order, ss[0]).0, order, ss[1..]);
    }
  }

  lemma FreshInv(size: nat)
    ensures Inv(Box(size, [], Gate([], {}), Gate([], {}), map[], map[]))
  {
  }

  // ----- What each step does, to mails and to threads

  ghost predicate SendEffect(b: Box, order: Order, t: Tid, value: int, timeout: int, r: Box, out: Outcome) {
    if |b.mails| < b.size then
      out == Done && r.mails == b.mails + [value] && Departs(b.send, r.send, t) && WakesFirst(b.recv, r.recv)
    else
      && r.mails == b.mails && r.recv == b.recv
      && if timeout == 0 then out == Full && Departs(b.send, r.send, t)
         else out == Blocked && Sleeps(b.send, r.send, order, t) && t in r.sending && r.sending[t] == (value, timeout)
  }

  ghost predicate RecvEffect(b: Box, order: Order, t: Tid, timeout: int, r: Box, out: Outcome) {
    if b.mails != [] then
      out.Mail? && b.mails == [out.value] + r.mails && Departs(b.recv, r.recv, t) && WakesFirst(b.send, r.send)
    else
      && r.mails == [] && r.send == b.send
      && if timeout == 0 then out == Empty && Departs(b.recv, r.recv, t)
         else out == Blocked && Sleeps(b.recv, r.recv, order, t) && t in r.receiving && r.receiving[t] == timeout
  }

  lemma TrySendEffect(b: Box, order: Order, t: Tid, value: int, timeout: int)
    requires Inv(b)
    ensures SendEffect(b, order, t, value, timeout, TrySend(b, order, t, value, timeout).0, TrySend(b, order, t, value, timeout).1)
  {
    WakeFirst(b.recv);
    BlockSleeps(b.send, order, t);
  }

  lemma TryRecvEffect(b: Box, order: Order, t: Tid, timeout: int)
    requires Inv(b)
    ensures RecvEffect(b, order, t, timeout, TryRecv(b, order, t, timeout).0, TryRecv(b, order, t, timeout).1)
  {
    WakeFirst(b.send);
    BlockSleeps(b.recv, order, t);
  }

  /** A woken thread goes on with what it asked for and the time it has left. */
  ghost predicate Effect(b: Box, order: Order, s: Step, r: Box, out: Outcome)
    requires Enabled(b, s)
  {
    match s
    case SendEnter(t, value, timeout) => SendEffect(b, order, t, value, timeout, r, out)
    case SendResume(t, elapsed) => SendEffect(b, order, t, b.sending[t].0, Left(b.sending[t].1, elapsed), r, out)
    case RecvEnter(t, timeout) => RecvEffect(b, order, t, timeout, r, out)
    case RecvResume(t, elapsed) => RecvEffect(b, order, t, Left(b.receiving[t], elapsed), r, out)
    case Timeout(t) => r.mails == b.mails && Expires(b.send, r.send, t) && Expires(b.recv, r.recv, t)
    case Reset => r.mails == [] && Flushed(b.send, r.send) && Flushed(b.recv, r.recv)
  }

  /** A thread sleeps if and only if there is no room, or no mail, and it has time to wait; a
      mail wakes the first receiver, a slot the first sender, and nobody else. */
  lemma StepEffect(b: Box, order: Order, s: Step)
    requires Inv(b) && Enabled(b, s)
    ensures Effect(b, order, s, Do(b, order, s).0, Do(b, order, s).1)
  {
    match s
    case SendEnter(t, value, timeout) => TrySendEffect(b, order, t, value, timeout);
    case SendResume(t, elapsed) => TrySendEffect(b, order, t, b.sending[t].0, Left(b.sending[t].1, elapsed));
    case RecvEnter(t, timeout) => TryRecvEffect(b, order, t, timeout);
    case RecvResume(t, elapsed) => TryRecvEffect(b, order, t, Left(b.receiving[t], elapsed));
    case Timeout(t) =>
      ExpireDrops(b.send, t);
      ExpireDrops(b.recv, t);
    case Reset =>
  }

  // ----- Every mail is delivered once, in the order it was accepted

  /** The mail a step puts into the box, seen from the call: its own argument, or the argument
      remembered while it waited. */
  function Accepts(b: Box, order: Order, s: Step): (r: seq<int>)
    requires Enabled(b, s)
  {
    if Do(b, order, s).1 != Done then []
    else match s
      case SendEnter(_, value, _) => [value]
      case SendResume(t, _) => [b.sending[t].0]
      case _ => []
  }

  function Accepted(b: Box, order: Order, ss: seq<Step>): seq<int>
    requires LegalRun(b, order, ss)
    decreases |ss|
  {
    if ss == [] then [] else Accepts(b, order, ss[0]) + Accepted(Do(b, order, ss[0]).0, order, ss[1..])
  }

  function Delivered(b: Box, order: Order, ss: seq<Step>): seq<int>
    requires LegalRun(b, order, ss)
    decreases |ss|
  {
    if ss == [] then []
    else
      var (r, out) := Do(b, order, ss[0]);
      (if out.Mail? then [out.value] else []) + Delivered(r, order, ss[1..])
  }

  /** Without a reset, what was in the box and what senders were told is accepted is, in this
      order, what receivers got followed by what is still in the box. */
  lemma {:induction false} FifoDelivery(b: Box, order: Order, ss: seq<Step>)
    requires LegalRun(b, order, ss) && Reset !in ss
    ensures b.mails + Accepted(b, order, ss) == Delivered(b, order, ss) + Run(b, order, ss).mails
    decreases |ss|
  {
    if ss != [] {
      var (r, out) := Do(b, order, ss[0]);
      assert ss[0] in ss;
      FifoStep(b, order, ss[0]);
      FifoDelivery(r, order, ss[1..]);
      Balance(b.mails, Accepts(b, order, ss[0]), if out.Mail? then [out.value] else [], r.mails,
              Accepted(r, order, ss[1..]), Delivered(r, order, ss[1..]), Run(r, order, ss[1..]).mails);
    }
  }

  lemma FifoStep(b: Box, order: Order, s: Step)
    requires Enabled(b, s) && s != Reset
    ensures var (r, out) := Do(b, order, s);
      b.mails + Accepts(b, order, s) == (if out.Mail? then [out.value] else []) + r.mails
  {
  }

  // ----- The ring buffer

  function Wrapped(i: nat, size: nat): nat {
    if i >= size then i - size else i
  }

  /** The mails between out_offset and in_offset, in order. */
  predicate Holds(pool: seq<int>, out: nat, mails: seq<int>) {
    && |mails| <= |pool| && (|pool| > 0 ==> out < |pool|) && (|pool| == 0 ==> out == 0)
    && forall k :: 0 <= k < |mails| ==> mails[k] == pool[Wrapped(out + k, |pool|)]
  }

  class MailBox {
    const order: Order
    const pool: array<int>
    var inOffset: nat
    var outOffset: nat
    var entry: nat
    var suspendRecv: seq<Tid>
    var suspendSend: seq<Tid>
    ghost var b: Box

    ghost predicate Stands()
      reads this, pool
    {
      && b.size == pool.Length && entry == |b.mails| && Holds(pool[..], outOffset, b.mails)
      && inOffset == Wrapped(outOffset + entry, pool.Length)
      && suspendRecv == b.recv.waiting && suspendSend == b.send.waiting
    }

    constructor (size: nat, order: Order)
      ensures Stands() && Inv(b) && b == Box(size, [], Gate([], {}), Gate([], {}), map[], map[])
      ensures fresh(pool) && this.order == order
    {
      this.order := order;
      pool := new int[size];
      inOffset, outOffset, entry := 0, 0, 0;
      suspendRecv, suspendSend := [], [];
      b := Box(size, [], Gate([], {}), Gate([], {}), map[], map[]);
    }

    /** Loop head of rt_mb_send_wait and the store that follows it. */
    method SendAttempt(t: Tid, value: int, timeout: int) returns (out: Outcome)
      requires Stands()
      modifies this, pool
      ensures Stands() && (b, out) == TrySend(old(b), order, t, value, timeout)
    {
      if entry == pool.Length {
        if timeout == 0 {
          out := Full;
        } else {
          suspendSend := ListSuspend(suspendSend, order, t);
          out := Blocked;
        }
      } else {
        pool[inOffset] := value;
        inOffset := inOffset + 1;
        if inOffset >= pool.Length {
          inOffset := 0;
        }
        entry := entry + 1;
        if suspendRecv != [] {
          suspendRecv := suspendRecv[1..];
        }
        out := Done;
      }
      b := TrySend(b, order, t, value, timeout).0;
    }

    /** Loop head of rt_mb_recv and the load that follows it. */
    method RecvAttempt(t: Tid, timeout: int) returns (out: Outcome)
      requires Stands()
      modifies this
      ensures Stands() && (b, out) == TryRecv(old(b), order, t, timeout)
    {
      if entry == 0 {
        if timeout == 0 {
          out := Empty;
        } else {
          suspendRecv := ListSuspend(suspendRecv, order, t);
          out := Blocked;
        }
      } else {
        out := Mail(pool[outOffset]);
        outOffset := outOffset + 1;
        if outOffset >= pool.Length {
          outOffset := 0;
        }
        entry := entry - 1;
        if suspendSend != [] {
          suspendSend := suspendSend[1..];
        }
      }
      b := TryRecv(b, order, t, timeout).0;
    }

    /** rt_thread_timeout of a waiting thread. */
    method Timeout(t: Tid)
      requires Stands()
      modifies this
      ensures Stands() && b == TimedOut(old(b), t)
    {
      suspendSend := Without(suspendSend, t);
      suspendRecv := Without(suspendRecv, t);
      b := TimedOut(b, t);
    }

    /** RT_IPC_CMD_RESET. */
    method Reset()
      requires Stands()
      modifies this
      ensures Stands() && b == Cleared(old(b))
    {
      suspendRecv, suspendSend := [], [];
      entry, inOffset, outOffset := 0, 0, 0;
      b := Cleared(b);
    }
  }
}
