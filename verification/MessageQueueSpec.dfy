// The message queue of src/ipc.c as a protocol: its critical sections are atomic steps, and the
// copies into and out of message nodes happen between them, interleaved with everything else.
module MessageQueueSpec {
  import opened Lists
  import opened WaitGate

  type Node = nat
  type Msg = seq<int>

  /** A node in the hands of a thread between its two critical sections. */
  datatype Job =
    | Fill(node: Node, msg: Msg, urgent: bool, copied: bool)
    | Drain(node: Node, msg: Msg)

  /** `sending` keeps the message and remaining timeout of every sender inside the send gate,
      `receiving` the timeout of every receiver inside the receive gate. */
  datatype Queue = Queue(free: seq<Node>, queue: seq<Node>, body: map<Node, Msg>,
                         send: Gate, recv: Gate, sending: map<Tid, (Msg, int)>, receiving: map<Tid, int>,
                         jobs: map<Tid, Job>, msgSize: nat)

  datatype Outcome = Copying | Blocked | Full | TooLong | Empty | Done | Received(msg: Msg) | Expired

  datatype Step =
    | SendEnter(t: Tid, msg: Msg, timeout: int)
    | SendResume(t: Tid, elapsed: nat)
    | UrgentEnter(t: Tid, msg: Msg)
    | CopyIn(t: Tid)
    | Publish(t: Tid)
    | RecvEnter(t: Tid, timeout: int)
    | RecvResume(t: Tid, elapsed: nat)
    | RecvFinish(t: Tid, room: nat)
    | Timeout(t: Tid)
    | Reset

  predicate Busy(q: Queue, t: Tid) {
    t in q.sending || t in q.receiving || t in q.jobs
  }

  /** Who may take a step: a running thread enters, a woken one resumes, a job owner goes on. */
  predicate Enabled(q: Queue, s: Step) {
    match s
    case SendEnter(t, _, _) => !Busy(q, t)
    case UrgentEnter(t, _) => !Busy(q, t)
    case RecvEnter(t, _) => !Busy(q, t)
    case SendResume(t, _) => t in q.send.woken && t in q.sending
    case RecvResume(t, _) => t in q.recv.woken && t in q.receiving
    case CopyIn(t) => t in q.jobs && q.jobs[t].Fill? && !q.jobs[t].copied
    case Publish(t) => t in q.jobs && q.jobs[t].Fill? && q.jobs[t].copied
    case RecvFinish(t, _) => t in q.jobs && q.jobs[t].Drain?
    case Timeout(t) => t in q.send.waiting || t in q.recv.waiting
    case Reset => true
  }

  // ----- The steps

  /** The loop head of rt_mq_send_wait for a thread that has left the gate, if it was inside. */
  function TrySend(q: Queue, order: Order, t: Tid, msg: Msg, timeout: int): (Queue, Outcome) {
    if |msg| > q.msgSize then (q, TooLong)
    else if q.free != [] then
      (q.(free := q.free[1..], send := Leave(q.send, t), sending := q.sending - {t},
          jobs := q.jobs[t := Fill(q.free[0], msg, false, false)]), Copying)
    else if timeout == 0 then
      (q.(send := Leave(q.send, t), sending := q.sending - {t}), Full)
    else
      (q.(send := Block(q.send, order, t), sending := q.sending[t := (msg, timeout)]), Blocked)
  }

  /** What a node holds. */
  function Text(body: map<Node, Msg>, n: Node): Msg {
    if n in body then body[n] else []
  }

  /** What fits into a buffer of `room` bytes. */
  function Prefix(m: Msg, room: nat): Msg {
    if |m| <= room then m else m[..room]
  }

  function TryRecv(q: Queue, order: Order, t: Tid, timeout: int): (Queue, Outcome) {
    if q.queue != [] then
      (q.(queue := q.queue[1..], recv := Leave(q.recv, t), receiving := q.receiving - {t},
          jobs := q.jobs[t := Drain(q.queue[0], Text(q.body, q.queue[0]))]), Copying)
    else if timeout == 0 then
      (q.(recv := Leave(q.recv, t), receiving := q.receiving - {t}), Empty)
    else
      (q.(recv := Block(q.recv, order, t), receiving := q.receiving[t := timeout]), Blocked)
  }

  function TryUrgent(q: Queue, t: Tid, msg: Msg): (Queue, Outcome) {
    if |msg| > q.msgSize then (q, TooLong)
    else if q.free == [] then (q, Full)
    else (q.(free := q.free[1..], jobs := q.jobs[t := Fill(q.free[0], msg, true, false)]), Copying)
  }

  function Filled(q: Queue, t: Tid): Queue
    requires t in q.jobs && q.jobs[t].Fill?
  {
    var j := q.jobs[t];
    q.(body := q.body[j.node := j.msg], jobs := q.jobs[t := j.(copied := true)])
  }

  function Published(q: Queue, t: Tid): Queue
    requires t in q.jobs && q.jobs[t].Fill?
  {
    var j := q.jobs[t];
    q.(queue := if j.urgent then [j.node] + q.queue else q.queue + [j.node], recv := Wake(q.recv), jobs := q.jobs - {t})
  }

  function Finished(q: Queue, t: Tid): Queue
    requires t in q.jobs
  {
    q.(free := [q.jobs[t].node] + q.free, send := Wake(q.send), jobs := q.jobs - {t})
  }

  function TimedOut(q: Queue, t: Tid): Queue {
    q.(send := Expire(q.send, t), recv := Expire(q.recv, t), sending := q.sending - {t}, receiving := q.receiving - {t})
  }

  function Reversed(s: seq<Node>): seq<Node> {
    if s == [] then [] else Reversed(s[1..]) + [s[0]]
  }

  function Cleared(q: Queue): Queue {
    q.(free := Reversed(q.queue) + q.free, queue := [], send := Flush(q.send), recv := Flush(q.recv),
       sending := map t | t in q.sending && t in q.send.woken :: q.sending[t],
       receiving := map t | t in q.receiving && t in q.recv.woken :: q.receiving[t])
  }

  function Do(q: Queue, order: Order, s: Step): (Queue, Outcome)
    requires Enabled(q, s)
  {
    match s
    case SendEnter(t, msg, timeout) => TrySend(q, order, t, msg, timeout)
    case SendResume(t, elapsed) => TrySend(q, order, t, q.sending[t].0, Remaining(q.sending[t].1, elapsed))
    case UrgentEnter(t, msg) => TryUrgent(q, t, msg)
    case CopyIn(t) => (Filled(q, t), Copying)
    case Publish(t) => (Published(q, t), Done)
    case RecvEnter(t, timeout) => TryRecv(q, order, t, timeout)
    case RecvResume(t, elapsed) => TryRecv(q, order, t, Remaining(q.receiving[t], elapsed))
    case RecvFinish(t, room) => (Finished(q, t), Received(Prefix(Text(q.body, q.jobs[t].node), room)))
    case Timeout(t) => (TimedOut(q, t), Outcome.Expired)
    case Reset => (Cleared(q), Done)
  }

  // ----- The invariant

  /** Free list, queue and nodes in flight are disjoint and duplicate free. */
  predicate Partition(free: seq<Node>, queue: seq<Node>, jobs: map<Tid, Job>) {
    && NoDup(free) && NoDup(queue)
    && (forall n :: n in free ==> n !in queue)
    && (forall t :: t in jobs ==> jobs[t].node !in free && jobs[t].node !in queue)
    && (forall t, u :: t in jobs && u in jobs && t != u ==> jobs[t].node != jobs[u].node)
  }

  /** Queued messages and finished copies are really in their nodes. */
  predicate Bodies(queue: seq<Node>, body: map<Node, Msg>, jobs: map<Tid, Job>) {
    && (forall n :: n in queue ==> n in body)
    && (forall t :: t in jobs && (jobs[t].Drain? || jobs[t].copied) ==>
          jobs[t].node in body && body[jobs[t].node] == jobs[t].msg)
  }

  /** Each thread is in at most one place. */
  ghost predicate Places(send: Gate, recv: Gate, sending: map<Tid, (Msg, int)>, receiving: map<Tid, int>, jobs: map<Tid, Job>) {
    && (forall t :: t in sending <==> Inside(send, t))
    && (forall t :: t in receiving <==> Inside(recv, t))
    && (forall t :: t in sending ==> t !in receiving && t !in jobs)
    && (forall t :: t in receiving ==> t !in jobs)
  }

  ghost predicate Inv(q: Queue) {
    && Partition(q.free, q.queue, q.jobs)
    && Bodies(q.queue, q.body, q.jobs)
    && Places(q.send, q.recv, q.sending, q.receiving, q.jobs)
    && Sound(|q.free|, q.send) && Sound(|q.queue|, q.recv)
  }

  /** The number of nodes never changes. */
  function Nodes(q: Queue): nat {
    |q.free| + |q.queue| + |q.jobs|
  }

  // ----- Nodes changing hands

  lemma JobRemoved(jobs: map<Tid, Job>, t: Tid)
    requires t in jobs
    ensures |jobs - {t}| == |jobs| - 1
  {
    assert (jobs - {t}).Keys == jobs.Keys - {t};
    assert |jobs - {t}| == |(jobs - {t}).Keys| && |jobs| == |jobs.Keys|;
  }

  lemma JobAdded(jobs: map<Tid, Job>, t: Tid, j: Job)
    requires t !in jobs
    ensures |jobs[t := j]| == |jobs| + 1
  {
    assert jobs[t := j].Keys == jobs.Keys + {t};
    assert |jobs[t := j]| == |jobs[t := j].Keys| && |jobs| == |jobs.Keys|;
  }

  lemma TailOf(s: seq<Node>)
    requires s != [] && NoDup(s)
    ensures NoDup(s[1..]) && s[0] !in s[1..] && s[0] in s && forall n :: n in s[1..] ==> n in s
  {
  }

  lemma TakeFree(free: seq<Node>, queue: seq<Node>, jobs: map<Tid, Job>, t: Tid, j: Job)
    requires Partition(free, queue, jobs) && free != [] && t !in jobs && j.node == free[0]
    ensures Partition(free[1..], queue, jobs[t := j])
  {
    TailOf(free);
  }

  lemma TakeQueued(free: seq<Node>, queue: seq<Node>, jobs: map<Tid, Job>, t: Tid, j: Job)
    requires Partition(free, queue, jobs) && queue != [] && t !in jobs && j.node == queue[0]
    ensures Partition(free, queue[1..], jobs[t := j])
  {
    TailOf(queue);
  }

  lemma GiveQueued(free: seq<Node>, queue: seq<Node>, jobs: map<Tid, Job>, t: Tid)
    requires Partition(free, queue, jobs) && t in jobs
    ensures Partition(free, queue + [jobs[t].node], jobs - {t})
    ensures Partition(free, [jobs[t].node] + queue, jobs - {t})
  {
    assert forall i :: 0 <= i < |queue| ==> queue[i] in queue;
  }

  lemma GiveFree(free: seq<Node>, queue: seq<Node>, jobs: map<Tid, Job>, t: Tid)
    requires Partition(free, queue, jobs) && t in jobs
    ensures Partition([jobs[t].node] + free, queue, jobs - {t})
  {
    assert forall i :: 0 <= i < |free| ==> free[i] in free;
  }

  // ----- Threads changing place

  lemma PlacesLeaveSend(q: Queue, t: Tid, jobs: map<Tid, Job>)
    requires Places(q.send, q.recv, q.sending, q.receiving, q.jobs) && t !in q.send.waiting && t !in q.receiving
    requires forall x :: x in jobs ==> x in q.jobs || x == t
    ensures Places(Leave(q.send, t), q.recv, q.sending - {t}, q.receiving, jobs)
  {
  }

  lemma PlacesLeaveRecv(q: Queue, t: Tid, jobs: map<Tid, Job>)
    requires Places(q.send, q.recv, q.sending, q.receiving, q.jobs) && t !in q.recv.waiting && t !in q.sending
    requires forall x :: x in jobs ==> x in q.jobs || x == t
    ensures Places(q.send, Leave(q.recv, t), q.sending, q.receiving - {t}, jobs)
  {
  }

  lemma PlacesBlockSend(q: Queue, order: Order, t: Tid, req: (Msg, int))
    requires Places(q.send, q.recv, q.sending, q.receiving, q.jobs) && t !in q.receiving && t !in q.jobs
    ensures Places(Block(q.send, order, t), q.recv, q.sending[t := req], q.receiving, q.jobs)
  {
    assert forall x :: Inside(Block(q.send, order, t), x) <==> Inside(q.send, x) || x == t;
  }

  lemma PlacesBlockRecv(q: Queue, order: Order, t: Tid, timeout: int)
    requires Places(q.send, q.recv, q.sending, q.receiving, q.jobs) && t !in q.sending && t !in q.jobs
    ensures Places(q.send, Block(q.recv, order, t), q.sending, q.receiving[t := timeout], q.jobs)
  {
    assert forall x :: Inside(Block(q.recv, order, t), x) <==> Inside(q.recv, x) || x == t;
  }

  lemma BodiesAdd(queue: seq<Node>, body: map<Node, Msg>, jobs: map<Tid, Job>, t: Tid, j: Job)
    requires Bodies(queue, body, jobs)
    requires (j.Fill? && !j.copied) || (j.node in body && body[j.node] == j.msg)
    ensures Bodies(queue, body, jobs[t := j])
    ensures queue != [] ==> Bodies(queue[1..], body, jobs[t := j])
  {
    if queue != [] { assert forall n :: n in queue[1..] ==> n in queue; }
  }

  // ----- Every step keeps it

  lemma TrySendInv(q: Queue, order: Order, t: Tid, msg: Msg, timeout: int)
    requires Inv(q) && t !in q.send.waiting && t !in q.receiving && t !in q.jobs
    ensures Inv(TrySend(q, order, t, msg, timeout).0)
    ensures Nodes(TrySend(q, order, t, msg, timeout).0) == Nodes(q)
  {
    if |msg| > q.msgSize {
    } else if q.free != [] {
      SendTakes(q, t, Fill(q.free[0], msg, false, false));
    } else if timeout == 0 {
      PlacesLeaveSend(q, t, q.jobs);
      GiveUpSound(q.send, t);
    } else {
      BlockSound(q.send, order, t);
      PlacesBlockSend(q, order, t, (msg, timeout));
    }
  }

  lemma SendTakes(q: Queue, t: Tid, j: Job)
    requires Inv(q) && t !in q.send.waiting && t !in q.receiving && t !in q.jobs && q.free != []
    requires j.Fill? && !j.copied && j.node == q.free[0]
    ensures var r := q.(free := q.free[1..], send := Leave(q.send, t), sending := q.sending - {t}, jobs := q.jobs[t := j]);
      Inv(r) && Nodes(r) == Nodes(q)
  {
    TakeFree(q.free, q.queue, q.jobs, t, j);
    JobAdded(q.jobs, t, j);
    BodiesAdd(q.queue, q.body, q.jobs, t, j);
    PlacesLeaveSend(q, t, q.jobs[t := j]);
    TakeSound(|q.free|, q.send, t);
  }

  lemma TryRecvInv(q: Queue, order: Order, t: Tid, timeout: int)
    requires Inv(q) && t !in q.recv.waiting && t !in q.sending && t !in q.jobs
    ensures Inv(TryRecv(q, order, t, timeout).0)
    ensures Nodes(TryRecv(q, order, t, timeout).0) == Nodes(q)
  {
    if q.queue != [] {
      RecvTakes(q, t, Drain(q.queue[0], Text(q.body, q.queue[0])));
    } else if timeout == 0 {
      PlacesLeaveRecv(q, t, q.jobs);
      GiveUpSound(q.recv, t);
    } else {
      BlockSound(q.recv, order, t);
      PlacesBlockRecv(q, order, t, timeout);
    }
  }

  lemma RecvTakes(q: Queue, t: Tid, j: Job)
    requires Inv(q) && t !in q.recv.waiting && t !in q.sending && t !in q.jobs && q.queue != []
    requires j == Drain(q.queue[0], Text(q.body, q.queue[0]))
    ensures var r := q.(queue := q.queue[1..], recv := Leave(q.recv, t), receiving := q.receiving - {t}, jobs := q.jobs[t := j]);
      Inv(r) && Nodes(r) == Nodes(q)
  {
    assert q.queue[0] in q.queue;
    TakeQueued(q.free, q.queue, q.jobs, t, j);
    JobAdded(q.jobs, t, j);
    BodiesAdd(q.queue, q.body, q.jobs, t, j);
    PlacesLeaveRecv(q, t, q.jobs[t := j]);
    TakeSound(|q.queue|, q.recv, t);
  }

  lemma NotWaiting(q: Queue, t: Tid)
    requires Inv(q) && !Busy(q, t)
    ensures t !in q.send.waiting && t !in q.receiving && t !in q.jobs
    ensures Leave(q.send, t) == q.send && q.sending - {t} == q.sending
  {
    assert !Inside(q.send, t) && !Inside(q.recv, t);
    assert q.send.woken - {t} == q.send.woken;
  }

  lemma UrgentInv(q: Queue, t: Tid, msg: Msg)
    requires Inv(q) && !Busy(q, t)
    ensures Inv(TryUrgent(q, t, msg).0) && Nodes(TryUrgent(q, t, msg).0) == Nodes(q)
  {
    if q.free != [] {
      NotWaiting(q, t);
      SendTakes(q, t, Fill(q.free[0], msg, true, false));
    }
  }

  lemma FilledInv(q: Queue, t: Tid)
    requires Inv(q) && t in q.jobs && q.jobs[t].Fill?
    ensures Inv(Filled(q, t)) && Nodes(Filled(q, t)) == Nodes(q)
  {
    var r := Filled(q, t);
    assert r.jobs.Keys == q.jobs.Keys;
    assert |r.jobs| == |r.jobs.Keys| && |q.jobs| == |q.jobs.Keys|;
  }

  lemma PublishedInv(q: Queue, t: Tid)
    requires Inv(q) && t in q.jobs && q.jobs[t].Fill? && q.jobs[t].copied
    ensures Inv(Published(q, t)) && Nodes(Published(q, t)) == Nodes(q)
  {
    GiveQueued(q.free, q.queue, q.jobs, t);
    JobRemoved(q.jobs, t);
    WakeSound(|q.queue|, q.recv);
  }

  lemma FinishedInv(q: Queue, t: Tid)
    requires Inv(q) && t in q.jobs
    ensures Inv(Finished(q, t)) && Nodes(Finished(q, t)) == Nodes(q)
  {
    GiveFree(q.free, q.queue, q.jobs, t);
    JobRemoved(q.jobs, t);
    WakeSound(|q.free|, q.send);
  }

  lemma TimedOutInv(q: Queue, t: Tid)
    requires Inv(q) && (t in q.send.waiting || t in q.recv.waiting)
    ensures Inv(TimedOut(q, t)) && Nodes(TimedOut(q, t)) == Nodes(q)
  {
    ExpireSound(|q.free|, q.send, t);
    ExpireSound(|q.queue|, q.recv, t);
  }

  lemma {:induction false} ReversedElements(s: seq<Node>)
    ensures |Reversed(s)| == |s| && forall n :: n in Reversed(s) <==> n in s
    ensures NoDup(s) ==> NoDup(Reversed(s))
  {
    if s != [] {
      ReversedElements(s[1..]);
      var r := Reversed(s[1..]);
      assert forall n :: n in s <==> n == s[0] || n in s[1..];
      if NoDup(s) { AppendNoDup(r, s[0]); }
    }
  }

  lemma AppendNoDup(r: seq<Node>, n: Node)
    requires NoDup(r) && n !in r
    ensures NoDup(r + [n])
  {
    assert forall i :: 0 <= i < |r| ==> r[i] in r;
  }

  lemma ClearedInv(q: Queue)
    requires Inv(q)
    ensures Inv(Cleared(q)) && Nodes(Cleared(q)) == Nodes(q)
  {
    ReversedElements(q.queue);
    var x, y := Reversed(q.queue), q.free;
    var z := x + y;
    assert NoDup(z) by {
      assert forall i :: 0 <= i < |x| ==> x[i] in x;
      assert forall i :: 0 <= i < |y| ==> y[i] in y;
    }
    assert forall n :: n in z <==> n in x || n in y;
    FlushSound(|z|, q.send);
    FlushSound(0, q.recv);
  }

  lemma StepInv(q: Queue, order: Order, s: Step)
    requires Inv(q) && Enabled(q, s)
    ensures Inv(Do(q, order, s).0) && Nodes(Do(q, order, s).0) == Nodes(q)
  {
    match s
    case SendEnter(t, msg, timeout) => TrySendInv(q, order, t, msg, timeout);
    case SendResume(t, elapsed) =>
      assert Inside(q.send, t);
      TrySendInv(q, order, t, q.sending[t].0, Remaining(q.sending[t].1, elapsed));
    case UrgentEnter(t, msg) => UrgentInv(q, t, msg);
    case CopyIn(t) => FilledInv(q, t);
    case Publish(t) => PublishedInv(q, t);
    case RecvEnter(t, timeout) => TryRecvInv(q, order, t, timeout);
    case RecvResume(t, elapsed) =>
      assert Inside(q.recv, t);
      TryRecvInv(q, order, t, Remaining(q.receiving[t], elapsed));
    case RecvFinish(t, _) => FinishedInv(q, t);
    case Timeout(t) => TimedOutInv(q, t);
    case Reset => ClearedInv(q);
  }

  // ----- Every reachable state

  predicate LegalRun(q: Queue, order: Order, ss: seq<Step>)
    decreases |ss|
  {
    ss == [] || (Enabled(q, ss[0]) && LegalRun(Do(q, order, ss[0]).0, order, ss[1..]))
  }

  function Run(q: Queue, order: Order, ss: seq<Step>): Queue
    requires LegalRun(q, order, ss)
    decreases |ss|
  {
    if ss == [] then q else Run(Do(q, order, ss[0]).0, order, ss[1..])
  }

  /** A fresh queue of n nodes, as rt_mq_init links them. */
  function Fresh(n: nat, msgSize: nat): Queue {
    Queue(Down(n), [], map[], Gate([], {}), Gate([], {}), map[], map[], map[], msgSize)
  }

  function Down(n: nat): (s: seq<Node>)
    ensures |s| == n && forall i :: 0 <= i < n ==> s[i] == n - 1 - i
  {
    if n == 0 then [] else [n - 1] + Down(n - 1)
  }

  /** In every reachable state of a queue of n nodes: free, queued and in-flight nodes
      partition the n nodes, every in-flight copy is intact, and no wakeup is lost, whatever
      the interleaving, barging, timeouts and resets. */
  lemma {:induction false} Reachable(q: Queue, order: Order, ss: seq<Step>)
    requires Inv(q) && LegalRun(q, order, ss)
    ensures Inv(Run(q, order, ss)) && Nodes(Run(q, order, ss)) == Nodes(q)
    decreases |ss|
  {
    if ss != [] {
      StepInv(q, order, ss[0]);
      Reachable(Do(q, order, ss[0]).0, order, ss[1..]);
    }
  }

  lemma FreshInv(n: nat, msgSize: nat)
    ensures Inv(Fresh(n, msgSize)) && Nodes(Fresh(n, msgSize)) == n
  {
  }

  // ----- What each section does to nodes and threads

  ghost predicate SendEffect(q: Queue, order: Order, t: Tid, msg: Msg, timeout: int, r: Queue, out: Outcome) {
    if |msg| > q.msgSize then out == TooLong && r == q
    else if q.free != [] then
      && out == Copying && Departs(q.send, r.send, t) && r.recv == q.recv && t in r.jobs
      && q.free == [r.jobs[t].node] + r.free && r.jobs[t] == Fill(r.jobs[t].node, msg, false, false)
    else
      && r.free == [] && r.jobs == q.jobs && r.recv == q.recv
      && if timeout == 0 then out == Full && Departs(q.send, r.send, t)
         else out == Blocked && Sleeps(q.send, r.send, order, t) && t in r.sending && r.sending[t] == (msg, timeout)
  }

  ghost predicate RecvEffect(q: Queue, order: Order, t: Tid, timeout: int, r: Queue, out: Outcome) {
    if q.queue != [] then
      && out == Copying && Departs(q.recv, r.recv, t) && r.send == q.send && t in r.jobs
      && q.queue == [r.jobs[t].node] + r.queue && r.free == q.free && r.jobs[t].Drain?
    else
      && r.queue == [] && r.jobs == q.jobs && r.send == q.send
      && if timeout == 0 then out == Empty && Departs(q.recv, r.recv, t)
         else out == Blocked && Sleeps(q.recv, r.recv, order, t) && t in r.receiving && r.receiving[t] == timeout
  }

  lemma TrySendEffect(q: Queue, order: Order, t: Tid, msg: Msg, timeout: int)
    ensures SendEffect(q, order, t, msg, timeout, TrySend(q, order, t, msg, timeout).0, TrySend(q, order, t, msg, timeout).1)
  {
    BlockSleeps(q.send, order, t);
  }

  lemma TryRecvEffect(q: Queue, order: Order, t: Tid, timeout: int)
    ensures RecvEffect(q, order, t, timeout, TryRecv(q, order, t, timeout).0, TryRecv(q, order, t, timeout).1)
  {
    BlockSleeps(q.recv, order, t);
  }

  ghost predicate Effect(q: Queue, order: Order, s: Step, r: Queue, out: Outcome)
    requires Enabled(q, s)
  {
    match s
    case SendEnter(t, msg, timeout) => SendEffect(q, order, t, msg, timeout, r, out)
    case SendResume(t, elapsed) => SendEffect(q, order, t, q.sending[t].0, Left(q.sending[t].1, elapsed), r, out)
    case UrgentEnter(t, msg) =>
      if |msg| > q.msgSize then out == TooLong && r == q
      else if q.free == [] then out == Full && r == q
      else && out == Copying && r.send == q.send && r.recv == q.recv && t in r.jobs
           && q.free == [r.jobs[t].node] + r.free && r.jobs[t] == Fill(r.jobs[t].node, msg, true, false)
    case CopyIn(t) => r.send == q.send && r.recv == q.recv && t in r.jobs && r.jobs[t] == q.jobs[t].(copied := true)
    case Publish(t) => out == Done && t !in r.jobs && r.send == q.send && WakesFirst(q.recv, r.recv)
    case RecvEnter(t, timeout) => RecvEffect(q, order, t, timeout, r, out)
    case RecvResume(t, elapsed) => RecvEffect(q, order, t, Left(q.receiving[t], elapsed), r, out)
    case RecvFinish(t, _) =>
      t !in r.jobs && r.free == [q.jobs[t].node] + q.free && r.recv == q.recv && WakesFirst(q.send, r.send)
    case Timeout(t) => out == Outcome.Expired && r.jobs == q.jobs && Expires(q.send, r.send, t) && Expires(q.recv, r.recv, t)
    case Reset => r.jobs == q.jobs && Flushed(q.send, r.send) && Flushed(q.recv, r.recv)
  }

  /** A sender gets a node if and only if one is free and its message fits, and a receiver one
      if and only if one is queued; otherwise it sleeps if and only if it has time to wait. A
      message wakes the first receiver, a returned node the first sender, and nobody else. */
  lemma StepEffect(q: Queue, order: Order, s: Step)
    requires Inv(q) && Enabled(q, s)
    ensures Effect(q, order, s, Do(q, order, s).0, Do(q, order, s).1)
  {
    match s
    case SendEnter(t, msg, timeout) => TrySendEffect(q, order, t, msg, timeout);
    case SendResume(t, elapsed) => TrySendEffect(q, order, t, q.sending[t].0, Left(q.sending[t].1, elapsed));
    case RecvEnter(t, timeout) => TryRecvEffect(q, order, t, timeout);
    case RecvResume(t, elapsed) => TryRecvEffect(q, order, t, Left(q.receiving[t], elapsed));
    case _ => LaterEffect(q, order, s);
  }

  lemma LaterEffect(q: Queue, order: Order, s: Step)
    requires Inv(q) && Enabled(q, s)
    requires s.UrgentEnter? || s.CopyIn? || s.Publish? || s.RecvFinish? || s.Timeout? || s.Reset?
    ensures Effect(q, order, s, Do(q, order, s).0, Do(q, order, s).1)
  {
    match s
    case Timeout(t) =>
      ExpireDrops(q.send, t);
      ExpireDrops(q.recv, t);
    case Publish(t) => WakeFirst(q.recv);
    case RecvFinish(t, _) => WakeFirst(q.send);
    case _ =>
  }

  // ----- What users see: a sequence of messages

  ghost function Contents(q: Queue): seq<Msg>
    requires forall n :: n in q.queue ==> n in q.body
  {
    Texts(q.queue, q.body)
  }

  ghost function Texts(ns: seq<Node>, body: map<Node, Msg>): (r: seq<Msg>)
    requires forall n :: n in ns ==> n in body
    ensures |r| == |ns| && forall i :: 0 <= i < |ns| ==> r[i] == body[ns[i]]
  {
    if ns == [] then [] else [body[ns[0]]] + Texts(ns[1..], body)
  }

  lemma {:induction false} TextsAgree(ns: seq<Node>, b1: map<Node, Msg>, b2: map<Node, Msg>)
    requires forall n :: n in ns ==> n in b1 && n in b2 && b1[n] == b2[n]
    ensures Texts(ns, b1) == Texts(ns, b2)
  {
    if ns != [] {
      assert ns[0] in ns && forall n :: n in ns[1..] ==> n in ns;
      TextsAgree(ns[1..], b1, b2);
    }
  }

  lemma {:induction false} TextsAppend(ns: seq<Node>, n: Node, body: map<Node, Msg>)
    requires n in body && forall m :: m in ns ==> m in body
    ensures Texts(ns + [n], body) == Texts(ns, body) + [body[n]]
  {
    if ns == [] {
      assert ns + [n] == [n];
    } else {
      assert (ns + [n])[1..] == ns[1..] + [n];
      TextsAppend(ns[1..], n, body);
    }
  }

  /** Publishing appends the sender's message, or prepends it when urgent. */
  lemma PublishRefines(q: Queue, t: Tid)
    requires Bodies(q.queue, q.body, q.jobs) && t in q.jobs && q.jobs[t].Fill? && q.jobs[t].copied
    ensures forall n :: n in Published(q, t).queue ==> n in q.body
    ensures var j, was := q.jobs[t], Contents(q);
      Contents(Published(q, t)) == if j.urgent then [j.msg] + was else was + [j.msg]
  {
    var n := q.jobs[t].node;
    if q.jobs[t].urgent {
      assert ([n] + q.queue)[1..] == q.queue;
    } else {
      TextsAppend(q.queue, n, q.body);
    }
  }

  /** A receive that finds a message pops the front of the visible sequence into its own hands. */
  lemma RecvRefines(q: Queue, order: Order, t: Tid, timeout: int)
    requires Bodies(q.queue, q.body, q.jobs)
    ensures var (r, out) := TryRecv(q, order, t, timeout); var was := Contents(q);
      && (forall n :: n in r.queue ==> n in r.body)
      && if was != [] then out == Copying && Contents(r) == was[1..] && t in r.jobs && r.jobs[t] == Drain(q.queue[0], was[0])
         else out != Copying && Contents(r) == was
  {
    if q.queue != [] { assert q.queue[0] in q.queue; }
  }

  /** What a step does to the sequence of messages its users see. */
  ghost predicate Visible(q: Queue, s: Step, r: Queue, out: Outcome)
    requires Enabled(q, s)
    requires (forall n :: n in q.queue ==> n in q.body) && (forall n :: n in r.queue ==> n in r.body)
  {
    var was, now := Contents(q), Contents(r);
    match s
    case Publish(t) => now == if q.jobs[t].urgent then [q.jobs[t].msg] + was else was + [q.jobs[t].msg]
    case RecvEnter(t, _) => Popped(was, now, t, r)
    case RecvResume(t, _) => Popped(was, now, t, r)
    case RecvFinish(t, room) => now == was && out == Received(Prefix(q.jobs[t].msg, room))
    case Reset => now == []
    case _ => now == was
  }

  predicate Popped(was: seq<Msg>, now: seq<Msg>, t: Tid, r: Queue) {
    if was == [] then now == [] else now == was[1..] && t in r.jobs && r.jobs[t].Drain? && r.jobs[t].msg == was[0]
  }

  /** Publish appends or prepends, a successful receive pops and later delivers exactly what it
      popped, reset empties, and every other step leaves the visible sequence alone. */
  lemma StepRefines(q: Queue, order: Order, s: Step)
    requires Bodies(q.queue, q.body, q.jobs) && Enabled(q, s)
    requires forall t :: t in q.jobs ==> q.jobs[t].node !in q.queue
    ensures var (r, out) := Do(q, order, s);
      (forall n :: n in r.queue ==> n in r.body) && Visible(q, s, r, out)
  {
    match s
    case Publish(t) => PublishRefines(q, t);
    case RecvEnter(t, timeout) => RecvRefines(q, order, t, timeout);
    case RecvResume(t, elapsed) => RecvRefines(q, order, t, Remaining(q.receiving[t], elapsed));
    case CopyIn(t) => TextsAgree(q.queue, q.body, Filled(q, t).body);
    case Reset =>
    case _ => QuietStep(q, order, s);
  }

  lemma QuietStep(q: Queue, order: Order, s: Step)
    requires Enabled(q, s)
    requires s.SendEnter? || s.SendResume? || s.UrgentEnter? || s.RecvFinish? || s.Timeout?
    ensures Do(q, order, s).0.queue == q.queue && Do(q, order, s).0.body == q.body
    ensures s.RecvFinish? ==> Do(q, order, s).1 == Received(Prefix(Text(q.body, q.jobs[s.t].node), s.room))
  {
  }

  /** While a receiver copies, nobody changes its message: its job survives every step of every
      other thread, so what it delivers is what it popped. */
  lemma JobsSurvive(q: Queue, order: Order, s: Step, t: Tid)
    requires Enabled(q, s) && t in q.jobs && (s.Reset? || s.t != t)
    ensures var r := Do(q, order, s).0; t in r.jobs && r.jobs[t] == q.jobs[t]
  {
  }

  // ----- Every message is delivered once, in the order it was published

  function Publishes(q: Queue, s: Step): (r: seq<Msg>)
    requires Enabled(q, s)
  {
    if s.Publish? then [q.jobs[s.t].msg] else []
  }

  function PublishedBy(q: Queue, order: Order, ss: seq<Step>): seq<Msg>
    requires LegalRun(q, order, ss)
    decreases |ss|
  {
    if ss == [] then [] else Publishes(q, ss[0]) + PublishedBy(Do(q, order, ss[0]).0, order, ss[1..])
  }

  /** The message a step takes out of the queue, into the hands of its receiver. */
  function Takes(q: Queue, order: Order, s: Step): (r: seq<Msg>)
    requires Enabled(q, s)
  {
    var (r, out) := Do(q, order, s);
    if (s.RecvEnter? || s.RecvResume?) && out == Copying && s.t in r.jobs then [r.jobs[s.t].msg] else []
  }

  function TakenBy(q: Queue, order: Order, ss: seq<Step>): seq<Msg>
    requires LegalRun(q, order, ss)
    decreases |ss|
  {
    if ss == [] then [] else Takes(q, order, ss[0]) + TakenBy(Do(q, order, ss[0]).0, order, ss[1..])
  }

  /** Nothing jumps the queue and nothing is thrown away. */
  predicate Orderly(q: Queue, order: Order, ss: seq<Step>)
    decreases |ss|
  {
    ss == [] ||
    (Enabled(q, ss[0]) && !ss[0].Reset? && (ss[0].Publish? ==> !q.jobs[ss[0].t].urgent)
     && Orderly(Do(q, order, ss[0]).0, order, ss[1..]))
  }

  lemma FifoStep(q: Queue, order: Order, s: Step)
    requires Inv(q) && Enabled(q, s) && !s.Reset? && (s.Publish? ==> !q.jobs[s.t].urgent)
    ensures var r := Do(q, order, s).0;
      && (forall n :: n in r.queue ==> n in r.body)
      && Contents(q) + Publishes(q, s) == Takes(q, order, s) + Contents(r)
  {
    StepRefines(q, order, s);
    if s.RecvEnter? {
      RecvRefines(q, order, s.t, s.timeout);
    } else if s.RecvResume? {
      RecvRefines(q, order, s.t, Remaining(q.receiving[s.t], s.elapsed));
    }
  }

  /** Without urgent messages and resets, what was queued and what senders published is, in
      this order, what receivers took followed by what is still queued. */
  lemma {:induction false} FifoDelivery(q: Queue, order: Order, ss: seq<Step>)
    requires Inv(q) && LegalRun(q, order, ss) && Orderly(q, order, ss)
    ensures Inv(Run(q, order, ss))
    ensures Contents(q) + PublishedBy(q, order, ss) == TakenBy(q, order, ss) + Contents(Run(q, order, ss))
    decreases |ss|
  {
    Reachable(q, order, ss);
    if ss != [] {
      var r := Do(q, order, ss[0]).0;
      StepInv(q, order, ss[0]);
      FifoStep(q, order, ss[0]);
      FifoDelivery(r, order, ss[1..]);
      Balance(Contents(q), Publishes(q, ss[0]), Takes(q, order, ss[0]), Contents(r),
              PublishedBy(r, order, ss[1..]), TakenBy(r, order, ss[1..]), Contents(Run(r, order, ss[1..])));
    }
  }
}
