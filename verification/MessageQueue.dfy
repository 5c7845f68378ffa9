// The critical sections of rt_mq_send_wait, rt_mq_urgent, rt_mq_recv and the reset of
// rt_mq_control in src/ipc.c: singly linked nodes with head, tail and free pointers.
module MessageQueue {
  import opened Lists
  import opened Options
  import opened WaitGate
  import opened MessageQueueSpec

  type Links = map<Node, Option<Node>>

  /** The nodes reached from p by following next are exactly s. */
  predicate IsList(next: Links, p: Option<Node>, s: seq<Node>)
    decreases |s|
  {
    if s == [] then p == None
    else p == Some(s[0]) && s[0] in next && IsList(next, next[s[0]], s[1..])
  }

  lemma {:induction false} ListOther(next: Links, p: Option<Node>, s: seq<Node>, n: Node, x: Option<Node>)
    requires IsList(next, p, s) && n !in s
    ensures IsList(next[n := x], p, s)
    decreases |s|
  {
    if s != [] {
      assert s[0] in s && forall m :: m in s[1..] ==> m in s;
      ListOther(next, next[s[0]], s[1..], n, x);
    }
  }

  lemma ListPush(next: Links, p: Option<Node>, s: seq<Node>, n: Node)
    requires IsList(next, p, s) && n !in s
    ensures IsList(next[n := p], Some(n), [n] + s)
  {
    ListOther(next, p, s, n, p);
    assert ([n] + s)[1..] == s;
  }

  lemma {:induction false} ListAppend(next: Links, p: Option<Node>, s: seq<Node>, n: Node)
    requires IsList(next, p, s) && n !in s && NoDup(s) && n in next && next[n] == None && s != []
    ensures IsList(next[s[|s| - 1] := Some(n)], p, s + [n])
    decreases |s|
  {
    var r := s + [n];
    assert r[1..] == s[1..] + [n];
    if |s| > 1 {
      assert s[|s| - 1] == s[1..][|s| - 2];
      ListAppend(next, next[s[0]], s[1..], n);
    } else {
      assert r[1..][1..] == [];
    }
  }

  predicate IsTail(tail: Option<Node>, s: seq<Node>) {
    tail == if s == [] then None else Some(s[|s| - 1])
  }

  /** A filled node waiting to be appended already ends the list it will join. */
  predicate Ended(next: Links, jobs: map<Tid, Job>) {
    forall t :: t in jobs && jobs[t].Fill? && jobs[t].copied && !jobs[t].urgent ==>
      jobs[t].node in next && next[jobs[t].node] == None
  }

  /** The pointer structure of a message queue. */
  predicate Shape(next: Links, free: Option<Node>, head: Option<Node>, tail: Option<Node>, q: Queue) {
    IsList(next, free, q.free) && IsList(next, head, q.queue) && IsTail(tail, q.queue) && Ended(next, q.jobs)
  }

  lemma ShapePublish(next: Links, free: Option<Node>, head: Option<Node>, tail: Option<Node>, q: Queue, t: Tid)
    requires Shape(next, free, head, tail, q) && Partition(q.free, q.queue, q.jobs)
    requires t in q.jobs && q.jobs[t].Fill? && q.jobs[t].copied && !q.jobs[t].urgent
    ensures var n := q.jobs[t].node;
      Shape(if tail == None then next else next[tail.value := Some(n)], free,
            if head == None then Some(n) else head, Some(n), Published(q, t))
  {
    var n := q.jobs[t].node;
    if tail == None {
      assert q.queue + [n] == [n] && [n][1..] == [];
    } else {
      assert tail.value in q.queue;
      ListAppend(next, head, q.queue, n);
      ListOther(next, free, q.free, tail.value, Some(n));
    }
  }

  lemma ShapeUrgent(next: Links, free: Option<Node>, head: Option<Node>, tail: Option<Node>, q: Queue, t: Tid)
    requires Shape(next, free, head, tail, q) && Partition(q.free, q.queue, q.jobs)
    requires t in q.jobs && q.jobs[t].Fill? && q.jobs[t].copied && q.jobs[t].urgent
    ensures var n := q.jobs[t].node;
      Shape(next[n := head], free, Some(n), if tail == None then Some(n) else tail, Published(q, t))
  {
    var n := q.jobs[t].node;
    ListPush(next, head, q.queue, n);
    ListOther(next, free, q.free, n, head);
  }

  lemma ShapeFilled(next: Links, free: Option<Node>, head: Option<Node>, tail: Option<Node>, q: Queue, t: Tid)
    requires Shape(next, free, head, tail, q) && Partition(q.free, q.queue, q.jobs) && t in q.jobs && q.jobs[t].Fill?
    ensures Shape(if q.jobs[t].urgent then next else next[q.jobs[t].node := None], free, head, tail, Filled(q, t))
  {
    ListOther(next, free, q.free, q.jobs[t].node, None);
    ListOther(next, head, q.queue, q.jobs[t].node, None);
  }

  lemma ShapeFinished(next: Links, free: Option<Node>, head: Option<Node>, tail: Option<Node>, q: Queue, t: Tid)
    requires Shape(next, free, head, tail, q) && Partition(q.free, q.queue, q.jobs) && t in q.jobs
    ensures Shape(next[q.jobs[t].node := free], Some(q.jobs[t].node), head, tail, Finished(q, t))
  {
    ListPush(next, free, q.free, q.jobs[t].node);
    ListOther(next, head, q.queue, q.jobs[t].node, free);
  }

  lemma ShapePopped(next: Links, head: Option<Node>, tail: Option<Node>, s: seq<Node>)
    requires IsList(next, head, s) && IsTail(tail, s) && NoDup(s) && s != []
    ensures IsList(next, next[s[0]], s[1..]) && IsTail(if tail == head then None else tail, s[1..])
  {
  }

  class MsgQueue {
    const order: Order
    const msgSize: nat
    var next: Links
    var body: map<Node, Msg>
    var head: Option<Node>
    var tail: Option<Node>
    var free: Option<Node>
    var entry: nat
    var suspendRecv: seq<Tid>
    var suspendSend: seq<Tid>
    /** The protocol state these fields, and the stacks of the calling threads, stand for. */
    ghost var q: Queue

    /** The fields represent q. The methods rely only on the node partition of q, which every
        step of the protocol keeps along with the rest of its invariant. */
    ghost predicate Stands()
      reads this
    {
      && Shape(next, free, head, tail, q)
      && entry == |q.queue| && body == q.body && msgSize == q.msgSize
      && suspendRecv == q.recv.waiting && suspendSend == q.send.waiting
    }

    /** rt_mq_init: every node of the pool is pushed on the free list. */
    constructor (n: nat, msgSize: nat, order: Order)
      ensures Stands() && q == Fresh(n, msgSize) && this.order == order
    {
      var links: Links := map[];
      var list: Option<Node> := None;
      var i := 0;
      while i < n
        invariant 0 <= i <= n && IsList(links, list, Down(i))
      {
        ListPush(links, list, Down(i), i);
        links := links[i := list];
        list := Some(i);
        i := i + 1;
      }
      this.order, this.msgSize := order, msgSize;
      next, body, head, tail, free, entry := links, map[], None, None, list, 0;
      suspendRecv, suspendSend := [], [];
      q := Fresh(n, msgSize);
    }

    /** Loop head of rt_mq_send_wait: take a free node, give up, or suspend. */
    method TrySend(t: Tid, msg: Msg, timeout: int) returns (out: Outcome, node: Node)
      requires Stands() && Partition(q.free, q.queue, q.jobs) && t !in q.send.waiting && t !in q.receiving && t !in q.jobs
      modifies this
      ensures Stands() && (q, out) == MessageQueueSpec.TrySend(old(q), order, t, msg, timeout)
      ensures out == Copying ==> t in q.jobs && node == q.jobs[t].node
    {
      node := 0;
      if |msg| > msgSize {
        out := TooLong;
      } else if free == None {
        if timeout == 0 {
          out := Full;
        } else {
          suspendSend := ListSuspend(suspendSend, order, t);
          out := Blocked;
        }
      } else {
        node := free.value;
        free := next[node];
        out := Copying;
      }
      q := MessageQueueSpec.TrySend(q, order, t, msg, timeout).0;
    }

    /** rt_mq_urgent never waits. */
    method TryUrgent(t: Tid, msg: Msg) returns (out: Outcome, node: Node)
      requires Stands() && Partition(q.free, q.queue, q.jobs) && !Busy(q, t)
      modifies this
      ensures Stands() && (q, out) == MessageQueueSpec.TryUrgent(old(q), t, msg)
      ensures out == Copying ==> t in q.jobs && node == q.jobs[t].node
    {
      node := 0;
      if |msg| > msgSize {
        out := TooLong;
      } else if free == None {
        out := Full;
      } else {
        node := free.value;
        free := next[node];
        out := Copying;
      }
      q := MessageQueueSpec.TryUrgent(q, t, msg).0;
    }

    /** Outside any critical section: the owner fills its node. */
    method CopyIn(t: Tid, node: Node, msg: Msg, urgent: bool)
      requires Stands() && Partition(q.free, q.queue, q.jobs)
      requires t in q.jobs && q.jobs[t] == Fill(node, msg, urgent, false)
      modifies this
      ensures Stands() && q == Filled(old(q), t)
    {
      ShapeFilled(next, free, head, tail, q, t);
      if !urgent {
        next := next[node := None];
      }
      body := body[node := msg];
      q := Filled(q, t);
    }

    method WakeReceiver()
      modifies this`suspendRecv
      ensures suspendRecv == if old(suspendRecv) == [] then [] else old(suspendRecv)[1..]
    {
      if suspendRecv != [] {
        suspendRecv := suspendRecv[1..];
      }
    }

    /** Second critical section of rt_mq_send_wait: link the node behind the tail. */
    method Publish(t: Tid, node: Node)
      requires Stands() && Partition(q.free, q.queue, q.jobs)
      requires t in q.jobs && q.jobs[t].Fill? && q.jobs[t].copied && !q.jobs[t].urgent && node == q.jobs[t].node
      modifies this
      ensures Stands() && q == Published(old(q), t)
    {
      ShapePublish(next, free, head, tail, q, t);
      if tail != None {
        next := next[tail.value := Some(node)];
      }
      tail := Some(node);
      if head == None {
        head := Some(node);
      }
      entry := entry + 1;
      WakeReceiver();
      q := Published(q, t);
    }

    /** Second critical section of rt_mq_urgent: link the node before the head. */
    method PublishUrgent(t: Tid, node: Node)
      requires Stands() && Partition(q.free, q.queue, q.jobs)
      requires t in q.jobs && q.jobs[t].Fill? && q.jobs[t].copied && q.jobs[t].urgent && node == q.jobs[t].node
      modifies this
      ensures Stands() && q == Published(old(q), t)
    {
      ShapeUrgent(next, free, head, tail, q, t);
      next := next[node := head];
      head := Some(node);
      if tail == None {
        tail := Some(node);
      }
      entry := entry + 1;
      WakeReceiver();
      q := Published(q, t);
    }

    /** Loop head of rt_mq_recv: unlink the head, give up, or suspend. */
    method TryRecv(t: Tid, timeout: int) returns (out: Outcome, node: Node)
      requires Stands() && Partition(q.free, q.queue, q.jobs) && t !in q.recv.waiting && t !in q.sending && t !in q.jobs
      modifies this
      ensures Stands() && (q, out) == MessageQueueSpec.TryRecv(old(q), order, t, timeout)
      ensures out == Copying ==> t in q.jobs && node == q.jobs[t].node
    {
      node := 0;
      if entry == 0 {
        if timeout == 0 {
          out := Empty;
        } else {
          suspendRecv := ListSuspend(suspendRecv, order, t);
          out := Blocked;
        }
      } else {
        ShapePopped(next, head, tail, q.queue);
        node := head.value;
        var was := head;
        head := next[node];
        if tail == was {
          tail := None;
        }
        entry := entry - 1;
        out := Copying;
      }
      q := MessageQueueSpec.TryRecv(q, order, t, timeout).0;
    }

    /** The copy out and the second critical section of rt_mq_recv: return the node. */
    method RecvFinish(t: Tid, node: Node, room: nat) returns (msg: Msg)
      requires Stands() && Partition(q.free, q.queue, q.jobs) && Bodies(q.queue, q.body, q.jobs)
      requires t in q.jobs && q.jobs[t].Drain? && node == q.jobs[t].node
      modifies this
      ensures Stands() && q == Finished(old(q), t) && msg == Prefix(old(q.jobs[t].msg), room)
    {
      ShapeFinished(next, free, head, tail, q, t);
      msg := Prefix(body[node], room);
      next := next[node := free];
      free := Some(node);
      if suspendSend != [] {
        suspendSend := suspendSend[1..];
      }
      q := Finished(q, t);
    }

    /** rt_thread_timeout of a waiting thread. */
    method Expire(t: Tid)
      requires Stands() && Partition(q.free, q.queue, q.jobs) && (t in q.send.waiting || t in q.recv.waiting)
      modifies this
      ensures Stands() && q == TimedOut(old(q), t)
    {
      suspendSend := Without(suspendSend, t);
      suspendRecv := Without(suspendRecv, t);
      q := TimedOut(q, t);
    }

    /** RT_IPC_CMD_RESET: flush both suspend lists and move every message to the free list. */
    method Reset()
      requires Stands() && Partition(q.free, q.queue, q.jobs)
      modifies this
      ensures Stands() && q == Cleared(old(q))
    {
      suspendRecv, suspendSend := [], [];
      ReleaseAll();
      entry := 0;
      q := Cleared(q);
    }

    method ReleaseAll()
      requires IsList(next, free, q.free) && IsList(next, head, q.queue) && IsTail(tail, q.queue) && Ended(next, q.jobs)
      requires Partition(q.free, q.queue, q.jobs)
      modifies this`next, this`head, this`tail, this`free
      ensures IsList(next, free, Reversed(q.queue) + q.free) && head == None && tail == None && Ended(next, q.jobs)
    {
      ghost var left, freed := q.queue, q.free;
      while head != None
        invariant IsList(next, head, left) && IsTail(tail, left) && IsList(next, free, freed)
        invariant NoDup(left) && forall n :: n in left ==> n !in freed
        invariant Reversed(left) + freed == Reversed(q.queue) + q.free
        invariant Ended(next, q.jobs) && forall t :: t in q.jobs ==> q.jobs[t].node !in left
        decreases |left|
      {
        var msg := head.value;
        TailOf(left);
        ListPush(next, free, freed, msg);
        ListOther(next, next[msg], left[1..], msg, free);
        ShapePopped(next, head, tail, left);
        if tail == head {
          tail := None;
        }
        head := next[msg];
        next := next[msg := free];
        free := Some(msg);
        assert Reversed(left) + freed == Reversed(left[1..]) + ([left[0]] + freed);
        left, freed := left[1..], [left[0]] + freed;
      }
      assert Reversed(left) + freed == freed;
    }
  }
}
