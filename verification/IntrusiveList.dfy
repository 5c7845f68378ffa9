// The circular doubly linked lists of include/rtservice.h, on real references: a list head and
// the nodes embedded in timers, threads and zones form a ring. Every operation takes the ring,
// given as the sequence of its nodes, to the ring that the sequence operation names; the other
// modules work on those sequences.
module IntrusiveList {

  class ListNode {
    var next: ListNode?
    var prev: ListNode?

    /** rt_list_init */
    constructor ()
      ensures Ring([this])
    {
      next := null;
      prev := null;
      new;
      next := this;
      prev := this;
    }
  }

  function After(n: nat, i: nat): nat {
    if i + 1 == n then 0 else i + 1
  }

  ghost predicate LinkAt(s: seq<ListNode>, i: nat)
    requires i < |s|
    reads s
  {
    s[i].next == s[After(|s|, i)] && s[After(|s|, i)].prev == s[i]
  }

  ghost predicate Distinct(s: seq<ListNode>) {
    forall i, j :: 0 <= i < j < |s| ==> s[i] != s[j]
  }

  /** Following next from s[0] visits exactly the nodes of s, in order, and comes back; following
      prev goes the other way. */
  ghost predicate Ring(s: seq<ListNode>)
    reads s
  {
    s != [] && Distinct(s) && forall i: nat :: i < |s| ==> LinkAt(s, i)
  }

  /** The pointers alone determine the contents of a list. */
  lemma RingUnique(s: seq<ListNode>, t: seq<ListNode>)
    requires Ring(s) && Ring(t) && s[0] == t[0]
    ensures s == t
  {
    var n := if |s| <= |t| then |s| else |t|;
    SamePrefix(s, t, n);
    assert s[n - 1] == s[..n][n - 1] == t[..n][n - 1] == t[n - 1];
    assert LinkAt(s, n - 1) && LinkAt(t, n - 1);
    assert s[After(|s|, n - 1)] == t[After(|t|, n - 1)];
  }

  lemma {:induction false} SamePrefix(s: seq<ListNode>, t: seq<ListNode>, n: nat)
    requires Ring(s) && Ring(t) && s[0] == t[0] && n <= |s| && n <= |t|
    ensures s[..n] == t[..n]
    decreases n
  {
    if n > 0 {
      SamePrefix(s, t, n - 1);
      if n > 1 {
        assert LinkAt(s, n - 2) && LinkAt(t, n - 2);
        assert s[n - 2] == s[..n - 1][n - 2] == t[..n - 1][n - 2] == t[n - 2];
      }
      assert s[..n] == s[..n - 1] + [s[n - 1]] && t[..n] == t[..n - 1] + [t[n - 1]];
    }
  }

  function Inserted(s: seq<ListNode>, i: nat, n: ListNode): (r: seq<ListNode>)
    requires i <= |s|
    ensures |r| == |s| + 1
    ensures forall k :: 0 <= k < |r| ==> r[k] == if k < i then s[k] else if k == i then n else s[k - 1]
  {
    s[..i] + [n] + s[i..]
  }

  function Dropped(s: seq<ListNode>, i: nat): (r: seq<ListNode>)
    requires i < |s|
    ensures |r| == |s| - 1
    ensures forall k :: 0 <= k < |r| ==> r[k] == if k < i then s[k] else s[k + 1]
  {
    s[..i] + s[i + 1..]
  }

  /** rt_list_insert_after */
  method InsertAfter(l: ListNode, n: ListNode, ghost s: seq<ListNode>, ghost i: nat)
    requires Ring(s) && i < |s| && s[i] == l && n !in s
    modifies l, l.next, n
    ensures Ring(Inserted(s, i + 1, n))
  {
    assert LinkAt(s, i);
    l.next.prev := n;
    n.next := l.next;
    l.next := n;
    n.prev := l;
    ghost var r := Inserted(s, i + 1, n);
    forall k: nat | k < |r| ensures LinkAt(r, k) {
      assert old(LinkAt(s, if k <= i then k else k - 1));
    }
  }

  /** rt_list_insert_before; in front of the head means at the end of the list. */
  method InsertBefore(l: ListNode, n: ListNode, ghost s: seq<ListNode>, ghost i: nat)
    requires Ring(s) && i < |s| && s[i] == l && n !in s
    modifies l, l.prev, n
    ensures Ring(Inserted(s, if i == 0 then |s| else i, n))
  {
    ghost var j := if i == 0 then |s| else i;
    assert LinkAt(s, j - 1);
    l.prev.next := n;
    n.prev := l.prev;
    l.prev := n;
    n.next := l;
    ghost var r := Inserted(s, j, n);
    forall k: nat | k < |r| ensures LinkAt(r, k) {
      assert old(LinkAt(s, if k < j then k else k - 1));
    }
  }

  /** rt_list_remove: the node leaves its ring and becomes a ring of its own. */
  method Remove(n: ListNode, ghost s: seq<ListNode>, ghost i: nat)
    requires Ring(s) && i < |s| && s[i] == n
    modifies n, n.next, n.prev
    ensures Ring([n])
    ensures |s| > 1 ==> Ring(Dropped(s, i))
  {
    assert LinkAt(s, i) && LinkAt(s, if i == 0 then |s| - 1 else i - 1);
    n.next.prev := n.prev;
    n.prev.next := n.next;
    n.next := n;
    n.prev := n;
    if |s| > 1 {
      ghost var r := Dropped(s, i);
      forall k: nat | k < |r| ensures LinkAt(r, k) {
        assert old(LinkAt(s, if k < i then k else k + 1));
      }
    }
  }

  /** rt_list_isempty */
  method IsEmpty(l: ListNode, ghost s: seq<ListNode>) returns (empty: bool)
    requires Ring(s) && s[0] == l
    ensures empty <==> s == [l]
  {
    assert LinkAt(s, 0);
    empty := l.next == l;
  }

  /** rt_list_len: the nodes besides the head. */
  method Length(l: ListNode, ghost s: seq<ListNode>) returns (len: nat)
    requires Ring(s) && s[0] == l
    ensures len == |s| - 1
  {
    len := 0;
    var p := l;
    assert LinkAt(s, 0);
    while p.next != l
      invariant len < |s| && p == s[len] && LinkAt(s, len)
      decreases |s| - len
    {
      p := p.next;
      len := len + 1;
      assert LinkAt(s, len);
    }
  }
}
