// Lists of distinct numbers, as used for queues of threads, timers, zones and free blocks.
module Lists {

  predicate NoDup(q: seq<nat>) { forall i, j :: 0 <= i < j < |q| ==> q[i] != q[j] }

  function Without(q: seq<nat>, x: nat): (r: seq<nat>)
    ensures forall y :: y in r <==> y in q && y != x
  {
    if q == [] then [] else if q[0] == x then Without(q[1..], x) else [q[0]] + Without(q[1..], x)
  }

  lemma {:induction false} WithoutNoDup(q: seq<nat>, x: nat)
    requires NoDup(q)
    ensures NoDup(Without(q, x))
  {
    if q != [] {
      WithoutNoDup(q[1..], x);
      var r := Without(q[1..], x);
      assert forall y :: y in r ==> y in q[1..];
      assert forall k :: 0 <= k < |r| ==> r[k] in r;
    }
  }

  lemma {:induction false} WithoutAbsent(q: seq<nat>, x: nat)
    requires x !in q
    ensures Without(q, x) == q
  {
    if q != [] { WithoutAbsent(q[1..], x); }
  }

  lemma {:induction false} WithoutHead(q: seq<nat>)
    requires q != [] && NoDup(q)
    ensures Without(q, q[0]) == q[1..]
  {
    WithoutAbsent(q[1..], q[0]);
  }

  /** `q'` is `q` without its one occurrence of `x`, everything else in its old order. */
  ghost predicate Drops(q: seq<nat>, q': seq<nat>, x: nat) {
    exists k :: 0 <= k < |q| && q[k] == x && q' == q[..k] + q[k + 1..]
  }

  lemma {:induction false} WithoutAt(q: seq<nat>, k: nat)
    requires k < |q| && NoDup(q)
    ensures Without(q, q[k]) == q[..k] + q[k + 1..]
  {
    if k == 0 {
      WithoutHead(q);
    } else {
      var r := q[1..];
      assert r[k - 1] == q[k] && q[0] != q[k];
      WithoutAt(r, k - 1);
      assert r[k..] == q[k + 1..];
      assert [q[0]] + r[..k - 1] == q[..k];
    }
  }

  lemma WithoutDrops(q: seq<nat>, x: nat)
    requires NoDup(q) && x in q
    ensures Drops(q, Without(q, x), x)
  {
    var k: nat :| k < |q| && q[k] == x;
    WithoutAt(q, k);
  }

  /** Two balances in a row: in, then out and still there. */
  lemma Balance<T>(was: seq<T>, put: seq<T>, got: seq<T>, mid: seq<T>, puts: seq<T>, gots: seq<T>, last: seq<T>)
    requires was + put == got + mid && mid + puts == gots + last
    ensures was + (put + puts) == (got + gots) + last
  {
    calc {
      was + (put + puts);
      (was + put) + puts;
      (got + mid) + puts;
      got + (mid + puts);
      got + (gots + last);
      (got + gots) + last;
    }
  }
}
