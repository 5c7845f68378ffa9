// The same list as it lies in memory: each run's first page holds a header with its length
// and the address of the next run. src/slab.c, rt_page_alloc and rt_page_free.
module PageList {
  import opened Options
  import opened PageRuns

  /** The address of run `k`; 0 is the null pointer. */
  function At(r: seq<Run>, k: nat): nat { if k < |r| then r[k].at else 0 }

  type Links = map<nat, nat>

  predicate Node(next: Links, page: Links, r: seq<Run>, i: nat)
    requires i < |r|
  {
    && r[i].at != 0 && r[i].at in next && r[i].at in page
    && page[r[i].at] == r[i].pages && next[r[i].at] == At(r, i + 1)
  }

  ghost predicate Linked(head: nat, next: Links, page: Links, r: seq<Run>) {
    head == At(r, 0) && forall i: nat :: i < |r| ==> Node(next, page, r, i)
  }

  /** The list with runs `k` to `k + m` replaced by `mid`. */
  function Splice(r: seq<Run>, k: nat, m: nat, mid: seq<Run>): seq<Run>
    requires k + m <= |r|
  {
    r[..k] + mid + r[k + m..]
  }

  /** Where the link in front of position `k` has to lead. */
  function Target(r: seq<Run>, k: nat, m: nat, mid: seq<Run>): nat
    requires k + m <= |r|
  {
    if mid == [] then At(r, k + m) else mid[0].at
  }

  /** The link fields after the replacement. */
  function Relinked(next: Links, r: seq<Run>, k: nat, m: nat, mid: seq<Run>): Links
    requires k + m <= |r|
  {
    var n1 := if mid == [] then next else next[mid[0].at := At(r, k + m)];
    if k == 0 then n1 else n1[r[k - 1].at := Target(r, k, m, mid)]
  }

  function Resized(page: Links, mid: seq<Run>): Links {
    if mid == [] then page else page[mid[0].at := mid[0].pages]
  }

  /** `mid` is at most one run, and its header overwrites none of the runs that stay. */
  ghost predicate Clear(r: seq<Run>, k: nat, m: nat, mid: seq<Run>)
    requires k + m <= |r|
  {
    && |mid| <= 1
    && (mid != [] ==> mid[0].at != 0 && forall i :: 0 <= i < |r| && (i < k || i >= k + m) ==> r[i].at != mid[0].at)
  }

  lemma SplicedNode(next: Links, page: Links, r: seq<Run>, k: nat, m: nat, mid: seq<Run>, i: nat)
    requires Canonical(r) && k + m <= |r| && Clear(r, k, m, mid) && i < |Splice(r, k, m, mid)|
    requires forall j: nat :: j < |r| ==> Node(next, page, r, j)
    ensures Node(Relinked(next, r, k, m, mid), Resized(page, mid), Splice(r, k, m, mid), i)
  {
    var r' := Splice(r, k, m, mid);
    if i < k {
      assert r'[i] == r[i] && Node(next, page, r, i);
      if i + 1 < k { assert r'[i + 1] == r[i + 1] && r[i].End() < r[k - 1].at; }
    } else if i >= k + |mid| {
      var j := i - |mid| + m;
      assert r'[i] == r[j] && Node(next, page, r, j);
      if k > 0 { assert r[k - 1].End() < r[j].at; }
    } else {
      assert r'[i] == mid[0];
      if k > 0 { assert r[k - 1].at != mid[0].at; }
    }
  }

  lemma Spliced(head: nat, next: Links, page: Links, r: seq<Run>, k: nat, m: nat, mid: seq<Run>)
    requires Linked(head, next, page, r) && Canonical(r) && k + m <= |r| && Clear(r, k, m, mid)
    ensures Linked(if k == 0 then Target(r, k, m, mid) else head,
                   Relinked(next, r, k, m, mid), Resized(page, mid), Splice(r, k, m, mid))
  {
    forall i: nat | i < |Splice(r, k, m, mid)|
      ensures Node(Relinked(next, r, k, m, mid), Resized(page, mid), Splice(r, k, m, mid), i)
    {
      SplicedNode(next, page, r, k, m, mid, i);
    }
  }

  // ----- Where allocation and release meet the list

  lemma SpliceLater(r: seq<Run>, k: nat, m: nat, mid: seq<Run>)
    requires k > 0 && k + m <= |r|
    ensures Splice(r, k, m, mid) == [r[0]] + Splice(r[1..], k - 1, m, mid)
  {
    assert r[..k] == [r[0]] + r[1..][..k - 1] && r[k + m..] == r[1..][k - 1 + m..];
  }

  /** The remainder of a run after its first `n` pages are taken. */
  function Rest(b: Run, n: nat): seq<Run>
    requires n <= b.pages
  {
    if b.pages == n then [] else [Run(b.at + n, b.pages - n)]
  }

  lemma {:induction false} AllocAt(r: seq<Run>, k: nat, n: nat)
    requires n > 0 && k <= |r| && forall i :: 0 <= i < k ==> r[i].pages < n
    ensures k == |r| ==> Alloc(r, n) == None
    ensures k < |r| && r[k].pages >= n ==> Alloc(r, n) == Some((r[k].at, Splice(r, k, 1, Rest(r[k], n))))
  {
    if k > 0 {
      assert forall i :: 0 <= i < k - 1 ==> r[1..][i] == r[i + 1];
      AllocAt(r[1..], k - 1, n);
      if k < |r| && r[k].pages >= n {
        assert r[1..][k - 1] == r[k];
        SpliceLater(r, k, 1, Rest(r[k], n));
      }
    } else if r != [] {
      SpliceFirst(r, 1, if r[0].pages >= n then Rest(r[0], n) else []);
      assert [] + r[1..] == r[1..];
    }
  }

  /** The header of what is left of a run lies inside that run. */
  lemma RestClear(r: seq<Run>, k: nat, n: nat)
    requires Canonical(r) && k < |r| && 0 < n <= r[k].pages
    ensures Clear(r, k, 1, Rest(r[k], n))
  {
    assert forall i :: k < i < |r| ==> r[k].End() < r[i].at;
    assert forall i :: 0 <= i < k ==> r[i].End() < r[k].at;
  }

  /** A run that grows keeps its header. */
  lemma GrownClear(r: seq<Run>, k: nat, m: nat, b: Run)
    requires Canonical(r) && 1 <= m && k + m <= |r| && b.at == r[k].at && b.at != 0
    ensures Clear(r, k, m, [b])
  {
    assert forall i :: k < i < |r| ==> r[k].End() < r[i].at;
    assert forall i :: 0 <= i < k ==> r[i].End() < r[k].at;
  }

  lemma SpliceFirst(r: seq<Run>, m: nat, mid: seq<Run>)
    requires m <= |r|
    ensures Splice(r, 0, m, mid) == mid + r[m..]
  {
    assert r[..0] == [];
  }

  /** What happens at run `k`, when all before it end before the freed block. */
  function FreeMid(r: seq<Run>, k: nat, at: nat, n: nat): (nat, seq<Run>)
    requires k <= |r|
    ensures k + FreeMid(r, k, at, n).0 <= |r|
  {
    if k == |r| then (0, [Run(at, n)])
    else if r[k].End() == at then
      if k + 1 < |r| && at + n == r[k + 1].at then (2, [Run(r[k].at, r[k].pages + n + r[k + 1].pages)])
      else (1, [Run(r[k].at, r[k].pages + n)])
    else if r[k].at == at + n then (1, [Run(at, r[k].pages + n)])
    else (0, [Run(at, n)])
  }

  predicate Passes(b: Run, at: nat, n: nat) { b.End() != at && b.at < at + n }

  lemma {:induction false} FreeAt(r: seq<Run>, k: nat, at: nat, n: nat)
    requires k <= |r| && (forall i :: 0 <= i < k ==> Passes(r[i], at, n)) && (k < |r| ==> !Passes(r[k], at, n))
    ensures var (m, mid) := FreeMid(r, k, at, n); Free(r, at, n) == Splice(r, k, m, mid)
  {
    var (m, mid) := FreeMid(r, k, at, n);
    if k > 0 {
      assert forall i :: 0 <= i < k - 1 ==> r[1..][i] == r[i + 1];
      assert Passes(r[0], at, n);
      FreeAt(r[1..], k - 1, at, n);
      assert forall i :: k <= i < |r| ==> r[1..][i - 1] == r[i];
      SpliceLater(r, k, m, mid);
    } else {
      SpliceFirst(r, m, mid);
      if |r| > 1 { assert r[1..][1..] == r[2..]; }
    }
  }

  /** What becomes of run `k` when the block follows it. */
  lemma FreeUp(r: seq<Run>, k: nat, at: nat, n: nat)
    requires Canonical(r) && n > 0 && Owned(r, at, n) && k < |r| && r[k].at != 0 && r[k].End() == at
    requires forall i :: 0 <= i < k ==> Passes(r[i], at, n)
    ensures var (m, mid) := FreeMid(r, k, at, n);
      Clear(r, k, m, mid) && Splice(r, k, m, mid) == Free(r, at, n) && Canonical(Free(r, at, n))
  {
    var (m, mid) := FreeMid(r, k, at, n);
    FreeAt(r, k, at, n);
    FreeGives(r, at, n);
    GrownClear(r, k, m, mid[0]);
  }

  class PageHeap {
    var head: nat
    var next: Links
    var page: Links
    ghost var runs: seq<Run>

    ghost predicate Valid()
      reads this
    {
      Canonical(runs) && Linked(head, next, page, runs)
    }

    constructor ()
      ensures Valid() && runs == []
    {
      head, next, page, runs := 0, map[], map[], [];
    }

    /** The pointer to the link that leads to run `k`. */
    ghost predicate LeadsTo(prev: Option<nat>, k: nat)
      reads this
    {
      k <= |runs| && prev == if k == 0 then None else Some(runs[k - 1].at)
    }

    /** *prev = to */
    method Redirect(prev: Option<nat>, to: nat)
      modifies this`head, this`next
      ensures prev.None? ==> head == to && next == old(next)
      ensures prev.Some? ==> head == old(head) && next == old(next)[prev.value := to]
    {
      if prev.None? { head := to; } else { next := next[prev.value := to]; }
    }

    /** Writes the header of `mid`, if there is one, and redirects the link in front. */
    method Replace(prev: Option<nat>, after: nat, mid: seq<Run>, ghost k: nat, ghost m: nat)
      requires Valid() && k + m <= |runs| && LeadsTo(prev, k) && after == At(runs, k + m)
      requires Clear(runs, k, m, mid) && Canonical(Splice(runs, k, m, mid))
      modifies this
      ensures Valid() && runs == Splice(old(runs), k, m, mid)
    {
      Spliced(head, next, page, runs, k, m, mid);
      if mid != [] {
        next := next[mid[0].at := after];
        page := page[mid[0].at := mid[0].pages];
      }
      Redirect(prev, if mid == [] then after else mid[0].at);
      runs := Splice(runs, k, m, mid);
    }

    /** rt_page_alloc; 0 stands for RT_NULL. */
    method PageAlloc(n: nat) returns (b: nat)
      requires Valid()
      modifies this
      ensures Valid()
      ensures var a := Alloc(old(runs), n);
        if a.None? then b == 0 && runs == old(runs) else b == a.value.0 && b != 0 && runs == a.value.1
    {
      if n == 0 { return 0; }
      var prev: Option<nat> := None;
      b := head;
      ghost var k: nat := 0;
      assert |runs| > 0 ==> Node(next, page, runs, 0);
      while b != 0
        invariant Valid() && runs == old(runs)
        invariant 0 <= k <= |runs| && b == At(runs, k) && LeadsTo(prev, k) && (b != 0 <==> k < |runs|)
        invariant forall i :: 0 <= i < k ==> runs[i].pages < n
        decreases |runs| - k
      {
        assert Node(next, page, runs, k);
        if page[b] >= n {
          Take(prev, b, n, k);
          return;
        }
        prev := Some(b);
        b := next[b];
        k := k + 1;
        assert k < |runs| ==> Node(next, page, runs, k);
      }
      AllocAt(runs, k, n);
    }

    /** The split or the removal of the run found. */
    method Take(prev: Option<nat>, b: nat, n: nat, ghost k: nat)
      requires Valid() && k < |runs| && b == runs[k].at && LeadsTo(prev, k) && 0 < n <= runs[k].pages
      requires forall i :: 0 <= i < k ==> runs[i].pages < n
      modifies this
      ensures Valid() && Alloc(old(runs), n) == Some((b, runs)) && b != 0
    {
      assert Node(next, page, runs, k);
      AllocAt(runs, k, n);
      AllocTakes(runs, n);
      RestClear(runs, k, n);
      Replace(prev, next[b], if page[b] > n then [Run(b + n, page[b] - n)] else [], k, 1);
    }

    /** rt_page_free; the pages given back must not be free already, which the code asserts. */
    method PageFree(at: nat, n: nat)
      requires Valid() && at > 0 && n > 0 && Owned(runs, at, n)
      modifies this
      ensures Valid() && runs == Free(old(runs), at, n)
    {
      var prev: Option<nat> := None;
      var b := head;
      ghost var k: nat := 0;
      assert |runs| > 0 ==> Node(next, page, runs, 0);
      while b != 0
        invariant Valid() && runs == old(runs)
        invariant 0 <= k <= |runs| && b == At(runs, k) && LeadsTo(prev, k) && (b != 0 <==> k < |runs|)
        invariant forall i :: 0 <= i < k ==> Passes(runs[i], at, n)
        decreases |runs| - k
      {
        assert Node(next, page, runs, k);
        if b + page[b] == at {
          GrowUp(prev, b, at, n, k);
          return;
        }
        if b == at + n {
          GrowDown(prev, b, at, n, k);
          return;
        }
        if b > at + n { break; }
        prev := Some(b);
        b := next[b];
        k := k + 1;
        assert k < |runs| ==> Node(next, page, runs, k);
      }
      FreeAt(runs, k, at, n);
      FreeGives(runs, at, n);
      NotAHeader(at, n);
      Replace(prev, b, [Run(at, n)], k, 0);
    }

    /** No free run starts inside a block that is not free. */
    lemma NotAHeader(at: nat, n: nat)
      requires Valid() && n > 0 && Owned(runs, at, n)
      ensures forall i :: 0 <= i < |runs| ==> runs[i].at != at
    {
      forall i | 0 <= i < |runs| ensures runs[i].at != at {
        FreeInRun(runs, runs[i].at);
        assert runs[i].Has(runs[i].at);
      }
    }

    /** The block follows run `k`, which grows, and may now touch the next one. */
    method GrowUp(prev: Option<nat>, b: nat, at: nat, n: nat, ghost k: nat)
      requires Valid() && n > 0 && Owned(runs, at, n)
      requires k < |runs| && b == runs[k].at && LeadsTo(prev, k) && runs[k].End() == at
      requires forall i :: 0 <= i < k ==> Passes(runs[i], at, n)
      modifies this
      ensures Valid() && runs == Free(old(runs), at, n)
    {
      assert Node(next, page, runs, k);
      FreeUp(runs, k, at, n);
      var after, grown := next[b], Run(b, page[b] + n);
      ghost var m := 1;
      if after == at + n {
        assert Node(next, page, runs, k + 1);
        grown := grown.(pages := grown.pages + page[after]);
        after := next[after];
        m := 2;
      }
      assert FreeMid(runs, k, at, n) == (m, [grown]);
      Replace(prev, after, [grown], k, m);
    }

    /** The block lies directly in front of run `k`. */
    method GrowDown(prev: Option<nat>, b: nat, at: nat, n: nat, ghost k: nat)
      requires Valid() && at > 0 && n > 0 && Owned(runs, at, n)
      requires k < |runs| && b == runs[k].at && LeadsTo(prev, k) && b == at + n
      requires forall i :: 0 <= i < k ==> Passes(runs[i], at, n)
      modifies this
      ensures Valid() && runs == Free(old(runs), at, n)
    {
      assert Node(next, page, runs, k);
      FreeAt(runs, k, at, n);
      FreeGives(runs, at, n);
      NotAHeader(at, n);
      Replace(prev, next[b], [Run(at, page[b] + n)], k, 1);
    }
  }
}
