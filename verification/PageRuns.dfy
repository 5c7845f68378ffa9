// The page allocator of src/slab.c: a list of runs of free pages, in address order. Addresses
// are counted in pages.
module PageRuns {
  import opened Options

  datatype Run = Run(at: nat, pages: nat) {
    function End(): nat { at + pages }
    predicate Has(p: nat) { at <= p < End() }
  }

  /** Sorted, and maximal: between one run and the next there is a page that is not free. */
  predicate Canonical(r: seq<Run>) {
    && (forall i :: 0 <= i < |r| ==> r[i].pages > 0)
    && (forall i, j :: 0 <= i < j < |r| ==> r[i].End() < r[j].at)
  }

  /** Page `p` is free. */
  predicate IsFree(r: seq<Run>, p: nat) { r != [] && (r[0].Has(p) || IsFree(r[1..], p)) }

  function Total(r: seq<Run>): nat { if r == [] then 0 else r[0].pages + Total(r[1..]) }

  lemma {:induction false} FreeInRun(r: seq<Run>, p: nat)
    ensures IsFree(r, p) <==> exists i :: 0 <= i < |r| && r[i].Has(p)
  {
    if r != [] {
      FreeInRun(r[1..], p);
      if IsFree(r[1..], p) {
        var i :| 0 <= i < |r[1..]| && r[1..][i].Has(p);
        assert r[i + 1].Has(p);
      }
      if i :| 0 <= i < |r| && r[i].Has(p) && i > 0 { assert r[1..][i - 1] == r[i]; }
    }
  }

  lemma CanonicalTail(r: seq<Run>)
    requires Canonical(r) && r != []
    ensures Canonical(r[1..]) && forall p: nat :: IsFree(r[1..], p) ==> r[0].End() < p
  {
    forall p: nat | IsFree(r[1..], p) ensures r[0].End() < p {
      FreeInRun(r[1..], p);
      var i :| 0 <= i < |r[1..]| && r[1..][i].Has(p);
      assert r[0].End() < r[i + 1].at;
    }
  }

  lemma CanonicalCons(a: Run, r: seq<Run>)
    requires a.pages > 0 && Canonical(r) && (r != [] ==> a.End() < r[0].at)
    ensures Canonical([a] + r)
    ensures forall p: nat :: IsFree([a] + r, p) <==> a.Has(p) || IsFree(r, p)
  {
    var s := [a] + r;
    assert s[1..] == r;
    forall i, j | 0 <= i < j < |s| ensures s[i].End() < s[j].at {
      assert s[j] == r[j - 1];
      if i == 0 && j > 1 { assert r[0].End() < r[j - 1].at; }
    }
  }

  /** There is only one canonical list for a set of free pages. */
  lemma {:induction false} CanonicalUnique(a: seq<Run>, b: seq<Run>)
    requires Canonical(a) && Canonical(b) && forall p: nat :: IsFree(a, p) <==> IsFree(b, p)
    ensures a == b
    decreases |a|
  {
    assert a != [] ==> a[0].Has(a[0].at) && IsFree(a, a[0].at);
    assert b != [] ==> b[0].Has(b[0].at) && IsFree(b, b[0].at);
    if a != [] && b != [] {
      CanonicalTail(a);
      CanonicalTail(b);
      FirstRun(a, b);
      FirstRun(b, a);
      forall p: nat ensures IsFree(a[1..], p) <==> IsFree(b[1..], p) {
        assert IsFree(a[1..], p) <==> IsFree(a, p) && p > a[0].End();
        assert IsFree(b[1..], p) <==> IsFree(b, p) && p > b[0].End();
      }
      CanonicalUnique(a[1..], b[1..]);
      assert a == [a[0]] + a[1..] && b == [b[0]] + b[1..];
    }
  }

  lemma FirstRun(a: seq<Run>, b: seq<Run>)
    requires Canonical(a) && Canonical(b) && a != [] && b != []
    requires forall p: nat :: IsFree(a, p) <==> IsFree(b, p)
    ensures a[0].at <= b[0].at && (a[0].at == b[0].at ==> a[0].End() <= b[0].End())
  {
    CanonicalTail(a);
    CanonicalTail(b);
    assert b[0].Has(b[0].at) && IsFree(b, b[0].at) && IsFree(a, b[0].at);
    assert a[0].Has(b[0].at) || IsFree(a[1..], b[0].at);
    assert a[0].Has(b[0].End()) ==> IsFree(a, b[0].End());
    assert !IsFree(b, b[0].End());
  }

  // ----- rt_page_alloc

  /** The first run that is long enough gives its first `n` pages. */
  function Alloc(r: seq<Run>, n: nat): Option<(nat, seq<Run>)> {
    if n == 0 || r == [] then None
    else if r[0].pages > n then Some((r[0].at, [Run(r[0].at + n, r[0].pages - n)] + r[1..]))
    else if r[0].pages == n then Some((r[0].at, r[1..]))
    else
      var (at, rest) :- Alloc(r[1..], n);
      Some((at, [r[0]] + rest))
  }

  /** On success the pages were free, exactly they are gone, and the count goes down by them. */
  lemma {:induction false} AllocTakes(r: seq<Run>, n: nat)
    requires Canonical(r) && Alloc(r, n).Some?
    ensures var (at, r') := Alloc(r, n).value;
      && Canonical(r') && Total(r') == Total(r) - n
      && (forall p: nat :: at <= p < at + n ==> IsFree(r, p))
      && (forall p: nat :: IsFree(r', p) <==> IsFree(r, p) && !(at <= p < at + n))
      && (r' != [] ==> r != [] && r[0].at <= r'[0].at)
  {
    var (at, r') := Alloc(r, n).value;
    CanonicalTail(r);
    if r[0].pages > n {
      CanonicalCons(Run(r[0].at + n, r[0].pages - n), r[1..]);
      assert r'[1..] == r[1..];
    } else if r[0].pages < n {
      AllocTakes(r[1..], n);
      var (_, rest) := Alloc(r[1..], n).value;
      if rest != [] { assert r[0].End() < r[1].at; }
      CanonicalCons(r[0], rest);
      assert r'[1..] == rest && r' == [r[0]] + rest;
      forall p: nat ensures IsFree(r', p) <==> IsFree(r, p) && !(at <= p < at + n) {
        assert at <= p < at + n ==> IsFree(r[1..], p);
      }
    }
  }

  /** It fails exactly when no run is long enough... */
  lemma {:induction false} AllocFails(r: seq<Run>, n: nat)
    requires n > 0
    ensures Alloc(r, n).None? <==> forall i :: 0 <= i < |r| ==> r[i].pages < n
  {
    if r != [] {
      AllocFails(r[1..], n);
      assert forall i :: 0 < i < |r| ==> r[i] == r[1..][i - 1];
      assert forall i :: 0 <= i < |r[1..]| ==> r[1..][i] == r[i + 1];
    }
  }

  /** `n` free pages side by side. */
  ghost predicate Gap(r: seq<Run>, a: nat, n: nat) { forall p: nat :: a <= p < a + n ==> IsFree(r, p) }

  /** ... that is, when no `n` free pages lie side by side anywhere. */
  lemma AllocFailsIff(r: seq<Run>, n: nat)
    requires Canonical(r) && n > 0
    ensures Alloc(r, n).None? <==> !exists a: nat :: Gap(r, a, n)
  {
    AllocFails(r, n);
    if a: nat :| Gap(r, a, n) { InOneRun(r, a, n); }
    if Alloc(r, n).Some? {
      AllocTakes(r, n);
      assert Gap(r, Alloc(r, n).value.0, n);
    }
  }

  /** Pages side by side lie in one run, since runs are maximal. */
  lemma InOneRun(r: seq<Run>, a: nat, n: nat)
    requires Canonical(r) && n > 0 && Gap(r, a, n)
    ensures exists i :: 0 <= i < |r| && r[i].pages >= n
  {
    assert IsFree(r, a);
    FreeInRun(r, a);
    var i: nat :| i < |r| && r[i].Has(a);
    var end := r[i].End();
    assert end < a + n ==> IsFree(r, end);
    BehindNotFree(r, i);
  }

  /** The page behind a run is not free. */
  lemma BehindNotFree(r: seq<Run>, i: nat)
    requires Canonical(r) && i < |r|
    ensures !IsFree(r, r[i].End())
  {
    FreeInRun(r, r[i].End());
    assert forall j :: 0 <= j < i ==> r[j].End() < r[i].at;
  }

  // ----- rt_page_free

  function Free(r: seq<Run>, at: nat, n: nat): seq<Run> {
    if r == [] then [Run(at, n)]
    else if r[0].End() == at then Joined(Run(r[0].at, r[0].pages + n), r[1..])
    else if r[0].at == at + n then [Run(at, r[0].pages + n)] + r[1..]
    else if r[0].at > at + n then [Run(at, n)] + r
    else [r[0]] + Free(r[1..], at, n)
  }

  /** A run that has grown at its end swallows the next one if they now touch. */
  function Joined(b: Run, rest: seq<Run>): seq<Run> {
    if rest != [] && b.End() == rest[0].at then [Run(b.at, b.pages + rest[0].pages)] + rest[1..] else [b] + rest
  }

  lemma JoinedCanonical(b: Run, rest: seq<Run>)
    requires b.pages > 0 && Canonical(rest) && (rest != [] ==> b.End() <= rest[0].at)
    ensures var j := Joined(b, rest);
      && Canonical(j) && Total(j) == b.pages + Total(rest) && j[0].at == b.at
      && forall p: nat :: IsFree(j, p) <==> b.Has(p) || IsFree(rest, p)
  {
    if rest != [] && b.End() == rest[0].at {
      CanonicalTail(rest);
      if rest[1..] != [] { assert rest[0].End() < rest[1].at; }
      CanonicalCons(Run(b.at, b.pages + rest[0].pages), rest[1..]);
      assert Joined(b, rest)[1..] == rest[1..];
    } else {
      CanonicalCons(b, rest);
      assert Joined(b, rest)[1..] == rest;
    }
  }

  /** No page of the block is free. */
  ghost predicate Owned(r: seq<Run>, at: nat, n: nat) { forall p: nat :: at <= p < at + n ==> !IsFree(r, p) }

  /** Freeing pages that were not free adds exactly them, and the list stays canonical. */
  ghost predicate Gives(r: seq<Run>, at: nat, n: nat, r': seq<Run>) {
    && Canonical(r') && Total(r') == Total(r) + n
    && (forall p: nat :: IsFree(r', p) <==> IsFree(r, p) || at <= p < at + n)
    && r' != [] && (r'[0].at == at || (r != [] && r'[0].at == r[0].at))
  }

  lemma {:induction false} FreeGives(r: seq<Run>, at: nat, n: nat)
    requires Canonical(r) && n > 0 && Owned(r, at, n)
    ensures Gives(r, at, n, Free(r, at, n))
  {
    if r == [] {
      CanonicalCons(Run(at, n), []);
      assert Free(r, at, n) == [Run(at, n)] + [];
    } else {
      CanonicalTail(r);
      if r[0].End() == at {
        NextBeyond(r, at, n);
        JoinedCanonical(Run(r[0].at, r[0].pages + n), r[1..]);
      } else if r[0].at >= at + n {
        FreeInFront(r, at, n);
      } else {
        assert forall p: nat :: IsFree(r[1..], p) ==> IsFree(r, p);
        FreeGives(r[1..], at, n);
        FreeBehind(r, at, n);
      }
    }
  }

  lemma FreeInFront(r: seq<Run>, at: nat, n: nat)
    requires Canonical(r) && r != [] && n > 0 && r[0].at >= at + n
    ensures Gives(r, at, n, Free(r, at, n))
  {
    var r', rest := Free(r, at, n), r[1..];
    CanonicalTail(r);
    if r[0].at == at + n {
      if rest != [] { assert r[0].End() < r[1].at; }
      CanonicalCons(Run(at, r[0].pages + n), rest);
      assert r'[1..] == rest;
    } else {
      CanonicalCons(Run(at, n), r);
      assert r'[1..] == r;
    }
  }

  lemma FreeBehind(r: seq<Run>, at: nat, n: nat)
    requires Canonical(r) && r != [] && n > 0 && Owned(r, at, n)
    requires r[0].End() != at && r[0].at < at + n && Gives(r[1..], at, n, Free(r[1..], at, n))
    ensures Gives(r, at, n, Free(r, at, n))
  {
    Beyond(r, at, n);
    var rest' := Free(r[1..], at, n);
    if r[1..] != [] { assert r[0].End() < r[1].at; }
    CanonicalCons(r[0], rest');
    assert Free(r, at, n)[1..] == rest';
  }

  lemma NextBeyond(r: seq<Run>, at: nat, n: nat)
    requires Canonical(r) && r != [] && n > 0 && Owned(r, at, n) && r[0].End() == at
    ensures r[1..] != [] ==> at + n <= r[1].at
  {
    if r[1..] != [] {
      assert r[1..][0].Has(r[1].at) && IsFree(r[1..], r[1].at) && IsFree(r, r[1].at);
      assert r[0].End() < r[1].at;
    }
  }

  lemma Beyond(r: seq<Run>, at: nat, n: nat)
    requires Canonical(r) && r != [] && n > 0 && Owned(r, at, n)
    requires r[0].End() != at && r[0].at < at + n
    ensures r[0].End() < at
  {
    assert r[0].Has(r[0].at) && IsFree(r, r[0].at);
    assert r[0].Has(at) ==> IsFree(r, at);
  }

  /** Freeing what was just allocated restores the identical list. */
  lemma FreeUndoesAlloc(r: seq<Run>, n: nat)
    requires Canonical(r) && Alloc(r, n).Some?
    ensures var (at, r') := Alloc(r, n).value; Free(r', at, n) == r
  {
    var (at, r') := Alloc(r, n).value;
    AllocTakes(r, n);
    FreeGives(r', at, n);
    CanonicalUnique(Free(r', at, n), r);
  }
}
