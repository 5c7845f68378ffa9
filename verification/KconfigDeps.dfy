// Dependents, and why dropping the cached values of an item and of its dependents' cached
// dependents is enough: tools/kconfiglib.py, Kconfig._build_dep() and _rec_invalidate().
module KconfigDeps {
  import opened Options
  import opened KconfigExpr
  import opened KconfigValues
  import opened KconfigLocality

  type Cache = map<Slot, Cached>
  type Deps = map<nat, set<nat>>
  type Rank = Slot -> nat

  function Look(c: Cache): Env { s => if s in c then Some(c[s]) else None }

  function At(cfg: Config, user: seq<User>, c: Cache): World { World(cfg, user, Look(c)) }

  /** Every cached value is what its formula gives on the other cached values. */
  ghost predicate Consistent(cfg: Config, user: seq<User>, c: Cache) {
    forall s {:trigger Right(cfg, user, c, s)} :: s in c ==> Right(cfg, user, c, s)
  }

  predicate Right(cfg: Config, user: seq<User>, c: Cache, s: Slot)
    requires s in c
  {
    Eval(At(cfg, user, c), s) == Some(c[s])
  }

  // ----- From-scratch evaluation

  function Below(rank: Rank, b: nat): Slots { t => rank(t) < b }

  /** No slot can read itself, directly or through others. */
  ghost predicate LoopFree(cfg: Config, rank: Rank) {
    forall s :: Grounded(cfg, rank, s)
  }

  /** Slot `s` reads only slots of lower rank. */
  predicate Grounded(cfg: Config, rank: Rank, s: Slot) { SlotIn(cfg, Below(rank, rank(s)), s) }

  /** The value of a slot computed recursively, without any cache. */
  ghost function Scratch(cfg: Config, user: seq<User>, rank: Rank, s: Slot): Option<Cached>
    decreases rank(s)
  {
    Eval(World(cfg, user, ScratchEnv(cfg, user, rank, rank(s))), s)
  }

  ghost function ScratchEnv(cfg: Config, user: seq<User>, rank: Rank, b: nat): Env
    decreases b, 0
  {
    t => if rank(t) < b then Scratch(cfg, user, rank, t) else None
  }

  /** Consistent caches hold the from-scratch values. */
  lemma {:induction false} ConsistentIsScratch(cfg: Config, user: seq<User>, rank: Rank, c: Cache, s: Slot)
    requires LoopFree(cfg, rank) && SelectionsInside(cfg, user) && Consistent(cfg, user, c) && s in c
    ensures Scratch(cfg, user, rank, s) == Some(c[s])
    decreases rank(s)
  {
    var w := At(cfg, user, c);
    var w' := World(cfg, user, ScratchEnv(cfg, user, rank, rank(s)));
    forall t | rank(t) < rank(s) && t in c
      ensures w'.env(t) == Some(c[t])
    {
      ConsistentIsScratch(cfg, user, rank, c, t);
    }
    assert Carries(Below(rank, rank(s)), w, w');
    assert Grounded(cfg, rank, s) && Right(cfg, user, c, s);
    NeverCached(cfg, user, c, s.item);
    EvalLocal(Below(rank, rank(s)), w, w', s);
  }

  lemma NeverCached(cfg: Config, user: seq<User>, c: Cache, i: nat)
    requires Consistent(cfg, user, c)
    ensures Quiet(At(cfg, user, c), i)
  {
    if Never(cfg.Get(i)) && Slot(i, Vis) in c {
      NeverVisible(At(cfg, user, c), i);
      assert Right(cfg, user, c, Slot(i, Vis));
    }
  }

  // ----- Caches that only grow

  predicate Grew(c: Cache, c': Cache) { forall s :: s in c ==> s in c' && c'[s] == c[s] }

  /** Storing what the formula gives keeps the cache consistent. */
  lemma Store(cfg: Config, user: seq<User>, rank: Rank, c: Cache, s: Slot, v: Cached)
    requires LoopFree(cfg, rank) && SelectionsInside(cfg, user) && Consistent(cfg, user, c)
    requires Eval(At(cfg, user, c), s) == Some(v)
    ensures Consistent(cfg, user, c[s := v]) && Grew(c, c[s := v])
  {
    var c' := c[s := v];
    if s in c { assert Right(cfg, user, c, s); }
    forall t | t in c' ensures Right(cfg, user, c', t) {
      assert Grounded(cfg, rank, t);
      if t != s { assert Right(cfg, user, c, t); }
      NeverCached(cfg, user, c, t.item);
      EvalLocal(Below(rank, rank(t)), At(cfg, user, c), At(cfg, user, c'), t);
    }
  }

  // ----- The dependency graph

  function AtomItems(a: Atom): set<nat> { if a.Item? then {a.id} else {} }

  function ExprItems(e: Expr): set<nat> {
    match e
    case Leaf(a) => AtomItems(a)
    case And(l, r) => ExprItems(l) + ExprItems(r)
    case Or(l, r) => ExprItems(l) + ExprItems(r)
    case Not(x) => ExprItems(x)
    case Compare(_, a, b) => AtomItems(a) + AtomItems(b)
  }

  function NodeItems(nodes: seq<Option<Expr>>): set<nat> {
    if nodes == [] then {} else
      var last := nodes[|nodes| - 1];
      NodeItems(nodes[..|nodes| - 1]) + if last.Some? then ExprItems(last.value) else {}
  }

  function DefaultItems(ds: seq<Default>): set<nat> {
    if ds == [] then {} else
      var last := ds[|ds| - 1];
      DefaultItems(ds[..|ds| - 1]) + ExprItems(last.value) + ExprItems(last.cond)
  }

  function RangeItems(rs: seq<Range>): set<nat> {
    if rs == [] then {} else
      var last := rs[|rs| - 1];
      RangeItems(rs[..|rs| - 1]) + AtomItems(last.low) + AtomItems(last.high) + ExprItems(last.cond)
  }

  function PickItems(ps: seq<Pick>): set<nat> {
    if ps == [] then {} else PickItems(ps[..|ps| - 1]) + ExprItems(ps[|ps| - 1].cond)
  }

  /** The items that `it` is registered with as a dependent; undefined symbols with none. */
  function Mentioned(it: Item): set<nat> {
    match it
    case Symbol(_, _, nodes, defaults, ranges, direct, rev, weak, _) =>
      if nodes == [] then {} else
        NodeItems(nodes) + DefaultItems(defaults) + ExprItems(rev) + ExprItems(weak) + RangeItems(ranges) + ExprItems(direct)
    case Choice(_, nodes, picks, syms, _) =>
      NodeItems(nodes) + PickItems(picks) + set s | s in syms
  }

  function DependentsOf(d: Deps, x: nat): set<nat> { if x in d then d[x] else {} }

  /** `d'` is `d` with `i` added to the dependents of every item in `xs`. */
  ghost predicate Extends(d: Deps, d': Deps, xs: set<nat>, i: nat) {
    forall x: nat, y: nat :: y in DependentsOf(d', x) <==> y in DependentsOf(d, x) || (y == i && x in xs)
  }

  /** Of the first `n` items, exactly those that mention `x` are dependents of `x`. */
  ghost predicate BuiltUpTo(cfg: Config, d: Deps, n: nat) {
    forall x: nat, y: nat :: Registered(cfg, d, n, x, y)
  }

  predicate Registered(cfg: Config, d: Deps, n: nat, x: nat, y: nat) {
    y in DependentsOf(d, x) <==> y < n && x in Mentioned(cfg.Get(y))
  }

  ghost predicate Built(cfg: Config, d: Deps) { BuiltUpTo(cfg, d, |cfg.items|) }

  predicate Defined(it: Item) { it.Choice? || it.nodes != [] }

  /** What parsing leaves behind: a choice symbol is listed by its choice, and items without a
      definition have no type. */
  predicate Propagated(cfg: Config, i: nat) {
    var it := cfg.Get(i);
    WellPlaced(cfg, i) && (!Defined(it) ==> it.orig == Unknown && it.choice.None?)
  }

  ghost predicate WellFormed(cfg: Config) {
    && cfg.modules < |cfg.items| && cfg.items[cfg.modules].Symbol?
    && forall i: nat :: Propagated(cfg, i)
  }

  /** Changes of `x` reach `y`: it is the item itself, mentioned by it, MODULES, or an undefined
      symbol, which never changes. */
  predicate Seen(cfg: Config, y: nat, x: nat) {
    x == y || x == cfg.modules || x in Mentioned(cfg.Get(y)) || !Defined(cfg.Get(x))
  }

  /** Changes of a choice's defaults reach the choice, and changes of a choice reach its symbols,
      except those that are never visible. Choice defaults inside the choice are mentioned. */
  predicate Covered(cfg: Config, i: nat) {
    match cfg.Get(i)
    case Choice(_, _, picks, _, _) => forall k :: 0 <= k < |picks| ==> Seen(cfg, i, picks[k].sym)
    case Symbol(_, _, _, _, _, _, _, _, choice) => choice.Some? ==> Seen(cfg, i, choice.value) || Never(cfg.Get(i))
  }

  ghost predicate AllCovered(cfg: Config) { forall i: nat :: Covered(cfg, i) }

  /** The slots whose changes reach item `y`. */
  function Near(cfg: Config, y: nat): Slots {
    (t: Slot) => Seen(cfg, y, t.item)
  }

  lemma {:induction false} ExprNear(cfg: Config, y: nat, e: Expr)
    requires ExprItems(e) <= Mentioned(cfg.Get(y))
    ensures ExprIn(cfg, Near(cfg, y), e)
  {
    match e
    case Leaf(a) =>
    case And(l, r) => ExprNear(cfg, y, l); ExprNear(cfg, y, r);
    case Or(l, r) => ExprNear(cfg, y, l); ExprNear(cfg, y, r);
    case Not(x) => ExprNear(cfg, y, x);
    case Compare(_, a, b) =>
  }

  lemma {:induction false} NodesNear(cfg: Config, y: nat, nodes: seq<Option<Expr>>)
    requires NodeItems(nodes) <= Mentioned(cfg.Get(y))
    ensures NodesIn(cfg, Near(cfg, y), nodes)
  {
    if nodes != [] {
      NodesNear(cfg, y, nodes[..|nodes| - 1]);
      if nodes[|nodes| - 1].Some? { ExprNear(cfg, y, nodes[|nodes| - 1].value); }
    }
  }

  lemma {:induction false} DefaultsNear(cfg: Config, y: nat, ds: seq<Default>)
    requires DefaultItems(ds) <= Mentioned(cfg.Get(y))
    ensures DefaultsIn(cfg, Near(cfg, y), ds)
  {
    if ds != [] {
      DefaultsNear(cfg, y, ds[..|ds| - 1]);
      ExprNear(cfg, y, ds[|ds| - 1].value);
      ExprNear(cfg, y, ds[|ds| - 1].cond);
    }
  }

  lemma {:induction false} RangesNear(cfg: Config, y: nat, rs: seq<Range>)
    requires RangeItems(rs) <= Mentioned(cfg.Get(y))
    ensures RangesIn(cfg, Near(cfg, y), rs)
  {
    if rs != [] {
      var init, last := rs[..|rs| - 1], rs[|rs| - 1];
      RangesNear(cfg, y, init);
      ExprNear(cfg, y, last.cond);
      ExprNear(cfg, y, Leaf(last.low));
      ExprNear(cfg, y, Leaf(last.high));
      assert rs == init + [last];
    }
  }

  lemma {:induction false} PicksNear(cfg: Config, y: nat, ps: seq<Pick>)
    requires PickItems(ps) <= Mentioned(cfg.Get(y))
    ensures PicksIn(cfg, Near(cfg, y), ps)
  {
    if ps != [] {
      PicksNear(cfg, y, ps[..|ps| - 1]);
      ExprNear(cfg, y, ps[|ps| - 1].cond);
    }
  }

  /** The values of a defined item depend only on items whose changes reach it, if and only if
      the item is covered. */
  lemma ReadsNear(cfg: Config, y: nat)
    requires WellFormed(cfg) && Defined(cfg.Get(y))
    ensures (forall k :: SlotNeeds(cfg, Near(cfg, y), Slot(y, k))) <==> Covered(cfg, y)
  {
    OwnNear(cfg, y);
    assert Propagated(cfg, y);
    var it := cfg.Get(y);
    if forall k :: SlotNeeds(cfg, Near(cfg, y), Slot(y, k)) {
      assert SlotNeeds(cfg, Near(cfg, y), Slot(y, Sel)) && SlotNeeds(cfg, Near(cfg, y), Slot(y, Vis));
    } else if it.Choice? {
      assert forall k :: 0 <= k < |it.syms| ==> it.syms[k] in Mentioned(it);
    }
  }

  lemma OwnNear(cfg: Config, y: nat)
    requires Defined(cfg.Get(y))
    ensures OwnIn(cfg, Near(cfg, y), y)
  {
    var it := cfg.Get(y);
    NodesNear(cfg, y, it.nodes);
    if it.Choice? {
      PicksNear(cfg, y, it.picks);
    } else {
      DefaultsNear(cfg, y, it.defaults);
      RangesNear(cfg, y, it.ranges);
      ExprNear(cfg, y, it.direct);
      ExprNear(cfg, y, it.rev);
      ExprNear(cfg, y, it.weak);
    }
  }

  // ----- Invalidation

  predicate Gone(c: Cache, i: nat) { forall k :: Slot(i, k) !in c }

  /** Some cached value of item `z` was dropped between `c` and `c'`. */
  predicate Dropped(c: Cache, c': Cache, z: nat) { exists k :: Slot(z, k) in c && Slot(z, k) !in c' }

  /** `c'` is `c` without all values of some items. */
  ghost predicate Trimmed(c: Cache, c': Cache) {
    && Grew(c', c)
    && forall z: nat :: Dropped(c, c', z) ==> Gone(c', z)
  }

  /** No dependent of `z` has a cached visibility; of MODULES, no item has anything cached. */
  ghost predicate Cut(cfg: Config, d: Deps, c: Cache, z: nat) {
    && (forall y :: y in DependentsOf(d, z) ==> Slot(y, Vis) !in c)
    && (z == cfg.modules ==> forall y: nat :: Defined(cfg.Get(y)) ==> Gone(c, y))
  }

  /** Between `c` and `c'`, every item that lost its values, except those in `open`, is cut
      off from its dependents. */
  ghost predicate Swept(cfg: Config, d: Deps, c: Cache, c': Cache, open: set<nat>) {
    && Trimmed(c, c')
    && forall z: nat :: Dropped(c, c', z) ==> Defined(cfg.Get(z)) && (z !in open ==> Cut(cfg, d, c', z))
  }

  /** `items` holds, with an item, every dependent that the invalidation goes on to. */
  ghost predicate Closed(cfg: Config, d: Deps, c: Cache, items: set<nat>) {
    && cfg.modules !in items
    && forall x: nat, y: nat :: x in items && y in DependentsOf(d, x) && Slot(y, Vis) in c ==> y in items
  }

  /** Nothing outside `items` was dropped. */
  predicate Spared(c: Cache, c': Cache, items: set<nat>) {
    forall s :: s in c && s.item !in items ==> s in c'
  }

  lemma SweptTwice(cfg: Config, d: Deps, c0: Cache, c1: Cache, c2: Cache, open: set<nat>)
    requires Swept(cfg, d, c0, c1, open) && Swept(cfg, d, c1, c2, {})
    ensures Swept(cfg, d, c0, c2, open)
  {
    forall z: nat | Dropped(c0, c2, z)
      ensures Gone(c2, z) && Defined(cfg.Get(z)) && (z !in open ==> Cut(cfg, d, c2, z))
    {
      if Dropped(c0, c1, z) {
        assert Gone(c1, z) && (z !in open ==> Cut(cfg, d, c1, z));
      } else {
        assert Dropped(c1, c2, z);
      }
    }
  }

  /** What `_rec_invalidate()` of item `i` makes of cache `c`. */
  ghost predicate Invalidated(cfg: Config, d: Deps, c: Cache, c': Cache, i: nat) {
    && Swept(cfg, d, c, c', {}) && Gone(c', i) && Cut(cfg, d, c', i)
    && forall r :: Closed(cfg, d, c, r) && i in r ==> Spared(c, c', r)
  }

  /** Every invalidation of `x` takes the values of `y` along. */
  ghost predicate TakesAlong(cfg: Config, d: Deps, x: nat, y: nat) {
    forall c, c' :: Invalidated(cfg, d, c, c', x) && Slot(y, Vis) in c ==> Gone(c', y)
  }

  /** Invalidating `x` takes `y` along if and only if changes of `x` reach `y`. */
  lemma ReachesExactly(cfg: Config, d: Deps, x: nat, y: nat)
    requires WellFormed(cfg) && Built(cfg, d) && Defined(cfg.Get(x)) && Defined(cfg.Get(y)) && y < |cfg.items|
    ensures TakesAlong(cfg, d, x, y) <==> Seen(cfg, y, x)
  {
    assert Registered(cfg, d, |cfg.items|, x, y);
    if Seen(cfg, y, x) {
      forall c, c' | Invalidated(cfg, d, c, c', x) && Slot(y, Vis) in c ensures Gone(c', y) {
        if x != y && x != cfg.modules { assert Dropped(c, c', y); }
      }
    } else {
      var c': Cache := map[Slot(y, Vis) := Number(0)];
      var c := c'[Slot(x, Vis) := Number(0)];
      assert Slot(x, Vis) in c && Slot(x, Vis) !in c' && Slot(y, Vis) in c';
      assert Invalidated(cfg, d, c, c', x);
      assert !Gone(c', y);
    }
  }

  /** A cached value that is not a constant implies a cached visibility. */
  lemma VisibilityCached(cfg: Config, user: seq<User>, c: Cache, s: Slot)
    requires Consistent(cfg, user, c) && s in c && !Fixed(cfg, s)
    ensures Slot(s.item, Vis) in c
  {
    var w := At(cfg, user, c);
    assert Right(cfg, user, c, s);
    if s.kind == Str && (cfg.Get(s.item).orig == Bool || cfg.Get(s.item).orig == Tri3) {
      var t := Slot(s.item, Tri);
      assert t in c;
      assert Right(cfg, user, c, t);
    }
  }

  /** The user's entry of item `j` may change without `c'` going stale. */
  ghost predicate Harmless(cfg: Config, d: Deps, c': Cache, j: nat) {
    var it := cfg.Get(j);
    || (it.Symbol? && Never(it))
    || (Slot(j, Vis) !in c' && (it.Choice? ==> Cut(cfg, d, c', j)))
  }

  ghost predicate Safe(cfg: Config, d: Deps, c': Cache, user: seq<User>, user': seq<User>) {
    && |user| == |user'|
    && forall j: nat :: j < |user| && user[j] != user'[j] ==> Harmless(cfg, d, c', j)
  }

  /** Entries of a choice symbol and its choice may change once the choice is invalidated. */
  lemma SelectionSafe(cfg: Config, d: Deps, c': Cache, user: seq<User>, user': seq<User>, i: nat)
    requires WellFormed(cfg) && Covered(cfg, i) && Built(cfg, d) && |user| == |user'|
    requires i < |cfg.items| && cfg.Get(i).Symbol? && cfg.Get(i).choice.Some?
    requires var c := cfg.Get(i).choice.value;
      && Gone(c', c) && Cut(cfg, d, c', c)
      && forall j: nat :: j < |user| && j != i && j != c ==> user[j] == user'[j]
    ensures Safe(cfg, d, c', user, user')
  {
    var c := cfg.Get(i).choice.value;
    assert Propagated(cfg, i) && Registered(cfg, d, |cfg.items|, c, i);
    assert Harmless(cfg, d, c', i) && Harmless(cfg, d, c', c);
  }

  /** What is left after an invalidation sweep is right for the new user values. */
  lemma SweepSound(cfg: Config, d: Deps, user: seq<User>, user': seq<User>, c: Cache, c': Cache)
    requires WellFormed(cfg) && AllCovered(cfg) && Built(cfg, d) && SelectionsInside(cfg, user)
    requires Consistent(cfg, user, c) && Swept(cfg, d, c, c', {}) && Safe(cfg, d, c', user, user')
    ensures Consistent(cfg, user', c')
  {
    forall s | s in c' ensures Right(cfg, user', c', s) {
      StillRight(cfg, d, user, user', c, c', s);
    }
  }

  lemma StillRight(cfg: Config, d: Deps, user: seq<User>, user': seq<User>, c: Cache, c': Cache, s: Slot)
    requires WellFormed(cfg) && AllCovered(cfg) && Built(cfg, d) && SelectionsInside(cfg, user)
    requires Consistent(cfg, user, c) && Swept(cfg, d, c, c', {}) && Safe(cfg, d, c', user, user')
    requires s in c'
    ensures Right(cfg, user', c', s)
  {
    var w, w' := At(cfg, user, c), At(cfg, user', c');
    assert Right(cfg, user, c, s);
    if Fixed(cfg, s) {
      FixedEval(w, w', s);
    } else {
      VisibilityCached(cfg, user, c, s);
      assert Propagated(cfg, s.item);
      assert !Dropped(c, c', s.item);
      assert Slot(s.item, Vis) in c';
      Untouched(cfg, d, user, user', c, c', s.item);
      ReadsNear(cfg, s.item);
      NeverCached(cfg, user, c, s.item);
      OwnEntry(cfg, d, user, user', c, c', s);
      EvalLocal(Near(cfg, s.item), w, w', s);
    }
  }

  lemma OwnEntry(cfg: Config, d: Deps, user: seq<User>, user': seq<User>, c: Cache, c': Cache, s: Slot)
    requires Consistent(cfg, user, c) && Safe(cfg, d, c', user, user') && Grew(c', c)
    requires Slot(s.item, Vis) in c'
    ensures SameOwn(At(cfg, user, c), At(cfg, user', c'), s)
  {
    var w := At(cfg, user, c);
    var vis := Slot(s.item, Vis);
    if w.UserOf(s.item) != At(cfg, user', c').UserOf(s.item) {
      assert Harmless(cfg, d, c', s.item);
      NeverVisible(w, s.item);
      assert Right(cfg, user, c, vis);
    }
  }

  /** Nothing that item `y` may read was dropped or changed, if its visibility is still there. */
  lemma Untouched(cfg: Config, d: Deps, user: seq<User>, user': seq<User>, c: Cache, c': Cache, y: nat)
    requires WellFormed(cfg) && Built(cfg, d)
    requires Swept(cfg, d, c, c', {}) && Safe(cfg, d, c', user, user')
    requires Slot(y, Vis) in c' && Defined(cfg.Get(y))
    ensures Carries(Near(cfg, y), At(cfg, user, c), At(cfg, user', c'))
  {
    forall z: nat | Seen(cfg, y, z)
      ensures !Defined(cfg.Get(z)) || !Cut(cfg, d, c', z) || (z == y && y !in DependentsOf(d, y) && y != cfg.modules)
      ensures !Dropped(c, c', z)
    {
      assert Registered(cfg, d, |cfg.items|, z, y);
    }
    var w, w' := At(cfg, user, c), At(cfg, user', c');
    forall t | Near(cfg, y)(t)
      ensures w.env(t).Some? ==> w'.env(t) == w.env(t)
      ensures cfg.Get(t.item).Choice? ==> w.UserOf(t.item).value == w'.UserOf(t.item).value
    {
      assert !Dropped(c, c', t.item);
    }
  }
}
