// The caching configuration of tools/kconfiglib.py: reading a property computes it on demand
// and remembers it; setting a user value drops what might have changed.
module KconfigCache {
  import opened Numbers
  import opened Options
  import opened KconfigExpr
  import opened KconfigValues
  import opened KconfigLocality
  import opened KconfigDeps
  import Laws = KconfigLaws
  import Theorems = KconfigTheorems

  // ----- Passing over entries whose condition is n

  predicate NoneOf(w: World, ds: seq<Default>, k: nat)
    requires k <= |ds|
  {
    forall m :: 0 <= m < k ==> ExprOf(w, ds[m].cond) == Some(0)
  }

  lemma {:induction false} SkipDefaults(w: World, ds: seq<Default>, k: nat)
    requires k <= |ds| && NoneOf(w, ds, k)
    ensures FirstDefault(w, ds) == FirstDefault(w, ds[k..]) && FirstText(w, ds) == FirstText(w, ds[k..])
  {
    if k > 0 {
      assert ExprOf(w, ds[0].cond) == Some(0);
      SkipDefaults(w, ds[1..], k - 1);
      assert ds[1..][k - 1..] == ds[k..];
    } else {
      assert ds[0..] == ds;
    }
  }

  predicate NoRange(w: World, rs: seq<Range>, k: nat)
    requires k <= |rs|
  {
    forall m :: 0 <= m < k ==> ExprOf(w, rs[m].cond) == Some(0)
  }

  lemma {:induction false} SkipRanges(w: World, rs: seq<Range>, base: nat, k: nat)
    requires k <= |rs| && NoRange(w, rs, k)
    ensures FirstRange(w, rs, base) == FirstRange(w, rs[k..], base)
  {
    if k > 0 {
      assert ExprOf(w, rs[0].cond) == Some(0);
      SkipRanges(w, rs[1..], base, k - 1);
      assert rs[1..][k - 1..] == rs[k..];
    } else {
      assert rs[0..] == rs;
    }
  }

  /** The condition of the pick is n, or its symbol is invisible. */
  predicate Passed(w: World, p: Pick) {
    || ExprOf(w, p.cond) == Some(0)
    || (ExprOf(w, p.cond).Some? && w.Number(Slot(p.sym, Vis)) == Some(0))
  }

  /** The condition of the pick is not n, and its symbol is visible. */
  predicate Hit(w: World, p: Pick) {
    && ExprOf(w, p.cond).Some? && ExprOf(w, p.cond) != Some(0)
    && w.Number(Slot(p.sym, Vis)).Some? && w.Number(Slot(p.sym, Vis)) != Some(0)
  }

  predicate NoPick(w: World, ps: seq<Pick>, k: nat)
    requires k <= |ps|
  {
    forall m :: 0 <= m < k ==> Passed(w, ps[m])
  }

  lemma OneMorePick(w: World, ps: seq<Pick>, k: nat)
    requires k < |ps| && NoPick(w, ps, k) && Passed(w, ps[k])
    ensures NoPick(w, ps, k + 1)
  {
  }

  lemma {:induction false} SkipPicks(w: World, ps: seq<Pick>, k: nat)
    requires k <= |ps| && NoPick(w, ps, k)
    ensures FirstPick(w, ps) == FirstPick(w, ps[k..])
  {
    if k > 0 {
      assert Passed(w, ps[0]);
      SkipPicks(w, ps[1..], k - 1);
      assert ps[1..][k - 1..] == ps[k..];
    } else {
      assert ps[0..] == ps;
    }
  }

  lemma {:induction false} SkipSyms(w: World, syms: seq<nat>, k: nat)
    requires k <= |syms| && forall m :: 0 <= m < k ==> w.Number(Slot(syms[m], Vis)) == Some(0)
    ensures FirstVisible(w, syms) == FirstVisible(w, syms[k..])
  {
    if k > 0 {
      assert w.Number(Slot(syms[0], Vis)) == Some(0);
      SkipSyms(w, syms[1..], k - 1);
      assert syms[1..][k - 1..] == syms[k..];
    } else {
      assert syms[0..] == syms;
    }
  }

  lemma NumOrderFrom(w: World, x: Atom, y: Atom, p: Option<int>, q: Option<int>)
    requires AtomNum(w, x) == Some(p) && p.Some? && AtomNum(w, y) == Some(q)
    ensures NumOrder(w, x, y) == Some(if q.None? then None else Some(p.value - q.value))
  {
  }

  lemma SelectionFrom(w: World, c: nat, r: Option<nat>)
    requires w.cfg.Get(c).Choice? && Mode(w, c) == Some(2) && UserPick(w, c) == Some(None)
    requires DefaultSelection(w, w.cfg.Get(c)) == Some(r)
    ensures SelOf(w, c) == Some(r)
  {
  }

  // ----- User values

  /** Whether a value has the right form for the type of item `i`. */
  predicate Fits(cfg: Config, i: nat, v: UserValue) {
    var it := cfg.Get(i);
    match v
    case UTri(t) => if it.orig == Bool then t == 0 || t == 2 else it.orig == Tri3 && 0 <= t <= 2
    case UText(s) =>
      it.Symbol? &&
      match it.orig
      case Text => true
      case Int => cfg.num(s, 10).Some?
      case Hex => cfg.num(s, 16).Some? && cfg.num(s, 16).value >= 0
      case _ => false
  }

  /** "n", "m" and "y" stand for 0, 1 and 2 on bool and tristate items. */
  function Converted(it: Item, v: UserValue): UserValue {
    if it.orig != Bool && it.orig != Tri3 then v
    else if v == UText("n") then UTri(0)
    else if v == UText("m") then UTri(1)
    else if v == UText("y") then UTri(2)
    else v
  }

  /** The user's entries after Symbol.set_value() or Choice.set_value(). */
  function Assigned(cfg: Config, user: seq<User>, i: nat, given: UserValue): (u: seq<User>)
    requires |user| == |cfg.items| && i < |user|
    ensures |u| == |user|
  {
    var it := cfg.items[i];
    var v := Converted(it, given);
    if !Fits(cfg, i, v) then user else
      var u := user[i := user[i].(value := Some(v))];
      if it.Symbol? && it.choice.Some? && v == UTri(2) && it.choice.value < |u|
      then u[it.choice.value := u[it.choice.value].(selection := Some(i))] else u
  }

  /** A value that fits is the item's user value from then on, and y for a choice symbol makes
      it the choice's selection; nothing else of the user's is touched. */
  lemma AssignedEffect(cfg: Config, user: seq<User>, i: nat, given: UserValue)
    requires WellFormed(cfg) && AllFit(cfg, user) && i < |user|
    ensures var it, u := cfg.items[i], Assigned(cfg, user, i, given);
      && (forall j :: 0 <= j < |u| && j != i && it.Symbol? && it.choice != Some(j) ==> u[j] == user[j])
      && (forall j :: 0 <= j < |u| && j != i && it.Choice? ==> u[j] == user[j])
      && u[i].selection == user[i].selection
    ensures var it, v, u := cfg.items[i], Converted(cfg.items[i], given), Assigned(cfg, user, i, given);
      if !Fits(cfg, i, v) then u == user else
        && u[i].value == Some(v)
        && (it.Symbol? && it.choice.Some? ==>
              it.choice.value < |u| && u[it.choice.value] == user[it.choice.value].(selection := if v == UTri(2) then Some(i) else user[it.choice.value].selection))
  {
    assert Propagated(cfg, i);
  }

  /** The user's entries after unset_value(): a choice forgets its selection too. */
  function Cleared(user: seq<User>, i: nat): (u: seq<User>)
    requires i < |user|
    ensures |u| == |user|
  {
    user[i := NoUser]
  }

  predicate AllFit(cfg: Config, user: seq<User>) {
    && |user| == |cfg.items| && SelectionsInside(cfg, user)
    && forall i: nat :: i < |user| && user[i].value.Some? ==> Fits(cfg, i, user[i].value.value)
  }

  lemma AssignedFits(cfg: Config, user: seq<User>, i: nat, given: UserValue)
    requires WellFormed(cfg) && AllFit(cfg, user) && i < |user|
    ensures AllFit(cfg, Assigned(cfg, user, i, given))
  {
    assert Propagated(cfg, i);
  }

  // ----- Runs

  datatype Op = SetValue(i: nat, v: UserValue) | UnsetValue(i: nat) | Read(s: Slot)

  predicate Legal(cfg: Config, op: Op) {
    match op
    case Read(s) => s.item < |cfg.items| && (s.kind == Vis || (s.kind == Sel) == cfg.Get(s.item).Choice?)
    case _ => op.i < |cfg.items|
  }

  /** The user's entries after a run; reads change none. */
  function After(cfg: Config, user: seq<User>, ops: seq<Op>): (u: seq<User>)
    requires |user| == |cfg.items|
    requires forall k :: 0 <= k < |ops| ==> Legal(cfg, ops[k])
    ensures |u| == |user|
  {
    if ops == [] then user else Next(cfg, After(cfg, user, ops[..|ops| - 1]), ops[|ops| - 1])
  }

  function Next(cfg: Config, user: seq<User>, op: Op): (u: seq<User>)
    requires |user| == |cfg.items| && Legal(cfg, op)
    ensures |u| == |user|
  {
    match op
    case SetValue(i, v) => Assigned(cfg, user, i, v)
    case UnsetValue(i) => Cleared(user, i)
    case Read(_) => user
  }

  /** `v` is what an evaluation from scratch under these user values gives, and obeys the law. */
  ghost predicate Answers(cfg: Config, user: seq<User>, rank: Rank, s: Slot, v: Option<Cached>) {
    v.Some? && v == Scratch(cfg, user, rank, s) && Laws.Lawful(Theorems.Truth(cfg, user, rank), s, v.value)
  }

  /** If operation `k` of a run is a read, `v` answers it for the user values of that moment. */
  ghost predicate Answered(cfg: Config, user: seq<User>, rank: Rank, ops: seq<Op>, k: nat, v: Option<Cached>)
    requires |user| == |cfg.items| && k < |ops| && forall j :: 0 <= j < |ops| ==> Legal(cfg, ops[j])
  {
    ops[k].Read? ==> Answers(cfg, After(cfg, user, ops[..k]), rank, ops[k].s, v)
  }

  lemma SmallerMap(a: Cache, b: Cache)
    requires Grew(a, b)
    ensures |a| <= |b|
    ensures (exists s :: s in b && s !in a) ==> |a| < |b|
  {
    SmallerSet(a.Keys, b.Keys);
  }

  lemma {:induction false} SmallerSet(a: set<Slot>, b: set<Slot>)
    requires a <= b
    ensures |a| <= |b| && (a != b ==> |a| < |b|)
  {
    assert b == a + (b - a);
    assert |b| == |a| + |b - a|;
    if a != b { assert b - a != {}; }
  }

  lemma DependentsDefined(cfg: Config, d: Deps, x: nat, y: nat)
    requires Built(cfg, d) && y in DependentsOf(d, x)
    ensures y < |cfg.items| && Defined(cfg.Get(y))
  {
    assert Registered(cfg, d, |cfg.items|, x, y);
  }

  lemma OneDropped(cfg: Config, d: Deps, c: Cache, c': Cache, i: nat)
    requires Defined(cfg.Get(i)) && c' == map s | s in c && s.item != i :: c[s]
    ensures Swept(cfg, d, c, c', {i}) && Gone(c', i)
    ensures |c'| <= |c| && (Slot(i, Vis) in c ==> |c'| < |c|)
  {
    SmallerMap(c', c);
  }

  /** Dropping everything that is defined cuts every item off. */
  lemma AllSwept(cfg: Config, d: Deps, c: Cache, c': Cache)
    requires Built(cfg, d) && Grew(c', c)
    requires forall s :: s in c && s !in c' <==> s in c && s.item < |cfg.items| && Defined(cfg.Get(s.item))
    ensures Swept(cfg, d, c, c', {})
    ensures forall y: nat :: Defined(cfg.Get(y)) ==> Gone(c', y)
    ensures forall z: nat :: Cut(cfg, d, c', z)
  {
    forall y: nat | Defined(cfg.Get(y)) ensures Gone(c', y) {
      forall k ensures Slot(y, k) !in c' { }
    }
    forall z: nat ensures Cut(cfg, d, c', z) {
      forall y | y in DependentsOf(d, z) ensures Slot(y, Vis) !in c' {
        DependentsDefined(cfg, d, z, y);
        assert Gone(c', y);
      }
    }
  }

  class Kconfig {
    const cfg: Config
    ghost const rank: Rank
    var deps: Deps
    var user: seq<User>
    var cache: Cache

    /** Everything but the cache. */
    ghost predicate Framed()
      reads this
    {
      WellFormed(cfg) && LoopFree(cfg, rank) && Built(cfg, deps) && AllFit(cfg, user)
    }

    ghost predicate Valid()
      reads this
    {
      Framed() && Consistent(cfg, user, cache)
    }

    function W(): World
      reads this
    {
      At(cfg, user, cache)
    }

    // ----- Building the dependency graph

    /** _make_depend_on() */
    method DependOn(i: nat, e: Expr)
      modifies this`deps
      ensures Extends(old(deps), deps, ExprItems(e), i)
      decreases e
    {
      match e
      case Leaf(a) => AddDependent(i, a);
      case And(l, r) => DependOn(i, l); DependOn(i, r);
      case Or(l, r) => DependOn(i, l); DependOn(i, r);
      case Not(x) => DependOn(i, x);
      case Compare(_, a, b) => AddDependent(i, a); AddDependent(i, b);
    }

    method AddDependent(i: nat, a: Atom)
      modifies this`deps
      ensures Extends(old(deps), deps, AtomItems(a), i)
    {
      if a.Item? { deps := deps[a.id := DependentsOf(deps, a.id) + {i}]; }
    }

    method DependOnNodes(i: nat, nodes: seq<Option<Expr>>)
      modifies this`deps
      ensures Extends(old(deps), deps, NodeItems(nodes), i)
    {
      for k := 0 to |nodes|
        invariant Extends(old(deps), deps, NodeItems(nodes[..k]), i)
      {
        assert nodes[..k + 1][..k] == nodes[..k];
        if nodes[k].Some? { DependOn(i, nodes[k].value); }
      }
      assert nodes[..|nodes|] == nodes;
    }

    method DependOnDefaults(i: nat, ds: seq<Default>)
      modifies this`deps
      ensures Extends(old(deps), deps, DefaultItems(ds), i)
    {
      for k := 0 to |ds|
        invariant Extends(old(deps), deps, DefaultItems(ds[..k]), i)
      {
        assert ds[..k + 1][..k] == ds[..k];
        DependOn(i, ds[k].value);
        DependOn(i, ds[k].cond);
      }
      assert ds[..|ds|] == ds;
    }

    method DependOnRanges(i: nat, rs: seq<Range>)
      modifies this`deps
      ensures Extends(old(deps), deps, RangeItems(rs), i)
    {
      for k := 0 to |rs|
        invariant Extends(old(deps), deps, RangeItems(rs[..k]), i)
      {
        assert rs[..k + 1][..k] == rs[..k];
        AddDependent(i, rs[k].low);
        AddDependent(i, rs[k].high);
        DependOn(i, rs[k].cond);
      }
      assert rs[..|rs|] == rs;
    }

    method DependOnPicks(i: nat, ps: seq<Pick>)
      modifies this`deps
      ensures Extends(old(deps), deps, PickItems(ps), i)
    {
      for k := 0 to |ps|
        invariant Extends(old(deps), deps, PickItems(ps[..k]), i)
      {
        assert ps[..k + 1][..k] == ps[..k];
        DependOn(i, ps[k].cond);
      }
      assert ps[..|ps|] == ps;
    }

    method DependOnSyms(i: nat, syms: seq<nat>)
      modifies this`deps
      ensures Extends(old(deps), deps, (set s | s in syms), i)
    {
      for k := 0 to |syms|
        invariant Extends(old(deps), deps, (set s | s in syms[..k]), i)
      {
        AddDependent(i, Item(syms[k]));
      }
    }

    /** One item's share of _build_dep() and _add_choice_deps(). */
    method Register(i: nat)
      requires i < |cfg.items|
      modifies this`deps
      ensures Extends(old(deps), deps, Mentioned(cfg.items[i]), i)
    {
      match cfg.items[i]
      case Symbol(_, _, nodes, defaults, ranges, direct, rev, weak, _) =>
        if nodes == [] { return; }
        DependOnNodes(i, nodes);
        DependOnDefaults(i, defaults);
        DependOn(i, rev);
        DependOn(i, weak);
        DependOnRanges(i, ranges);
        DependOn(i, direct);
      case Choice(_, nodes, picks, syms, _) =>
        DependOnNodes(i, nodes);
        DependOnPicks(i, picks);
        DependOnSyms(i, syms);
    }

    method BuildDeps()
      requires deps == map[]
      modifies this`deps
      ensures Built(cfg, deps)
    {
      assert forall x: nat :: DependentsOf(deps, x) == {};
      for i := 0 to |cfg.items|
        invariant BuiltUpTo(cfg, deps, i)
      {
        ghost var d0 := deps;
        Register(i);
        ghost var n := i + 1;
        forall x: nat, y: nat ensures Registered(cfg, deps, n, x, y) {
          assert Registered(cfg, d0, i, x, y);
        }
      }
    }

    constructor (c: Config, ghost r: Rank)
      requires WellFormed(c) && LoopFree(c, r)
      ensures Valid() && cfg == c && rank == r && cache == map[]
      ensures user == seq(|c.items|, _ => NoUser)
    {
      cfg, rank := c, r;
      deps, cache := map[], map[];
      user := seq(|c.items|, _ => NoUser);
      new;
      BuildDeps();
    }

    // ----- Reading; `b` bounds the rank of everything that may be read

    /** Reading keeps the user's entries and every cached value. */
    twostate predicate Fuller()
      reads this
    {
      Valid() && Grew(old(cache), cache)
    }

    // What was known with the cache at `c` is still known

    lemma AtomKept(c: Cache, a: Atom, b: nat)
      requires Grew(c, cache) && AtomIn(cfg, Below(rank, b), a)
      ensures var w := At(cfg, user, c);
        && (AtomTri(w, a).Some? ==> AtomTri(W(), a) == AtomTri(w, a))
        && (AtomStr(w, a).Some? ==> AtomStr(W(), a) == AtomStr(w, a))
        && (AtomNum(w, a).Some? ==> AtomNum(W(), a) == AtomNum(w, a))
        && (a.Item? && Mode(w, a.id).Some? ==> Mode(W(), a.id) == Mode(w, a.id))
    {
      AtomLocal(Below(rank, b), At(cfg, user, c), W(), a);
    }

    lemma ExprKept(c: Cache, e: Expr, b: nat)
      requires Grew(c, cache) && ExprIn(cfg, Below(rank, b), e)
      ensures var w := At(cfg, user, c); ExprOf(w, e).Some? ==> ExprOf(W(), e) == ExprOf(w, e)
    {
      ExprLocal(Below(rank, b), At(cfg, user, c), W(), e);
    }

    lemma PromptsKept(c: Cache, nodes: seq<Option<Expr>>, b: nat)
      requires Grew(c, cache) && NodesIn(cfg, Below(rank, b), nodes)
      ensures var w := At(cfg, user, c); PromptMax(w, nodes).Some? ==> PromptMax(W(), nodes) == PromptMax(w, nodes)
    {
      PromptsLocal(Below(rank, b), At(cfg, user, c), W(), nodes);
    }

    lemma DefaultsKept(c: Cache, ds: seq<Default>, b: nat)
      requires Grew(c, cache) && DefaultsIn(cfg, Below(rank, b), ds)
      ensures var w := At(cfg, user, c); FirstDefault(w, ds).Some? ==> FirstDefault(W(), ds) == FirstDefault(w, ds)
    {
      DefaultsLocal(Below(rank, b), At(cfg, user, c), W(), ds);
    }

    lemma RangesKept(c: Cache, rs: seq<Range>, base: nat, b: nat)
      requires Grew(c, cache) && RangesIn(cfg, Below(rank, b), rs)
      ensures var w := At(cfg, user, c); FirstRange(w, rs, base).Some? ==> FirstRange(W(), rs, base) == FirstRange(w, rs, base)
    {
      RangesLocal(Below(rank, b), At(cfg, user, c), W(), rs, base);
    }

    lemma TypeKept(c: Cache, i: nat, b: nat)
      requires Grew(c, cache) && ItemIn(cfg, Below(rank, b), i)
      ensures var w := At(cfg, user, c); TypeOf(w, i).Some? ==> TypeOf(W(), i) == TypeOf(w, i)
    {
      TypeLocal(Below(rank, b), At(cfg, user, c), W(), i);
    }

    lemma NumOrderKept(c: Cache, x: Atom, y: Atom, b: nat)
      requires Grew(c, cache) && AtomIn(cfg, Below(rank, b), x) && AtomIn(cfg, Below(rank, b), y)
      ensures var w := At(cfg, user, c); NumOrder(w, x, y).Some? ==> NumOrder(W(), x, y) == NumOrder(w, x, y)
    {
      AtomKept(c, x, b);
      AtomKept(c, y, b);
    }

    lemma TriPartsKept(c: Cache, i: nat, vis: int, val: int, b: nat)
      requires Grew(c, cache) && cfg.Get(i).Symbol? && ItemIn(cfg, Below(rank, b), i)
      ensures var w, it := At(cfg, user, c), cfg.Get(i);
        && (BeforeSelects(w, i, it, vis).Some? ==> BeforeSelects(W(), i, it, vis) == BeforeSelects(w, i, it, vis))
        && (AfterSelects(w, it, val).Some? ==> AfterSelects(W(), it, val) == AfterSelects(w, it, val))
    {
      TriPartsLocal(Below(rank, b), At(cfg, user, c), W(), i, val);
    }

    lemma UserPickKept(c: Cache, i: nat)
      requires Grew(c, cache)
      ensures var w := At(cfg, user, c); UserPick(w, i).Some? ==> UserPick(W(), i) == UserPick(w, i)
    {
    }

    lemma PicksKept(c: Cache, ps: seq<Pick>, b: nat)
      requires Grew(c, cache) && PicksIn(cfg, Below(rank, b), ps)
      requires forall k :: 0 <= k < |ps| ==> Below(rank, b)(Slot(ps[k].sym, Vis))
      ensures var w := At(cfg, user, c); FirstPick(w, ps).Some? ==> FirstPick(W(), ps) == FirstPick(w, ps)
    {
      PicksLocal(Below(rank, b), At(cfg, user, c), W(), ps);
    }

    lemma DefaultsPassed(c: Cache, ds: seq<Default>, k: nat, b: nat)
      requires Grew(c, cache) && DefaultsIn(cfg, Below(rank, b), ds) && k <= |ds|
      requires NoneOf(At(cfg, user, c), ds, k)
      ensures NoneOf(W(), ds, k)
    {
      forall m | 0 <= m < k ensures ExprOf(W(), ds[m].cond) == Some(0) { ExprKept(c, ds[m].cond, b); }
    }

    lemma RangesPassed(c: Cache, rs: seq<Range>, k: nat, b: nat)
      requires Grew(c, cache) && RangesIn(cfg, Below(rank, b), rs) && k <= |rs|
      requires NoRange(At(cfg, user, c), rs, k)
      ensures NoRange(W(), rs, k)
    {
      forall m | 0 <= m < k ensures ExprOf(W(), rs[m].cond) == Some(0) { ExprKept(c, rs[m].cond, b); }
    }

    lemma PicksPassed(c: Cache, ps: seq<Pick>, k: nat, b: nat)
      requires Grew(c, cache) && PicksIn(cfg, Below(rank, b), ps) && k <= |ps|
      requires NoPick(At(cfg, user, c), ps, k)
      ensures NoPick(W(), ps, k)
    {
      forall m | 0 <= m < k ensures Passed(W(), ps[m]) {
        assert Passed(At(cfg, user, c), ps[m]);
        ExprKept(c, ps[m].cond, b);
      }
    }

    method ChoiceTypeValue(c: nat, ghost b: nat) returns (t: Type)
      requires Valid() && ModulesIn(cfg, Below(rank, b), c)
      modifies this`cache
      ensures Fuller() && ChoiceType(W(), c) == Some(t)
      decreases b, 0
    {
      t := cfg.Get(c).orig;
      if t == Tri3 {
        var m := TriValue(cfg.modules);
        if m == 0 { t := Bool; }
      }
    }

    /** Choice.tri_value */
    method ModeValue(c: nat, ghost b: nat) returns (m: int)
      requires Valid() && cfg.Get(c).Choice? && AtomIn(cfg, Below(rank, b), Item(c))
      modifies this`cache
      ensures Fuller() && Mode(W(), c) == Some(m)
      decreases b, 1
    {
      m := if cfg.Get(c).optional then 0 else 1;
      var own := W().UserOf(c).value;
      if own.Some? && own.value.UTri? { m := Max(m, own.value.t); }
      var vis := Visibility(c);
      m := Min(m, vis);
      if m == 1 {
        var t := ChoiceTypeValue(c, b);
        if t == Bool { m := 2; }
      }
    }

    method AtomTriValue(a: Atom, ghost b: nat) returns (v: int)
      requires Valid() && AtomIn(cfg, Below(rank, b), a)
      modifies this`cache
      ensures Fuller() && AtomTri(W(), a) == Some(v)
      decreases b, 2
    {
      match a
      case Quoted(s) => v := if s == "y" then 2 else if s == "m" then 1 else 0;
      case Item(j) =>
        if cfg.Get(j).Choice? { v := ModeValue(j, b); } else { v := TriValue(j); }
    }

    method AtomStrValue(a: Atom, ghost b: nat) returns (s: string)
      requires Valid() && AtomIn(cfg, Below(rank, b), a)
      modifies this`cache
      ensures Fuller() && AtomStr(W(), a) == Some(s)
      decreases b, 2
    {
      match a
      case Quoted(q) => s := q;
      case Item(j) =>
        if cfg.Get(j).Choice? {
          var m := ModeValue(j, b);
          s := TriName(m);
        } else {
          s := StrValue(j);
        }
    }

    method AtomNumValue(a: Atom, ghost b: nat) returns (n: Option<int>)
      requires Valid() && AtomIn(cfg, Below(rank, b), a)
      modifies this`cache
      ensures Fuller() && AtomNum(W(), a) == Some(n)
      decreases b, 3
    {
      var t := AtomType(cfg, a);
      if t == Bool || t == Tri3 {
        var v := AtomTriValue(a, b);
        n := Some(v);
      } else {
        var s := AtomStrValue(a, b);
        n := cfg.num(s, Base(t));
      }
    }

    method TextOrderValue(x: Atom, y: Atom, ghost b: nat) returns (c: int)
      requires Valid() && AtomIn(cfg, Below(rank, b), x) && AtomIn(cfg, Below(rank, b), y)
      modifies this`cache
      ensures Fuller() && TextOrder(W(), x, y) == Some(c)
      decreases b, 3
    {
      var p := AtomStrValue(x, b);
      ghost var c1 := cache;
      var q := AtomStrValue(y, b);
      AtomKept(c1, x, b);
      c := StrCmp(p, q);
    }

    method NumOrderValue(x: Atom, y: Atom, ghost b: nat) returns (n: Option<int>)
      requires Valid() && AtomIn(cfg, Below(rank, b), x) && AtomIn(cfg, Below(rank, b), y)
      modifies this`cache
      ensures Fuller() && NumOrder(W(), x, y) == Some(n)
      decreases b, 4
    {
      var p := AtomNumValue(x, b);
      if p.None? { return None; }
      ghost var c := cache;
      var q := AtomNumValue(y, b);
      AtomKept(c, x, b);
      NumOrderFrom(W(), x, y, p, q);
      n := if q.None? then None else Some(p.value - q.value);
    }

    method OrderValue(x: Atom, y: Atom, ghost b: nat) returns (c: int)
      requires Valid() && AtomIn(cfg, Below(rank, b), x) && AtomIn(cfg, Below(rank, b), y)
      modifies this`cache
      ensures Fuller() && Order(W(), x, y) == Some(c)
      decreases b, 5
    {
      if AtomType(cfg, x) == Text && AtomType(cfg, y) == Text {
        c := TextOrderValue(x, y, b);
        return;
      }
      var n := NumOrderValue(x, y, b);
      if n.Some? { return n.value; }
      ghost var c1 := cache;
      c := TextOrderValue(x, y, b);
      NumOrderKept(c1, x, y, b);
    }

    /** expr_value() */
    method ExprValue(e: Expr, ghost b: nat) returns (v: int)
      requires Valid() && ExprIn(cfg, Below(rank, b), e)
      modifies this`cache
      ensures Fuller() && ExprOf(W(), e) == Some(v)
      decreases b, 6, e
    {
      match e
      case Leaf(a) => v := AtomTriValue(a, b);
      case And(l, r) =>
        var x := ExprValue(l, b);
        if x == 0 { return 0; }
        ghost var c1 := cache;
        var y := ExprValue(r, b);
        ExprKept(c1, l, b);
        v := Min(x, y);
      case Or(l, r) =>
        var x := ExprValue(l, b);
        if x == 2 { return 2; }
        ghost var c1 := cache;
        var y := ExprValue(r, b);
        ExprKept(c1, l, b);
        v := Max(x, y);
      case Not(x) =>
        var y := ExprValue(x, b);
        v := 2 - y;
      case Compare(rel, x, y) =>
        var c := OrderValue(x, y, b);
        v := if Satisfies(rel, c) then 2 else 0;
    }

    method TypeValue(i: nat, ghost b: nat) returns (t: Type)
      requires Valid() && ItemIn(cfg, Below(rank, b), i)
      modifies this`cache
      ensures Fuller() && TypeOf(W(), i) == Some(t)
      decreases b, 2
    {
      var it := cfg.Get(i);
      if it.Symbol? && it.orig == Tri3 && it.choice.Some? {
        assert Propagated(cfg, i);
        var m := ModeValue(it.choice.value, b);
        if m == 2 { return Bool; }
        ghost var c1 := cache;
        t := ChoiceTypeValue(i, b);
        AtomKept(c1, Item(it.choice.value), b);
      } else {
        t := ChoiceTypeValue(i, b);
      }
    }

    method PromptValue(nodes: seq<Option<Expr>>, ghost b: nat) returns (vis: int)
      requires Valid() && NodesIn(cfg, Below(rank, b), nodes)
      modifies this`cache
      ensures Fuller() && PromptMax(W(), nodes) == Some(vis)
      decreases b, 7
    {
      vis := 0;
      for k := 0 to |nodes|
        invariant Fuller() && PromptMax(W(), nodes[..k]) == Some(vis)
      {
        assert nodes[..k + 1][..k] == nodes[..k];
        if nodes[k].Some? {
          ghost var c1 := cache;
          var v := ExprValue(nodes[k].value, b);
          PromptsKept(c1, nodes[..k], b);
          vis := Max(vis, v);
        }
      }
      assert nodes[..|nodes|] == nodes;
    }

    method HiddenValue(i: nat, vis: int, ghost b: nat) returns (h: bool)
      requires Valid() && ItemIn(cfg, Below(rank, b), i)
      modifies this`cache
      ensures Fuller() && Hidden(W(), cfg.Get(i), vis) == Some(h)
      decreases b, 7
    {
      var it := cfg.Get(i);
      h := false;
      if it.Symbol? && it.choice.Some? {
        assert Propagated(cfg, i);
        var c := it.choice.value;
        if cfg.Get(c).orig == Tri3 && it.orig != Tri3 {
          var m := ModeValue(c, b);
          h := m != 2;
        } else if it.orig == Tri3 && vis == 1 {
          var m := ModeValue(c, b);
          h := m == 2;
        }
      }
    }

    /** The visibility property, with _visibility() on a miss. */
    method Visibility(i: nat) returns (v: int)
      requires Valid()
      modifies this`cache
      ensures Fuller() && W().Number(Slot(i, Vis)) == Some(v)
      decreases rank(Slot(i, Vis)), 12
    {
      var s := Slot(i, Vis);
      ghost var b := rank(s);
      assert Grounded(cfg, rank, s);
      if s in cache {
        assert Right(cfg, user, cache, s);
        return cache[s].n;
      }
      v := ComputeVisibility(i, b);
      Store(cfg, user, rank, cache, s, Number(v));
      cache := cache[s := Number(v)];
    }

    method ComputeVisibility(i: nat, ghost b: nat) returns (v: int)
      requires Valid() && ItemIn(cfg, Below(rank, b), i)
      modifies this`cache
      ensures Fuller() && VisOf(W(), i) == Some(v)
      decreases b, 8
    {
      var it := cfg.Get(i);
      v := PromptValue(it.nodes, b);
      ghost var c1 := cache;
      var hidden := HiddenValue(i, v, b);
      ghost var c2 := cache;
      PromptsKept(c1, it.nodes, b);
      if hidden { return 0; }
      if v == 1 {
        var t := TypeValue(i, b);
        PromptsKept(c2, it.nodes, b);
        if it.Symbol? && it.choice.Some? { AtomKept(c2, Item(it.choice.value), b); }
        if t != Tri3 { v := 2; }
      }
    }

    method DefaultValue(ds: seq<Default>, ghost b: nat) returns (v: int)
      requires Valid() && DefaultsIn(cfg, Below(rank, b), ds)
      modifies this`cache
      ensures Fuller() && FirstDefault(W(), ds) == Some(v)
      decreases b, 7
    {
      for k := 0 to |ds|
        invariant Fuller() && NoneOf(W(), ds, k)
      {
        ghost var c1 := cache;
        var c := ExprValue(ds[k].cond, b);
        ghost var c2 := cache;
        DefaultsPassed(c1, ds, k, b);
        if c != 0 {
          v := ExprValue(ds[k].value, b);
          DefaultsPassed(c2, ds, k, b);
          ExprKept(c2, ds[k].cond, b);
          SkipDefaults(W(), ds, k);
          return Min(v, c);
        }
      }
      SkipDefaults(W(), ds, |ds|);
      v := 0;
    }

    method DefaultTextValue(ds: seq<Default>, ghost b: nat) returns (s: Option<string>)
      requires Valid() && DefaultsIn(cfg, Below(rank, b), ds)
      modifies this`cache
      ensures Fuller() && FirstText(W(), ds) == Some(s)
      decreases b, 7
    {
      for k := 0 to |ds|
        invariant Fuller() && NoneOf(W(), ds, k)
      {
        ghost var c1 := cache;
        var c := ExprValue(ds[k].cond, b);
        ghost var c2 := cache;
        DefaultsPassed(c1, ds, k, b);
        if c != 0 {
          var t := "";
          if ds[k].value.Leaf? { t := AtomStrValue(ds[k].value.atom, b); }
          DefaultsPassed(c2, ds, k, b);
          ExprKept(c2, ds[k].cond, b);
          SkipDefaults(W(), ds, k);
          return Some(t);
        }
      }
      SkipDefaults(W(), ds, |ds|);
      s := None;
    }

    method BoundsValue(r: Range, base: nat, ghost b: nat) returns (v: Bounds)
      requires Valid() && AtomIn(cfg, Below(rank, b), r.low) && AtomIn(cfg, Below(rank, b), r.high)
      modifies this`cache
      ensures Fuller() && BoundsOf(W(), r, base) == Some(v)
      decreases b, 5
    {
      var l := AtomStrValue(r.low, b);
      ghost var c := cache;
      var h := AtomStrValue(r.high, b);
      AtomKept(c, r.low, b);
      v := Bounds(NumOr0(cfg, l, base), NumOr0(cfg, h, base));
    }

    method RangeValue(rs: seq<Range>, base: nat, ghost b: nat) returns (r: Option<Bounds>)
      requires Valid() && RangesIn(cfg, Below(rank, b), rs)
      modifies this`cache
      ensures Fuller() && FirstRange(W(), rs, base) == Some(r)
      decreases b, 7
    {
      for k := 0 to |rs|
        invariant Fuller() && NoRange(W(), rs, k)
      {
        ghost var c1 := cache;
        var c := ExprValue(rs[k].cond, b);
        ghost var c2 := cache;
        RangesPassed(c1, rs, k, b);
        if c != 0 {
          var v := BoundsValue(rs[k], base, b);
          RangesPassed(c2, rs, k, b);
          ExprKept(c2, rs[k].cond, b);
          SkipRanges(W(), rs, base, k);
          return Some(v);
        }
      }
      SkipRanges(W(), rs, base, |rs|);
      r := None;
    }

    method FromDefaultsValue(i: nat, ghost b: nat) returns (v: int)
      requires Valid() && cfg.Get(i).Symbol? && ItemIn(cfg, Below(rank, b), i)
      modifies this`cache
      ensures Fuller() && FromDefaults(W(), cfg.Get(i)) == Some(v)
      decreases b, 8
    {
      var it := cfg.Get(i);
      v := DefaultValue(it.defaults, b);
      ghost var c1 := cache;
      var weak := ExprValue(it.weak, b);
      ghost var c2 := cache;
      DefaultsKept(c1, it.defaults, b);
      if weak != 0 {
        var direct := ExprValue(it.direct, b);
        DefaultsKept(c2, it.defaults, b);
        ExprKept(c2, it.weak, b);
        if direct != 0 { v := Max(weak, v); }
      }
    }

    method BeforeSelectsValue(i: nat, vis: int, ghost b: nat) returns (v: int)
      requires Valid() && cfg.Get(i).Symbol? && ItemIn(cfg, Below(rank, b), i)
      modifies this`cache
      ensures Fuller() && BeforeSelects(W(), i, cfg.Get(i), vis) == Some(v)
      decreases b, 9
    {
      var own := W().UserOf(i).value;
      if vis != 0 && own.Some? && own.value.UTri? {
        v := Min(own.value.t, vis);
      } else {
        v := FromDefaultsValue(i, b);
      }
    }

    method AfterSelectsValue(i: nat, val: int, ghost b: nat) returns (v: int)
      requires Valid() && cfg.Get(i).Symbol? && ItemIn(cfg, Below(rank, b), i)
      modifies this`cache
      ensures Fuller() && AfterSelects(W(), cfg.Get(i), val) == Some(v)
      decreases b, 8
    {
      var it := cfg.Get(i);
      v := val;
      var rev := ExprValue(it.rev, b);
      if rev != 0 {
        ghost var c1 := cache;
        var _ := ExprValue(it.direct, b);
        ExprKept(c1, it.rev, b);
        v := Max(rev, v);
      }
    }

    method PromotedValue(i: nat, val: int, ghost b: nat) returns (v: int)
      requires Valid() && cfg.Get(i).Symbol? && ItemIn(cfg, Below(rank, b), i)
      modifies this`cache
      ensures Fuller() && Promoted(W(), i, cfg.Get(i), val) == Some(v)
      decreases b, 8
    {
      var it := cfg.Get(i);
      v := val;
      if v == 1 {
        var t := TypeValue(i, b);
        if t == Bool { return 2; }
        ghost var c1 := cache;
        var weak := ExprValue(it.weak, b);
        TypeKept(c1, i, b);
        if weak == 2 { v := 2; }
      }
    }

    /** The value of a bool or tristate symbol outside any choice. */
    method PlainTri(i: nat, vis: int, ghost b: nat) returns (v: int)
      requires Valid() && ItemIn(cfg, Below(rank, b), i) && W().Number(Slot(i, Vis)) == Some(vis)
      requires var it := cfg.Get(i); it.Symbol? && it.choice.None? && (it.orig == Bool || it.orig == Tri3)
      modifies this`cache
      ensures Fuller() && TriOf(W(), i) == Some(v)
      decreases b, 10
    {
      var x := BeforeSelectsValue(i, vis, b);
      ghost var c1 := cache;
      var y := AfterSelectsValue(i, x, b);
      ghost var c2 := cache;
      TriPartsKept(c1, i, vis, x, b);
      v := PromotedValue(i, y, b);
      TriPartsKept(c2, i, vis, x, b);
    }

    method ChoiceSymTri(i: nat, vis: int) returns (v: int)
      requires Valid() && SlotIn(cfg, Below(rank, rank(Slot(i, Tri))), Slot(i, Tri))
      requires W().Number(Slot(i, Vis)) == Some(vis)
      requires var it := cfg.Get(i); it.Symbol? && it.choice.Some? && (it.orig == Bool || it.orig == Tri3)
      modifies this`cache
      ensures Fuller() && TriOf(W(), i) == Some(v)
      decreases rank(Slot(i, Tri)), 9
    {
      var it := cfg.Get(i);
      var own := W().UserOf(i).value;
      if vis == 2 {
        assert Propagated(cfg, i);
        var sel := Selection(it.choice.value);
        v := if sel == Some(i) then 2 else 0;
      } else {
        v := if vis != 0 && own.Some? && own.value.UTri? && own.value.t != 0 then 1 else 0;
      }
    }

    /** Symbol.tri_value */
    method TriValue(i: nat) returns (v: int)
      requires Valid() && cfg.Get(i).Symbol?
      modifies this`cache
      ensures Fuller() && W().Number(Slot(i, Tri)) == Some(v)
      decreases rank(Slot(i, Tri)), 12
    {
      var s := Slot(i, Tri);
      ghost var b := rank(s);
      assert Grounded(cfg, rank, s);
      if s in cache {
        assert Right(cfg, user, cache, s);
        return cache[s].n;
      }
      var it := cfg.Get(i);
      if it.orig != Bool && it.orig != Tri3 {
        v := 0;
      } else {
        var vis := Visibility(i);
        if it.choice.None? { v := PlainTri(i, vis, b); } else { v := ChoiceSymTri(i, vis); }
      }
      Store(cfg, user, rank, cache, s, Number(v));
      cache := cache[s := Number(v)];
    }

    method PickHits(p: Pick, ghost b: nat) returns (hit: bool)
      requires Valid() && ExprIn(cfg, Below(rank, b), p.cond) && rank(Slot(p.sym, Vis)) < b
      modifies this`cache
      ensures Fuller() && if hit then Hit(W(), p) else Passed(W(), p)
      decreases b, 7
    {
      var c := ExprValue(p.cond, b);
      if c == 0 { return false; }
      ghost var c1 := cache;
      var v := Visibility(p.sym);
      ExprKept(c1, p.cond, b);
      hit := v != 0;
    }

    method PickValue(ps: seq<Pick>, ghost b: nat) returns (r: Option<nat>)
      requires Valid() && PicksIn(cfg, Below(rank, b), ps)
      requires forall k :: 0 <= k < |ps| ==> Below(rank, b)(Slot(ps[k].sym, Vis))
      modifies this`cache
      ensures Fuller() && FirstPick(W(), ps) == Some(r)
      decreases b, 8
    {
      for k := 0 to |ps|
        invariant Fuller() && NoPick(W(), ps, k)
      {
        ghost var c1 := cache;
        assert Below(rank, b)(Slot(ps[k].sym, Vis));
        var hit := PickHits(ps[k], b);
        PicksPassed(c1, ps, k, b);
        if hit {
          SkipPicks(W(), ps, k);
          return Some(ps[k].sym);
        }
        OneMorePick(W(), ps, k);
      }
      SkipPicks(W(), ps, |ps|);
      r := None;
    }

    method FirstVisibleValue(syms: seq<nat>, ghost b: nat) returns (r: Option<nat>)
      requires Valid() && forall k :: 0 <= k < |syms| ==> Below(rank, b)(Slot(syms[k], Vis))
      modifies this`cache
      ensures Fuller() && FirstVisible(W(), syms) == Some(r)
      decreases b, 7
    {
      for k := 0 to |syms|
        invariant Fuller() && forall m :: 0 <= m < k ==> W().Number(Slot(syms[m], Vis)) == Some(0)
      {
        assert Below(rank, b)(Slot(syms[k], Vis));
        var v := Visibility(syms[k]);
        if v != 0 {
          SkipSyms(W(), syms, k);
          return Some(syms[k]);
        }
      }
      SkipSyms(W(), syms, |syms|);
      r := None;
    }

    method UserPickValue(c: nat, ghost b: nat) returns (r: Option<nat>)
      requires Valid() && cfg.Get(c).Choice? && SymsIn(Below(rank, b), cfg.Get(c))
      modifies this`cache
      ensures Fuller() && UserPick(W(), c) == Some(r)
      decreases b, 7
    {
      r := W().UserOf(c).selection;
      if r.Some? {
        assert Below(rank, b)(Slot(r.value, Vis));
        var v := Visibility(r.value);
        if v == 0 { r := None; }
      }
    }

    /** Choice._selection_from_defaults() */
    method DefaultSelectionValue(c: nat, ghost b: nat) returns (r: Option<nat>)
      requires Valid() && cfg.Get(c).Choice? && ItemIn(cfg, Below(rank, b), c) && SymsIn(Below(rank, b), cfg.Get(c))
      modifies this`cache
      ensures Fuller() && DefaultSelection(W(), cfg.Get(c)) == Some(r)
      decreases b, 9
    {
      var it := cfg.Get(c);
      r := PickValue(it.picks, b);
      if r.Some? { return; }
      ghost var c1 := cache;
      r := FirstVisibleValue(it.syms, b);
      PicksKept(c1, it.picks, b);
    }

    method ComputeSelection(c: nat, ghost b: nat) returns (r: Option<nat>)
      requires Valid() && cfg.Get(c).Choice? && ItemIn(cfg, Below(rank, b), c)
      requires Below(rank, b)(Slot(c, Vis)) && SymsIn(Below(rank, b), cfg.Get(c))
      modifies this`cache
      ensures Fuller() && SelOf(W(), c) == Some(r)
      decreases b, 10
    {
      var m := ModeValue(c, b);
      if m != 2 { return None; }
      ghost var c1 := cache;
      r := UserPickValue(c, b);
      AtomKept(c1, Item(c), b);
      if r.Some? { return; }
      ghost var c2 := cache;
      r := DefaultSelectionValue(c, b);
      AtomKept(c2, Item(c), b);
      UserPickKept(c2, c);
      SelectionFrom(W(), c, r);
    }

    /** Choice.selection; what is cached is returned, right or not. */
    method Selection(c: nat) returns (r: Option<nat>)
      requires Framed() && cfg.Get(c).Choice?
      requires Consistent(cfg, user, cache) || (Slot(c, Sel) in cache && cache[Slot(c, Sel)].Chosen?)
      modifies this`cache
      ensures Framed() && Grew(old(cache), cache) && W().Chosen(Slot(c, Sel)) == Some(r)
      ensures Slot(c, Sel) in old(cache) ==> cache == old(cache)
      ensures Consistent(cfg, user, old(cache)) ==> Valid()
      decreases rank(Slot(c, Sel)), 12
    {
      var s := Slot(c, Sel);
      ghost var b := rank(s);
      assert Grounded(cfg, rank, s);
      if s in cache {
        if Consistent(cfg, user, cache) { assert Right(cfg, user, cache, s); }
        return cache[s].sym;
      }
      r := ComputeSelection(c, b);
      Store(cfg, user, rank, cache, s, Chosen(r));
      cache := cache[s := Chosen(r)];
    }

    method NumberTextValue(i: nat, vis: int, ghost b: nat) returns (t: string)
      requires Valid() && cfg.Get(i).Symbol? && ItemIn(cfg, Below(rank, b), i)
      modifies this`cache
      ensures Fuller() && NumberText(W(), i, cfg.Get(i), vis) == Some(t)
      decreases b, 8
    {
      var it := cfg.Get(i);
      var own := W().UserOf(i).value;
      var bounds := RangeValue(it.ranges, Base(it.orig), b);
      if vis != 0 && own.Some? && own.value.UText? && own.value.text != "" {
        if Within(bounds, NumOr0(cfg, own.value.text, Base(it.orig))) { return own.value.text; }
      }
      ghost var c1 := cache;
      var d := DefaultTextValue(it.defaults, b);
      RangesKept(c1, it.ranges, Base(it.orig), b);
      t := Clamped(cfg, it.orig, bounds, d);
    }

    method PlainTextValue(i: nat, vis: int, ghost b: nat) returns (t: string)
      requires Valid() && cfg.Get(i).Symbol? && ItemIn(cfg, Below(rank, b), i)
      modifies this`cache
      ensures Fuller() && PlainText(W(), i, cfg.Get(i), vis) == Some(t)
      decreases b, 8
    {
      var own := W().UserOf(i).value;
      if vis != 0 && own.Some? && own.value.UText? { return own.value.text; }
      var d := DefaultTextValue(cfg.Get(i).defaults, b);
      t := if d.Some? then d.value else "";
    }

    method ComputeStr(i: nat) returns (t: string)
      requires Valid() && cfg.Get(i).Symbol?
      modifies this`cache
      ensures Fuller() && StrOf(W(), i) == Some(t)
      decreases rank(Slot(i, Str)), 9
    {
      var it := cfg.Get(i);
      ghost var b := rank(Slot(i, Str));
      assert Grounded(cfg, rank, Slot(i, Str));
      match it.orig
      case Unknown => t := it.name;
      case Bool => var v := TriValue(i); t := TriName(v);
      case Tri3 => var v := TriValue(i); t := TriName(v);
      case Text => var vis := Visibility(i); t := PlainTextValue(i, vis, b);
      case _ => var vis := Visibility(i); t := NumberTextValue(i, vis, b);
    }

    /** Symbol.str_value */
    method StrValue(i: nat) returns (t: string)
      requires Valid() && cfg.Get(i).Symbol?
      modifies this`cache
      ensures Fuller() && W().Text(Slot(i, Str)) == Some(t)
      decreases rank(Slot(i, Str)), 12
    {
      var s := Slot(i, Str);
      if s in cache {
        assert Right(cfg, user, cache, s);
        return cache[s].s;
      }
      t := ComputeStr(i);
      Store(cfg, user, rank, cache, s, String(t));
      cache := cache[s := String(t)];
    }

    // ----- Invalidation

    method Invalidate(i: nat)
      modifies this`cache
      ensures cache == map s | s in old(cache) && s.item != i :: old(cache)[s]
    {
      cache := map s | s in cache && s.item != i :: cache[s];
    }

    method InvalidateAll()
      modifies this`cache
      ensures Grew(cache, old(cache))
      ensures forall s ::
        s in old(cache) && s !in cache <==> s in old(cache) && s.item < |cfg.items| && Defined(cfg.Get(s.item))
    {
      for i := 0 to |cfg.items|
        invariant Grew(cache, old(cache))
        invariant forall s ::
          s in old(cache) && s !in cache <==> s in old(cache) && s.item < i && Defined(cfg.Get(s.item))
      {
        if Defined(cfg.items[i]) { Invalidate(i); }
      }
    }

    /** _rec_invalidate(): drops the item's values and those of every dependent, transitively,
        as far as visibilities are cached. */
    method RecInvalidate(i: nat)
      requires WellFormed(cfg) && Built(cfg, deps) && i < |cfg.items| && Defined(cfg.Get(i))
      modifies this`cache
      ensures Invalidated(cfg, deps, old(cache), cache, i) && |cache| <= |old(cache)|
      decreases |cache| + if Slot(i, Vis) in cache then 0 else 1
    {
      ghost var c0 := cache;
      if i == cfg.modules {
        InvalidateAll();
        AllSwept(cfg, deps, c0, cache);
        SmallerMap(cache, c0);
        return;
      }
      Invalidate(i);
      OneDropped(cfg, deps, c0, cache, i);
      var todo := DependentsOf(deps, i);
      while todo != {}
        invariant todo <= DependentsOf(deps, i)
        invariant Swept(cfg, deps, c0, cache, {i}) && Gone(cache, i)
        invariant forall y :: y in DependentsOf(deps, i) && y !in todo ==> Slot(y, Vis) !in cache
        invariant |cache| <= |c0| && (Slot(i, Vis) in c0 ==> |cache| < |c0|)
        invariant forall r :: Closed(cfg, deps, c0, r) && i in r ==> Spared(c0, cache, r)
        decreases |todo|
      {
        var y :| y in todo;
        todo := todo - {y};
        if Slot(y, Vis) in cache {
          ghost var c1 := cache;
          DependentsDefined(cfg, deps, i, y);
          RecInvalidate(y);
          SweptTwice(cfg, deps, c0, c1, cache, {i});
          forall r | Closed(cfg, deps, c0, r) && i in r ensures Spared(c0, cache, r) {
            assert y in r && Closed(cfg, deps, c1, r);
          }
        }
      }
    }

    /** _rec_invalidate_if_has_prompt() */
    method InvalidateIfPrompted(i: nat)
      requires WellFormed(cfg) && Built(cfg, deps) && i < |cfg.items| && Defined(cfg.Get(i))
      modifies this`cache
      ensures Swept(cfg, deps, old(cache), cache, {})
      ensures Promptless(cfg.Get(i)) || Slot(i, Vis) !in cache
      ensures forall r :: Closed(cfg, deps, old(cache), r) && i in r ==> Spared(old(cache), cache, r)
    {
      var nodes := cfg.items[i].nodes;
      for k := 0 to |nodes|
        invariant cache == old(cache)
        invariant forall m :: 0 <= m < k ==> nodes[m].None?
      {
        if nodes[k].Some? {
          RecInvalidate(i);
          return;
        }
      }
    }

    // ----- Setting user values

    /** Symbol.set_value() and Choice.set_value() */
    method SetValue(i: nat, given: UserValue) returns (ok: bool)
      requires Valid() && i < |cfg.items|
      modifies this`cache, this`user
      ensures Framed() && Grew(cache, old(cache)) && ok == Fits(cfg, i, Converted(cfg.items[i], given))
      ensures user == Assigned(cfg, old(user), i, given)
      ensures AllCovered(cfg) ==> Valid()
      ensures cfg.items[i].Symbol? && cfg.items[i].choice.None? ==>
        forall r :: Closed(cfg, deps, old(cache), r) && i in r ==> Spared(old(cache), cache, r)
    {
      var it := cfg.items[i];
      var v := Converted(it, given);
      var inChoice := it.Symbol? && it.choice.Some?;
      assert Propagated(cfg, i);
      AssignedFits(cfg, user, i, given);
      if user[i].value == Some(v) && !inChoice { return true; }
      if !Fits(cfg, i, v) { return false; }
      ghost var u0, c0 := user, cache;
      user := user[i := user[i].(value := Some(v))];
      if inChoice && v == UTri(2) {
        var c := it.choice.value;
        user := user[c := user[c].(selection := Some(i))];
        RecInvalidate(c);
        if Covered(cfg, i) { SelectionSafe(cfg, deps, cache, u0, user, i); }
      } else if it.Choice? {
        RecInvalidate(i);
      } else {
        InvalidateIfPrompted(i);
      }
      if AllCovered(cfg) { SweepSound(cfg, deps, u0, user, c0, cache); }
      ok := true;
    }

    /** Symbol.unset_value() and Choice.unset_value() */
    method UnsetValue(i: nat)
      requires Valid() && i < |cfg.items|
      modifies this`cache, this`user
      ensures Framed() && Grew(cache, old(cache)) && user == Cleared(old(user), i)
      ensures AllCovered(cfg) ==> Valid()
    {
      if user[i] == NoUser { return; }
      ghost var u0, c0 := user, cache;
      assert Propagated(cfg, i);
      user := user[i := NoUser];
      if cfg.items[i].Choice? {
        RecInvalidate(i);
      } else {
        InvalidateIfPrompted(i);
      }
      if AllCovered(cfg) { SweepSound(cfg, deps, u0, user, c0, cache); }
    }

    // ----- Runs

    /** Any one cached property. */
    method Fetch(s: Slot) returns (v: Cached)
      requires Valid() && Legal(cfg, Read(s))
      modifies this`cache
      ensures Fuller() && Scratch(cfg, user, rank, s) == Some(v) && s in cache && cache[s] == v
      ensures Laws.Lawful(Theorems.Truth(cfg, user, rank), s, v)
    {
      match s.kind {
        case Vis => var n := Visibility(s.item); v := Number(n);
        case Tri => var n := TriValue(s.item); v := Number(n);
        case Str => var t := StrValue(s.item); v := String(t);
        case Sel => var c := Selection(s.item); v := Chosen(c);
      }
      ConsistentIsScratch(cfg, user, rank, cache, s);
      Theorems.ScratchLawful(cfg, user, rank, s, v);
    }

    method Do(op: Op) returns (r: Option<Cached>)
      requires Valid() && AllCovered(cfg) && Legal(cfg, op)
      modifies this`cache, this`user
      ensures Valid() && user == Next(cfg, old(user), op)
      ensures op.Read? ==> Answers(cfg, old(user), rank, op.s, r)
    {
      r := None;
      match op {
        case SetValue(i, v) => var _ := SetValue(i, v);
        case UnsetValue(i) => UnsetValue(i);
        case Read(s) => var v := Fetch(s); r := Some(v);
      }
    }

    /** After any interleaving of assignments, removals and reads, every read returns what an
        evaluation from scratch under the user values of that moment gives. */
    method Run(ops: seq<Op>) returns (out: seq<Option<Cached>>)
      requires Valid() && AllCovered(cfg) && forall k :: 0 <= k < |ops| ==> Legal(cfg, ops[k])
      modifies this`cache, this`user
      ensures Valid() && user == After(cfg, old(user), ops) && |out| == |ops|
      ensures forall k :: 0 <= k < |ops| ==> Answered(cfg, old(user), rank, ops, k, out[k])
    {
      out := [];
      for n := 0 to |ops|
        invariant Valid() && user == After(cfg, old(user), ops[..n]) && |out| == n
        invariant forall k :: 0 <= k < n ==> Answered(cfg, old(user), rank, ops, k, out[k])
      {
        assert ops[..n + 1][..n] == ops[..n];
        var r := Do(ops[n]);
        out := out + [r];
      }
      assert ops[..|ops|] == ops;
    }
  }
}
