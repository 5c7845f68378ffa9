// What holds of every configuration tools/kconfiglib.py computes, in terms of its properties:
// selects, user values, defaults, choices, ranges and visibilities.
module KconfigTheorems {
  import opened Options
  import opened KconfigValues
  import opened KconfigLocality
  import opened KconfigDeps
  import opened KconfigLaws

  ghost predicate AllSane(user: seq<User>) { forall i :: 0 <= i < |user| ==> Sane(user[i]) }

  /** Whatever is known is what its formula gives on what is known. */
  ghost predicate Settled(w: World) {
    Bounded(w) && forall s :: w.env(s).Some? ==> Eval(w, s) == w.env(s)
  }

  // ----- Caches and from-scratch evaluation are settled

  lemma {:induction false} ScratchBounded(cfg: Config, user: seq<User>, rank: Rank, b: nat)
    requires AllSane(user)
    ensures Bounded(World(cfg, user, ScratchEnv(cfg, user, rank, b)))
    decreases b
  {
    forall s | rank(s) < b
      ensures var x := Scratch(cfg, user, rank, s); x.Some? && x.value.Number? ==> 0 <= x.value.n <= 2
    {
      var w := World(cfg, user, ScratchEnv(cfg, user, rank, rank(s)));
      ScratchBounded(cfg, user, rank, rank(s));
      if Eval(w, s).Some? { EvalLawful(w, s); }
    }
  }

  /** Every slot at its from-scratch value. */
  ghost function Truth(cfg: Config, user: seq<User>, rank: Rank): World {
    World(cfg, user, s => Scratch(cfg, user, rank, s))
  }

  lemma TruthSettled(cfg: Config, user: seq<User>, rank: Rank)
    requires LoopFree(cfg, rank) && SelectionsInside(cfg, user) && AllSane(user)
    ensures Settled(Truth(cfg, user, rank))
  {
    var w' := Truth(cfg, user, rank);
    forall s | w'.env(s).Some?
      ensures Eval(w', s) == w'.env(s)
      ensures w'.Number(s).Some? ==> 0 <= w'.Number(s).value <= 2
    {
      var w := World(cfg, user, ScratchEnv(cfg, user, rank, rank(s)));
      ScratchBounded(cfg, user, rank, rank(s) + 1);
      assert World(cfg, user, ScratchEnv(cfg, user, rank, rank(s) + 1)).Number(s) == w'.Number(s);
      if Never(cfg.Get(s.item)) && w.env(Slot(s.item, Vis)).Some? {
        NeverVisible(World(cfg, user, ScratchEnv(cfg, user, rank, rank(Slot(s.item, Vis)))), s.item);
      }
      assert Carries(Below(rank, rank(s)), w, w') && Grounded(cfg, rank, s);
      EvalLocal(Below(rank, rank(s)), w, w', s);
    }
  }

  lemma CacheSettled(cfg: Config, user: seq<User>, rank: Rank, c: Cache)
    requires LoopFree(cfg, rank) && SelectionsInside(cfg, user) && AllSane(user) && Consistent(cfg, user, c)
    ensures Settled(At(cfg, user, c))
  {
    TruthSettled(cfg, user, rank);
    var w := At(cfg, user, c);
    forall s | s in c
      ensures Eval(w, s) == w.env(s)
      ensures w.Number(s).Some? ==> 0 <= w.Number(s).value <= 2
    {
      assert Right(cfg, user, c, s);
      ConsistentIsScratch(cfg, user, rank, c, s);
      assert Truth(cfg, user, rank).Number(s) == w.Number(s);
    }
  }

  /** A from-scratch value is the one that obeys its law given all the others. */
  lemma ScratchLawful(cfg: Config, user: seq<User>, rank: Rank, s: Slot, v: Cached)
    requires LoopFree(cfg, rank) && SelectionsInside(cfg, user) && AllSane(user) && Scratch(cfg, user, rank, s).Some?
    ensures Scratch(cfg, user, rank, s) == Some(v) <==> Lawful(Truth(cfg, user, rank), s, v)
  {
    var w := Truth(cfg, user, rank);
    TruthSettled(cfg, user, rank);
    assert Eval(w, s) == w.env(s);
    EvalLawful(w, s);
    if Lawful(w, s, v) { LawDecides(w, s, v, Eval(w, s).value); }
  }

  lemma Known(w: World, s: Slot)
    requires Settled(w) && w.env(s).Some?
    ensures Lawful(w, s, w.env(s).value)
  {
    EvalLawful(w, s);
  }

  // ----- Tristate values

  /** A bool or tristate symbol outside any choice, whose value is `t`. */
  ghost predicate Plain(w: World, i: nat, t: int) {
    var it := w.cfg.Get(i);
    && Settled(w) && w.Number(Slot(i, Tri)) == Some(t)
    && it.Symbol? && (it.orig == Bool || it.orig == Tri3) && it.choice.None?
  }

  /** `t` is `m`, unless `m` stands for y on a bool or a symbol implied to y. */
  predicate Promotes(w: World, i: nat, it: Item, m: int, t: int)
    requires it.Symbol?
  {
    t == if m == 1 && (TypeNow(w, i) == Bool || ExprOf(w, it.weak) == Some(2)) then 2 else m
  }

  /** No symbol is below what selects it. */
  lemma SelectsForce(w: World, i: nat, t: int)
    requires Plain(w, i, t)
    ensures var rev := ExprOf(w, w.cfg.Get(i).rev); rev.Some? && rev.value <= t
  {
    Known(w, Slot(i, Tri));
  }

  /** What is not selected and visible has the user's value, cut to the visibility. */
  lemma UserDecides(w: World, i: nat, t: int, u: int, vis: int)
    requires Plain(w, i, t) && ExprOf(w, w.cfg.Get(i).rev) == Some(0)
    requires UserTri(w, i) == Some(u) && w.Number(Slot(i, Vis)) == Some(vis) && vis != 0
    ensures Promotes(w, i, w.cfg.Get(i), if u <= vis then u else vis, t)
  {
    Known(w, Slot(i, Tri));
    assert Sane(w.UserOf(i));
  }

  /** What is not selected and has no user value, or is invisible, has the value of the first
      default whose condition is not n, raised to what implies it if its dependencies hold. */
  lemma DefaultsDecide(w: World, i: nat, t: int) returns (k: nat, d: int, m: int)
    requires Plain(w, i, t) && ExprOf(w, w.cfg.Get(i).rev) == Some(0)
    requires w.Number(Slot(i, Vis)) == Some(0) || UserTri(w, i) == None
    ensures var ds := w.cfg.Get(i).defaults;
      && k <= |ds| && (forall j :: 0 <= j < k ==> ExprOf(w, ds[j].cond) == Some(0))
      && (k == |ds| ==> d == 0)
      && (k < |ds| ==>
            && ExprOf(w, ds[k].value).Some? && ExprOf(w, ds[k].cond).Some? && ExprOf(w, ds[k].cond).value > 0
            && d == if ExprOf(w, ds[k].value).value <= ExprOf(w, ds[k].cond).value then ExprOf(w, ds[k].value).value
                    else ExprOf(w, ds[k].cond).value)
    ensures var it := w.cfg.Get(i);
      && ExprOf(w, it.weak).Some?
      && var implied := ExprOf(w, it.weak).value;
         && (implied > d ==> ExprOf(w, it.direct).Some?)
         && m == if implied > d && ExprOf(w, it.direct) != Some(0) then implied else d
    ensures Promotes(w, i, w.cfg.Get(i), m, t)
  {
    Known(w, Slot(i, Tri));
    var it := w.cfg.Get(i);
    var base :| BaseIs(w, i, it, w.Number(Slot(i, Vis)).value, base) && Promotes(w, i, it, if base < 0 then 0 else base, t);
    m := base;
    d :| DefaultIs(w, it.defaults, d) && Implied(w, it, d, base);
    k :| FromFirst(w, it.defaults, d, k);
    if k < |it.defaults| {
      ExprBounded(w, it.defaults[k].cond);
      ExprBounded(w, it.defaults[k].value);
    }
    ExprBounded(w, it.weak);
  }

  /** What counts as a bool is never m. */
  lemma NeverM(w: World, i: nat, t: int)
    requires Settled(w) && w.Number(Slot(i, Tri)) == Some(t) && TypeNow(w, i) == Bool
    ensures t == 0 || t == 2
  {
    Known(w, Slot(i, Tri));
    assert 0 <= t <= 2;
    var it := w.cfg.Get(i);
    if it.choice.Some? { Known(w, Slot(i, Vis)); }
  }

  // ----- Choices

  /** `i` is a bool or tristate symbol of choice `c`, whose value is `t`. */
  ghost predicate Member(w: World, c: nat, i: nat, t: int) {
    var it := w.cfg.Get(i);
    && Settled(w) && w.Number(Slot(i, Tri)) == Some(t)
    && it.Symbol? && (it.orig == Bool || it.orig == Tri3) && it.choice == Some(c)
  }

  /** In a choice in y mode a symbol is y if it is the selection, and n otherwise. */
  lemma SelectionIsY(w: World, c: nat, i: nat, t: int)
    requires Member(w, c, i, t) && Mode(w, c) == Some(2)
    ensures t == 0 || (t == 2 && w.Chosen(Slot(c, Sel)) == Some(Some(i)))
    ensures w.Chosen(Slot(c, Sel)) == Some(Some(i)) ==> t == 2
  {
    Known(w, Slot(i, Tri));
    Known(w, Slot(i, Vis));
    if w.Chosen(Slot(c, Sel)) == Some(Some(i)) { SelectionVisible(w, c, i); }
  }

  /** So at most one of its symbols is not n. */
  lemma ChoiceExcludes(w: World, c: nat, i: nat, j: nat, t: int, u: int)
    requires Member(w, c, i, t) && Member(w, c, j, u) && Mode(w, c) == Some(2)
    ensures t == 0 || u == 0 || i == j
  {
    SelectionIsY(w, c, i, t);
    SelectionIsY(w, c, j, u);
  }

  /** In a choice in m mode no symbol is y. */
  lemma NoneIsY(w: World, c: nat, i: nat, t: int)
    requires Member(w, c, i, t) && Mode(w, c) == Some(1)
    ensures t == 0 || t == 1
  {
    Known(w, Slot(i, Tri));
    if w.Number(Slot(i, Vis)) == Some(2) { Known(w, Slot(c, Sel)); }
  }

  /** A selection is visible, and its choice in y mode. */
  lemma SelectionVisible(w: World, c: nat, i: nat)
    requires Settled(w) && w.Chosen(Slot(c, Sel)) == Some(Some(i))
    ensures Mode(w, c) == Some(2) && w.Number(Slot(i, Vis)).Some? && w.Number(Slot(i, Vis)).value > 0
  {
    Known(w, Slot(c, Sel));
  }

  /** A choice in y mode with nothing selected has no visible symbol. */
  lemma NoSelection(w: World, c: nat, i: nat)
    requires Settled(w) && w.Chosen(Slot(c, Sel)) == Some(None) && Mode(w, c) == Some(2)
    requires w.cfg.Get(c).Choice? && i in w.cfg.Get(c).syms
    ensures w.Number(Slot(i, Vis)) == Some(0)
  {
    Known(w, Slot(c, Sel));
  }

  // ----- Numbers

  /** What Python's int(), str() and hex() promise each other. */
  ghost predicate Pythonic(cfg: Config) {
    forall t, x {:trigger cfg.show(t, x)} :: cfg.num("", Base(t)) == None && cfg.num(cfg.show(t, x), Base(t)) == Some(x)
  }

  /** The value of an int or hex symbol is within the active range, if and only if the range is
      not empty. */
  lemma NumberInRange(w: World, i: nat, s: string, b: Bounds)
    requires Settled(w) && w.Text(Slot(i, Str)) == Some(s) && Pythonic(w.cfg)
    requires w.cfg.Get(i).Symbol? && (w.cfg.Get(i).orig == Int || w.cfg.Get(i).orig == Hex)
    requires RangeIs(w, w.cfg.Get(i).ranges, Base(w.cfg.Get(i).orig), Some(b))
    ensures b.low <= Worth(w.cfg, s, Base(w.cfg.Get(i).orig)) <= b.high <==> b.low <= b.high
  {
    Known(w, Slot(i, Str));
    var it := w.cfg.Get(i);
    var base := Base(it.orig);
    forall c | RangeIs(w, it.ranges, base, c) ensures c == Some(b) { OneRange(w, it.ranges, base, Some(b), c); }
    assert w.cfg.num(w.cfg.show(it.orig, b.low), base) == Some(b.low);
    assert w.cfg.num(w.cfg.show(it.orig, b.high), base) == Some(b.high);
  }

  /** A visible user value within the active range is the value. */
  lemma UserNumber(w: World, i: nat, s: string, u: string, b: Option<Bounds>)
    requires Settled(w) && w.Text(Slot(i, Str)) == Some(s)
    requires w.cfg.Get(i).Symbol? && (w.cfg.Get(i).orig == Int || w.cfg.Get(i).orig == Hex)
    requires RangeIs(w, w.cfg.Get(i).ranges, Base(w.cfg.Get(i).orig), b)
    requires UserText(w, i) == Some(u) && u != "" && w.Number(Slot(i, Vis)).Some? && w.Number(Slot(i, Vis)) != Some(0)
    requires b.Some? ==> b.value.low <= Worth(w.cfg, u, Base(w.cfg.Get(i).orig)) <= b.value.high
    ensures s == u
  {
    Known(w, Slot(i, Str));
    var it := w.cfg.Get(i);
    var base := Base(it.orig);
    forall c | RangeIs(w, it.ranges, base, c) ensures c == b { OneRange(w, it.ranges, base, b, c); }
  }

  // ----- Visibilities

  /** Outside choices an item is as visible as its most visible prompt, m counting as y for what
      is no tristate. */
  lemma PromptsBound(w: World, i: nat, v: int) returns (top: int)
    requires Settled(w) && w.Number(Slot(i, Vis)) == Some(v)
    requires w.cfg.Get(i).Symbol? ==> w.cfg.Get(i).choice.None?
    ensures var nodes := w.cfg.Get(i).nodes;
      && (forall k :: 0 <= k < |nodes| && nodes[k].Some? ==>
            ExprOf(w, nodes[k].value).Some? && ExprOf(w, nodes[k].value).value <= top)
      && (top == 0 || exists k :: 0 <= k < |nodes| && nodes[k].Some? && ExprOf(w, nodes[k].value) == Some(top))
    ensures v == if top == 1 && TypeNow(w, i) != Tri3 then 2 else top
  {
    Known(w, Slot(i, Vis));
    top :| IsTop(w, w.cfg.Get(i).nodes, top) && v == if top == 1 && TypeNow(w, i) != Tri3 then 2 else top;
  }
}
