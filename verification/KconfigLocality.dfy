// What the value of a slot may depend on: the slots it can read, and the proof that nothing
// else matters.
module KconfigLocality {
  import opened Options
  import opened KconfigExpr
  import opened KconfigValues

  type Slots = Slot -> bool

  /** Every slot an atom may be read through lies in `P`. */
  predicate AtomIn(cfg: Config, P: Slots, a: Atom) {
    match a
    case Quoted(_) => true
    case Item(j) =>
      if cfg.Get(j).Symbol? then P(Slot(j, Tri)) && P(Slot(j, Str))
      else P(Slot(j, Vis)) && ModulesIn(cfg, P, j)
  }

  /** Tristate items look at MODULES. */
  predicate ModulesIn(cfg: Config, P: Slots, i: nat) {
    cfg.Get(i).orig == Tri3 ==> P(Slot(cfg.modules, Tri))
  }

  predicate ExprIn(cfg: Config, P: Slots, e: Expr) {
    match e
    case Leaf(a) => AtomIn(cfg, P, a)
    case And(l, r) => ExprIn(cfg, P, l) && ExprIn(cfg, P, r)
    case Or(l, r) => ExprIn(cfg, P, l) && ExprIn(cfg, P, r)
    case Not(x) => ExprIn(cfg, P, x)
    case Compare(_, a, b) => AtomIn(cfg, P, a) && AtomIn(cfg, P, b)
  }

  predicate NodesIn(cfg: Config, P: Slots, nodes: seq<Option<Expr>>) {
    forall k :: 0 <= k < |nodes| && nodes[k].Some? ==> ExprIn(cfg, P, nodes[k].value)
  }

  predicate DefaultsIn(cfg: Config, P: Slots, ds: seq<Default>) {
    forall k :: 0 <= k < |ds| ==> ExprIn(cfg, P, ds[k].value) && ExprIn(cfg, P, ds[k].cond)
  }

  predicate RangesIn(cfg: Config, P: Slots, rs: seq<Range>) {
    forall k :: 0 <= k < |rs| ==> AtomIn(cfg, P, rs[k].low) && AtomIn(cfg, P, rs[k].high) && ExprIn(cfg, P, rs[k].cond)
  }

  predicate PicksIn(cfg: Config, P: Slots, ps: seq<Pick>) {
    forall k :: 0 <= k < |ps| ==> ExprIn(cfg, P, ps[k].cond)
  }

  /** The properties of item `i`, its choice's mode, and MODULES. */
  predicate ItemIn(cfg: Config, P: Slots, i: nat) { OwnIn(cfg, P, i) && ChoiceIn(cfg, P, i) }

  predicate ChoiceIn(cfg: Config, P: Slots, i: nat) {
    var it := cfg.Get(i);
    it.Symbol? && it.choice.Some? ==> AtomIn(cfg, P, Item(it.choice.value))
  }

  predicate OwnIn(cfg: Config, P: Slots, i: nat) {
    var it := cfg.Get(i);
    && NodesIn(cfg, P, it.nodes) && ModulesIn(cfg, P, i)
    && match it
       case Choice(_, _, picks, _, _) => PicksIn(cfg, P, picks)
       case Symbol(_, _, _, defaults, ranges, direct, rev, weak, _) =>
         && DefaultsIn(cfg, P, defaults) && RangesIn(cfg, P, ranges)
         && ExprIn(cfg, P, direct) && ExprIn(cfg, P, rev) && ExprIn(cfg, P, weak)
  }

  predicate SymsIn(P: Slots, it: Item)
    requires it.Choice?
  {
    && (forall k :: 0 <= k < |it.syms| ==> P(Slot(it.syms[k], Vis)))
    && (forall k :: 0 <= k < |it.picks| ==> P(Slot(it.picks[k].sym, Vis)))
  }

  /** Every slot that working out `s` may read lies in `P`. */
  predicate SlotIn(cfg: Config, P: Slots, s: Slot) {
    var it := cfg.Get(s.item);
    && ItemIn(cfg, P, s.item)
    && match s.kind
       case Vis => true
       case Tri => it.Symbol? ==> P(Slot(s.item, Vis)) && (it.choice.Some? ==> P(Slot(it.choice.value, Sel)))
       case Str => it.Symbol? ==> P(Slot(s.item, Vis)) && P(Slot(s.item, Tri))
       case Sel => it.Choice? ==> P(Slot(s.item, Vis)) && SymsIn(P, it)
  }

  /** No prompt, or none that can ever be visible: `depends on n` leaves such conditions. */
  predicate Never(it: Item) { forall k :: 0 <= k < |it.nodes| ==> it.nodes[k].None? || it.nodes[k] == Some(N) }

  /** Those among them that can make a difference: a choice symbol that is never visible does
      not depend on its choice. */
  predicate SlotNeeds(cfg: Config, P: Slots, s: Slot) {
    var it := cfg.Get(s.item);
    && OwnIn(cfg, P, s.item) && (Never(it) || ChoiceIn(cfg, P, s.item))
    && match s.kind
       case Vis => true
       case Tri =>
         it.Symbol? ==> P(Slot(s.item, Vis)) && (it.choice.Some? && !Never(it) ==> P(Slot(it.choice.value, Sel)))
       case Str => it.Symbol? ==> P(Slot(s.item, Vis)) && P(Slot(s.item, Tri))
       case Sel => it.Choice? ==> P(Slot(s.item, Vis)) && SymsIn(P, it)
  }

  /** What is known of the visibility of an item that is never visible is right. */
  predicate Quiet(w: World, i: nat) {
    Never(w.cfg.Get(i)) && w.env(Slot(i, Vis)).Some? ==> w.env(Slot(i, Vis)) == Some(Number(0))
  }

  /** A choice symbol is listed by its choice. */
  predicate WellPlaced(cfg: Config, i: nat) {
    var it := cfg.Get(i);
    it.Symbol? && it.choice.Some? ==> cfg.Get(it.choice.value).Choice? && i in cfg.Get(it.choice.value).syms
  }

  predicate SelectionsInside(cfg: Config, user: seq<User>) {
    forall c: nat ::
      c < |user| && user[c].selection.Some? ==> cfg.Get(c).Choice? && user[c].selection.value in cfg.Get(c).syms
  }

  // ----- Locality

  /** On `P`, `w'` knows all that `w` knows, and the user's choice modes are the same. */
  ghost predicate Carries(P: Slots, w: World, w': World) {
    && w.cfg == w'.cfg
    && forall t ::
         P(t) ==>
           && (w.env(t).Some? ==> w'.env(t) == w.env(t))
           && (w.cfg.Get(t.item).Choice? ==> w.UserOf(t.item).value == w'.UserOf(t.item).value)
  }

  lemma AtomLocal(P: Slots, w: World, w': World, a: Atom)
    requires Carries(P, w, w') && AtomIn(w.cfg, P, a)
    ensures AtomTri(w, a).Some? ==> AtomTri(w', a) == AtomTri(w, a)
    ensures AtomStr(w, a).Some? ==> AtomStr(w', a) == AtomStr(w, a)
    ensures AtomNum(w, a).Some? ==> AtomNum(w', a) == AtomNum(w, a)
    ensures a.Item? && Mode(w, a.id).Some? ==> Mode(w', a.id) == Mode(w, a.id)
  {
  }

  lemma {:induction false} ExprLocal(P: Slots, w: World, w': World, e: Expr)
    requires Carries(P, w, w') && ExprIn(w.cfg, P, e)
    ensures ExprOf(w, e).Some? ==> ExprOf(w', e) == ExprOf(w, e)
  {
    match e
    case Leaf(a) => AtomLocal(P, w, w', a);
    case And(l, r) => ExprLocal(P, w, w', l); ExprLocal(P, w, w', r);
    case Or(l, r) => ExprLocal(P, w, w', l); ExprLocal(P, w, w', r);
    case Not(x) => ExprLocal(P, w, w', x);
    case Compare(_, a, b) => AtomLocal(P, w, w', a); AtomLocal(P, w, w', b);
  }

  lemma {:induction false} PromptsLocal(P: Slots, w: World, w': World, nodes: seq<Option<Expr>>)
    requires Carries(P, w, w') && NodesIn(w.cfg, P, nodes)
    ensures PromptMax(w, nodes).Some? ==> PromptMax(w', nodes) == PromptMax(w, nodes)
  {
    if nodes != [] {
      PromptsLocal(P, w, w', nodes[..|nodes| - 1]);
      if nodes[|nodes| - 1].Some? { ExprLocal(P, w, w', nodes[|nodes| - 1].value); }
    }
  }

  lemma TypeLocal(P: Slots, w: World, w': World, i: nat)
    requires Carries(P, w, w') && ItemIn(w.cfg, P, i)
    ensures TypeOf(w, i).Some? ==> TypeOf(w', i) == TypeOf(w, i)
  {
    var it := w.cfg.Get(i);
    if it.Symbol? && it.choice.Some? { AtomLocal(P, w, w', Item(it.choice.value)); }
  }

  lemma VisLocal(P: Slots, w: World, w': World, i: nat)
    requires Carries(P, w, w') && SlotNeeds(w.cfg, P, Slot(i, Vis))
    ensures VisOf(w, i).Some? ==> VisOf(w', i) == VisOf(w, i)
  {
    var it := w.cfg.Get(i);
    if Never(it) {
      NeverVisible(w, i);
      NeverVisible(w', i);
      return;
    }
    PromptsLocal(P, w, w', it.nodes);
    TypeLocal(P, w, w', i);
    if it.Symbol? && it.choice.Some? { AtomLocal(P, w, w', Item(it.choice.value)); }
  }

  lemma {:induction false} DefaultsLocal(P: Slots, w: World, w': World, ds: seq<Default>)
    requires Carries(P, w, w') && DefaultsIn(w.cfg, P, ds)
    ensures FirstDefault(w, ds).Some? ==> FirstDefault(w', ds) == FirstDefault(w, ds)
    ensures FirstText(w, ds).Some? ==> FirstText(w', ds) == FirstText(w, ds)
  {
    if ds != [] {
      ExprLocal(P, w, w', ds[0].cond);
      ExprLocal(P, w, w', ds[0].value);
      if ds[0].value.Leaf? { AtomLocal(P, w, w', ds[0].value.atom); }
      DefaultsLocal(P, w, w', ds[1..]);
    }
  }

  lemma {:induction false} RangesLocal(P: Slots, w: World, w': World, rs: seq<Range>, base: nat)
    requires Carries(P, w, w') && RangesIn(w.cfg, P, rs)
    ensures FirstRange(w, rs, base).Some? ==> FirstRange(w', rs, base) == FirstRange(w, rs, base)
  {
    if rs != [] {
      ExprLocal(P, w, w', rs[0].cond);
      AtomLocal(P, w, w', rs[0].low);
      AtomLocal(P, w, w', rs[0].high);
      RangesLocal(P, w, w', rs[1..], base);
    }
  }

  lemma {:induction false} PicksLocal(P: Slots, w: World, w': World, ps: seq<Pick>)
    requires Carries(P, w, w') && PicksIn(w.cfg, P, ps)
    requires forall k :: 0 <= k < |ps| ==> P(Slot(ps[k].sym, Vis))
    ensures FirstPick(w, ps).Some? ==> FirstPick(w', ps) == FirstPick(w, ps)
  {
    if ps != [] {
      ExprLocal(P, w, w', ps[0].cond);
      assert P(Slot(ps[0].sym, Vis));
      PicksLocal(P, w, w', ps[1..]);
    }
  }

  lemma {:induction false} SymsLocal(P: Slots, w: World, w': World, syms: seq<nat>)
    requires Carries(P, w, w')
    requires forall k :: 0 <= k < |syms| ==> P(Slot(syms[k], Vis))
    ensures FirstVisible(w, syms).Some? ==> FirstVisible(w', syms) == FirstVisible(w, syms)
  {
    if syms != [] {
      assert P(Slot(syms[0], Vis));
      SymsLocal(P, w, w', syms[1..]);
    }
  }

  /** The slots worth the same in every world: undefined symbols' values, and the tri_value
      of a symbol that is not bool or tristate. */
  predicate Fixed(cfg: Config, s: Slot) {
    var it := cfg.Get(s.item);
    it.Symbol? &&
    match s.kind
    case Vis => it.nodes == [] && it.choice.None?
    case Tri => it.orig != Bool && it.orig != Tri3
    case Str => it.orig == Unknown
    case Sel => false
  }

  lemma FixedEval(w: World, w': World, s: Slot)
    requires w.cfg == w'.cfg && Fixed(w.cfg, s)
    ensures Eval(w, s).Some? && Eval(w', s) == Eval(w, s)
  {
  }

  /** A symbol without a prompt is invisible. */
  predicate Promptless(it: Item) { forall k :: 0 <= k < |it.nodes| ==> it.nodes[k].None? }

  lemma NeverVisible(w: World, i: nat)
    requires Never(w.cfg.Get(i))
    ensures VisOf(w, i) == Some(0)
  {
    NoPrompts(w, w.cfg.Get(i).nodes);
  }

  lemma {:induction false} NoPrompts(w: World, nodes: seq<Option<Expr>>)
    requires forall k :: 0 <= k < |nodes| ==> nodes[k].None? || nodes[k] == Some(N)
    ensures PromptMax(w, nodes) == Some(0)
  {
    if nodes != [] { NoPrompts(w, nodes[..|nodes| - 1]); }
  }

  /** The user's own entry for the item is the same, or cannot matter. */
  predicate SameOwn(w: World, w': World, s: Slot) {
    || w.UserOf(s.item) == w'.UserOf(s.item)
    || (w.cfg.Get(s.item).Symbol? && w.env(Slot(s.item, Vis)) == Some(Number(0)))
  }

  lemma TriPartsLocal(P: Slots, w: World, w': World, i: nat, val: int)
    requires Carries(P, w, w') && ItemIn(w.cfg, P, i) && w.cfg.Get(i).Symbol?
    ensures var it := w.cfg.Get(i);
      && (FromDefaults(w, it).Some? ==> FromDefaults(w', it) == FromDefaults(w, it))
      && (AfterSelects(w, it, val).Some? ==> AfterSelects(w', it, val) == AfterSelects(w, it, val))
      && (Promoted(w, i, it, val).Some? ==> Promoted(w', i, it, val) == Promoted(w, i, it, val))
  {
    var it := w.cfg.Get(i);
    DefaultsLocal(P, w, w', it.defaults);
    ExprLocal(P, w, w', it.weak);
    ExprLocal(P, w, w', it.direct);
    ExprLocal(P, w, w', it.rev);
    TypeLocal(P, w, w', i);
  }

  lemma TriLocal(P: Slots, w: World, w': World, i: nat)
    requires Carries(P, w, w') && SlotNeeds(w.cfg, P, Slot(i, Tri)) && SameOwn(w, w', Slot(i, Tri)) && Quiet(w, i)
    ensures TriOf(w, i).Some? ==> TriOf(w', i) == TriOf(w, i)
  {
    var it := w.cfg.Get(i);
    if it.Symbol? && TriOf(w, i).Some? && it.choice.None? && (it.orig == Bool || it.orig == Tri3) {
      var a := BeforeSelects(w, i, it, w.Number(Slot(i, Vis)).value);
      var b := AfterSelects(w, it, a.value);
      TriPartsLocal(P, w, w', i, a.value);
      TriPartsLocal(P, w, w', i, b.value);
    }
  }

  lemma StrLocal(P: Slots, w: World, w': World, i: nat)
    requires Carries(P, w, w') && SlotNeeds(w.cfg, P, Slot(i, Str)) && SameOwn(w, w', Slot(i, Str))
    ensures StrOf(w, i).Some? ==> StrOf(w', i) == StrOf(w, i)
  {
    var it := w.cfg.Get(i);
    if it.Symbol? {
      DefaultsLocal(P, w, w', it.defaults);
      RangesLocal(P, w, w', it.ranges, Base(it.orig));
    }
  }

  lemma SelLocal(P: Slots, w: World, w': World, c: nat)
    requires Carries(P, w, w') && SlotNeeds(w.cfg, P, Slot(c, Sel)) && SameOwn(w, w', Slot(c, Sel))
    requires SelectionsInside(w.cfg, w.user)
    ensures SelOf(w, c).Some? ==> SelOf(w', c) == SelOf(w, c)
  {
    var it := w.cfg.Get(c);
    if it.Choice? {
      AtomLocal(P, w, w', Item(c));
      PicksLocal(P, w, w', it.picks);
      SymsLocal(P, w, w', it.syms);
    }
  }

  /** The value of a slot depends only on the slots it may read and on the user's entries. */
  lemma EvalLocal(P: Slots, w: World, w': World, s: Slot)
    requires Carries(P, w, w') && SlotNeeds(w.cfg, P, s) && SameOwn(w, w', s) && Quiet(w, s.item)
    requires SelectionsInside(w.cfg, w.user)
    ensures Eval(w, s).Some? ==> Eval(w', s) == Eval(w, s)
  {
    match s.kind
    case Vis => VisLocal(P, w, w', s.item);
    case Tri => TriLocal(P, w, w', s.item);
    case Str => StrLocal(P, w, w', s.item);
    case Sel => SelLocal(P, w, w', s.item);
  }
}
