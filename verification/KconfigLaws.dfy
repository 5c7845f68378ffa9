// What the values of tools/kconfiglib.py mean: laws that relate a symbol's or choice's value to
// its properties, without saying how it is worked out, and which no other value obeys.
module KconfigLaws {
  import opened Numbers
  import opened Options
  import opened KconfigExpr
  import opened KconfigValues

  // ----- Tristates

  /** What is known is n, m or y, and so are the user's tristate values. */
  ghost predicate Bounded(w: World) {
    && (forall s: Slot :: w.Number(s).Some? ==> 0 <= w.Number(s).value <= 2)
    && (forall i: nat :: Sane(w.UserOf(i)))
  }

  predicate Sane(u: User) { u.value.Some? && u.value.value.UTri? ==> 0 <= u.value.value.t <= 2 }

  /** The tristate, or the text, the user wants. */
  function UserTri(w: World, i: nat): Option<int> {
    match w.UserOf(i).value case Some(UTri(t)) => Some(t) case _ => None
  }

  function UserText(w: World, i: nat): Option<string> {
    match w.UserOf(i).value case Some(UText(u)) => Some(u) case _ => None
  }

  lemma ModeBounded(w: World, c: nat)
    requires Bounded(w)
    ensures Mode(w, c).Some? ==> 0 <= Mode(w, c).value <= 2
  {
    assert Sane(w.UserOf(c));
  }

  lemma {:induction false} ExprBounded(w: World, e: Expr)
    requires Bounded(w)
    ensures ExprOf(w, e).Some? ==> 0 <= ExprOf(w, e).value <= 2
  {
    match e
    case Leaf(a) => if a.Item? { ModeBounded(w, a.id); }
    case And(l, r) => ExprBounded(w, l); ExprBounded(w, r);
    case Or(l, r) => ExprBounded(w, l); ExprBounded(w, r);
    case Not(x) => ExprBounded(w, x);
    case Compare(_, _, _) =>
  }

  /** Conjunction is the smaller, disjunction the larger, negation the mirror image. */
  lemma Connectives(w: World, l: Expr, r: Expr, x: int, y: int)
    requires Bounded(w) && ExprOf(w, l) == Some(x) && ExprOf(w, r) == Some(y)
    ensures ExprOf(w, And(l, r)) == Some(if x <= y then x else y)
    ensures ExprOf(w, Or(l, r)) == Some(if x <= y then y else x)
    ensures ExprOf(w, Not(l)) == Some(if x == 0 then 2 else if x == 1 then 1 else 0)
  {
    ExprBounded(w, l);
    ExprBounded(w, r);
  }

  /** Constants stand for themselves, symbols for their values, choices for their modes. */
  lemma Operands(w: World, a: Atom)
    ensures a.Quoted? ==>
      && ExprOf(w, Leaf(a)) == Some(if a.name == "y" then 2 else if a.name == "m" then 1 else 0)
      && AtomStr(w, a) == Some(a.name)
    ensures a.Item? && w.cfg.Get(a.id).Symbol? ==>
      ExprOf(w, Leaf(a)) == w.Number(Slot(a.id, Tri)) && AtomStr(w, a) == w.Text(Slot(a.id, Str))
    ensures a.Item? && w.cfg.Get(a.id).Choice? ==>
      && ExprOf(w, Leaf(a)) == Mode(w, a.id)
      && (Mode(w, a.id) == Some(0) ==> AtomStr(w, a) == Some("n"))
      && (Mode(w, a.id) == Some(1) ==> AtomStr(w, a) == Some("m"))
      && (Mode(w, a.id) == Some(2) ==> AtomStr(w, a) == Some("y"))
  {
  }

  /** As a number, a bool or tristate operand is its tristate, a hex one its string read in base
      16, an int one in base 10, any other in the base its prefix tells. */
  lemma OperandNumber(w: World, a: Atom)
    requires AtomNum(w, a).Some?
    ensures var t := AtomType(w.cfg, a);
      if t == Bool || t == Tri3 then AtomNum(w, a).value == ExprOf(w, Leaf(a)) else
        && AtomStr(w, a).Some?
        && AtomNum(w, a).value == w.cfg.num(AtomStr(w, a).value, if t == Hex then 16 else if t == Int then 10 else 0)
  {
  }

  // ----- Comparisons

  predicate Related(rel: Relation, x: int, y: int) {
    match rel
    case Equal => x == y
    case Unequal => x != y
    case Less => x < y
    case LessEqual => x <= y
    case Greater => y < x
    case GreaterEqual => y <= x
  }

  /** Lexicographic order. */
  ghost predicate Precedes(a: string, b: string) {
    exists k :: 0 <= k <= |a| && k < |b| && a[..k] == b[..k] && (k == |a| || a[k] < b[k])
  }

  ghost predicate RelatedText(rel: Relation, x: string, y: string) {
    match rel
    case Equal => x == y
    case Unequal => x != y
    case Less => Precedes(x, y)
    case LessEqual => Precedes(x, y) || x == y
    case Greater => Precedes(y, x)
    case GreaterEqual => Precedes(y, x) || x == y
  }

  lemma PrecedesMore(a: string, b: string)
    requires a != [] && b != [] && a[0] == b[0]
    ensures Precedes(a, b) <==> Precedes(a[1..], b[1..])
  {
    if k: nat :| k <= |a| && k < |b| && a[..k] == b[..k] && (k == |a| || a[k] < b[k]) {
      assert k > 0;
      var j: nat := k - 1;
      assert a[1..][..j] == a[..k][1..] && b[1..][..j] == b[..k][1..];
    }
    if j: nat :| j <= |a[1..]| && j < |b[1..]| && a[1..][..j] == b[1..][..j] && (j == |a[1..]| || a[1..][j] < b[1..][j]) {
      assert a[..j + 1] == [a[0]] + a[1..][..j] && b[..j + 1] == [b[0]] + b[1..][..j];
    }
  }

  lemma {:induction false} StrCmpOrder(a: string, b: string)
    ensures (StrCmp(a, b) == 0 <==> a == b) && (StrCmp(a, b) < 0 <==> Precedes(a, b)) && (StrCmp(a, b) > 0 <==> Precedes(b, a))
  {
    if a == b {
      assert !Precedes(a, b);
    } else if a == [] {
      assert a[..0] == b[..0];
    } else if b == [] {
      assert b[..0] == a[..0];
    } else if a[0] != b[0] {
      assert a[..0] == b[..0];
      Differ(a, b);
      Differ(b, a);
    } else {
      PrecedesMore(a, b);
      PrecedesMore(b, a);
      StrCmpOrder(a[1..], b[1..]);
      assert a == [a[0]] + a[1..] && b == [b[0]] + b[1..];
    }
  }

  lemma Differ(a: string, b: string)
    requires a != [] && b != [] && a[0] != b[0]
    ensures Precedes(a, b) <==> a[0] < b[0]
  {
    if a[0] < b[0] { assert a[..0] == b[..0]; }
    forall k | 0 < k <= |a| && k < |b| ensures a[..k] != b[..k] {
      assert a[..k][0] != b[..k][0];
    }
  }

  /** Both operands are strings, or one of them is no number. */
  predicate AsText(w: World, a: Atom, b: Atom) {
    || (AtomType(w.cfg, a) == Text && AtomType(w.cfg, b) == Text)
    || AtomNum(w, a) == Some(None) || AtomNum(w, b) == Some(None)
  }

  /** A comparison is y or n, as the numbers are related, or else the strings. */
  lemma Comparison(w: World, rel: Relation, a: Atom, b: Atom)
    requires ExprOf(w, Compare(rel, a, b)).Some?
    ensures var v := ExprOf(w, Compare(rel, a, b)).value;
      && (v == 0 || v == 2)
      && if AsText(w, a, b) then
           AtomStr(w, a).Some? && AtomStr(w, b).Some? && (v == 2 <==> RelatedText(rel, AtomStr(w, a).value, AtomStr(w, b).value))
         else
           && AtomNum(w, a).Some? && AtomNum(w, a).value.Some? && AtomNum(w, b).Some? && AtomNum(w, b).value.Some?
           && (v == 2 <==> Related(rel, AtomNum(w, a).value.value, AtomNum(w, b).value.value))
  {
    if AtomStr(w, a).Some? && AtomStr(w, b).Some? { StrCmpOrder(AtomStr(w, a).value, AtomStr(w, b).value); }
  }

  // ----- Types and modes

  predicate ModulesOff(w: World) { w.Number(Slot(w.cfg.modules, Tri)) == Some(0) }

  predicate InYChoice(w: World, it: Item) { it.Symbol? && it.choice.Some? && Mode(w, it.choice.value) == Some(2) }

  /** A tristate counts as a bool without modules, or inside a choice in y mode. */
  function TypeNow(w: World, i: nat): Type {
    var it := w.cfg.Get(i);
    if it.orig == Tri3 && (ModulesOff(w) || InYChoice(w, it)) then Bool else it.orig
  }

  lemma TypeLaw(w: World, i: nat)
    ensures TypeOf(w, i).Some? ==> TypeOf(w, i) == Some(TypeNow(w, i))
  {
  }

  /** A choice is in the mode the user wants, if it is not optional at least m, and at most as
      visible; m counts as y for bools. */
  lemma ModeLaw(w: World, c: nat)
    requires Mode(w, c).Some?
    ensures var it := w.cfg.Get(c); it.Choice? && w.Number(Slot(c, Vis)).Some?
    ensures var it, vis, m := w.cfg.Get(c), w.Number(Slot(c, Vis)).value, Mode(w, c).value;
      var wish := if UserTri(w, c).Some? then UserTri(w, c).value else 0;
      var most := if !it.optional && wish < 1 then 1 else if wish < 0 then 0 else wish;
      var x := if most <= vis then most else vis;
      m == if x == 1 && TypeNow(w, c) == Bool then 2 else x
  {
  }

  // ----- Visibility

  /** `top` is the largest value of a prompt's condition, or n. */
  ghost predicate IsTop(w: World, nodes: seq<Option<Expr>>, top: int) {
    && top >= 0
    && (forall k :: 0 <= k < |nodes| && nodes[k].Some? ==> ExprOf(w, nodes[k].value).Some? && ExprOf(w, nodes[k].value).value <= top)
    && (top == 0 || exists k :: 0 <= k < |nodes| && nodes[k].Some? && ExprOf(w, nodes[k].value) == Some(top))
  }

  /** A symbol that is no tristate shows only in y mode, one with m prompts not in y mode. */
  predicate WrongMode(w: World, it: Item, top: int) {
    it.Symbol? && it.choice.Some? &&
      ((w.cfg.Get(it.choice.value).orig == Tri3 && it.orig != Tri3 && !InYChoice(w, it)) ||
       (it.orig == Tri3 && top == 1 && InYChoice(w, it)))
  }

  ghost predicate LawfulVis(w: World, i: nat, v: int) {
    var it := w.cfg.Get(i);
    exists top :: IsTop(w, it.nodes, top) &&
      v == if WrongMode(w, it, top) then 0 else if top == 1 && TypeNow(w, i) != Tri3 then 2 else top
  }

  lemma {:induction false} TopLaw(w: World, nodes: seq<Option<Expr>>)
    requires Bounded(w) && PromptMax(w, nodes).Some?
    ensures IsTop(w, nodes, PromptMax(w, nodes).value)
  {
    if nodes != [] {
      var init, last := nodes[..|nodes| - 1], nodes[|nodes| - 1];
      TopLaw(w, init);
      if last.Some? { ExprBounded(w, last.value); }
      var rest, top := PromptMax(w, init).value, PromptMax(w, nodes).value;
      if rest > 0 && rest == top {
        var k :| 0 <= k < |init| && init[k].Some? && ExprOf(w, init[k].value) == Some(rest);
        assert nodes[k] == init[k];
      }
      forall k | 0 <= k < |nodes| && nodes[k].Some?
        ensures ExprOf(w, nodes[k].value).Some? && ExprOf(w, nodes[k].value).value <= top
      {
        if k < |init| { assert nodes[k] == init[k]; }
      }
    }
  }

  lemma VisLaw(w: World, i: nat)
    requires Bounded(w) && VisOf(w, i).Some?
    ensures LawfulVis(w, i, VisOf(w, i).value) && 0 <= VisOf(w, i).value <= 2
  {
    var it := w.cfg.Get(i);
    TopLaw(w, it.nodes);
    forall k | 0 <= k < |it.nodes| && it.nodes[k].Some?
      ensures ExprOf(w, it.nodes[k].value).Some? ==> ExprOf(w, it.nodes[k].value).value <= 2
    {
      ExprBounded(w, it.nodes[k].value);
    }
    TypeLaw(w, i);
  }

  // ----- Tristate values

  /** The first default whose condition is not n gives `d`, its condition being an upper bound. */
  ghost predicate FromFirst(w: World, ds: seq<Default>, d: int, k: nat) {
    && k <= |ds| && (forall m :: 0 <= m < k ==> ExprOf(w, ds[m].cond) == Some(0))
    && if k == |ds| then d == 0 else
         && ExprOf(w, ds[k].cond).Some? && ExprOf(w, ds[k].cond) != Some(0) && ExprOf(w, ds[k].value).Some?
         && d == Min(ExprOf(w, ds[k].value).value, ExprOf(w, ds[k].cond).value)
  }

  ghost predicate DefaultIs(w: World, ds: seq<Default>, d: int) { exists k :: FromFirst(w, ds, d, k) }

  lemma {:induction false} DefaultLaw(w: World, ds: seq<Default>) returns (k: nat)
    requires FirstDefault(w, ds).Some?
    ensures FromFirst(w, ds, FirstDefault(w, ds).value, k)
  {
    k := 0;
    if ds != [] && ExprOf(w, ds[0].cond) == Some(0) {
      var j := DefaultLaw(w, ds[1..]);
      k := j + 1;
      forall m | 0 <= m < k ensures ExprOf(w, ds[m].cond) == Some(0) {
        if m > 0 { assert ds[m] == ds[1..][m - 1]; }
      }
      if k < |ds| { assert ds[k] == ds[1..][j]; }
    }
  }

  /** Implied to at least `d`, if the direct dependencies hold. */
  ghost predicate Implied(w: World, it: Item, d: int, base: int)
    requires it.Symbol?
  {
    && ExprOf(w, it.weak).Some? && (ExprOf(w, it.weak) != Some(0) ==> ExprOf(w, it.direct).Some?)
    && base == if ExprOf(w, it.weak) != Some(0) && ExprOf(w, it.direct) != Some(0) then Max(ExprOf(w, it.weak).value, d) else d
  }

  /** Before selects: the user's value as far as it is visible, or else default and imply. */
  ghost predicate BaseIs(w: World, i: nat, it: Item, vis: int, base: int)
    requires it.Symbol?
  {
    if UserTri(w, i).Some? && vis != 0 then base == Min(UserTri(w, i).value, vis)
    else exists d :: DefaultIs(w, it.defaults, d) && Implied(w, it, d, base)
  }

  /** At least what selects it; m becomes y for bools and for symbols implied to y. */
  ghost predicate PlainTri(w: World, i: nat, it: Item, vis: int, t: int)
    requires it.Symbol?
  {
    && ExprOf(w, it.rev).Some?
    && exists base :: BaseIs(w, i, it, vis, base) &&
         var m := Max(ExprOf(w, it.rev).value, base);
         t == if m == 1 && (TypeNow(w, i) == Bool || ExprOf(w, it.weak) == Some(2)) then 2 else m
  }

  /** Inside a choice in y mode the selection is y and the rest n; in m mode the user's symbols
      are m. */
  ghost predicate ChoiceTri(w: World, i: nat, it: Item, vis: int, t: int)
    requires it.Symbol? && it.choice.Some?
  {
    if vis == 2 then
      w.Chosen(Slot(it.choice.value, Sel)).Some? && t == if w.Chosen(Slot(it.choice.value, Sel)).value == Some(i) then 2 else 0
    else
      t == if vis != 0 && UserTri(w, i).Some? && UserTri(w, i) != Some(0) then 1 else 0
  }

  ghost predicate LawfulTri(w: World, i: nat, t: int) {
    var it := w.cfg.Get(i);
    && it.Symbol?
    && if it.orig != Bool && it.orig != Tri3 then t == 0 else
         && w.Number(Slot(i, Vis)).Some?
         && var vis := w.Number(Slot(i, Vis)).value;
            if it.choice.None? then PlainTri(w, i, it, vis, t) else ChoiceTri(w, i, it, vis, t)
  }

  lemma BaseLaw(w: World, i: nat, it: Item, vis: int)
    requires Bounded(w) && it.Symbol? && BeforeSelects(w, i, it, vis).Some? && 0 <= vis <= 2
    ensures BaseIs(w, i, it, vis, BeforeSelects(w, i, it, vis).value) && 0 <= BeforeSelects(w, i, it, vis).value <= 2
  {
    assert Sane(w.UserOf(i));
    if FromDefaults(w, it).Some? {
      var k := DefaultLaw(w, it.defaults);
      var d := FirstDefault(w, it.defaults).value;
      if k < |it.defaults| { ExprBounded(w, it.defaults[k].value); ExprBounded(w, it.defaults[k].cond); }
      ExprBounded(w, it.weak);
      assert DefaultIs(w, it.defaults, d) && Implied(w, it, d, FromDefaults(w, it).value);
    }
  }

  lemma TriLaw(w: World, i: nat)
    requires Bounded(w) && TriOf(w, i).Some?
    ensures LawfulTri(w, i, TriOf(w, i).value) && 0 <= TriOf(w, i).value <= 2
  {
    var it := w.cfg.Get(i);
    if (it.orig == Bool || it.orig == Tri3) && it.choice.None? {
      var vis := w.Number(Slot(i, Vis)).value;
      BaseLaw(w, i, it, vis);
      TypeLaw(w, i);
      ExprBounded(w, it.rev);
      assert PlainTri(w, i, it, vis, TriOf(w, i).value);
    }
  }

  // ----- Selections

  predicate Visible(w: World, i: nat) { w.Number(Slot(i, Vis)).Some? && w.Number(Slot(i, Vis)) != Some(0) }

  predicate Invisible(w: World, i: nat) { w.Number(Slot(i, Vis)) == Some(0) }

  /** The condition of the default is not n and its symbol visible; or one of the two fails. */
  predicate Applies(w: World, p: Pick) { ExprOf(w, p.cond).Some? && ExprOf(w, p.cond) != Some(0) && Visible(w, p.sym) }

  predicate Fails(w: World, p: Pick) { ExprOf(w, p.cond) == Some(0) || (ExprOf(w, p.cond).Some? && Invisible(w, p.sym)) }

  ghost predicate FirstOf(w: World, it: Item, r: Option<nat>, j: nat, k: nat)
    requires it.Choice?
  {
    && j <= |it.picks| && (forall m :: 0 <= m < j ==> Fails(w, it.picks[m]))
    && if j < |it.picks| then Applies(w, it.picks[j]) && r == Some(it.picks[j].sym) else
         && k <= |it.syms| && (forall m :: 0 <= m < k ==> Invisible(w, it.syms[m]))
         && if k < |it.syms| then Visible(w, it.syms[k]) && r == Some(it.syms[k]) else r == None
  }

  /** In y mode the user's selection if it is visible, or else the first default that applies,
      or else the first visible symbol. */
  ghost predicate LawfulSel(w: World, c: nat, r: Option<nat>) {
    var it := w.cfg.Get(c);
    && it.Choice? && Mode(w, c).Some?
    && if Mode(w, c) != Some(2) then r == None else
         match w.UserOf(c).selection
         case Some(s) => if Visible(w, s) then r == Some(s) else Invisible(w, s) && exists j, k :: FirstOf(w, it, r, j, k)
         case None => exists j, k :: FirstOf(w, it, r, j, k)
  }

  lemma {:induction false} PickLaw(w: World, ps: seq<Pick>) returns (j: nat)
    requires FirstPick(w, ps).Some?
    ensures j <= |ps| && (forall m :: 0 <= m < j ==> Fails(w, ps[m]))
    ensures if j < |ps| then Applies(w, ps[j]) && FirstPick(w, ps).value == Some(ps[j].sym) else FirstPick(w, ps).value == None
  {
    j := 0;
    if ps != [] && Fails(w, ps[0]) {
      var i := PickLaw(w, ps[1..]);
      j := i + 1;
      forall m | 0 <= m < j ensures Fails(w, ps[m]) {
        if m > 0 { assert ps[m] == ps[1..][m - 1]; }
      }
      if j < |ps| { assert ps[j] == ps[1..][i]; }
    }
  }

  lemma {:induction false} VisibleLaw(w: World, syms: seq<nat>) returns (k: nat)
    requires FirstVisible(w, syms).Some?
    ensures k <= |syms| && (forall m :: 0 <= m < k ==> Invisible(w, syms[m]))
    ensures if k < |syms| then Visible(w, syms[k]) && FirstVisible(w, syms).value == Some(syms[k]) else FirstVisible(w, syms).value == None
  {
    k := 0;
    if syms != [] && Invisible(w, syms[0]) {
      var i := VisibleLaw(w, syms[1..]);
      k := i + 1;
      forall m | 0 <= m < k ensures Invisible(w, syms[m]) {
        if m > 0 { assert syms[m] == syms[1..][m - 1]; }
      }
      if k < |syms| { assert syms[k] == syms[1..][i]; }
    }
  }

  lemma SelLaw(w: World, c: nat)
    requires SelOf(w, c).Some?
    ensures LawfulSel(w, c, SelOf(w, c).value)
  {
    var it, r := w.cfg.Get(c), SelOf(w, c).value;
    if Mode(w, c) == Some(2) && UserPick(w, c) == Some(None) {
      var j := PickLaw(w, it.picks);
      var k := 0;
      if j == |it.picks| { k := VisibleLaw(w, it.syms); }
      assert FirstOf(w, it, r, j, k);
    }
  }

  // ----- Strings

  /** The first default whose condition is not n, if there is one, is worth `d`. */
  ghost predicate TextFrom(w: World, ds: seq<Default>, d: Option<string>, k: nat) {
    && k <= |ds| && (forall m :: 0 <= m < k ==> ExprOf(w, ds[m].cond) == Some(0))
    && if k == |ds| then d == None else
         && ExprOf(w, ds[k].cond).Some? && ExprOf(w, ds[k].cond) != Some(0)
         && d.Some? && (ds[k].value.Leaf? ==> AtomStr(w, ds[k].value.atom) == d) && (!ds[k].value.Leaf? ==> d == Some(""))
  }

  ghost predicate TextIs(w: World, ds: seq<Default>, d: Option<string>) { exists k :: TextFrom(w, ds, d, k) }

  lemma {:induction false} TextLaw(w: World, ds: seq<Default>) returns (k: nat)
    requires FirstText(w, ds).Some?
    ensures TextFrom(w, ds, FirstText(w, ds).value, k)
  {
    k := 0;
    if ds != [] && ExprOf(w, ds[0].cond) == Some(0) {
      var j := TextLaw(w, ds[1..]);
      k := j + 1;
      forall m | 0 <= m < k ensures ExprOf(w, ds[m].cond) == Some(0) {
        if m > 0 { assert ds[m] == ds[1..][m - 1]; }
      }
      if k < |ds| { assert ds[k] == ds[1..][j]; }
    }
  }

  /** The number a string stands for, 0 if it is none. */
  function Worth(cfg: Config, s: string, base: nat): int {
    if cfg.num(s, base).Some? then cfg.num(s, base).value else 0
  }

  /** The bounds of the first range whose condition is not n, if there is one. */
  ghost predicate RangeFrom(w: World, rs: seq<Range>, base: nat, b: Option<Bounds>, k: nat) {
    && k <= |rs| && (forall m :: 0 <= m < k ==> ExprOf(w, rs[m].cond) == Some(0))
    && if k == |rs| then b == None else
         && ExprOf(w, rs[k].cond).Some? && ExprOf(w, rs[k].cond) != Some(0)
         && AtomStr(w, rs[k].low).Some? && AtomStr(w, rs[k].high).Some?
         && b == Some(Bounds(Worth(w.cfg, AtomStr(w, rs[k].low).value, base), Worth(w.cfg, AtomStr(w, rs[k].high).value, base)))
  }

  ghost predicate RangeIs(w: World, rs: seq<Range>, base: nat, b: Option<Bounds>) { exists k :: RangeFrom(w, rs, base, b, k) }

  lemma {:induction false} RangeLaw(w: World, rs: seq<Range>, base: nat) returns (k: nat)
    requires FirstRange(w, rs, base).Some?
    ensures RangeFrom(w, rs, base, FirstRange(w, rs, base).value, k)
  {
    k := 0;
    if rs != [] && ExprOf(w, rs[0].cond) == Some(0) {
      var j := RangeLaw(w, rs[1..], base);
      k := j + 1;
      forall m | 0 <= m < k ensures ExprOf(w, rs[m].cond) == Some(0) {
        if m > 0 { assert rs[m] == rs[1..][m - 1]; }
      }
      if k < |rs| { assert rs[k] == rs[1..][j]; }
    }
  }

  predicate InRange(b: Option<Bounds>, n: int) { b.Some? ==> b.value.low <= n && n <= b.value.high }

  /** The default, or nothing; outside the range, the bound it is beyond. */
  predicate Bent(cfg: Config, t: Type, b: Option<Bounds>, d: Option<string>, s: string) {
    var n := if d.Some? then Worth(cfg, d.value, Base(t)) else 0;
    if InRange(b, n) then s == (if d.Some? then d.value else "")
    else s == cfg.show(t, if n < b.value.low then b.value.low else b.value.high)
  }

  /** A visible user value inside the active range counts as it was written; otherwise the
      default does, bent into the range. */
  ghost predicate NumberIs(w: World, i: nat, it: Item, vis: int, s: string)
    requires it.Symbol?
  {
    exists b :: RangeIs(w, it.ranges, Base(it.orig), b) &&
      var u := UserText(w, i);
      if vis != 0 && u.Some? && u.value != "" && InRange(b, Worth(w.cfg, u.value, Base(it.orig))) then s == u.value
      else exists d :: TextIs(w, it.defaults, d) && Bent(w.cfg, it.orig, b, d, s)
  }

  ghost predicate TextValue(w: World, i: nat, it: Item, vis: int, s: string)
    requires it.Symbol?
  {
    if vis != 0 && UserText(w, i).Some? then s == UserText(w, i).value
    else exists d :: TextIs(w, it.defaults, d) && s == if d.Some? then d.value else ""
  }

  ghost predicate LawfulStr(w: World, i: nat, s: string) {
    var it := w.cfg.Get(i);
    it.Symbol? &&
    match it.orig
    case Unknown => s == it.name
    case Bool => w.Number(Slot(i, Tri)).Some? && Spelled(w.Number(Slot(i, Tri)).value, s)
    case Tri3 => w.Number(Slot(i, Tri)).Some? && Spelled(w.Number(Slot(i, Tri)).value, s)
    case Text => w.Number(Slot(i, Vis)).Some? && TextValue(w, i, it, w.Number(Slot(i, Vis)).value, s)
    case _ => w.Number(Slot(i, Vis)).Some? && NumberIs(w, i, it, w.Number(Slot(i, Vis)).value, s)
  }

  predicate Spelled(t: int, s: string) { (s == "n" && t == 0) || (s == "m" && t == 1) || (s == "y" && t == 2) }

  lemma StrLaw(w: World, i: nat)
    requires Bounded(w) && StrOf(w, i).Some?
    ensures LawfulStr(w, i, StrOf(w, i).value)
  {
    var it, s := w.cfg.Get(i), StrOf(w, i).value;
    if it.orig == Text {
      if FirstText(w, it.defaults).Some? {
        var _ := TextLaw(w, it.defaults);
        assert TextIs(w, it.defaults, FirstText(w, it.defaults).value);
      }
    } else if it.orig == Int || it.orig == Hex {
      NumberLaw(w, i, it, w.Number(Slot(i, Vis)).value);
    }
  }

  lemma NumberLaw(w: World, i: nat, it: Item, vis: int)
    requires it.Symbol? && NumberText(w, i, it, vis).Some?
    ensures NumberIs(w, i, it, vis, NumberText(w, i, it, vis).value)
  {
    var base := Base(it.orig);
    var _ := RangeLaw(w, it.ranges, base);
    var b := FirstRange(w, it.ranges, base).value;
    assert RangeIs(w, it.ranges, base, b);
    if FirstText(w, it.defaults).Some? {
      var _ := TextLaw(w, it.defaults);
      var d := FirstText(w, it.defaults).value;
      assert TextIs(w, it.defaults, d) && Bent(w.cfg, it.orig, b, d, Clamped(w.cfg, it.orig, b, d));
    }
  }

  // ----- All of them

  ghost predicate Lawful(w: World, s: Slot, x: Cached) {
    match s.kind
    case Vis => x.Number? && LawfulVis(w, s.item, x.n)
    case Tri => x.Number? && LawfulTri(w, s.item, x.n)
    case Str => x.String? && LawfulStr(w, s.item, x.s)
    case Sel => x.Chosen? && LawfulSel(w, s.item, x.sym)
  }

  lemma OneTop(w: World, nodes: seq<Option<Expr>>, x: int, y: int)
    requires IsTop(w, nodes, x) && IsTop(w, nodes, y)
    ensures x == y
  {
  }

  lemma OneDefault(w: World, ds: seq<Default>)
    ensures forall d, e :: DefaultIs(w, ds, d) && DefaultIs(w, ds, e) ==> d == e
    ensures forall d, e :: TextIs(w, ds, d) && TextIs(w, ds, e) ==> d == e
  {
    forall d, e | DefaultIs(w, ds, d) && DefaultIs(w, ds, e) ensures d == e {
      var j, k :| FromFirst(w, ds, d, j) && FromFirst(w, ds, e, k);
      assert j == k;
    }
    forall d, e | TextIs(w, ds, d) && TextIs(w, ds, e) ensures d == e {
      var j, k :| TextFrom(w, ds, d, j) && TextFrom(w, ds, e, k);
      assert j == k;
    }
  }

  lemma OneRange(w: World, rs: seq<Range>, base: nat, b: Option<Bounds>, c: Option<Bounds>)
    requires RangeIs(w, rs, base, b) && RangeIs(w, rs, base, c)
    ensures b == c
  {
    var j, k :| RangeFrom(w, rs, base, b, j) && RangeFrom(w, rs, base, c, k);
    assert j == k;
  }

  lemma OneFirst(w: World, it: Item, q: Option<nat>, r: Option<nat>, j: nat, k: nat, j': nat, k': nat)
    requires it.Choice? && FirstOf(w, it, q, j, k) && FirstOf(w, it, r, j', k')
    ensures q == r
  {
    assert j == j';
    if j == |it.picks| { assert k == k'; }
  }

  /** No other value obeys the law. */
  lemma LawDecides(w: World, s: Slot, x: Cached, y: Cached)
    requires Lawful(w, s, x) && Lawful(w, s, y)
    ensures x == y
  {
    var it := w.cfg.Get(s.item);
    match s.kind
    case Vis =>
      forall p, q | IsTop(w, it.nodes, p) && IsTop(w, it.nodes, q) ensures p == q { OneTop(w, it.nodes, p, q); }
    case Tri =>
      OneDefault(w, it.defaults);
    case Str =>
      OneDefault(w, it.defaults);
      if it.orig == Int || it.orig == Hex {
        var b :| RangeIs(w, it.ranges, Base(it.orig), b);
        forall c | RangeIs(w, it.ranges, Base(it.orig), c) ensures c == b { OneRange(w, it.ranges, Base(it.orig), b, c); }
      }
    case Sel =>
      forall q, r, j, k, j', k' | FirstOf(w, it, q, j, k) && FirstOf(w, it, r, j', k') ensures q == r {
        OneFirst(w, it, q, r, j, k, j', k');
      }
  }

  /** Every value worked out obeys its law. */
  lemma EvalLawful(w: World, s: Slot)
    requires Bounded(w) && Eval(w, s).Some?
    ensures Lawful(w, s, Eval(w, s).value)
    ensures var x := Eval(w, s).value; x.Number? ==> 0 <= x.n <= 2
  {
    match s.kind
    case Vis => VisLaw(w, s.item);
    case Tri => TriLaw(w, s.item);
    case Str => StrLaw(w, s.item);
    case Sel => SelLaw(w, s.item);
  }
}
