// How tools/kconfiglib.py computes visibilities, values and selections from other items'
// values. Every function reads those through an environment, which holds what is known.
module KconfigValues {
  import opened Numbers
  import opened Options
  import opened KconfigExpr

  datatype Type = Unknown | Bool | Tri3 | Text | Int | Hex

  datatype Default = Default(value: Expr, cond: Expr)
  datatype Range = Range(low: Atom, high: Atom, cond: Expr)
  datatype Pick = Pick(sym: nat, cond: Expr)

  /** `nodes` has one entry per menu node: its prompt's condition, if it has a prompt. */
  datatype Item =
    | Symbol(name: string, orig: Type, nodes: seq<Option<Expr>>, defaults: seq<Default>, ranges: seq<Range>,
             direct: Expr, rev: Expr, weak: Expr, choice: Option<nat>)
    | Choice(orig: Type, nodes: seq<Option<Expr>>, picks: seq<Pick>, syms: seq<nat>, optional: bool)

  const Missing := Symbol("", Unknown, [], [], [], N, N, N, None)

  /** `num` is int(text, base) with None for ValueError; `show` is str() or hex(). */
  datatype Config = Config(items: seq<Item>, modules: nat,
                           num: (string, nat) -> Option<int>, show: (Type, int) -> string) {
    function Get(i: nat): Item { if i < |items| then items[i] else Missing }
  }

  datatype UserValue = UTri(t: int) | UText(text: string)
  datatype User = User(value: Option<UserValue>, selection: Option<nat>)

  const NoUser := User(None, None)

  /** What is cached per item: visibility, tri_value, str_value, and a choice's selection. */
  datatype Kind = Vis | Tri | Str | Sel
  datatype Slot = Slot(item: nat, kind: Kind)
  datatype Cached = Number(n: int) | String(s: string) | Chosen(sym: Option<nat>)

  type Env = Slot -> Option<Cached>

  datatype World = World(cfg: Config, user: seq<User>, env: Env) {
    function UserOf(i: nat): User { if i < |user| then user[i] else NoUser }
    function Number(s: Slot): Option<int> {
      match env(s) case Some(Number(n)) => Some(n) case _ => None
    }
    function Text(s: Slot): Option<string> {
      match env(s) case Some(String(t)) => Some(t) case _ => None
    }
    function Chosen(s: Slot): Option<Option<nat>> {
      match env(s) case Some(Chosen(c)) => Some(c) case _ => None
    }
  }

  function TriName(t: int): string { if t == 0 then "n" else if t == 1 then "m" else "y" }

  // ----- Atoms and expressions

  /** Choice.type */
  function ChoiceType(w: World, c: nat): Option<Type> {
    var orig := w.cfg.Get(c).orig;
    if orig != Tri3 then Some(orig) else
      var m :- w.Number(Slot(w.cfg.modules, Tri));
      Some(if m == 0 then Bool else Tri3)
  }

  /** Choice.tri_value: never cached, always worked out from the visibility. */
  function Mode(w: World, c: nat): Option<int> {
    var it := w.cfg.Get(c);
    if it.Symbol? then None else
      var floor := if it.optional then 0 else 1;
      var wanted := match w.UserOf(c).value case Some(UTri(t)) => Max(floor, t) case _ => floor;
      var vis :- w.Number(Slot(c, Vis));
      var val := Min(wanted, vis);
      if val != 1 then Some(val) else
        var t :- ChoiceType(w, c);
        Some(if t == Bool then 2 else 1)
  }

  function AtomTri(w: World, a: Atom): Option<int> {
    match a
    case Quoted(s) => Some(if s == "y" then 2 else if s == "m" then 1 else 0)
    case Item(j) => if w.cfg.Get(j).Choice? then Mode(w, j) else w.Number(Slot(j, Tri))
  }

  function AtomStr(w: World, a: Atom): Option<string> {
    match a
    case Quoted(s) => Some(s)
    case Item(j) =>
      if w.cfg.Get(j).Choice? then
        var m :- Mode(w, j);
        Some(TriName(m))
      else w.Text(Slot(j, Str))
  }

  function AtomType(cfg: Config, a: Atom): Type {
    match a
    case Quoted(s) => if s == "n" || s == "m" || s == "y" then Tri3 else Unknown
    case Item(j) => cfg.Get(j).orig
  }

  function Base(t: Type): nat {
    match t case Hex => 16 case Int => 10 case _ => 0
  }

  /** _sym_to_num(); the inner None is its ValueError. */
  function AtomNum(w: World, a: Atom): Option<Option<int>> {
    var t := AtomType(w.cfg, a);
    if t == Bool || t == Tri3 then
      var n :- AtomTri(w, a);
      Some(Some(n))
    else
      var s :- AtomStr(w, a);
      Some(w.cfg.num(s, Base(t)))
  }

  function StrCmp(a: string, b: string): int {
    if a == b then 0
    else if a == [] then -1
    else if b == [] then 1
    else if a[0] != b[0] then (if a[0] < b[0] then -1 else 1)
    else StrCmp(a[1..], b[1..])
  }

  function TextOrder(w: World, a: Atom, b: Atom): Option<int> {
    var x :- AtomStr(w, a);
    var y :- AtomStr(w, b);
    Some(StrCmp(x, y))
  }

  /** The numeric difference, unless one operand is no number. */
  function NumOrder(w: World, a: Atom, b: Atom): Option<Option<int>> {
    var x :- AtomNum(w, a);
    if x.None? then Some(None) else
      var y :- AtomNum(w, b);
      Some(if y.None? then None else Some(x.value - y.value))
  }

  function Order(w: World, a: Atom, b: Atom): Option<int> {
    if AtomType(w.cfg, a) == Text && AtomType(w.cfg, b) == Text then TextOrder(w, a, b) else
      var n :- NumOrder(w, a, b);
      if n.Some? then Some(n.value) else TextOrder(w, a, b)
  }

  function Satisfies(rel: Relation, comp: int): bool {
    match rel
    case Equal => comp == 0
    case Unequal => comp != 0
    case Less => comp < 0
    case LessEqual => comp <= 0
    case Greater => comp > 0
    case GreaterEqual => comp >= 0
  }

  /** expr_value() */
  function ExprOf(w: World, e: Expr): Option<int> {
    match e
    case Leaf(a) => AtomTri(w, a)
    case And(l, r) =>
      var x :- ExprOf(w, l);
      if x == 0 then Some(0) else
        var y :- ExprOf(w, r);
        Some(Min(x, y))
    case Or(l, r) =>
      var x :- ExprOf(w, l);
      if x == 2 then Some(2) else
        var y :- ExprOf(w, r);
        Some(Max(x, y))
    case Not(x) =>
      var y :- ExprOf(w, x);
      Some(2 - y)
    case Compare(rel, a, b) =>
      var c :- Order(w, a, b);
      Some(if Satisfies(rel, c) then 2 else 0)
  }

  // ----- Visibility

  /** Symbol.type and Choice.type */
  function TypeOf(w: World, i: nat): Option<Type> {
    var it := w.cfg.Get(i);
    if it.Choice? || it.orig != Tri3 || it.choice.None? then ChoiceType(w, i) else
      var m :- Mode(w, it.choice.value);
      if m == 2 then Some(Bool) else ChoiceType(w, i)
  }

  function PromptMax(w: World, nodes: seq<Option<Expr>>): Option<int> {
    if nodes == [] then Some(0) else
      var rest :- PromptMax(w, nodes[..|nodes| - 1]);
      match nodes[|nodes| - 1]
      case None => Some(rest)
      case Some(cond) =>
        var v :- ExprOf(w, cond);
        Some(Max(rest, v))
  }

  /** A choice symbol is hidden when its choice is in the wrong mode for its type. */
  function Hidden(w: World, it: Item, vis: int): Option<bool> {
    if it.Choice? || it.choice.None? then Some(false) else
      var c := it.choice.value;
      if w.cfg.Get(c).orig == Tri3 && it.orig != Tri3 then
        var m :- Mode(w, c);
        Some(m != 2)
      else if it.orig == Tri3 && vis == 1 then
        var m :- Mode(w, c);
        Some(m == 2)
      else Some(false)
  }

  /** _visibility(); without a visible prompt the choice's mode makes no difference. */
  function VisOf(w: World, i: nat): Option<int> {
    var it := w.cfg.Get(i);
    var vis :- PromptMax(w, it.nodes);
    if vis == 0 then Some(0) else
    var hidden :- Hidden(w, it, vis);
    if hidden then Some(0) else
    if vis != 1 then Some(vis) else
      var t :- TypeOf(w, i);
      Some(if t != Tri3 then 2 else 1)
  }

  // ----- Tristate values

  function FirstDefault(w: World, ds: seq<Default>): Option<int> {
    if ds == [] then Some(0) else
      var c :- ExprOf(w, ds[0].cond);
      if c == 0 then FirstDefault(w, ds[1..]) else
        var v :- ExprOf(w, ds[0].value);
        Some(Min(v, c))
  }

  /** Defaults, then weak reverse dependencies if the direct dependencies are met. */
  function FromDefaults(w: World, it: Item): Option<int>
    requires it.Symbol?
  {
    var d :- FirstDefault(w, it.defaults);
    var weak :- ExprOf(w, it.weak);
    if weak == 0 then Some(d) else
      var direct :- ExprOf(w, it.direct);
      Some(if direct == 0 then d else Max(weak, d))
  }

  function BeforeSelects(w: World, i: nat, it: Item, vis: int): Option<int>
    requires it.Symbol?
  {
    match w.UserOf(i).value
    case Some(UTri(t)) => if vis != 0 then Some(Min(t, vis)) else FromDefaults(w, it)
    case _ => FromDefaults(w, it)
  }

  /** Selects win over everything; evaluating the direct dependencies serves a warning. */
  function AfterSelects(w: World, it: Item, val: int): Option<int>
    requires it.Symbol?
  {
    var rev :- ExprOf(w, it.rev);
    if rev == 0 then Some(val) else
      var _ :- ExprOf(w, it.direct);
      Some(Max(rev, val))
  }

  /** m becomes y for bools and for symbols implied to y. */
  function Promoted(w: World, i: nat, it: Item, val: int): Option<int>
    requires it.Symbol?
  {
    if val != 1 then Some(val) else
      var t :- TypeOf(w, i);
      if t == Bool then Some(2) else
        var weak :- ExprOf(w, it.weak);
        Some(if weak == 2 then 2 else 1)
  }

  function TriOf(w: World, i: nat): Option<int> {
    var it := w.cfg.Get(i);
    if it.Choice? then None
    else if it.orig != Bool && it.orig != Tri3 then Some(0)
    else
      var vis :- w.Number(Slot(i, Vis));
      if it.choice.None? then
        var a :- BeforeSelects(w, i, it, vis);
        var b :- AfterSelects(w, it, a);
        Promoted(w, i, it, b)
      else if vis == 2 then
        var sel :- w.Chosen(Slot(it.choice.value, Sel));
        Some(if sel == Some(i) then 2 else 0)
      else
        match w.UserOf(i).value
        case Some(UTri(t)) => Some(if vis != 0 && t != 0 then 1 else 0)
        case _ => Some(0)
  }

  // ----- Selections

  function FirstPick(w: World, ps: seq<Pick>): Option<Option<nat>> {
    if ps == [] then Some(None) else
      var c :- ExprOf(w, ps[0].cond);
      if c == 0 then FirstPick(w, ps[1..]) else
        var v :- w.Number(Slot(ps[0].sym, Vis));
        if v != 0 then Some(Some(ps[0].sym)) else FirstPick(w, ps[1..])
  }

  function FirstVisible(w: World, syms: seq<nat>): Option<Option<nat>> {
    if syms == [] then Some(None) else
      var v :- w.Number(Slot(syms[0], Vis));
      if v != 0 then Some(Some(syms[0])) else FirstVisible(w, syms[1..])
  }

  function UserPick(w: World, c: nat): Option<Option<nat>> {
    match w.UserOf(c).selection
    case None => Some(None)
    case Some(s) =>
      var v :- w.Number(Slot(s, Vis));
      Some(if v != 0 then Some(s) else None)
  }

  function DefaultSelection(w: World, it: Item): Option<Option<nat>>
    requires it.Choice?
  {
    var p :- FirstPick(w, it.picks);
    if p.Some? then Some(p) else FirstVisible(w, it.syms)
  }

  /** Choice._selection() */
  function SelOf(w: World, c: nat): Option<Option<nat>> {
    var it := w.cfg.Get(c);
    if it.Symbol? then None else
      var m :- Mode(w, c);
      if m != 2 then Some(None) else
        var u :- UserPick(w, c);
        if u.Some? then Some(u) else DefaultSelection(w, it)
  }

  // ----- String values

  function FirstText(w: World, ds: seq<Default>): Option<Option<string>> {
    if ds == [] then Some(None) else
      var c :- ExprOf(w, ds[0].cond);
      if c == 0 then FirstText(w, ds[1..]) else
        var s :- DefaultText(w, ds[0].value);
        Some(Some(s))
  }

  /** The default of a string or number is a symbol; anything else is refused while parsing. */
  function DefaultText(w: World, e: Expr): Option<string> {
    if e.Leaf? then AtomStr(w, e.atom) else Some("")
  }

  function NumOr0(cfg: Config, s: string, base: nat): int {
    match cfg.num(s, base) case Some(n) => n case None => 0
  }

  datatype Bounds = Bounds(low: int, high: int)

  function FirstRange(w: World, rs: seq<Range>, base: nat): Option<Option<Bounds>> {
    if rs == [] then Some(None) else
      var c :- ExprOf(w, rs[0].cond);
      if c == 0 then FirstRange(w, rs[1..], base) else
        var b :- BoundsOf(w, rs[0], base);
        Some(Some(b))
  }

  function BoundsOf(w: World, r: Range, base: nat): Option<Bounds> {
    var l :- AtomStr(w, r.low);
    var h :- AtomStr(w, r.high);
    Some(Bounds(NumOr0(w.cfg, l, base), NumOr0(w.cfg, h, base)))
  }

  predicate Within(b: Option<Bounds>, n: int) { b.None? || b.value.low <= n <= b.value.high }

  function Clamped(cfg: Config, t: Type, b: Option<Bounds>, text: Option<string>): string {
    var n := if text.None? then 0 else NumOr0(cfg, text.value, Base(t));
    if b.Some? && n < b.value.low then cfg.show(t, b.value.low)
    else if b.Some? && n > b.value.high then cfg.show(t, b.value.high)
    else if text.Some? then text.value else ""
  }

  function NumberText(w: World, i: nat, it: Item, vis: int): Option<string>
    requires it.Symbol?
  {
    var b :- FirstRange(w, it.ranges, Base(it.orig));
    match w.UserOf(i).value
    case Some(UText(s)) =>
      if vis != 0 && s != "" && Within(b, NumOr0(w.cfg, s, Base(it.orig))) then Some(s) else
        var d :- FirstText(w, it.defaults);
        Some(Clamped(w.cfg, it.orig, b, d))
    case _ =>
      var d :- FirstText(w, it.defaults);
      Some(Clamped(w.cfg, it.orig, b, d))
  }

  function PlainText(w: World, i: nat, it: Item, vis: int): Option<string>
    requires it.Symbol?
  {
    match w.UserOf(i).value
    case Some(UText(s)) => if vis != 0 then Some(s) else DefaultOrEmpty(w, it)
    case _ => DefaultOrEmpty(w, it)
  }

  function DefaultOrEmpty(w: World, it: Item): Option<string>
    requires it.Symbol?
  {
    var d :- FirstText(w, it.defaults);
    Some(if d.Some? then d.value else "")
  }

  /** Symbol.str_value */
  function StrOf(w: World, i: nat): Option<string> {
    var it := w.cfg.Get(i);
    if it.Choice? then None else
      match it.orig
      case Unknown => Some(it.name)
      case Bool => var t :- w.Number(Slot(i, Tri)); Some(TriName(t))
      case Tri3 => var t :- w.Number(Slot(i, Tri)); Some(TriName(t))
      case Text => var vis :- w.Number(Slot(i, Vis)); PlainText(w, i, it, vis)
      case _ => var vis :- w.Number(Slot(i, Vis)); NumberText(w, i, it, vis)
  }

  /** What slot `s` is worth, given what the environment holds for the slots it reads; None
      when it reads a slot that is not there. */
  function Eval(w: World, s: Slot): Option<Cached> {
    match s.kind
    case Vis => var v :- VisOf(w, s.item); Some(Number(v))
    case Tri => var t :- TriOf(w, s.item); Some(Number(t))
    case Str => var t :- StrOf(w, s.item); Some(String(t))
    case Sel => var c :- SelOf(w, s.item); Some(Chosen(c))
  }
}
