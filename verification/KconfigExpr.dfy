// Kconfig expressions (tools/kconfiglib.py): their tristate value, their printed form as a
// token list, and the recursive-descent parser that reads tokens back.
module KconfigExpr {
  import opened Numbers
  import opened Options

  type Tristate = t: int | 0 <= t <= 2

  /** A symbol or choice by number, or a constant (quoted) symbol. */
  datatype Atom = Item(id: nat) | Quoted(name: string)

  datatype Relation = Equal | Unequal | Less | LessEqual | Greater | GreaterEqual

  datatype Expr =
    | Leaf(atom: Atom)
    | And(left: Expr, right: Expr)
    | Or(left: Expr, right: Expr)
    | Not(arg: Expr)
    | Compare(rel: Relation, lhs: Atom, rhs: Atom)

  const Y := Leaf(Quoted("y"))
  const M := Leaf(Quoted("m"))
  const N := Leaf(Quoted("n"))

  // ----- Values

  /** What every symbol is worth, and which relations hold between symbols. */
  datatype Valuation = Valuation(tri: Atom -> Tristate, holds: (Relation, Atom, Atom) -> bool) {
    predicate Standard() {
      tri(Quoted("n")) == 0 && tri(Quoted("m")) == 1 && tri(Quoted("y")) == 2
    }
  }

  /** expr_value(), with its short circuits. */
  function Value(v: Valuation, e: Expr): Tristate {
    match e
    case Leaf(a) => v.tri(a)
    case And(l, r) =>
      var x := Value(v, l);
      if x == 0 then 0 else Min(x, Value(v, r))
    case Or(l, r) =>
      var x := Value(v, l);
      if x == 2 then 2 else Max(x, Value(v, r))
    case Not(x) => 2 - Value(v, x)
    case Compare(rel, a, b) => if v.holds(rel, a, b) then 2 else 0
  }

  // ----- Simplifying constructors

  function MakeAnd(a: Expr, b: Expr): (e: Expr)
    ensures forall v: Valuation :: v.Standard() ==> Value(v, e) == Min(Value(v, a), Value(v, b))
  {
    if a == Y then b else if b == Y then a else if a == N || b == N then N else And(a, b)
  }

  function MakeOr(a: Expr, b: Expr): (e: Expr)
    ensures forall v: Valuation :: v.Standard() ==> Value(v, e) == Max(Value(v, a), Value(v, b))
  {
    if a == N then b else if b == N then a else if a == Y || b == Y then Y else Or(a, b)
  }

  // ----- Printing

  datatype Token = Sym(atom: Atom) | TAnd | TOr | TNot | TOpen | TClose | TRel(rel: Relation) | End

  /** expr_str() */
  function Print(e: Expr): (ts: seq<Token>)
    decreases e, 0
  {
    match e
    case Leaf(a) => [Sym(a)]
    case And(l, r) => Conjunct(l) + [TAnd] + Conjunct(r)
    case Or(l, r) => Disjunct(l) + [TOr] + Disjunct(r)
    case Not(x) => if x.Leaf? then [TNot, Sym(x.atom)] else [TNot] + Bracketed(x)
    case Compare(rel, a, b) => [Sym(a), TRel(rel), Sym(b)]
  }

  function Bracketed(e: Expr): seq<Token>
    decreases e, 1
  { [TOpen] + Print(e) + [TClose] }

  /** _parenthesize(e, OR) */
  function Conjunct(e: Expr): seq<Token>
    decreases e, 2
  { if e.Or? then Bracketed(e) else Print(e) }

  /** _parenthesize(e, AND) */
  function Disjunct(e: Expr): seq<Token>
    decreases e, 2
  { if e.And? then Bracketed(e) else Print(e) }

  // ----- Parsing, as a function of the remaining tokens

  /** The expression read and the tokens after it; None is a parse error. */
  type Parse = Option<(Expr, seq<Token>)>

  function ParseExpr(modules: Option<Atom>, ts: seq<Token>): (p: Parse)
    ensures p.Some? ==> |p.value.1| < |ts|
    decreases |ts|, 2
  {
    var (left, rest) :- ParseAnd(modules, ts);
    if rest == [] || rest[0] != TOr then Some((left, rest)) else
      var (right, after) :- ParseExpr(modules, rest[1..]);
      Some((Or(left, right), after))
  }

  function ParseAnd(modules: Option<Atom>, ts: seq<Token>): (p: Parse)
    ensures p.Some? ==> |p.value.1| < |ts|
    decreases |ts|, 1
  {
    var (left, rest) :- ParseFactor(modules, ts);
    if rest == [] || rest[0] != TAnd then Some((left, rest)) else
      var (right, after) :- ParseAnd(modules, rest[1..]);
      Some((And(left, right), after))
  }

  /** `modules` is given when `m` is to be read as `m && MODULES`. */
  function ParseFactor(modules: Option<Atom>, ts: seq<Token>): (p: Parse)
    ensures p.Some? ==> |p.value.1| < |ts|
    decreases |ts|, 0
  {
    if ts == [] then None else
      match ts[0]
      case Sym(a) =>
        if |ts| > 1 && ts[1].TRel? then
          if |ts| > 2 && ts[2].Sym? then Some((Compare(ts[1].rel, a, ts[2].atom), ts[3..])) else None
        else Some((Plain(modules, a), ts[1..]))
      case TNot =>
        var (x, rest) :- ParseFactor(modules, ts[1..]);
        Some((Not(x), rest))
      case TOpen =>
        var (x, rest) :- ParseExpr(modules, ts[1..]);
        if rest != [] && rest[0] == TClose then Some((x, rest[1..])) else None
      case _ => None
  }

  function Plain(modules: Option<Atom>, a: Atom): Expr {
    if modules.Some? && Leaf(a) == M then And(M, Leaf(modules.value)) else Leaf(a)
  }

  // ----- What parsing a printed expression gives

  /** `e` with every chain of && and every chain of || nested to the right, and `m` rewritten. */
  function Nested(modules: Option<Atom>, e: Expr): Expr
    decreases e, 1
  {
    match e
    case Leaf(a) => Plain(modules, a)
    case And(l, r) => AndOnto(modules, l, Nested(modules, r))
    case Or(l, r) => OrOnto(modules, l, Nested(modules, r))
    case Not(x) => Not(Nested(modules, x))
    case Compare(_, _, _) => e
  }

  function AndOnto(modules: Option<Atom>, e: Expr, tail: Expr): Expr
    decreases e, 2
  {
    if e.And? then AndOnto(modules, e.left, AndOnto(modules, e.right, tail)) else And(Nested(modules, e), tail)
  }

  function OrOnto(modules: Option<Atom>, e: Expr, tail: Expr): Expr
    decreases e, 2
  {
    if e.Or? then OrOnto(modules, e.left, OrOnto(modules, e.right, tail)) else Or(Nested(modules, e), tail)
  }

  /** Tokens that may follow a complete factor, conjunction, or whole expression. */
  predicate AfterFactor(rest: seq<Token>) { rest == [] || !rest[0].TRel? }
  predicate AfterAnd(rest: seq<Token>) { AfterFactor(rest) && (rest == [] || rest[0] != TAnd) }
  predicate AfterExpr(rest: seq<Token>) { AfterAnd(rest) && (rest == [] || rest[0] != TOr) }

  lemma {:induction false} BracketRead(m: Option<Atom>, e: Expr, rest: seq<Token>)
    ensures ParseFactor(m, Bracketed(e) + rest) == Some((Nested(m, e), rest))
    decreases e, 3
  {
    var ts := Bracketed(e) + rest;
    var inner := [TClose] + rest;
    assert ts[1..] == Print(e) + inner;
    ExprRead(m, e, inner);
    assert inner[1..] == rest;
  }

  lemma {:induction false} ConjunctRead(m: Option<Atom>, e: Expr, rest: seq<Token>)
    requires AfterAnd(rest)
    ensures ParseAnd(m, Conjunct(e) + rest) == Some((Nested(m, e), rest))
    decreases e, 5
  {
    if e.And? {
      AndRead(m, e, rest);
    } else if e.Or? {
      BracketRead(m, e, rest);
    } else {
      PlainRead(m, e, rest);
    }
  }

  lemma {:induction false} AndRead(m: Option<Atom>, e: Expr, rest: seq<Token>)
    requires AfterAnd(rest) && e.And?
    ensures ParseAnd(m, Print(e) + rest) == Some((Nested(m, e), rest))
    decreases e, 1
  {
    var tail := Conjunct(e.right) + rest;
    ConjunctRead(m, e.right, rest);
    ConjunctThen(m, e.left, tail);
    assert Print(e) + rest == Conjunct(e.left) + ([TAnd] + tail);
  }

  /** Reading a conjunct in front of `&&` grafts its chain onto what the rest reads as. */
  lemma {:induction false} ConjunctThen(m: Option<Atom>, e: Expr, tail: seq<Token>)
    ensures var p := ParseAnd(m, tail);
      ParseAnd(m, Conjunct(e) + ([TAnd] + tail)) ==
      if p.None? then None else Some((AndOnto(m, e, p.value.0), p.value.1))
    decreases e, 5
  {
    var rest := [TAnd] + tail;
    assert rest[1..] == tail;
    if e.And? {
      var inner := Conjunct(e.right) + rest;
      ConjunctThen(m, e.right, tail);
      ConjunctThen(m, e.left, inner);
      assert Conjunct(e) + rest == Conjunct(e.left) + ([TAnd] + inner);
    } else if e.Or? {
      BracketRead(m, e, rest);
    } else {
      PlainRead(m, e, rest);
    }
  }

  lemma {:induction false} ExprRead(m: Option<Atom>, e: Expr, rest: seq<Token>)
    requires AfterExpr(rest)
    ensures ParseExpr(m, Print(e) + rest) == Some((Nested(m, e), rest))
    decreases e, 2
  {
    if e.Or? {
      var tail := Disjunct(e.right) + rest;
      DisjunctRead(m, e.right, rest);
      DisjunctThen(m, e.left, tail);
      assert Print(e) + rest == Disjunct(e.left) + ([TOr] + tail);
    } else if e.And? {
      AndRead(m, e, rest);
    } else {
      PlainRead(m, e, rest);
    }
  }

  lemma {:induction false} PlainRead(m: Option<Atom>, e: Expr, rest: seq<Token>)
    requires AfterFactor(rest) && !e.And? && !e.Or?
    ensures ParseFactor(m, Print(e) + rest) == Some((Nested(m, e), rest))
    decreases e, 1
  {
    var ts := Print(e) + rest;
    match e
    case Leaf(a) =>
    case Compare(rel, a, b) =>
      assert ts[0] == Sym(a) && ts[1] == TRel(rel) && ts[2] == Sym(b) && ts[3..] == rest;
    case Not(x) =>
      if x.Leaf? {
        PlainRead(m, x, rest);
        assert ts[1..] == Print(x) + rest;
      } else {
        BracketRead(m, x, rest);
        assert ts[1..] == Bracketed(x) + rest;
      }
  }

  lemma {:induction false} DisjunctRead(m: Option<Atom>, e: Expr, rest: seq<Token>)
    requires AfterExpr(rest)
    ensures ParseExpr(m, Disjunct(e) + rest) == Some((Nested(m, e), rest))
    decreases e, 5
  {
    if e.And? {
      BracketRead(m, e, rest);
    } else {
      ExprRead(m, e, rest);
    }
  }

  lemma {:induction false} DisjunctThen(m: Option<Atom>, e: Expr, tail: seq<Token>)
    ensures var p := ParseExpr(m, tail);
      ParseExpr(m, Disjunct(e) + ([TOr] + tail)) ==
      if p.None? then None else Some((OrOnto(m, e, p.value.0), p.value.1))
    decreases e, 5
  {
    var rest := [TOr] + tail;
    assert rest[1..] == tail;
    if e.Or? {
      var inner := Disjunct(e.right) + rest;
      DisjunctThen(m, e.right, tail);
      DisjunctThen(m, e.left, inner);
      assert Disjunct(e) + rest == Disjunct(e.left) + ([TOr] + inner);
    } else if e.And? {
      BracketRead(m, e, rest);
    } else {
      PlainRead(m, e, rest);
    }
  }

  // ----- Main results

  /** `v`, with `m` worth `m && MODULES` when it is rewritten. */
  function WithModules(v: Valuation, m: Option<Atom>): Valuation {
    match m
    case None => v
    case Some(mod) => v.(tri := a => Rewritten(v, mod, a))
  }

  function Rewritten(v: Valuation, mod: Atom, a: Atom): Tristate {
    if a == Quoted("m") then Min(v.tri(a), v.tri(mod)) else v.tri(a)
  }

  /** Right nesting changes no value, and `m` is worth what its rewriting says. */
  lemma {:induction false} NestedValue(v: Valuation, m: Option<Atom>, e: Expr)
    ensures Value(v, Nested(m, e)) == Value(WithModules(v, m), e)
    decreases e, 1
  {
    match e
    case Leaf(_) =>
    case And(l, r) => NestedValue(v, m, r); AndOntoValue(v, m, l, Nested(m, r));
    case Or(l, r) => NestedValue(v, m, r); OrOntoValue(v, m, l, Nested(m, r));
    case Not(x) => NestedValue(v, m, x);
    case Compare(_, _, _) =>
  }

  lemma {:induction false} AndOntoValue(v: Valuation, m: Option<Atom>, e: Expr, tail: Expr)
    ensures Value(v, AndOnto(m, e, tail)) == Min(Value(WithModules(v, m), e), Value(v, tail))
    decreases e, 2
  {
    if e.And? {
      AndOntoValue(v, m, e.right, tail);
      AndOntoValue(v, m, e.left, AndOnto(m, e.right, tail));
    } else {
      NestedValue(v, m, e);
    }
  }

  lemma {:induction false} OrOntoValue(v: Valuation, m: Option<Atom>, e: Expr, tail: Expr)
    ensures Value(v, OrOnto(m, e, tail)) == Max(Value(WithModules(v, m), e), Value(v, tail))
    decreases e, 2
  {
    if e.Or? {
      OrOntoValue(v, m, e.right, tail);
      OrOntoValue(v, m, e.left, OrOnto(m, e.right, tail));
    } else {
      NestedValue(v, m, e);
    }
  }

  /** Printing then parsing succeeds, uses up the tokens, and keeps the value under every
      valuation; with the `m` rewrite, `m` counts as `m && MODULES`. */
  lemma {:induction false} RoundTrip(m: Option<Atom>, e: Expr)
    ensures var p := ParseExpr(m, Print(e) + [End]);
      && p.Some? && p.value.1 == [End]
      && forall v :: Value(v, p.value.0) == Value(WithModules(v, m), e)
  {
    ExprRead(m, e, [End]);
    forall v ensures Value(v, Nested(m, e)) == Value(WithModules(v, m), e) { NestedValue(v, m, e); }
  }

  /** The printed form loses nothing: expressions printed alike have the same values. */
  lemma PrintDetermines(a: Expr, b: Expr)
    requires Print(a) == Print(b)
    ensures forall v :: Value(v, a) == Value(v, b)
  {
    ExprRead(None, a, [End]);
    ExprRead(None, b, [End]);
    forall v ensures Value(v, a) == Value(v, b) {
      NestedValue(v, None, a);
      NestedValue(v, None, b);
    }
  }

  /** Printing what was parsed gives the same tokens again. */
  lemma {:induction false} PrintStable(e: Expr)
    ensures Print(Nested(None, e)) == Print(e)
    ensures Conjunct(Nested(None, e)) == Conjunct(e) && Disjunct(Nested(None, e)) == Disjunct(e)
    decreases e, 1
  {
    match e
    case Leaf(_) =>
    case And(l, r) => PrintStable(r); AndOntoPrint(l, Nested(None, r));
    case Or(l, r) => PrintStable(r); OrOntoPrint(l, Nested(None, r));
    case Not(x) => PrintStable(x);
    case Compare(_, _, _) =>
  }

  lemma {:induction false} AndOntoPrint(e: Expr, tail: Expr)
    ensures AndOnto(None, e, tail).And?
    ensures Print(AndOnto(None, e, tail)) == Conjunct(e) + [TAnd] + Conjunct(tail)
    decreases e, 2
  {
    if e.And? {
      AndOntoPrint(e.right, tail);
      AndOntoPrint(e.left, AndOnto(None, e.right, tail));
    } else {
      PrintStable(e);
    }
  }

  lemma {:induction false} OrOntoPrint(e: Expr, tail: Expr)
    ensures OrOnto(None, e, tail).Or?
    ensures Print(OrOnto(None, e, tail)) == Disjunct(e) + [TOr] + Disjunct(tail)
    decreases e, 2
  {
    if e.Or? {
      OrOntoPrint(e.right, tail);
      OrOntoPrint(e.left, OrOnto(None, e.right, tail));
    } else {
      PrintStable(e);
    }
  }

  // ----- The parser as it runs: a token list and a position

  class ExprParser {
    const tokens: seq<Token>
    var at: nat

    predicate Valid()
      reads this
    {
      at < |tokens| && tokens[|tokens| - 1] == End
    }

    constructor (ts: seq<Token>)
      requires ts != [] && ts[|ts| - 1] == End
      ensures Valid() && tokens == ts && at == 0
    {
      tokens, at := ts, 0;
    }

    /** _check_token() */
    method CheckToken(t: Token) returns (found: bool)
      requires Valid() && t != End
      modifies this
      ensures Valid() && found == (old(tokens[at]) == t)
      ensures at == if found then old(at) + 1 else old(at)
    {
      found := tokens[at] == t;
      if found { at := at + 1; }
    }

    /** The outcome is that of the function on the tokens left, and the position moves past
        exactly the tokens it used; the position never leaves the list. */
    predicate Reads(p: Parse, r: Option<Expr>)
      reads this
    {
      && r.Some? == p.Some?
      && (p.Some? ==> Valid() && r.value == p.value.0 && tokens[at..] == p.value.1)
    }

    method Expression(modules: Option<Atom>) returns (r: Option<Expr>)
      requires Valid()
      modifies this
      ensures Reads(ParseExpr(modules, old(tokens[at..])), r)
      ensures r.Some? ==> at > old(at)
      decreases |tokens| - at, 2
    {
      var left := Conjunction(modules);
      if left.None? { return None; }
      var more := CheckToken(TOr);
      if !more { return left; }
      var right := Expression(modules);
      return if right.None? then None else Some(Or(left.value, right.value));
    }

    method Conjunction(modules: Option<Atom>) returns (r: Option<Expr>)
      requires Valid()
      modifies this
      ensures Reads(ParseAnd(modules, old(tokens[at..])), r)
      ensures r.Some? ==> at > old(at)
      decreases |tokens| - at, 1
    {
      var left := Factor(modules);
      if left.None? { return None; }
      var more := CheckToken(TAnd);
      if !more { return left; }
      var right := Conjunction(modules);
      return if right.None? then None else Some(And(left.value, right.value));
    }

    method Factor(modules: Option<Atom>) returns (r: Option<Expr>)
      requires Valid()
      modifies this
      ensures Reads(ParseFactor(modules, old(tokens[at..])), r)
      ensures r.Some? ==> at > old(at)
      decreases |tokens| - at, 0
    {
      var token := tokens[at];
      at := at + 1;
      match token
      case Sym(a) =>
        if !tokens[at].TRel? { return Some(Plain(modules, a)); }
        var rel := tokens[at].rel;
        at := at + 1;
        var operand := tokens[at];
        at := at + 1;
        return if operand.Sym? then Some(Compare(rel, a, operand.atom)) else None;
      case TNot =>
        var x := Factor(modules);
        return if x.None? then None else Some(Not(x.value));
      case TOpen =>
        var x := Expression(modules);
        if x.None? { return None; }
        var closed := CheckToken(TClose);
        return if closed then x else None;
      case _ =>
        return None;
    }
  }
}
