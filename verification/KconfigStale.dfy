// Why a choice must be reached by changes of its defaults: with a default outside the choice
// that the choice does not mention, tools/kconfiglib.py leaves a stale selection behind.
module KconfigStale {
  import opened Numbers
  import opened Options
  import opened KconfigExpr
  import opened KconfigValues
  import opened KconfigLocality
  import opened KconfigDeps
  import opened KconfigCache

  // 0: MODULES, not defined. 1: a bool choice with symbol 2 and default 3. 2: its symbol.
  // 3: a symbol outside the choice, prompted if 4. 4: a plain prompted symbol.
  const TheChoice := Choice(Bool, [Some(Y)], [Pick(3, Y)], [2], false)
  const Inner := Symbol("A", Bool, [Some(Leaf(Item(1)))], [], [], N, N, N, Some(1))
  const Outer := Symbol("B", Bool, [Some(Leaf(Item(4)))], [], [], N, N, N, None)
  const Plain := Symbol("C", Bool, [Some(Y)], [], [], N, N, N, None)

  function Cfg(): Config {
    Config([Missing, TheChoice, Inner, Outer, Plain], 0, (s, b) => None, (t, n) => "")
  }

  function Users(v: int): seq<User> { [NoUser, NoUser, NoUser, NoUser, User(Some(UTri(v)), None)] }

  /** A dependency order: 4 before 3, the choice's visibility before its symbol's, the
      selection last. */
  function Order(s: Slot): nat {
    match s.kind
    case Vis => if s.item == 4 then 0 else if s.item == 3 then 3 else if s.item == 1 then 0 else 3
    case Tri => if s.item == 4 then 1 else 6
    case Str => if s.item == 4 then 2 else 7
    case Sel => 5
  }

  lemma OrderLoopFree()
    ensures LoopFree(Cfg(), Order)
  {
    forall s: Slot ensures Grounded(Cfg(), Order, s) {
      match s.item {
        case 1 => ChoiceGrounded(s);
        case 2 => InnerGrounded(s);
        case 3 => OuterGrounded(s);
        case _ => OthersGrounded(s);
      }
    }
  }

  lemma InnerGrounded(s: Slot)
    requires s.item == 2
    ensures Grounded(Cfg(), Order, s)
  {
    var P := Below(Order, Order(s));
    assert Order(Slot(1, Vis)) == 0 && Order(s) >= 3;
    assert Order(Slot(2, Vis)) == 3 && Order(Slot(2, Tri)) == 6 && Order(Slot(1, Sel)) == 5;
    assert P(Slot(1, Vis)) && AtomIn(Cfg(), P, Item(1));
    assert ExprIn(Cfg(), P, N) && NodesIn(Cfg(), P, Inner.nodes);
  }

  lemma OuterGrounded(s: Slot)
    requires s.item == 3
    ensures Grounded(Cfg(), Order, s)
  {
    var P := Below(Order, Order(s));
    assert Order(Slot(4, Tri)) == 1 && Order(Slot(4, Str)) == 2 && Order(s) >= 3;
    assert Order(Slot(3, Vis)) == 3 && Order(Slot(3, Tri)) == 6;
    assert P(Slot(4, Tri)) && P(Slot(4, Str)) && AtomIn(Cfg(), P, Item(4));
    assert ExprIn(Cfg(), P, N) && NodesIn(Cfg(), P, Outer.nodes);
  }

  lemma OthersGrounded(s: Slot)
    requires s.item == 0 || s.item >= 4
    ensures Grounded(Cfg(), Order, s)
  {
    var P := Below(Order, Order(s));
    assert ExprIn(Cfg(), P, Y) && ExprIn(Cfg(), P, N);
    if s.item == 4 {
      assert NodesIn(Cfg(), P, Plain.nodes);
      assert Order(Slot(4, Vis)) == 0 && Order(Slot(4, Tri)) == 1;
    } else {
      assert Cfg().Get(s.item) == Missing;
      assert Order(Slot(s.item, Vis)) == 3 && Order(Slot(s.item, Tri)) == 6;
    }
  }

  lemma ChoiceGrounded(s: Slot)
    requires s.item == 1
    ensures Grounded(Cfg(), Order, s)
  {
    var P := Below(Order, Order(s));
    assert Order(Slot(1, Vis)) == 0 && Order(Slot(2, Vis)) == 3 && Order(Slot(3, Vis)) == 3;
    assert ExprIn(Cfg(), P, Y);
    assert NodesIn(Cfg(), P, TheChoice.nodes) && PicksIn(Cfg(), P, TheChoice.picks);
  }

  // ----- Before and after the user turns symbol 4 off

  /** What is cached after everything has been read with symbol 4 on. */
  function Before(): Cache {
    map[Slot(4, Vis) := Number(2), Slot(4, Tri) := Number(2), Slot(3, Vis) := Number(2), Slot(1, Vis) := Number(2),
        Slot(1, Sel) := Chosen(Some(3))]
  }

  /** The values with symbol 4 off. */
  function Now(): Cache {
    map[Slot(4, Vis) := Number(2), Slot(4, Tri) := Number(0), Slot(3, Vis) := Number(0), Slot(1, Vis) := Number(2),
        Slot(2, Vis) := Number(2), Slot(1, Sel) := Chosen(Some(2))]
  }

  lemma PromptYes(w: World)
    ensures PromptMax(w, [Some(Y)]) == Some(2)
  {
    assert [Some(Y)][..0] == [];
  }

  lemma PromptItem(w: World, j: nat)
    ensures PromptMax(w, [Some(Leaf(Item(j)))]) ==
      match AtomTri(w, Item(j)) case Some(v) => Some(Max(0, v)) case None => None
  {
    assert [Some(Leaf(Item(j)))][..0] == [];
  }

  lemma BeforeRight()
    ensures Consistent(Cfg(), Users(2), Before())
  {
    var w := At(Cfg(), Users(2), Before());
    PromptYes(w);
    PromptItem(w, 4);
    forall s | s in Before() ensures Right(Cfg(), Users(2), Before(), s) {
      assert s == Slot(4, Vis) || s == Slot(4, Tri) || s == Slot(3, Vis) || s == Slot(1, Vis) || s == Slot(1, Sel);
    }
  }

  lemma NowRight()
    ensures Consistent(Cfg(), Users(0), Now())
  {
    var w := At(Cfg(), Users(0), Now());
    PromptYes(w);
    PromptItem(w, 4);
    PromptItem(w, 1);
    forall s | s in Now() ensures Right(Cfg(), Users(0), Now(), s) {
      if s == Slot(1, Sel) {
        NowSelects(w);
      } else {
        assert s == Slot(4, Vis) || s == Slot(4, Tri) || s == Slot(3, Vis) || s == Slot(1, Vis) || s == Slot(2, Vis);
      }
    }
  }

  lemma NowSelects(w: World)
    requires w == At(Cfg(), Users(0), Now())
    ensures SelOf(w, 1) == Some(Some(2))
  {
    assert TheChoice.picks[1..] == [];
    assert FirstPick(w, TheChoice.picks) == Some(None);
    assert FirstVisible(w, [2]) == Some(Some(2));
  }

  /** The dependents that _build_dep() and _add_choice_deps() register. */
  function Dependents(): Deps { map[1 := {2}, 2 := {1}, 4 := {3}] }

  lemma OneNode(e: Expr)
    ensures NodeItems([Some(e)]) == ExprItems(e)
  {
    assert [Some(e)][..0] == [];
  }

  lemma DependentsBuilt()
    ensures Built(Cfg(), Dependents())
  {
    OneNode(Y);
    OneNode(Leaf(Item(1)));
    OneNode(Leaf(Item(4)));
    assert TheChoice.picks[..0] == [] && PickItems(TheChoice.picks) == {};
    assert Mentioned(TheChoice) == {2} && Mentioned(Inner) == {1} && Mentioned(Outer) == {4} && Mentioned(Plain) == {};
    forall x: nat, y: nat ensures Registered(Cfg(), Dependents(), 5, x, y) {
    }
  }

  lemma CfgFormed()
    ensures WellFormed(Cfg()) && !Covered(Cfg(), 1)
    ensures forall i: nat :: i != 1 ==> Covered(Cfg(), i)
  {
    DependentsBuilt();
    forall i: nat ensures Propagated(Cfg(), i) && (i != 1 ==> Covered(Cfg(), i)) {
      assert i >= 5 ==> Cfg().Get(i) == Missing;
    }
    assert TheChoice.picks[0].sym == 3 && !Seen(Cfg(), 1, 3);
  }

  lemma Dependents4(d: Deps, c: Cache)
    requires Built(Cfg(), d)
    ensures Closed(Cfg(), d, c, {3, 4})
  {
    DependentsBuilt();
    forall x: nat, y: nat | x in {3, 4} && y in DependentsOf(d, x) ensures y in {3, 4} {
      assert Registered(Cfg(), d, 5, x, y) && Registered(Cfg(), Dependents(), 5, x, y);
    }
  }

  /** With symbol 4 on, the default 3 is selected; with it off, symbol 2. */
  lemma Selected()
    ensures LoopFree(Cfg(), Order) && WellFormed(Cfg())
    ensures Scratch(Cfg(), Users(2), Order, Slot(1, Sel)) == Some(Chosen(Some(3)))
    ensures Scratch(Cfg(), Users(0), Order, Slot(1, Sel)) == Some(Chosen(Some(2)))
  {
    OrderLoopFree();
    CfgFormed();
    BeforeRight();
    NowRight();
    ConsistentIsScratch(Cfg(), Users(2), Order, Before(), Slot(1, Sel));
    ConsistentIsScratch(Cfg(), Users(0), Order, Now(), Slot(1, Sel));
  }

  lemma Assignments()
    ensures Assigned(Cfg(), seq(5, _ => NoUser), 4, UTri(2)) == Users(2)
    ensures Assigned(Cfg(), Users(2), 4, UTri(0)) == Users(0)
  {
  }

  method TurnOff(k: Kconfig)
    requires k.Valid() && k.cfg == Cfg() && k.user == Users(2) && Slot(1, Sel) in k.cache
    modifies k
    ensures k.Framed() && k.user == Users(0)
    ensures Slot(1, Sel) in k.cache && k.cache[Slot(1, Sel)] == old(k.cache[Slot(1, Sel)])
  {
    Assignments();
    Dependents4(k.deps, k.cache);
    ghost var before := k.cache;
    var _ := k.SetValue(4, UTri(0));
    assert Spared(before, k.cache, {3, 4});
  }

  method FirstRead() returns (k: Kconfig, seen: Option<nat>)
    ensures fresh(k) && k.Valid() && k.cfg == Cfg() && k.rank == Order && k.user == Users(2) && seen == Some(3)
    ensures Slot(1, Sel) in k.cache && k.cache[Slot(1, Sel)] == Chosen(Some(3))
  {
    Selected();
    Assignments();
    k := new Kconfig(Cfg(), Order);
    var _ := k.SetValue(4, UTri(2));
    seen := k.Selection(1);
    ConsistentIsScratch(k.cfg, k.user, k.rank, k.cache, Slot(1, Sel));
  }

  /** Set symbol 4, read the selection, reset symbol 4, read again: the second read does not
      return the selection that the user values call for. */
  method StaleSelection() returns (k: Kconfig, seen: Option<nat>, stale: Option<nat>)
    ensures k.Framed() && k.cfg == Cfg() && k.rank == Order && k.user == Users(0) && seen == Some(3)
    ensures stale == Some(3) && Scratch(k.cfg, k.user, k.rank, Slot(1, Sel)) == Some(Chosen(Some(2)))
  {
    Selected();
    k, seen := FirstRead();
    TurnOff(k);
    stale := k.Selection(1);
  }
}
