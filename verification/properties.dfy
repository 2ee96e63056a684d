/** What the conversions promise beyond their output vocabulary: every
    conversion keeps the truth table of its input under every model, adds
    no variable except the placeholder for constants, and composes with
    the conversion it builds on. */
module OperatorProperties {
  import opened Syntax
  import opened Semantics
  import opened Conversions

  /** Each conversion has the truth table of its input: under every model
      the two formulas evaluate alike. */
  lemma {:induction false} NotAndOrEquivalent(x: Formula, m: Model)
    ensures Eval(ToNotAndOr(x), m) == Eval(x, m)
  {
    match x
    case Var(_) =>
    case T =>
    case F =>
    case Not(a) =>
      NotAndOrEquivalent(a, m);
    case Binary(_, a, b) =>
      NotAndOrEquivalent(a, m);
      NotAndOrEquivalent(b, m);
      var left, right := ToNotAndOr(a), ToNotAndOr(b);
      assert Eval(Not(left), m) == !Eval(left, m);
      assert Eval(Not(right), m) == !Eval(right, m);
  }

  lemma {:induction false} NotAndEquivalent(x: Formula, m: Model)
    ensures Eval(ToNotAnd(x), m) == Eval(x, m)
    decreases Size(ToNotAndOr(x))
  {
    NotAndOrEquivalent(x, m);
    match ToNotAndOr(x)
    case Var(_) =>
    case Not(a) =>
      NotAndOrFixpoint(a);
      NotAndEquivalent(a, m);
      assert ToNotAnd(x) == Not(ToNotAnd(a));
    case Binary(op, a, b) =>
      NotAndOrFixpoint(a);
      NotAndOrFixpoint(b);
      NotAndEquivalent(a, m);
      NotAndEquivalent(b, m);
      var left, right := ToNotAnd(a), ToNotAnd(b);
      if op == And {
        assert ToNotAnd(x) == Binary(And, left, right);
      } else {
        assert ToNotAnd(x) == Not(Binary(And, Not(left), Not(right)));
        assert Eval(Not(left), m) == !Eval(left, m);
        assert Eval(Not(right), m) == !Eval(right, m);
      }
  }

  lemma {:induction false} NandEquivalent(x: Formula, m: Model)
    ensures Eval(ToNand(x), m) == Eval(x, m)
    decreases Size(ToNotAnd(x))
  {
    NotAndEquivalent(x, m);
    match ToNotAnd(x)
    case Var(_) =>
    case Not(a) =>
      NotAndFixpoint(a);
      NandEquivalent(a, m);
    case Binary(_, a, b) =>
      NotAndFixpoint(a);
      NotAndFixpoint(b);
      NandEquivalent(a, m);
      NandEquivalent(b, m);
  }

  lemma {:induction false} ImpliesNotEquivalent(x: Formula, m: Model)
    ensures Eval(ToImpliesNot(x), m) == Eval(x, m)
    decreases Size(ToNotAndOr(x))
  {
    NotAndOrEquivalent(x, m);
    match ToNotAndOr(x)
    case Var(_) =>
    case Not(a) =>
      NotAndOrFixpoint(a);
      ImpliesNotEquivalent(a, m);
    case Binary(_, a, b) =>
      NotAndOrFixpoint(a);
      NotAndOrFixpoint(b);
      ImpliesNotEquivalent(a, m);
      ImpliesNotEquivalent(b, m);
      var right := ToImpliesNot(b);
      assert Eval(Not(right), m) == !Eval(right, m);
  }

  lemma {:induction false} ImpliesFalseEquivalent(x: Formula, m: Model)
    ensures Eval(ToImpliesFalse(x), m) == Eval(x, m)
    decreases NonNegationCount(ToImpliesNot(x)), LeadingNegations(ToImpliesNot(x))
  {
    ImpliesNotEquivalent(x, m);
    match ToImpliesNot(x)
    case Var(_) =>
    case Not(a) =>
      ImpliesNotMeasure(a);
      ImpliesFalseEquivalent(a, m);
    case Binary(_, a, b) =>
      ImpliesNotMeasure(a);
      ImpliesNotMeasure(b);
      ImpliesFalseEquivalent(a, m);
      ImpliesFalseEquivalent(b, m);
  }

  /** The placeholder `p` is the only variable `ToNotAndOr` may add, and it
      is added exactly when the input contains a constant. */
  lemma {:induction false} NotAndOrVariables(x: Formula)
    ensures Variables(ToNotAndOr(x)) == Variables(x) + Introduced(x)
  {
    match x
    case Var(_) =>
    case T =>
    case F =>
    case Not(a) =>
      NotAndOrVariables(a);
    case Binary(op, a, b) =>
      NotAndOrVariables(a);
      NotAndOrVariables(b);
      IntroducedBinary(op, a, b);
      var left, right := ToNotAndOr(a), ToNotAndOr(b);
      var both := Variables(left) + Variables(right);
      assert both == Variables(x) + Introduced(x);
      var r := ToNotAndOr(x);
      match op
      case And =>
        assert r == Binary(And, left, right);
      case Or =>
        assert r == Binary(Or, left, right);
      case Implies =>
        assert r == Binary(Or, Not(left), right);
      case Xor =>
        assert r == Binary(Or, Binary(And, left, Not(right)), Binary(And, Not(left), right));
        assert Variables(Binary(And, left, Not(right))) == both;
        assert Variables(Binary(And, Not(left), right)) == both;
      case Iff =>
        assert r == Binary(Or, Binary(And, left, right), Binary(And, Not(left), Not(right)));
        assert Variables(Binary(And, Not(left), Not(right))) == both;
      case Nand =>
        assert r == Not(Binary(And, left, right));
      case Nor =>
        assert r == Not(Binary(Or, left, right));
  }

  lemma IntroducedBinary(op: BinaryOp, a: Formula, b: Formula)
    ensures Introduced(Binary(op, a, b)) == Introduced(a) + Introduced(b)
  {
  }

  /** The later conversions add the placeholder under the same condition
      and no other variable. */
  lemma {:induction false} NotAndVariables(x: Formula)
    ensures Variables(ToNotAnd(x)) == Variables(x) + Introduced(x)
    decreases Size(ToNotAndOr(x))
  {
    NotAndOrVariables(x);
    var f := ToNotAndOr(x);
    match f
    case Var(_) =>
    case Not(a) =>
      NotAndOrFixpoint(a);
      NotAndVariables(a);
      assert Introduced(a) == {};
      assert ToNotAnd(x) == Not(ToNotAnd(a));
    case Binary(op, a, b) =>
      NotAndOrFixpoint(a);
      NotAndOrFixpoint(b);
      NotAndVariables(a);
      NotAndVariables(b);
      assert Introduced(a) == {} && Introduced(b) == {};
      assert Variables(f) == Variables(a) + Variables(b);
      var left, right := ToNotAnd(a), ToNotAnd(b);
      if op == And {
        assert ToNotAnd(x) == Binary(And, left, right);
      } else {
        assert ToNotAnd(x) == Not(Binary(And, Not(left), Not(right)));
        assert Variables(Not(left)) == Variables(left);
        assert Variables(Not(right)) == Variables(right);
      }
  }

  lemma {:induction false} NandVariables(x: Formula)
    ensures Variables(ToNand(x)) == Variables(x) + Introduced(x)
    decreases Size(ToNotAnd(x))
  {
    NotAndVariables(x);
    var f := ToNotAnd(x);
    match f
    case Var(_) =>
    case Not(a) =>
      NotAndFixpoint(a);
      NandVariables(a);
      assert Introduced(a) == {};
      assert ToNand(x) == Binary(Nand, ToNand(a), ToNand(a));
    case Binary(op, a, b) =>
      NotAndFixpoint(a);
      NotAndFixpoint(b);
      NandVariables(a);
      NandVariables(b);
      assert Introduced(a) == {} && Introduced(b) == {};
      assert Variables(f) == Variables(a) + Variables(b);
      var nandAB := Binary(Nand, ToNand(a), ToNand(b));
      assert ToNand(x) == Binary(Nand, nandAB, nandAB);
      assert Variables(nandAB) == Variables(a) + Variables(b);
  }

  lemma {:induction false} ImpliesNotVariables(x: Formula)
    ensures Variables(ToImpliesNot(x)) == Variables(x) + Introduced(x)
    decreases Size(ToNotAndOr(x))
  {
    NotAndOrVariables(x);
    var f := ToNotAndOr(x);
    match f
    case Var(_) =>
    case Not(a) =>
      NotAndOrFixpoint(a);
      ImpliesNotVariables(a);
      assert Introduced(a) == {};
      assert ToImpliesNot(x) == Not(ToImpliesNot(a));
    case Binary(op, a, b) =>
      NotAndOrFixpoint(a);
      NotAndOrFixpoint(b);
      ImpliesNotVariables(a);
      ImpliesNotVariables(b);
      assert Introduced(a) == {} && Introduced(b) == {};
      assert Variables(f) == Variables(a) + Variables(b);
      var left, right := ToImpliesNot(a), ToImpliesNot(b);
      assert Variables(Not(left)) == Variables(left);
      assert Variables(Not(right)) == Variables(right);
      assert Variables(ToImpliesNot(x)) == Variables(left) + Variables(right);
  }

  /** Helpers: on formulas already over `->` and `~`, `ToImpliesNot` and
      `ToImpliesFalse` neither add nor drop a variable. */
  lemma ImpliesNotKeepsVariables(g: Formula)
    requires Operators(g) <= ImpliesNot
    ensures Variables(ToImpliesNot(g)) == Variables(g)
  {
    ImpliesNotVariables(g);
    assert !HasConstant(g);
  }

  lemma {:induction false} ImpliesFalseKeepsVariables(x: Formula)
    ensures Variables(ToImpliesFalse(x)) == Variables(ToImpliesNot(x))
    decreases NonNegationCount(ToImpliesNot(x)), LeadingNegations(ToImpliesNot(x))
  {
    var f := ToImpliesNot(x);
    match f
    case Var(_) =>
    case Not(a) =>
      ImpliesNotMeasure(a);
      ImpliesFalseKeepsVariables(a);
      ImpliesNotKeepsVariables(a);
      assert ToImpliesFalse(x) == Binary(Implies, ToImpliesFalse(a), F);
    case Binary(_, a, b) =>
      ImpliesNotMeasure(a);
      ImpliesNotMeasure(b);
      ImpliesFalseKeepsVariables(a);
      ImpliesFalseKeepsVariables(b);
      ImpliesNotKeepsVariables(a);
      ImpliesNotKeepsVariables(b);
      assert ToImpliesFalse(x) == Binary(Implies, ToImpliesFalse(a), ToImpliesFalse(b));
  }

  lemma ImpliesFalseVariables(x: Formula)
    ensures Variables(ToImpliesFalse(x)) == Variables(x) + Introduced(x)
  {
    ImpliesFalseKeepsVariables(x);
    ImpliesNotVariables(x);
  }

  /** Normalising with `ToNotAndOr` before `ToNotAnd` changes nothing. */
  lemma NotAndAbsorbsNotAndOr(x: Formula)
    ensures ToNotAnd(ToNotAndOr(x)) == ToNotAnd(x)
  {
    NotAndOrFixpoint(ToNotAndOr(x));
  }

  /** Chaining `ToNotAnd` into `ToNand` gives the very formula `ToNand`
      gives on its own. */
  lemma NandAbsorbsNotAnd(x: Formula)
    ensures ToNand(ToNotAnd(x)) == ToNand(x)
  {
    NotAndFixpoint(ToNotAnd(x));
  }

  /** `ToImpliesNot` is not idempotent: run on its own output it expands
      every implication once more. */
  lemma ImpliesNotNotIdempotent()
    ensures var x := Binary(Implies, Var("p"), Var("q"));
            ToImpliesNot(ToImpliesNot(x)) != ToImpliesNot(x)
  {
  }

  /** Chaining `ToImpliesNot` into `ToImpliesFalse` yields a formula with
      the truth table of what `ToImpliesFalse` gives on its own. */
  lemma ImpliesFalseAfterImpliesNot(x: Formula, m: Model)
    ensures Eval(ToImpliesFalse(ToImpliesNot(x)), m) == Eval(ToImpliesFalse(x), m)
  {
    ImpliesFalseEquivalent(ToImpliesNot(x), m);
    ImpliesFalseEquivalent(x, m);
    ImpliesNotEquivalent(x, m);
  }

  /** The two formulas are not equal in general: for `p->q` the chained
      call expands the implication once more. */
  lemma ImpliesFalseAfterImpliesNotDiffers()
    ensures var x := Binary(Implies, Var("p"), Var("q"));
            ToImpliesFalse(ToImpliesNot(x)) != ToImpliesFalse(x)
  {
  }

  /** The conversions as the source's docstrings state them: each result has
      the same truth table as its input. */
  lemma ConversionsKeepTruthTables(x: Formula)
    ensures Equivalent(ToNotAndOr(x), x)
    ensures Equivalent(ToNotAnd(x), x)
    ensures Equivalent(ToNand(x), x)
    ensures Equivalent(ToImpliesNot(x), x)
    ensures Equivalent(ToImpliesFalse(x), x)
  {
    forall m: Model
      ensures Eval(ToNotAndOr(x), m) == Eval(x, m)
      ensures Eval(ToNotAnd(x), m) == Eval(x, m)
      ensures Eval(ToNand(x), m) == Eval(x, m)
      ensures Eval(ToImpliesNot(x), m) == Eval(x, m)
      ensures Eval(ToImpliesFalse(x), m) == Eval(x, m)
    {
      NotAndOrEquivalent(x, m);
      NotAndEquivalent(x, m);
      NandEquivalent(x, m);
      ImpliesNotEquivalent(x, m);
      ImpliesFalseEquivalent(x, m);
    }
  }
}
