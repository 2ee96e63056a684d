/** Syntactic conversions of formulas to equivalent formulas over smaller
    operator sets. Each conversion after the first re-applies its
    prerequisite conversion to every subformula it recurses into, exactly
    as the recursive calls in operators.py do; the fixpoint lemmas below
    are what make that re-application harmless and the recursion
    terminate. */
module Conversions {
  import opened Syntax
  import opened Semantics

  /** The fixed variable used to express the constants `T` and `F`. */
  const Placeholder: string := "p"

  /** The variables a conversion adds to `x`: the placeholder, when `x`
      contains a constant. */
  function Introduced(x: Formula): set<string> {
    if HasConstant(x) then {Placeholder} else {}
  }

  /** Converts `x` to an equivalent formula over `~`, `&` and `|` only:
      `T` becomes `(p|~p)`, `F` becomes `(p&~p)` and the other binary
      connectives are expanded. */
  function ToNotAndOr(x: Formula): (r: Formula)
    ensures Operators(r) <= NotAndOr
  {
    match x
    case Var(_) => x
    case T => Binary(Or, Var(Placeholder), Not(Var(Placeholder)))
    case F => Binary(And, Var(Placeholder), Not(Var(Placeholder)))
    case Not(a) => Not(ToNotAndOr(a))
    case Binary(op, a, b) =>
      var left := ToNotAndOr(a);
      var right := ToNotAndOr(b);
      assert Operators(Not(left)) == {NotSym} + Operators(left);
      assert Operators(Not(right)) == {NotSym} + Operators(right);
      match op
      case And => Binary(And, left, right)
      case Or => Binary(Or, left, right)
      case Implies => Binary(Or, Not(left), right)
      case Xor => Binary(Or, Binary(And, left, Not(right)), Binary(And, Not(left), right))
      case Iff => Binary(Or, Binary(And, left, right), Binary(And, Not(left), Not(right)))
      case Nand => Not(Binary(And, left, right))
      case Nor => Not(Binary(Or, left, right))
  }

  /** `ToNotAndOr` leaves a formula unchanged exactly when it already uses
      no operators beyond `~`, `&` and `|`. */
  lemma {:induction false} NotAndOrFixpoint(g: Formula)
    ensures ToNotAndOr(g) == g <==> Operators(g) <= NotAndOr
  {
    if Operators(g) <= NotAndOr {
      match g
      case Var(_) =>
      case Not(a) =>
        NotAndOrFixpoint(a);
      case Binary(op, a, b) =>
        NotAndOrFixpoint(a);
        NotAndOrFixpoint(b);
    }
  }

  /** Converts `x` to an equivalent formula over `~` and `&` only; `|` is
      removed by De Morgan's law. */
  function ToNotAnd(x: Formula): (r: Formula)
    ensures Operators(r) <= NotAnd
    decreases Size(ToNotAndOr(x))
  {
    var f := ToNotAndOr(x);
    match f
    case Var(_) => f
    case Not(a) =>
      NotAndOrFixpoint(a);
      Not(ToNotAnd(a))
    case Binary(And, a, b) =>
      NotAndOrFixpoint(a);
      NotAndOrFixpoint(b);
      Binary(And, ToNotAnd(a), ToNotAnd(b))
    case Binary(Or, a, b) =>
      NotAndOrFixpoint(a);
      NotAndOrFixpoint(b);
      var left := ToNotAnd(a);
      var right := ToNotAnd(b);
      assert Operators(Not(left)) == {NotSym} + Operators(left);
      assert Operators(Not(right)) == {NotSym} + Operators(right);
      Not(Binary(And, Not(left), Not(right)))
    case _ =>
      // the closing `return f`: no other root survives ToNotAndOr
      assert false; f
  }

  /** `ToNotAnd` leaves a formula unchanged exactly when it already uses no
      operators beyond `~` and `&`. */
  lemma {:induction false} NotAndFixpoint(g: Formula)
    ensures ToNotAnd(g) == g <==> Operators(g) <= NotAnd
  {
    if Operators(g) <= NotAnd {
      NotAndOrFixpoint(g);
      match g
      case Var(_) =>
      case Not(a) =>
        NotAndFixpoint(a);
      case Binary(op, a, b) =>
        NotAndFixpoint(a);
        NotAndFixpoint(b);
    }
  }

  /** Converts `x` to an equivalent formula whose only operator is `-&`:
      `~y` becomes `(y-&y)` and `(y&z)` becomes `((y-&z)-&(y-&z))`. */
  function ToNand(x: Formula): (r: Formula)
    ensures Operators(r) <= NandOnly
    decreases Size(ToNotAnd(x))
  {
    var f := ToNotAnd(x);
    match f
    case Var(_) => f
    case Not(a) =>
      NotAndFixpoint(a);
      var inner := ToNand(a);
      Binary(Nand, inner, inner)
    case Binary(And, a, b) =>
      NotAndFixpoint(a);
      NotAndFixpoint(b);
      var left := ToNand(a);
      var right := ToNand(b);
      var nandAB := Binary(Nand, left, right);
      Binary(Nand, nandAB, nandAB)
    case _ =>
      // the closing `return f`: no other root survives ToNotAnd
      assert false; f
  }

  /** Converts `x` to an equivalent formula over `->` and `~` only:
      `(y&z)` becomes `~(y->~z)` and `(y|z)` becomes `(~y->z)`. */
  function ToImpliesNot(x: Formula): (r: Formula)
    ensures Operators(r) <= ImpliesNot
    decreases Size(ToNotAndOr(x))
  {
    var f := ToNotAndOr(x);
    match f
    case Var(_) => f
    case Not(a) =>
      NotAndOrFixpoint(a);
      Not(ToImpliesNot(a))
    case Binary(And, a, b) =>
      NotAndOrFixpoint(a);
      NotAndOrFixpoint(b);
      var left := ToImpliesNot(a);
      var right := ToImpliesNot(b);
      assert Operators(Not(right)) == {NotSym} + Operators(right);
      Not(Binary(Implies, left, Not(right)))
    case Binary(Or, a, b) =>
      NotAndOrFixpoint(a);
      NotAndOrFixpoint(b);
      var left := ToImpliesNot(a);
      var right := ToImpliesNot(b);
      Binary(Implies, Not(left), right)
    case _ =>
      // the closing `return f`: no other root survives ToNotAndOr
      assert false; f
  }

  /** Applying `ToNotAndOr` first changes nothing for `ToImpliesNot`. */
  lemma ImpliesNotAbsorbsNotAndOr(x: Formula)
    ensures ToImpliesNot(ToNotAndOr(x)) == ToImpliesNot(x)
  {
    NotAndOrFixpoint(ToNotAndOr(x));
  }

  /** `ToImpliesNot` commutes with negation. */
  lemma ImpliesNotOfNot(a: Formula)
    ensures ToImpliesNot(Not(a)) == Not(ToImpliesNot(a))
  {
    NotAndOrFixpoint(ToNotAndOr(a));
    ImpliesNotAbsorbsNotAndOr(a);
  }

  /** `ToImpliesNot` does not keep an implication as it is: `(y->z)` is
      first expanded to `(~y|z)` and then rebuilt as `(~~y'->z')`. */
  lemma ImpliesNotOfImplies(a: Formula, b: Formula)
    ensures ToImpliesNot(Binary(Implies, a, b))
         == Binary(Implies, Not(Not(ToImpliesNot(a))), ToImpliesNot(b))
  {
    var a' := ToNotAndOr(a);
    var b' := ToNotAndOr(b);
    NotAndOrFixpoint(a');
    NotAndOrFixpoint(b');
    ImpliesNotOfNot(a');
    ImpliesNotAbsorbsNotAndOr(a);
    ImpliesNotAbsorbsNotAndOr(b);
  }

  /** On formulas over `->` and `~`, `ToImpliesNot` keeps the number of
      variables and implications and the number of leading negations. */
  lemma {:induction false} ImpliesNotMeasure(g: Formula)
    requires Operators(g) <= ImpliesNot
    ensures NonNegationCount(ToImpliesNot(g)) == NonNegationCount(g)
    ensures LeadingNegations(ToImpliesNot(g)) == LeadingNegations(g)
  {
    match g
    case Var(_) =>
    case Not(a) =>
      ImpliesNotOfNot(a);
      ImpliesNotMeasure(a);
    case Binary(op, a, b) =>
      assert op == Implies;
      ImpliesNotOfImplies(a, b);
      ImpliesNotMeasure(a);
      ImpliesNotMeasure(b);
      var left, right := ToImpliesNot(a), ToImpliesNot(b);
      assert ToImpliesNot(g) == Binary(Implies, Not(Not(left)), right);
      assert NonNegationCount(Not(Not(left))) == NonNegationCount(left);
  }

  /** Converts `x` to an equivalent formula over `->` and the constant `F`
      only: `~y` becomes `(y->F)`. */
  function ToImpliesFalse(x: Formula): (r: Formula)
    ensures Operators(r) <= ImpliesFalse
    decreases NonNegationCount(ToImpliesNot(x)), LeadingNegations(ToImpliesNot(x))
  {
    var f := ToImpliesNot(x);
    match f
    case Var(_) => f
    case F =>
      // `to_implies_false` returns it unchanged; ToImpliesNot never produces F
      assert false; f
    case Binary(Implies, a, b) =>
      ImpliesNotMeasure(a);
      ImpliesNotMeasure(b);
      var left := ToImpliesFalse(a);
      var right := ToImpliesFalse(b);
      Binary(Implies, left, right)
    case Not(a) =>
      ImpliesNotMeasure(a);
      var inner := ToImpliesFalse(a);
      Binary(Implies, inner, F)
    case _ =>
      // the closing `return f`: no other root survives ToImpliesNot
      assert false; f
  }
}
