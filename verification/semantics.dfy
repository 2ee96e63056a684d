/** Truth-table semantics of formulas: the standard tables of the seven
    binary connectives, negation and the two constants. */
module Semantics {
  import opened Syntax

  /** An assignment of a truth value to every variable name. */
  type Model = string -> bool

  function EvalBinary(op: BinaryOp, a: bool, b: bool): bool {
    match op
    case And => a && b
    case Or => a || b
    case Implies => a ==> b
    case Xor => a != b
    case Iff => a == b
    case Nand => !(a && b)
    case Nor => !(a || b)
  }

  /** The truth value of `f` under the model `m`. */
  function Eval(f: Formula, m: Model): bool {
    match f
    case Var(x) => m(x)
    case T => true
    case F => false
    case Not(a) => !Eval(a, m)
    case Binary(op, a, b) => EvalBinary(op, Eval(a, m), Eval(b, m))
  }

  /** `f` and `g` have the same truth table. */
  ghost predicate Equivalent(f: Formula, g: Formula) {
    forall m: Model :: Eval(f, m) == Eval(g, m)
  }
}
