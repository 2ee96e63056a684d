/** Propositional formulas as immutable syntax trees, together with the
    syntactic measures the operator conversions are stated in: the set of
    operators and constants a formula uses, its set of variables, and sizes. */
module Syntax {

  /** The seven binary connectives: `&`, `|`, `->`, `+` (xor), `<->` (iff),
      `-&` (nand) and `-|` (nor). */
  datatype BinaryOp = And | Or | Implies | Xor | Iff | Nand | Nor

  /** A formula is a variable leaf, one of the constants `T` and `F`, a
      negation `~first`, or a binary node `(first op second)`. Arity is
      enforced by the constructors, so every value is well formed. */
  datatype Formula =
    | Var(name: string)
    | T
    | F
    | Not(first: Formula)
    | Binary(op: BinaryOp, first: Formula, second: Formula)

  /** The root symbol of a node that is not a variable. */
  datatype Symbol = TrueSym | FalseSym | NotSym | OpSym(op: BinaryOp)

  /** Every constant and operator occurring anywhere in `f`. */
  function Operators(f: Formula): set<Symbol> {
    match f
    case Var(_) => {}
    case T => {TrueSym}
    case F => {FalseSym}
    case Not(a) => {NotSym} + Operators(a)
    case Binary(op, a, b) => {OpSym(op)} + Operators(a) + Operators(b)
  }

  /** Every variable name occurring anywhere in `f`. */
  function Variables(f: Formula): set<string> {
    match f
    case Var(x) => {x}
    case T => {}
    case F => {}
    case Not(a) => Variables(a)
    case Binary(_, a, b) => Variables(a) + Variables(b)
  }

  predicate HasConstant(f: Formula) {
    TrueSym in Operators(f) || FalseSym in Operators(f)
  }

  /** Number of nodes. */
  function Size(f: Formula): nat {
    match f
    case Var(_) => 1
    case T => 1
    case F => 1
    case Not(a) => 1 + Size(a)
    case Binary(_, a, b) => 1 + Size(a) + Size(b)
  }

  /** Number of nodes other than negations and constants: variables and
      binary nodes. */
  function NonNegationCount(f: Formula): nat {
    match f
    case Var(_) => 1
    case T => 0
    case F => 0
    case Not(a) => NonNegationCount(a)
    case Binary(_, a, b) => 1 + NonNegationCount(a) + NonNegationCount(b)
  }

  /** Number of `~` at the root of `f` before any other symbol. */
  function LeadingNegations(f: Formula): nat {
    match f
    case Not(a) => 1 + LeadingNegations(a)
    case _ => 0
  }

  /** The target vocabularies of the five conversions. */
  const NotAndOr: set<Symbol> := {NotSym, OpSym(And), OpSym(Or)}
  const NotAnd: set<Symbol> := {NotSym, OpSym(And)}
  const NandOnly: set<Symbol> := {OpSym(Nand)}
  const ImpliesNot: set<Symbol> := {OpSym(Implies), NotSym}
  const ImpliesFalse: set<Symbol> := {OpSym(Implies), FalseSym}
}
