/** The conversions on small concrete formulas over the variables `p` and
    `q`, showing the exact shape of each rewrite. */
module Scenarios {
  import opened Syntax
  import opened Conversions

  const p: Formula := Var("p")
  const q: Formula := Var("q")

  lemma TrueIsExcludedMiddle()
    ensures ToNotAndOr(T) == Binary(Or, p, Not(p))
  {
  }

  lemma FalseIsContradiction()
    ensures ToNotAndOr(F) == Binary(And, p, Not(p))
  {
  }

  lemma ImpliesBecomesOr()
    ensures ToNotAndOr(Binary(Implies, p, q)) == Binary(Or, Not(p), q)
  {
  }

  lemma XorBecomesDisjunctionOfConjunctions()
    ensures ToNotAndOr(Binary(Xor, p, q))
         == Binary(Or, Binary(And, p, Not(q)), Binary(And, Not(p), q))
  {
  }

  lemma OrBecomesDeMorgan()
    ensures ToNotAnd(Binary(Or, p, q)) == Not(Binary(And, Not(p), Not(q)))
  {
  }

  lemma NegationBecomesSelfNand()
    ensures ToNand(Not(p)) == Binary(Nand, p, p)
  {
  }

  lemma AndBecomesNegatedImplication()
    ensures ToImpliesNot(Binary(And, p, q)) == Not(Binary(Implies, p, Not(q)))
  {
  }

  /** An implication is re-expanded by the re-applied `ToImpliesNot`. */
  lemma ImpliesInImpliesFalse()
    ensures ToImpliesFalse(Binary(Implies, p, q))
         == Binary(Implies, Binary(Implies, Binary(Implies, p, F), F), q)
  {
  }

  /** The implication built for `&` is re-expanded by the re-applied
      `ToImpliesNot` before its negation is replaced by `->F`. */
  lemma AndInImpliesFalse()
    ensures ToImpliesFalse(Binary(And, p, q))
         == Binary(Implies,
                   Binary(Implies,
                          Binary(Implies, Binary(Implies, p, F), F),
                          Binary(Implies, q, F)),
                   F)
  {
  }
}
