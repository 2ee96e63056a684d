# Operator conversions for propositional formulas

This project models `propositions/operators.py`. That file holds five syntactic
conversions on propositional formula trees. Each one returns a formula with the
same truth table that uses a smaller set of operators:

| conversion | output vocabulary | built on |
|---|---|---|
| `ToNotAndOr` (`to_not_and_or`) | `~`, `&`, `|` | nothing |
| `ToNotAnd` (`to_not_and`) | `~`, `&` | `ToNotAndOr` |
| `ToNand` (`to_nand`) | `-&` | `ToNotAnd` |
| `ToImpliesNot` (`to_implies_not`) | `->`, `~` | `ToNotAndOr` |
| `ToImpliesFalse` (`to_implies_false`) | `->`, `F` | `ToImpliesNot` |

Files:

- `syntax.dfy` (module `Syntax`): the `Formula` datatype. A node is a variable,
  `T`, `F`, a negation, or a binary node over the seven connectives `&`, `|`,
  `->`, `+`, `<->`, `-&` and `-|`. The module also defines the set of
  operators a formula uses (`Operators`), its variables (`Variables`), the
  size measures, and the five target vocabularies.
- `semantics.dfy` (module `Semantics`): `Eval`, which gives the standard truth
  tables under a model that maps every variable name to a truth value.
- `operators.dfy` (module `Conversions`): the five conversions and the
  structural lemmas their termination rests on.
- `properties.dfy` (module `OperatorProperties`): truth-table equivalence,
  variable preservation and composition lemmas.
- `scenarios.dfy` (module `Scenarios`): the exact output on small formulas.

Each conversion recurses the way the source does. After the first stage, a
recursive call goes back through the whole function, so the prerequisite stage
runs again on every subformula. The model keeps this. Termination rests on two
facts:

- `ToNotAndOr` returns a formula over `~`, `&` and `|` unchanged, and `ToNotAnd`
  does the same for a formula over `~` and `&`. So `ToNotAnd`, `ToNand` and
  `ToImpliesNot` decrease the size of their prerequisite's output.
- `ToImpliesNot` is *not* the identity on its own output. It rewrites `a->b` as
  `~~a'->b'`. `ToImpliesFalse` therefore decreases a lexicographic pair over
  `ToImpliesNot(x)`. The first component counts variables and binary nodes, and
  the second counts leading negations. `ToImpliesNot` keeps both on formulas
  over `->` and `~`.

The source's closing `return f` branches (lines 81, 107, 135 and 162) and its
`F` branch (lines 153-154) cannot be reached. Each one is an `assert false` in
the model, and the verifier discharges it from the prerequisite stage's
vocabulary postcondition.

Because every call goes back through `ToImpliesNot`, `ToImpliesFalse` does not
keep an implication as it is: `p->q` becomes `(((p->F)->F)->q)`.

## Model

| member | source | states |
|---|---|---|
| Conversions.ToNotAndOr | propositions/operators.py:13-55 | The result uses no constants and no operator other than `~`, `&` and `|`. |
| Conversions.NotAndOrFixpoint | propositions/operators.py:26-41 | `to_not_and_or` returns a formula unchanged if and only if that formula already uses only `~`, `&` and `|`. |
| OperatorProperties.NotAndOrEquivalent | propositions/operators.py:26-55 | Under every model, the result has the input's truth value. This includes constants rewritten with the fixed placeholder `p`, whatever `p` is assigned. |
| OperatorProperties.NotAndOrVariables | propositions/operators.py:28-33 | The result's variables are the input's, plus `p` exactly when the input contains `T` or `F`. |
| Conversions.ToNotAnd | propositions/operators.py:57-81 | The result uses only `~` and `&`. The fallthrough at line 81 cannot be reached. |
| Conversions.NotAndFixpoint | propositions/operators.py:69-80 | `to_not_and` returns a formula unchanged if and only if that formula already uses only `~` and `&`. |
| OperatorProperties.NotAndEquivalent | propositions/operators.py:69-80 | Under every model, the result of `to_not_and` has the input's truth value. |
| OperatorProperties.NotAndVariables | propositions/operators.py:69-80 | `to_not_and` adds no variable except `p` for a constant. |
| OperatorProperties.NotAndAbsorbsNotAndOr | propositions/operators.py:69-76 | Running `to_not_and_or` before `to_not_and` gives the same formula as running `to_not_and` alone. |
| Conversions.ToNand | propositions/operators.py:83-107 | The result uses `-&` and nothing else. The fallthrough at line 107 cannot be reached. |
| OperatorProperties.NandEquivalent | propositions/operators.py:95-106 | Under every model, the result of `to_nand` has the input's truth value. |
| OperatorProperties.NandVariables | propositions/operators.py:95-106 | `to_nand` adds no variable except `p` for a constant. |
| OperatorProperties.NandAbsorbsNotAnd | propositions/operators.py:95-104 | Running `to_not_and` before `to_nand` gives exactly the formula `to_nand` gives alone. |
| Conversions.ToImpliesNot | propositions/operators.py:109-135 | The result uses only `->` and `~`, and never contains `F`. The fallthrough at line 135 cannot be reached. |
| OperatorProperties.ImpliesNotEquivalent | propositions/operators.py:121-134 | Under every model, the result of `to_implies_not` has the input's truth value. |
| OperatorProperties.ImpliesNotVariables | propositions/operators.py:121-134 | `to_implies_not` adds no variable except `p` for a constant. |
| Conversions.ImpliesNotAbsorbsNotAndOr | propositions/operators.py:121-134 | Running `to_not_and_or` before `to_implies_not` gives the same formula as running `to_implies_not` alone. |
| Conversions.ImpliesNotOfNot | propositions/operators.py:121-126 | `to_implies_not` commutes with negation. |
| Conversions.ImpliesNotOfImplies | propositions/operators.py:121-134 | An implication `a->b` comes back as `~~a'->b'`: line 43 expands it to `~a'|b'`, and lines 131-134 rebuild it. |
| Conversions.ImpliesNotMeasure | propositions/operators.py:149-161 | On formulas over `->` and `~`, `to_implies_not` keeps both the count of variables and implications and the number of leading negations. The recursion of `to_implies_false` decreases this pair. |
| OperatorProperties.ImpliesNotNotIdempotent | propositions/operators.py:121-134 | `to_implies_not` applied to its own output for `p->q` does not return that output. |
| Conversions.ToImpliesFalse | propositions/operators.py:137-162 | The result uses only `->` and `F`, so it has no `~`. The `F` branch and the fallthrough at line 162 cannot be reached. |
| OperatorProperties.ImpliesFalseEquivalent | propositions/operators.py:149-161 | Under every model, the result of `to_implies_false` has the input's truth value. |
| OperatorProperties.ImpliesFalseVariables | propositions/operators.py:149-161 | `to_implies_false` adds no variable except `p` for a constant. |
| OperatorProperties.ImpliesFalseAfterImpliesNot | propositions/operators.py:149-161 | Running `to_implies_not` before `to_implies_false` gives a formula with the same truth value under every model. |
| Scenarios.TrueIsExcludedMiddle | propositions/operators.py:28-31 | `T` becomes `(p\|~p)`. |
| Scenarios.FalseIsContradiction | propositions/operators.py:28-33 | `F` becomes `(p&~p)`. |
| Scenarios.ImpliesBecomesOr | propositions/operators.py:42-43 | `(p->q)` becomes `(~p\|q)`. |
| Scenarios.XorBecomesDisjunctionOfConjunctions | propositions/operators.py:44-47 | `(p+q)` becomes `((p&~q)\|(~p&q))`. |
| Scenarios.OrBecomesDeMorgan | propositions/operators.py:77-80 | `to_not_and` turns `(p\|q)` into `~(~p&~q)`. |
| Scenarios.NegationBecomesSelfNand | propositions/operators.py:99-101 | `to_nand` turns `~p` into `(p-&p)`. |
| Scenarios.AndBecomesNegatedImplication | propositions/operators.py:127-130 | `to_implies_not` turns `(p&q)` into `~(p->~q)`. |
| OperatorProperties.ImpliesFalseAfterImpliesNotDiffers | propositions/operators.py:149-161 | The two formulas are not equal in general: for `p->q` the chained call differs syntactically from the direct one. |
| OperatorProperties.ConversionsKeepTruthTables | propositions/operators.py:13-162 | Each of the five conversions returns a formula with the same truth table as its input. |
| Scenarios.ImpliesInImpliesFalse | propositions/operators.py:149-161 | `to_implies_false` turns `(p->q)` into `(((p->F)->F)->q)`. |
| Scenarios.AndInImpliesFalse | propositions/operators.py:149-161 | `to_implies_false` turns `(p&q)` into `((((p->F)->F)->(q->F))->F)`. |

## Left out

- Parsing, string rendering and arity validation of formulas belong to `propositions/syntax.py`, which is not part of this model. `Formula` is a datatype whose constructors fix each node's arity, so a malformed formula cannot be built.
- Evaluation and the truth-table utilities belong to `propositions/semantics.py`, which is not part of this model. `Eval` is defined here with the standard tables. A model is a total map from variable names to truth values.
- Variable names are arbitrary strings here. The source's check that a root names a variable is not modelled.
- For an unrecognised root, `to_not_and_or` falls off the end and returns `None`. That case does not exist over the closed operator datatype.
- Python's recursion-depth limit is not modelled, and neither is object identity. Shared subtrees (the one `p` node, `inner`, `nand_ab`) are plain values here.
