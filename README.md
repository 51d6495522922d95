# Karnaugh-reduction lint rules and the in-memory model store

A Dafny model of the three pieces of the Boolean-algebra teaching application
that have checkable behaviour:

- the `validate-karnaugh-reduction` lint rule: `isAstEqual`, a recursive,
  order-sensitive, syntactic comparison of ESTree expression trees, and the
  `VariableDeclarator` visitor that compares the returned expression of each
  of the four predicates `predicateOne` … `predicateFour` with its
  Karnaugh-reduced form and reports `invalidPredicate` when they differ;
- the `non-condensed-predicates` lint rule: the `IfStatement` visitor that
  accepts exactly one condition shape,
  `predicateTwo() && predicateOne() || predicateTwo() && predicateThree()`,
  and reports `requiredPattern` on every other condition;
- the in-memory model store created by `createInMemoryModelStore`: a table
  `type -> (identifier -> element)` changed in place by `put` and `clear`
  and read by `get`.

Files and modules:

- `wrappers.dfy` (`Wrappers`): `Option` for JavaScript's absent values and
  for "no diagnostic"; `Either` as in prelude-ts.
- `estree.dfy` (`Estree`): the expression nodes (Identifier, Literal,
  UnaryExpression, LogicalExpression, BinaryExpression, ConditionalExpression,
  ParenthesizedExpression, CallExpression, and `Other` for every other node
  type), their `type` tag, and `Handled`: a tree with no `Other` node.
- `ast_equality.dfy` (`AstEquality`): `AstEqual` is `isAstEqual` and
  `ArgsEqual` is its argument loop, written as a recursive predicate.
  The file also holds the lemmas about them.
- `boolean_semantics.dfy` (`BooleanSemantics`): `Eval`, the truth value of an
  expression tree. The rules never evaluate anything. `Eval` is the reference
  used to show that the structural check is not logical equivalence, and that
  the required `if` condition is the distributed form of the current one.
- `karnaugh_rule.dfy` (`KarnaughRule`): the expected-tree table, the
  declarator shapes the visitor distinguishes, and `VisitDeclarator`, which
  returns the diagnostic as a value.
- `noncondensed_rule.dfy` (`NonCondensedRule`): `IsCallTo`, `VisitIf` and the
  accepted shape written as a pattern.
- `model_store.dfy` (`ModelStore`): the class `InMemoryModelStore`, whose
  field `mapInstance` is the store's map. Each inner `Map` is kept as an
  insertion-ordered list of entries, and `MapSet` and `Lookup` model
  `Map.set` and `Map.get` on it.

The expected table holds texts that `espree` parses. Here they are written
out as the trees it builds. `&&` and `||` group to the left, and no
parenthesis nodes are produced. So `(a && c) || (!a && c && !d)` is
`||(&&(a, c), &&(&&(!a, c), !d))`.

Two details of the code that the model keeps:

- A parenthesis node is not unwrapped. The type check runs first, so a
  `ParenthesizedExpression` equals only another one with an equal inner
  expression (`ParenthesesNotUnwrapped`). With espree's default options no
  such node is produced, so `(a && b)` and `a && b` parse to the same tree.
- The returned expression of a block body is the `argument` of its first
  statement, whatever kind that statement is. A `throw e` counts as well as
  `return e`; any other first statement gives no expression, and that is
  reported.

## Model

| member | source | states |
|---|---|---|
| AstEquality.AstEqual | modules/TechnicalFoundations/MathematicalApproachesToSoftware/BooleanAlgebra/test-application/eslint-rules/validate-karnaugh-reduction.ts:32-95 | `isAstEqual` on two present nodes: nodes of different types are never equal, and equal calls have the same number of arguments. KindRules, AstEqualReflexive, AstEqualIsStructural, AstEqualSymmetric, OperandOrderMatters, ParenthesesNotUnwrapped, FallbackIsAsymmetric and MetadataIgnored state the rest. |
| AstEquality.ArgsEqual | modules/TechnicalFoundations/MathematicalApproachesToSoftware/BooleanAlgebra/test-application/eslint-rules/validate-karnaugh-reduction.ts:68-70 | The argument scan of a call holds only if every pair of arguments at the same position is equal. ArgsEqualPointwise proves the converse. |
| AstEquality.KindRules | modules/TechnicalFoundations/MathematicalApproachesToSoftware/BooleanAlgebra/test-application/eslint-rules/validate-karnaugh-reduction.ts:61-63 | A parenthesized node equals only a parenthesized node with an equal inner expression. |
| AstEquality.AstEqualReflexive | modules/TechnicalFoundations/MathematicalApproachesToSoftware/BooleanAlgebra/test-application/eslint-rules/validate-karnaugh-reduction.ts:32-71 | Every node equals itself, including nodes compared by the fallback. |
| AstEquality.ArgsEqualPointwise | modules/TechnicalFoundations/MathematicalApproachesToSoftware/BooleanAlgebra/test-application/eslint-rules/validate-karnaugh-reduction.ts:65-71 | The argument scan succeeds exactly when every pair of arguments at the same position is equal. |
| AstEquality.AstEqualIsStructural | modules/TechnicalFoundations/MathematicalApproachesToSoftware/BooleanAlgebra/test-application/eslint-rules/validate-karnaugh-reduction.ts:36-71 | If either tree has no fallback node, the two are equal exactly when they are identical. That means the same node type, the same name or value, the same operator and prefix flag, and equal subtrees in the same positions. This covers the Identifier, Literal, Unary, Logical/Binary, Conditional, Parenthesized and Call rules. |
| AstEquality.AstEqualSymmetric | modules/TechnicalFoundations/MathematicalApproachesToSoftware/BooleanAlgebra/test-application/eslint-rules/validate-karnaugh-reduction.ts:37-71 | If either tree has no fallback node, comparing in either order gives the same answer. |
| AstEquality.OperandOrderMatters | modules/TechnicalFoundations/MathematicalApproachesToSoftware/BooleanAlgebra/test-application/eslint-rules/validate-karnaugh-reduction.ts:48-52 | When at least one of two different operands contains no fallback node, swapping them under a logical or binary operator gives "not equal". |
| AstEquality.ParenthesesNotUnwrapped | modules/TechnicalFoundations/MathematicalApproachesToSoftware/BooleanAlgebra/test-application/eslint-rules/validate-karnaugh-reduction.ts:61-63 | A parenthesized expression never equals the bare expression inside it, in either order. |
| AstEquality.FallbackIsAsymmetric | modules/TechnicalFoundations/MathematicalApproachesToSoftware/BooleanAlgebra/test-application/eslint-rules/validate-karnaugh-reduction.ts:73-93 | The fallback compares only the first node's properties, so two nodes can be equal one way and unequal the other. |
| AstEquality.MetadataIgnored | modules/TechnicalFoundations/MathematicalApproachesToSoftware/BooleanAlgebra/test-application/eslint-rules/validate-karnaugh-reduction.ts:75-83 | Changing a `loc`, `range`, `start`, `end`, `parent` or `extra` property never changes the fallback's verdict, on either side. |
| BooleanSemantics.NotLogicalEquivalence | modules/TechnicalFoundations/MathematicalApproachesToSoftware/BooleanAlgebra/test-application/eslint-rules/validate-karnaugh-reduction.ts:48-52 | `x && y` and `y && x` always have the same truth value, yet the checker calls them unequal. |
| KarnaughRule.ReturnMatchesShorthand | modules/TechnicalFoundations/MathematicalApproachesToSoftware/BooleanAlgebra/test-application/eslint-rules/validate-karnaugh-reduction.ts:106-107 | `=> e`, `=> { return e; ... }` and `=> { throw e; ... }` get the same verdict, whatever statements follow the first one: the inspected expression is the shorthand body or the `argument` of the first statement. |
| KarnaughRule.VisitDeclarator | modules/TechnicalFoundations/MathematicalApproachesToSoftware/BooleanAlgebra/test-application/eslint-rules/validate-karnaugh-reduction.ts:98-118 | A diagnostic is produced only for an inspected declarator. It is the single `invalidPredicate` report on that declarator, carrying `id.name`. No diagnostic means that the expression exists and is `isAstEqual` to the expected tree. |
| KarnaughRule.ExpectedTreesHandled | modules/TechnicalFoundations/MathematicalApproachesToSoftware/BooleanAlgebra/test-application/eslint-rules/validate-karnaugh-reduction.ts:17-22 | `ExpectedMap` holds the trees the four expected texts parse to, and none of them contains a fallback node, so the checker compares against them structurally. |
| KarnaughRule.VisitDeclaratorExact | modules/TechnicalFoundations/MathematicalApproachesToSoftware/BooleanAlgebra/test-application/eslint-rules/validate-karnaugh-reduction.ts:106-117 | An inspected declarator gets no diagnostic exactly when its returned expression exists and is, node for node, the expected tree for its name. |
| KarnaughRule.UninspectedNeverReported | modules/TechnicalFoundations/MathematicalApproachesToSoftware/BooleanAlgebra/test-application/eslint-rules/validate-karnaugh-reduction.ts:101-105 | A declarator gets no diagnostic, whatever its body, in three cases: its id is not a plain identifier, its name is not one of the four keys, or its initializer is not an arrow function. |
| KarnaughRule.OnlyFirstStatementCounts | modules/TechnicalFoundations/MathematicalApproachesToSoftware/BooleanAlgebra/test-application/eslint-rules/validate-karnaugh-reduction.ts:107 | Statements after the first statement of a block never change the verdict. |
| KarnaughRule.ScannerExamples | modules/TechnicalFoundations/MathematicalApproachesToSoftware/BooleanAlgebra/test-application/eslint-rules/validate-karnaugh-reduction.ts:17-22 | `!c` passes for `predicateOne`; `c` is reported with name `predicateOne`. The `predicateTwo` reduction passes in a `return`; the version with `!c` is reported. A reordered `predicateFour`, a parenthesis node, a stub `return false` and an empty block are reported. An unknown name is ignored. |
| NonCondensedRule.IsCallTo | modules/TechnicalFoundations/MathematicalApproachesToSoftware/BooleanAlgebra/test-application/eslint-rules/non-condensed-predicates.ts:30-33 | `isCallTo`: exactly the call nodes `name(...)` whose callee is the identifier `name`, with any arguments. ArgumentsIgnored states that the arguments never matter. |
| NonCondensedRule.VisitIf | modules/TechnicalFoundations/MathematicalApproachesToSoftware/BooleanAlgebra/test-application/eslint-rules/non-condensed-predicates.ts:16-47 | There is no diagnostic exactly when the condition is an `\|\|` of two `&&` expressions whose four operands are calls to predicateTwo, predicateOne, predicateTwo and predicateThree, in that order. Every other condition gets one diagnostic: the `requiredPattern` report attached to the condition node, not to the `if` statement. |
| NonCondensedRule.ArgumentsIgnored | modules/TechnicalFoundations/MathematicalApproachesToSoftware/BooleanAlgebra/test-application/eslint-rules/non-condensed-predicates.ts:30-33 | Whether a call is a call to a name never depends on its arguments. |
| NonCondensedRule.RequiredIsDistributedCurrent | modules/TechnicalFoundations/MathematicalApproachesToSoftware/BooleanAlgebra/test-application/eslint-rules/non-condensed-predicates.ts:35-39 | For every outcome of the three calls, the required condition and the current condition `predicateTwo() && (predicateOne() \|\| predicateThree())` have the same value, `p2 && (p1 \|\| p3)`. |
| NonCondensedRule.MatcherExamples | modules/TechnicalFoundations/MathematicalApproachesToSoftware/BooleanAlgebra/test-application/eslint-rules/non-condensed-predicates.ts:19-47 | The required condition passes. Each of these is reported on the condition: the current condition, a swapped first conjunction, a single call and a bare identifier. |
| ModelStore.Lookup | modules/TechnicalFoundations/MathematicalApproachesToSoftware/BooleanAlgebra/test-application/src/inMemoryModelStore.ts:58-59 | JavaScript `Map.get` on an inner map: a value exactly when the key is present, and then the value of the entry under that key. The store itself never calls `get` on an inner map; `Lookup` only serves to state, in LookupAfterMapSet and PutThenGet, what `put` leaves there. |
| ModelStore.EntriesOf | modules/TechnicalFoundations/MathematicalApproachesToSoftware/BooleanAlgebra/test-application/src/inMemoryModelStore.ts:58 | `mapInstance.get(type) ?? new Map()`: an empty inner map for a type not in the table; on a well-formed table the result has no duplicate key. |
| ModelStore.PutState | modules/TechnicalFoundations/MathematicalApproachesToSoftware/BooleanAlgebra/test-application/src/inMemoryModelStore.ts:58-60 | The table after `put(model)`: every inner map stays free of duplicate keys, the types are the old ones plus `model.type`, and every other type keeps its inner map. PutThenGet, ReplayEntries and GetAfterPuts state what `get` then returns. |
| ModelStore.MapSet | modules/TechnicalFoundations/MathematicalApproachesToSoftware/BooleanAlgebra/test-application/src/inMemoryModelStore.ts:59 | `Map.set` on a map without duplicate keys. An existing key keeps its position and takes the new value. A new key is appended. Keys stay distinct. |
| ModelStore.LookupAfterMapSet | modules/TechnicalFoundations/MathematicalApproachesToSoftware/BooleanAlgebra/test-application/src/inMemoryModelStore.ts:59 | After setting a key, that key reads back the value set. Every other key reads as before. |
| ModelStore.KeysAfterMapSet | modules/TechnicalFoundations/MathematicalApproachesToSoftware/BooleanAlgebra/test-application/src/inMemoryModelStore.ts:59 | Setting a key keeps the key order. A new key goes last; a replaced key keeps its slot. |
| ModelStore.RawEntriesOfType | modules/TechnicalFoundations/MathematicalApproachesToSoftware/BooleanAlgebra/test-application/src/inMemoryModelStore.ts:67-73 | The three predicates are true, so the `?? new Map()` branch is always taken. The unknown-type branch that would fail is never reached. |
| ModelStore.InMemoryModelStore.constructor | modules/TechnicalFoundations/MathematicalApproachesToSoftware/BooleanAlgebra/test-application/src/inMemoryModelStore.ts:55 | The store works on the map it is given. |
| ModelStore.InMemoryModelStore.Put | modules/TechnicalFoundations/MathematicalApproachesToSoftware/BooleanAlgebra/test-application/src/inMemoryModelStore.ts:56-63 | `put` returns `Right(true)`. It files the element under its identifier in the inner map of its type, creating that map if needed, and leaves the rest of the table alone. |
| ModelStore.InMemoryModelStore.Get | modules/TechnicalFoundations/MathematicalApproachesToSoftware/BooleanAlgebra/test-application/src/inMemoryModelStore.ts:65-77 | `get` always succeeds and leaves the store unchanged. It returns the elements under the type in insertion order, or an empty list for a type never put. |
| ModelStore.InMemoryModelStore.Clear | modules/TechnicalFoundations/MathematicalApproachesToSoftware/BooleanAlgebra/test-application/src/inMemoryModelStore.ts:79-84 | `clear` returns `Right(true)` and leaves the table empty. |
| ModelStore.PutThenGet | modules/TechnicalFoundations/MathematicalApproachesToSoftware/BooleanAlgebra/test-application/src/inMemoryModelStore.ts:58-60 | After `put(m)`, the entries under `m.type` hold `m.data` under its identifier, so `get(m.type)` contains it. The entries under every other type are unchanged. |
| ModelStore.GetOfMissingTypeIsEmpty | modules/TechnicalFoundations/MathematicalApproachesToSoftware/BooleanAlgebra/test-application/src/inMemoryModelStore.ts:68-69 | `get` of a type that is not in the table, or of any type after `clear`, gives an empty list. |
| ModelStore.ReplayEntries | modules/TechnicalFoundations/MathematicalApproachesToSoftware/BooleanAlgebra/test-application/src/inMemoryModelStore.ts:58-60 | Start from an empty store and make any sequence of puts. Under each type, the keys are the identifiers put under it, each once, in order of first insertion. Each key holds the element put last for it. |
| ModelStore.GetAfterPuts | modules/TechnicalFoundations/MathematicalApproachesToSoftware/BooleanAlgebra/test-application/src/inMemoryModelStore.ts:74 | After any sequence of puts into an empty store, `get(t)` returns one element per distinct identifier put under `t`, in first-insertion order. Each element is the one put last for its identifier. |
| ModelStore.StoreScenario | modules/TechnicalFoundations/MathematicalApproachesToSoftware/BooleanAlgebra/test-application/src/inMemoryModelStore.ts:10-36 | Start from an empty map. `transpileLoadOne` then `transpileLoadTwo` under one type leave the single entry with body `Two`. A task under another type is kept apart. After `clear`, `get` returns an empty list. |

## Left out

- The `espree.parse` call in `parseExpression` is a foreign parser. The expected texts are replaced by the trees it produces, written out by hand.
- The `a === b` identity shortcut in `isAstEqual` is not modelled separately. Nodes are values here, and `AstEqualReflexive` shows that any node already equals itself. `null` and `undefined` are one absent value.
- AstEquality.AstEqual: the generic fallback is modelled only for properties with scalar values. Properties that hold nodes or arrays, which it compares by recursion, are not modelled. Its ESLint-specific key list is kept only as the six skipped metadata names.
- Regular-expression and BigInt literals are not modelled. Numeric literal values are exact reals; a literal is never `NaN`.
- ESLint's host side is not modelled: the `meta` blocks, the message templates, visitor registration, the traversal that calls the visitors, and the `context.report` channel. Each visitor returns its at-most-one diagnostic as a value.
- Source positions and other node metadata are not fields of the eight node types the checker handles by name. Only fallback (`Other`) nodes may carry them, and the generic comparison skips them.
- `Either.try_` is not modelled as a way of catching exceptions. No map operation here throws, so `put`, `get` and `clear` return `Right`. `Left` appears only on the branch of `get` that is never taken.
- The `as T` casts and the type parameter of `get` have no runtime effect. `get` returns the stored elements as they are.
- Aliasing is not modelled. The map handed to `createInMemoryModelStore` and its inner maps are held as values, so changes made through other references to the same `Map` objects are not captured. The order of the outer map's keys is not kept; `get` does not depend on it.
- `convoluted.ts` (the lint fixture), `utility.ts` (a type alias), `eslint.config.ts` and `eslint-rules/index.ts` (registration) are not part of this model.
