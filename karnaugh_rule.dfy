/**
 * The `validate-karnaugh-reduction` lint rule: each of the four predicate
 * declarations must return exactly the Karnaugh-reduced expression.
 */
module KarnaughRule {
  import opened Wrappers
  import opened Estree
  import opened AstEquality

  /** The binding of a variable declarator: a plain name or a destructuring pattern. */
  datatype Binding = BindingIdentifier(name: string) | DestructuringPattern

  /** A statement, as far as the rule looks at it: the value of its `argument` property. */
  datatype Statement =
    | Return(returned: Option<Node>)
    | Throw(thrown: Node)
    | OtherStatement

  /** The body of an arrow function: a block, or an expression (the shorthand form). */
  datatype FunctionBody = BlockBody(body: seq<Statement>) | ExpressionBody(expression: Node)

  datatype Initializer = ArrowFunction(body: FunctionBody) | OtherInitializer

  /** `const <id> = <init>`; a declaration without initializer has no `init`. */
  datatype Declarator = Declarator(id: Binding, init: Option<Initializer>)

  /** The one diagnostic of this rule, `invalidPredicate`, on the declarator, interpolating `name`. */
  datatype Report = InvalidPredicate(node: Declarator, name: string)

  /** The trees the four expected texts parse to (`&&`, `||` associate to the left; no parenthesis nodes). */
  const ExpectedMap: map<string, Node> := map[
    "predicateOne" := Not(Id("c")),
    "predicateTwo" := Or(And(Id("a"), Id("c")), And(And(Not(Id("a")), Id("c")), Not(Id("d")))),
    "predicateThree" := And(And(And(Not(Id("a")), Id("b")), Id("c")), Id("d")),
    "predicateFour" := And(And(Not(Id("a")), Not(Id("b"))), Id("c"))
  ]

  /** The `argument` property of a statement; statements without one give `undefined`. */
  function Argument(s: Statement): Option<Node>
  {
    match s
    case Return(e) => e
    case Throw(e) => Some(e)
    case OtherStatement => None
  }

  /**
   * The returned expression the rule inspects: the expression of a shorthand
   * body, or the `argument` of the FIRST statement of a block.
   */
  function ActualBody(body: FunctionBody): Option<Node>
  {
    match body
    case ExpressionBody(e) => Some(e)
    case BlockBody(stmts) => if |stmts| == 0 then None else Argument(stmts[0])
  }

  /** The declarators the rule checks: a plain name that is a key of the table, initialised by an arrow function. */
  predicate Inspected(d: Declarator)
  {
    d.id.BindingIdentifier? && d.id.name in ExpectedMap
    && d.init.Some? && d.init.value.ArrowFunction?
  }

  /** The `VariableDeclarator` visitor: at most one diagnostic, for a checked predicate whose returned expression is missing or differs from the expected tree. */
  function VisitDeclarator(d: Declarator): (r: Option<Report>)
    ensures r.Some? ==> Inspected(d) && r.value == InvalidPredicate(d, d.id.name)
    ensures r.None? && Inspected(d) ==>
              var actual := ActualBody(d.init.value.body);
              actual.Some? && AstEqual(actual.value, ExpectedMap[d.id.name])
  {
    if Inspected(d) then
      var actual := ActualBody(d.init.value.body);
      if !AstEqualOrAbsent(actual, Some(ExpectedMap[d.id.name])) then
        Some(InvalidPredicate(d, d.id.name))
      else
        None
    else
      None
  }

  /** The expected trees contain no fallback nodes. */
  lemma ExpectedTreesHandled(name: string)
    requires name in ExpectedMap
    ensures Handled(ExpectedMap[name])
  {
  }

  /**
   * A checked predicate passes exactly when its returned expression is, node
   * for node, the expected tree: nothing else (a reordering, an extra
   * negation, a parenthesis node, a missing return) is accepted.
   */
  lemma VisitDeclaratorExact(d: Declarator)
    requires Inspected(d)
    ensures VisitDeclarator(d).None? <==> ActualBody(d.init.value.body) == Some(ExpectedMap[d.id.name])
  {
    var expected := ExpectedMap[d.id.name];
    ExpectedTreesHandled(d.id.name);
    AstEqualReflexive(expected);
    var actual := ActualBody(d.init.value.body);
    if actual.Some? {
      AstEqualIsStructural(actual.value, expected);
    }
  }

  /** Declarators outside the rule's scope never get a diagnostic, whatever their body. */
  lemma UninspectedNeverReported(d: Declarator)
    requires !d.id.BindingIdentifier? || d.id.name !in ExpectedMap
             || d.init.None? || !d.init.value.ArrowFunction?
    ensures VisitDeclarator(d) == None
  {
  }

  /** Only the first statement of a block is looked at: statements after it never change the verdict. */
  lemma OnlyFirstStatementCounts(name: string, first: Statement, rest: seq<Statement>, rest': seq<Statement>)
    ensures VisitDeclarator(Declarator(BindingIdentifier(name), Some(ArrowFunction(BlockBody([first] + rest))))).None?
        <==> VisitDeclarator(Declarator(BindingIdentifier(name), Some(ArrowFunction(BlockBody([first] + rest'))))).None?
  {
  }

  /** `const <name> = (a, b, c, d) => <body>` */
  function ArrowDeclarator(name: string, body: FunctionBody): Declarator
  {
    Declarator(BindingIdentifier(name), Some(ArrowFunction(body)))
  }

  /**
   * `=> e`, `=> { return e; ... }` and `=> { throw e; ... }` get the same
   * verdict, whatever statements follow the first one.
   */
  lemma ReturnMatchesShorthand(name: string, e: Node, rest: seq<Statement>)
    ensures VisitDeclarator(ArrowDeclarator(name, ExpressionBody(e))).None?
        <==> VisitDeclarator(ArrowDeclarator(name, BlockBody([Return(Some(e))] + rest))).None?
    ensures VisitDeclarator(ArrowDeclarator(name, ExpressionBody(e))).None?
        <==> VisitDeclarator(ArrowDeclarator(name, BlockBody([Throw(e)] + rest))).None?
  {
  }

  /**
   * Worked verdicts: the correct reductions pass, whether written as a
   * shorthand body or as a `return`; a missing negation, a reordered
   * conjunction, an explicit parenthesis node or a stub `return false`
   * is reported under the declarator's name; an unknown name is ignored.
   */
  lemma ScannerExamples()
    ensures VisitDeclarator(ArrowDeclarator("predicateOne", ExpressionBody(Not(Id("c"))))) == None
    ensures VisitDeclarator(ArrowDeclarator("predicateOne", ExpressionBody(Id("c"))))
            == Some(InvalidPredicate(ArrowDeclarator("predicateOne", ExpressionBody(Id("c"))), "predicateOne"))
    ensures VisitDeclarator(ArrowDeclarator("predicateTwo", BlockBody([Return(Some(
              Or(And(Id("a"), Id("c")), And(And(Not(Id("a")), Id("c")), Not(Id("d"))))))]))) == None
    ensures VisitDeclarator(ArrowDeclarator("predicateTwo", BlockBody([Return(Some(
              Or(And(Id("a"), Id("c")), And(And(Not(Id("a")), Not(Id("c"))), Not(Id("d"))))))]))).Some?
    ensures VisitDeclarator(ArrowDeclarator("predicateFour", ExpressionBody(
              And(Id("c"), And(Not(Id("a")), Not(Id("b"))))))).Some?
    ensures VisitDeclarator(ArrowDeclarator("predicateOne", ExpressionBody(Parenthesized(Not(Id("c")))))).Some?
    ensures VisitDeclarator(ArrowDeclarator("predicateThree", BlockBody([Return(Some(Literal(Bool(false))))]))).Some?
    ensures VisitDeclarator(ArrowDeclarator("predicateThree", BlockBody([]))).Some?
    ensures VisitDeclarator(ArrowDeclarator("predicateFive", ExpressionBody(Id("c")))) == None
  {
  }
}
