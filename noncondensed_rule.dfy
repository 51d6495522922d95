/**
 * The `non-condensed-predicates` lint rule: every `if` condition must have
 * the one shape `predicateTwo() && predicateOne() || predicateTwo() && predicateThree()`.
 */
module NonCondensedRule {
  import opened Wrappers
  import opened Estree
  import opened BooleanSemantics

  datatype IfStatement = IfStatement(test: Node)

  /** The one diagnostic of this rule, `requiredPattern`, attached to the offending condition. */
  datatype Report = RequiredPattern(node: Node)

  /** `isCallTo`: a call whose callee is the identifier `name`; the arguments are not looked at. */
  predicate IsCallTo(n: Node, name: string)
    ensures IsCallTo(n, name) <==> n.Call? && n == Call(Id(name), n.arguments)
  {
    n.Call? && n.callee.Identifier? && n.callee.name == name
  }

  /**
   * The `IfStatement` visitor: no diagnostic exactly for the required shape;
   * exactly one, on the condition, for every other shape.
   */
  function VisitIf(s: IfStatement): (r: Option<Report>)
    ensures r.None? <==> RequiredShape(s.test)
    ensures r.Some? ==> r.value == RequiredPattern(s.test)
  {
    var test := s.test;
    if test.Logical? && test.operator == "||"
       && test.left.Logical? && test.left.operator == "&&"
       && test.right.Logical? && test.right.operator == "&&"
       && IsCallTo(test.left.left, "predicateTwo")
       && IsCallTo(test.left.right, "predicateOne")
       && IsCallTo(test.right.left, "predicateTwo")
       && IsCallTo(test.right.right, "predicateThree")
    then
      None
    else
      Some(RequiredPattern(test))
  }

  /** The accepted shape, written as a pattern; each call may have any arguments. */
  predicate RequiredShape(test: Node)
  {
    match test
    case Logical("||",
                 Logical("&&", Call(Identifier("predicateTwo"), _), Call(Identifier("predicateOne"), _)),
                 Logical("&&", Call(Identifier("predicateTwo"), _), Call(Identifier("predicateThree"), _))) => true
    case _ => false
  }

  /** Changing the arguments of a call never changes whether it is a call to `name`. */
  lemma ArgumentsIgnored(callee: Node, args: seq<Node>, args': seq<Node>, name: string)
    ensures IsCallTo(Call(callee, args), name) == IsCallTo(Call(callee, args'), name)
  {
  }

  /** The required condition, `predicateTwo() && predicateOne() || predicateTwo() && predicateThree()`. */
  const Required: Node :=
    Or(And(CallOf("predicateTwo"), CallOf("predicateOne")), And(CallOf("predicateTwo"), CallOf("predicateThree")))

  /** The condition the store's `get` has today, `predicateTwo() && (predicateOne() || predicateThree())`. */
  const Current: Node :=
    And(CallOf("predicateTwo"), Or(CallOf("predicateOne"), CallOf("predicateThree")))

  /** The outcomes of the three predicate calls. */
  function Outcomes(p1: bool, p2: bool, p3: bool): map<string, bool>
  {
    map["predicateOne" := p1, "predicateTwo" := p2, "predicateThree" := p3]
  }

  /**
   * The required rewrite is the distributive form of the current condition:
   * for every outcome of the three calls both have the same value.
   */
  lemma RequiredIsDistributedCurrent(p1: bool, p2: bool, p3: bool)
    ensures Eval(Required, Outcomes(p1, p2, p3)) == Eval(Current, Outcomes(p1, p2, p3)) == Some(p2 && (p1 || p3))
  {
    var env := Outcomes(p1, p2, p3);
    assert Eval(CallOf("predicateOne"), env) == Some(p1);
    assert Eval(CallOf("predicateTwo"), env) == Some(p2);
    assert Eval(CallOf("predicateThree"), env) == Some(p3);
  }

  /**
   * Worked verdicts: the required condition passes; the current condition
   * (logically the same), a swapped first conjunction, a single call and a
   * bare identifier are each reported on the condition.
   */
  lemma MatcherExamples()
    ensures VisitIf(IfStatement(Required)) == None
    ensures VisitIf(IfStatement(Current)) == Some(RequiredPattern(Current))
    ensures VisitIf(IfStatement(Or(And(CallOf("predicateOne"), CallOf("predicateTwo")),
                                   And(CallOf("predicateTwo"), CallOf("predicateThree"))))).Some?
    ensures VisitIf(IfStatement(CallOf("predicateTwo"))).Some?
    ensures VisitIf(IfStatement(Id("predicateA"))).Some?
  {
  }
}
