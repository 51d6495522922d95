/**
 * The structural comparison `isAstEqual` of the Karnaugh-reduction lint rule:
 * a recursive, order-sensitive, purely syntactic equality on expression trees.
 */
module AstEquality {
  import opened Wrappers
  import opened Estree

  /** The property names that the generic comparison skips. */
  const Metadata: set<string> := {"loc", "range", "start", "end", "parent", "extra"}

  /** `props[key]` in JavaScript: `undefined` for a property that is not there. */
  function PropOf(props: map<string, Scalar>, key: string): Scalar
  {
    if key in props then props[key] else Undefined
  }

  /**
   * The generic comparison for node types not handled by name: every
   * non-metadata property of the FIRST node must be strictly equal to the
   * same property of the second; properties only the second node has are not
   * looked at.
   */
  predicate FallbackEqual(a: map<string, Scalar>, b: map<string, Scalar>)
  {
    forall key :: key in a && key !in Metadata ==> a[key] == PropOf(b, key)
  }

  /** `isAstEqual(a, b)` for two present nodes. */
  predicate AstEqual(a: Node, b: Node)
    ensures AstEqual(a, b) ==> a.Type() == b.Type()
    ensures AstEqual(a, b) && a.Call? ==> |a.arguments| == |b.arguments|
    decreases a
  {
    if a.Type() != b.Type() then false
    else match a
      case Identifier(name) => name == b.name
      case Literal(value) => value == b.value
      case Unary(op, prefix, arg) =>
        op == b.operator && prefix == b.prefix && AstEqual(arg, b.argument)
      case Logical(op, l, r) =>
        op == b.operator && AstEqual(l, b.left) && AstEqual(r, b.right)
      case Binary(op, l, r) =>
        op == b.operator && AstEqual(l, b.left) && AstEqual(r, b.right)
      case Conditional(t, c, e) =>
        AstEqual(t, b.test) && AstEqual(c, b.consequent) && AstEqual(e, b.alternate)
      case Parenthesized(e) => AstEqual(e, b.expression)
      case Call(callee, args) =>
        if !AstEqual(callee, b.callee) || |args| != |b.arguments| then false
        else ArgsEqual(args, b.arguments)
      case Other(_, props) => FallbackEqual(props, b.props)
  }

  /**
   * The argument scan of a call: compares `xs` and `ys` position by position
   * from the first, stopping at the first pair that differs. Only reached
   * once the argument counts are known to agree.
   */
  predicate ArgsEqual(xs: seq<Node>, ys: seq<Node>)
    requires |xs| == |ys|
    ensures ArgsEqual(xs, ys) ==> forall i :: 0 <= i < |xs| ==> AstEqual(xs[i], ys[i])
    decreases xs
  {
    |xs| == 0 || (AstEqual(xs[0], ys[0]) && ArgsEqual(xs[1..], ys[1..]))
  }

  /** `isAstEqual` on values that may be absent (`undefined`): an absent side is only equal to another absent side. */
  predicate AstEqualOrAbsent(a: Option<Node>, b: Option<Node>)
  {
    match (a, b)
    case (None, None) => true
    case (Some(x), Some(y)) => AstEqual(x, y)
    case _ => false
  }

  /** A parenthesis node equals only another parenthesis node with an equal inner expression. */
  lemma KindRules(a: Node, b: Node)
    ensures a.Parenthesized? ==> (AstEqual(a, b) <==> b.Parenthesized? && AstEqual(a.expression, b.expression))
  {
  }

  /** Every node is equal to itself, including nodes compared by the fallback. */
  lemma {:induction false} AstEqualReflexive(a: Node)
    ensures AstEqual(a, a)
    decreases a
  {
    match a
    case Identifier(_) =>
    case Literal(_) =>
    case Unary(_, _, arg) => AstEqualReflexive(arg);
    case Logical(_, l, r) => AstEqualReflexive(l); AstEqualReflexive(r);
    case Binary(_, l, r) => AstEqualReflexive(l); AstEqualReflexive(r);
    case Conditional(t, c, e) =>
      AstEqualReflexive(t); AstEqualReflexive(c); AstEqualReflexive(e);
    case Parenthesized(e) => AstEqualReflexive(e);
    case Call(callee, args) => AstEqualReflexive(callee); ArgsEqualReflexive(args);
    case Other(_, _) =>
  }

  lemma {:induction false} ArgsEqualReflexive(xs: seq<Node>)
    ensures ArgsEqual(xs, xs)
    decreases xs
  {
    if |xs| > 0 {
      AstEqualReflexive(xs[0]);
      ArgsEqualReflexive(xs[1..]);
    }
  }

  /** The argument scan holds exactly when every pair of arguments at the same position is equal. */
  lemma {:induction false} ArgsEqualPointwise(xs: seq<Node>, ys: seq<Node>)
    requires |xs| == |ys|
    ensures ArgsEqual(xs, ys) <==> forall i :: 0 <= i < |xs| ==> AstEqual(xs[i], ys[i])
    decreases |xs|
  {
    if |xs| > 0 {
      ArgsEqualPointwise(xs[1..], ys[1..]);
      assert forall i :: 1 <= i < |xs| ==> xs[1..][i - 1] == xs[i] && ys[1..][i - 1] == ys[i];
    }
  }

  /**
   * When either tree is free of fallback nodes the checker is exactly
   * structural equality: same node types, same operators, names and values,
   * and equal subtrees in the same positions.
   */
  lemma {:induction false} AstEqualIsStructural(a: Node, b: Node)
    requires Handled(a) || Handled(b)
    ensures AstEqual(a, b) <==> a == b
    decreases a
  {
    if a == b {
      AstEqualReflexive(a);
    } else if a.Type() == b.Type() {
      match a
      case Identifier(_) =>
      case Literal(_) =>
      case Unary(_, _, arg) => AstEqualIsStructural(arg, b.argument);
      case Logical(_, l, r) =>
        AstEqualIsStructural(l, b.left); AstEqualIsStructural(r, b.right);
      case Binary(_, l, r) =>
        AstEqualIsStructural(l, b.left); AstEqualIsStructural(r, b.right);
      case Conditional(t, c, e) =>
        AstEqualIsStructural(t, b.test);
        AstEqualIsStructural(c, b.consequent);
        AstEqualIsStructural(e, b.alternate);
      case Parenthesized(e) => AstEqualIsStructural(e, b.expression);
      case Call(callee, args) =>
        AstEqualIsStructural(callee, b.callee);
        if |args| == |b.arguments| {
          ArgsEqualIsStructural(args, b.arguments);
        }
      case Other(_, _) =>
    }
  }

  lemma {:induction false} ArgsEqualIsStructural(xs: seq<Node>, ys: seq<Node>)
    requires |xs| == |ys|
    requires (forall i :: 0 <= i < |xs| ==> Handled(xs[i])) || (forall i :: 0 <= i < |ys| ==> Handled(ys[i]))
    ensures ArgsEqual(xs, ys) <==> xs == ys
    decreases xs
  {
    if |xs| > 0 {
      AstEqualIsStructural(xs[0], ys[0]);
      ArgsEqualIsStructural(xs[1..], ys[1..]);
      assert xs == [xs[0]] + xs[1..] && ys == [ys[0]] + ys[1..];
    }
  }

  /** Over the node types handled by name the relation is symmetric. */
  lemma AstEqualSymmetric(a: Node, b: Node)
    requires Handled(a) || Handled(b)
    ensures AstEqual(a, b) == AstEqual(b, a)
  {
    AstEqualIsStructural(a, b);
    AstEqualIsStructural(b, a);
  }

  /** Swapping two different operands of `&&`, `||` or a binary operator makes the trees unequal. */
  lemma OperandOrderMatters(op: string, l: Node, r: Node)
    requires (Handled(l) || Handled(r)) && l != r
    ensures !AstEqual(Logical(op, l, r), Logical(op, r, l))
    ensures !AstEqual(Binary(op, l, r), Binary(op, r, l))
  {
    AstEqualIsStructural(l, r);
  }

  /** A parenthesized expression is never equal to the bare expression inside it, in either order. */
  lemma {:induction false} ParenthesesNotUnwrapped(e: Node)
    ensures !AstEqual(Parenthesized(e), e) && !AstEqual(e, Parenthesized(e))
    decreases e
  {
    if e.Parenthesized? {
      ParenthesesNotUnwrapped(e.expression);
    }
  }

  /** The fallback looks only at the first node's properties, so it is not symmetric. */
  lemma FallbackIsAsymmetric()
    ensures var a := Other("ThisExpression", map[]);
            var b := Other("ThisExpression", map["extraField" := Bool(true)]);
            AstEqual(a, b) && !AstEqual(b, a)
  {
    var b := map["extraField" := Bool(true)];
    assert PropOf(map[], "extraField") != b["extraField"];
  }

  /** The fallback never looks at metadata properties, on either side. */
  lemma MetadataIgnored(t: string, props: map<string, Scalar>, key: string, v: Scalar, b: Node)
    requires key in Metadata
    ensures AstEqual(Other(t, props[key := v]), b) == AstEqual(Other(t, props), b)
    ensures AstEqual(b, Other(t, props[key := v])) == AstEqual(b, Other(t, props))
  {
  }
}
