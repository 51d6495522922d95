/**
 * The ESTree expression nodes that the two lint rules inspect.
 *
 * The eight node types the equality checker handles by name keep only their
 * semantic fields. Every other node type is an `Other` node, which carries
 * its type name and its scalar-valued properties; those may include source
 * positions and other metadata (`start`, `loc`, ...), which the checker's
 * generic comparison skips.
 */
module Estree {

  /** A property value that JavaScript compares with `===` (numbers are finite, never NaN). */
  datatype Scalar = Str(s: string) | Num(n: real) | Bool(b: bool) | Null | Undefined

  /** The `type` tag of a node. */
  datatype NodeType =
    | IdentifierType
    | LiteralType
    | UnaryExpressionType
    | LogicalExpressionType
    | BinaryExpressionType
    | ConditionalExpressionType
    | ParenthesizedExpressionType
    | CallExpressionType
    | OtherType(name: string)

  datatype Node =
    | Identifier(name: string)
    | Literal(value: Scalar)
    | Unary(operator: string, prefix: bool, argument: Node)
    | Logical(operator: string, left: Node, right: Node)
    | Binary(operator: string, left: Node, right: Node)
    | Conditional(test: Node, consequent: Node, alternate: Node)
    | Parenthesized(expression: Node)
    | Call(callee: Node, arguments: seq<Node>)
    // Any other node type. `typeName` is never one of the eight names above:
    // an `Other` carrying one of them is a value no parser produces, and the
    // checker compares it only with other `Other` nodes.
    | Other(typeName: string, props: map<string, Scalar>)
  {
    function Type(): NodeType
    {
      match this
      case Identifier(_) => IdentifierType
      case Literal(_) => LiteralType
      case Unary(_, _, _) => UnaryExpressionType
      case Logical(_, _, _) => LogicalExpressionType
      case Binary(_, _, _) => BinaryExpressionType
      case Conditional(_, _, _) => ConditionalExpressionType
      case Parenthesized(_) => ParenthesizedExpressionType
      case Call(_, _) => CallExpressionType
      case Other(t, _) => OtherType(t)
    }
  }

  /** True when no node of the tree is an `Other` node, so the generic fallback is never consulted. */
  predicate Handled(n: Node)
  {
    match n
    case Identifier(_) => true
    case Literal(_) => true
    case Unary(_, _, arg) => Handled(arg)
    case Logical(_, l, r) => Handled(l) && Handled(r)
    case Binary(_, l, r) => Handled(l) && Handled(r)
    case Conditional(t, c, e) => Handled(t) && Handled(c) && Handled(e)
    case Parenthesized(e) => Handled(e)
    case Call(callee, args) => Handled(callee) && forall i :: 0 <= i < |args| ==> Handled(args[i])
    case Other(_, _) => false
  }

  // Builders for the Boolean expressions the rules are about.

  function Id(name: string): Node { Identifier(name) }
  function Not(e: Node): Node { Unary("!", true, e) }
  function And(l: Node, r: Node): Node { Logical("&&", l, r) }
  function Or(l: Node, r: Node): Node { Logical("||", l, r) }
  /** A call without arguments, `name()`. */
  function CallOf(name: string): Node { Call(Identifier(name), []) }
}
