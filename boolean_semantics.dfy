/**
 * What a Boolean expression tree means: its value under an assignment of
 * truth values to variables and to zero-argument predicate calls. This is
 * the reference against which the syntactic checks are compared; the lint
 * rules themselves never evaluate anything.
 */
module BooleanSemantics {
  import opened Wrappers
  import opened Estree
  import opened AstEquality

  /**
   * The value of `n` when each identifier `x` and each call `x(...)` yields
   * `env[x]`; `&&` and `||` short-circuit as in JavaScript. Nodes outside the
   * Boolean fragment, and names missing from `env`, have no value.
   */
  function Eval(n: Node, env: map<string, bool>): Option<bool>
  {
    match n
    case Identifier(x) => if x in env then Some(env[x]) else None
    case Literal(Bool(b)) => Some(b)
    case Unary("!", true, arg) =>
      (match Eval(arg, env)
       case Some(v) => Some(!v)
       case None => None)
    case Logical("&&", l, r) =>
      (match Eval(l, env)
       case Some(false) => Some(false)
       case Some(true) => Eval(r, env)
       case None => None)
    case Logical("||", l, r) =>
      (match Eval(l, env)
       case Some(true) => Some(true)
       case Some(false) => Eval(r, env)
       case None => None)
    case Conditional(t, c, e) =>
      (match Eval(t, env)
       case Some(true) => Eval(c, env)
       case Some(false) => Eval(e, env)
       case None => None)
    case Parenthesized(e) => Eval(e, env)
    case Call(Identifier(f), _) => if f in env then Some(env[f]) else None
    case _ => None
  }

  /**
   * The checker is not a logical equivalence: `x && y` and `y && x` have the
   * same value whenever both variables are assigned, yet the trees are
   * unequal for different names.
   */
  lemma NotLogicalEquivalence(x: string, y: string, env: map<string, bool>)
    requires x != y
    requires x in env && y in env
    ensures Eval(And(Id(x), Id(y)), env) == Eval(And(Id(y), Id(x)), env)
    ensures !AstEqual(And(Id(x), Id(y)), And(Id(y), Id(x)))
  {
  }
}
