/** Power (Power.java): the first child raised to the absolute value of the second,
    printed as "(a ^ b)". It is part of the node layer but never generated. */
module PowerExpression {
  import opened Common
  import opened Numeric
  import opened ExpressionParallel

  /** new Power(ex, ex2): ex becomes child 0 and ex2 child 1. */
  method NewPower(ex: Expr, ex2: Expr) returns (n: Node)
    ensures fresh(n) && n.kind == Power && n.expr == [ex, ex2]
    ensures n.GetArgument(0) == Ok(ex) && n.GetArgument(1) == Ok(ex2)
    ensures HowManyArguments(n.kind) == 2
  {
    n := new Node.WithArguments(Power, [ex, ex2]);
  }

  /** Power.toString is "(" + child 0 + " ^ " + child 1 + ")", wrapped in parentheses
      whatever its children; get(0) and get(1) throw when a child is missing, and
      children after the second are never read. */
  lemma PowerText(cs: seq<Expr>)
    ensures |cs| < 2 ==> Text(Expr(Power, cs)).Err?
    ensures |cs| == 0 ==> Text(Expr(Power, cs)) == Err(IndexOutOfBounds)
    ensures |cs| >= 2 ==> Text(Expr(Power, cs)) == Text(Expr(Power, cs[..2]))
    ensures |cs| >= 2 && Text(cs[0]).Ok? && Text(cs[1]).Ok? ==>
      Text(Expr(Power, cs)) == Ok("(" + Text(cs[0]).value + " ^ " + Text(cs[1]).value + ")")
    ensures Text(Expr(Power, cs)).Ok? ==>
      var t := Text(Expr(Power, cs)).value;
      |t| >= 5 && t[0] == '(' && t[|t| - 1] == ')'
  {
  }

  /** Power.evaluate reads exactly children 0 and 1: it needs both, and later children
      do not change the value. */
  lemma PowerReadsTwo(cs: seq<Expr>, sem: Semantics, x: real, y: real)
    ensures |cs| < 2 ==> Eval(Expr(Power, cs), sem, x, y).Err?
    ensures |cs| >= 2 ==> Eval(Expr(Power, cs), sem, x, y) == Eval(Expr(Power, cs[..2]), sem, x, y)
    ensures |cs| >= 2 && Eval(cs[0], sem, x, y).Ok? && Eval(cs[1], sem, x, y).Ok? ==>
      Eval(Expr(Power, cs), sem, x, y)
        == Ok(Pow(sem, Eval(cs[0], sem, x, y).value, Abs(Eval(cs[1], sem, x, y).value)))
  {
  }

  /** pow and pow' give the same answer whenever the exponent is not negative. */
  ghost predicate AgreeOnNonNegativeExponents(pow: (real, real) -> Num, pow': (real, real) -> Num)
  {
    forall a, b :: b >= 0.0 ==> pow(a, b) == pow'(a, b)
  }

  /** Because Power passes Math.abs of its second child as the exponent, Math.pow is
      never asked about a negative exponent: replacing pow by any function that agrees
      with it on non-negative exponents does not change the value of any tree. */
  lemma {:induction false} ExponentNeverNegative(e: Expr, sem: Semantics, pow': (real, real) -> Num, x: real, y: real)
    requires AgreeOnNonNegativeExponents(sem.pow, pow')
    ensures Eval(e, sem, x, y) == Eval(e, sem.(pow := pow'), x, y)
  {
    match e.kind
    case Variable(_) =>
    case Multiply => ExponentNeverNegativeAll(e.expr, sem, pow', x, y);
    case Average => ExponentNeverNegativeAll(e.expr, sem, pow', x, y);
    case Sin => if |e.expr| > 0 { ExponentNeverNegative(e.expr[0], sem, pow', x, y); }
    case Cos => if |e.expr| > 0 { ExponentNeverNegative(e.expr[0], sem, pow', x, y); }
    case AbsoluteValue => if |e.expr| > 0 { ExponentNeverNegative(e.expr[0], sem, pow', x, y); }
    case Power =>
      if |e.expr| > 0 { ExponentNeverNegative(e.expr[0], sem, pow', x, y); }
      if |e.expr| > 1 { ExponentNeverNegative(e.expr[1], sem, pow', x, y); }
  }

  lemma {:induction false} ExponentNeverNegativeAll(cs: seq<Expr>, sem: Semantics, pow': (real, real) -> Num, x: real, y: real)
    requires AgreeOnNonNegativeExponents(sem.pow, pow')
    ensures EvalAll(cs, sem, x, y) == EvalAll(cs, sem.(pow := pow'), x, y)
  {
    if |cs| > 0 {
      ExponentNeverNegativeAll(cs[..|cs| - 1], sem, pow', x, y);
      ExponentNeverNegative(cs[|cs| - 1], sem, pow', x, y);
    }
  }
}
