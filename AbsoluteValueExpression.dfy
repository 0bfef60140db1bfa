/** AbsoluteValue (AbsoluteValue.java): the absolute value of the first child, printed
    as "abs(a)". It is part of the node layer but never generated. */
module AbsoluteValueExpression {
  import opened Common
  import opened Numeric
  import opened ExpressionParallel

  /** new AbsoluteValue(ex): ex becomes the only child. */
  method NewAbsoluteValue(ex: Expr) returns (n: Node)
    ensures fresh(n) && n.kind == AbsoluteValue && n.expr == [ex]
    ensures HowManyArguments(n.kind) == 1
  {
    n := new Node.WithArguments(AbsoluteValue, [ex]);
  }

  /** AbsoluteValue.toString is "abs(" + first child + ")"; getFirst throws on an empty
      child list. */
  lemma AbsoluteValueText(cs: seq<Expr>)
    ensures |cs| == 0 ==> Text(Expr(AbsoluteValue, cs)) == Err(NoSuchElement)
    ensures |cs| > 0 ==> (Text(Expr(AbsoluteValue, cs)).Ok? <==> Text(cs[0]).Ok?)
    ensures |cs| > 0 && Text(cs[0]).Ok? ==>
      Text(Expr(AbsoluteValue, cs)) == Ok("abs(" + Text(cs[0]).value + ")")
  {
  }

  /** AbsoluteValue.evaluate is Math.abs of the first child's value: it fails exactly
      when there is no first child or the first child fails; a finite child gives a
      finite, non-negative result equal to the child's value or its negation, and a
      NaN child gives NaN. */
  lemma AbsoluteValueEval(cs: seq<Expr>, sem: Semantics, x: real, y: real)
    ensures |cs| == 0 ==> Eval(Expr(AbsoluteValue, cs), sem, x, y) == Err(NoSuchElement)
    ensures |cs| > 0 ==>
      (Eval(Expr(AbsoluteValue, cs), sem, x, y).Ok? <==> Eval(cs[0], sem, x, y).Ok?)
    ensures |cs| > 0 && Eval(cs[0], sem, x, y).Ok? ==>
      Eval(Expr(AbsoluteValue, cs), sem, x, y) == Ok(Abs(Eval(cs[0], sem, x, y).value))
    ensures |cs| > 0 && Eval(cs[0], sem, x, y).Ok? && Eval(cs[0], sem, x, y).value.Finite? ==>
      var a := Eval(cs[0], sem, x, y).value.v;
      var r := Eval(Expr(AbsoluteValue, cs), sem, x, y);
      r.Ok? && r.value.Finite? && r.value.v >= 0.0 && (r.value.v == a || r.value.v == -a)
    ensures |cs| > 0 && Eval(cs[0], sem, x, y) == Ok(NaN) ==>
      Eval(Expr(AbsoluteValue, cs), sem, x, y) == Ok(NaN)
  {
  }
}
