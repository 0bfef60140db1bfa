/** The generator of the legacy design (src/ExpressionGenerator.java). It owns two
    Variable objects, x named "X" and y named "Y", uses them for every leaf of the
    tree it draws, and sets their values before each evaluation. Math.random() is the
    stream of draws of a Random object passed to the operations that draw. */
module ExpressionGenerator {
  import opened Common
  import opened Numeric
  import opened Randomness
  import opened L = Expression
  import P = ExpressionParallel

  /** The codes generateExpression draws. */
  const VariableCode: int := 0
  const MultiplyCode: int := 1
  const AverageCode: int := 2
  const SinCode: int := 3
  const CosCode: int := 4

  /** The number of children of a Multiply or Average: two plus the integer part of
      three times the draw. */
  function ChildCount(r: real): (k: int)
    requires 0.0 <= r < 1.0
    ensures 2 <= k <= 4
  {
    assert r * 3.0 < 3.0 by {
      assert (1.0 - r) * 3.0 > 0.0;
    }
    (r * 3.0 + 2.0).Floor
  }

  /** What generateExpression draws, as a childless tree: the shared x or y for the
      code of VARIABLE (a second draw below 0.5 picks x), otherwise a new operator
      node; together with the position of the next draw. */
  function Draw(u: nat -> real, pos: nat, x: Variable, y: Variable): (r: (Expression, nat))
    requires Unit(u)
    ensures r.0.Leaf? ==> (r.0.v == x || r.0.v == y) && r.1 == pos + 2
    ensures r.0.Op? ==> r.0.expr == [] && r.1 == pos + 1
  {
    var code := IntBelow(u(pos), 5);
    if code == VariableCode then (Leaf(if BoolOf(u(pos + 1)) then x else y), pos + 2)
    else if code == MultiplyCode then (Op(Multiply, []), pos + 1)
    else if code == AverageCode then (Op(Average, []), pos + 1)
    else if code == SinCode then (Op(Sin, []), pos + 1)
    else (Op(Cos, []), pos + 1)
  }

  /** The tree createExpression(depth) builds from the draws starting at `pos`, and the
      position of the first draw it leaves unused. At depth 0 a draw picks x or y;
      otherwise a drawn operator receives one subtree of depth - 1 if unary, and 2 to 4
      of them (one more draw decides how many) if binary. */
  function Generate(depth: nat, u: nat -> real, pos: nat, x: Variable, y: Variable): (r: (Expression, nat))
    requires Unit(u)
    ensures r.1 > pos
    decreases depth, 0, 0
  {
    if depth == 0 then (Leaf(if BoolOf(u(pos)) then x else y), pos + 1)
    else
      var (e, p) := Draw(u, pos, x, y);
      var n := HowManyArguments(e);
      if n == 1 then
        var (c, p1) := Generate(depth - 1, u, p, x, y);
        (Op(e.op, [c]), p1)
      else if n == 2 then
        var (cs, p1) := GenerateChildren(ChildCount(u(p)), depth - 1, u, p + 1, x, y);
        (Op(e.op, cs), p1)
      else
        (e, p)
  }

  /** The first k subtrees of depth `depth` the loop of createExpression adds, in order. */
  function GenerateChildren(k: nat, depth: nat, u: nat -> real, pos: nat, x: Variable, y: Variable)
    : (r: (seq<Expression>, nat))
    requires Unit(u)
    ensures |r.0| == k && r.1 >= pos
    decreases depth, 1, k
  {
    if k == 0 then ([], pos)
    else
      var (init, p) := GenerateChildren(k - 1, depth, u, pos, x, y);
      var (c, p1) := Generate(depth, u, p, x, y);
      (init + [c], p1)
  }

  /** What generateExpression returns: one of the shared variables, or a new operator. */
  datatype Drawn = Shared(v: Variable) | Fresh(node: Operation)

  class ExpressionGenerator {
    const x: Variable
    const y: Variable
    var root: Expression

    /** x and y are the two distinct variables X and Y, and root is a generated tree. */
    ghost predicate Valid()
      reads this
    {
      x.name == "X" && y.name == "Y" && Generated(root, x, y)
    }

    /** new ExpressionGenerator(expressionDepth): two new variables with value 0 and a
        random tree over them no higher than expressionDepth. */
    constructor (expressionDepth: nat, rng: Random)
      requires rng.Valid()
      modifies rng
      ensures rng.Valid() && Valid()
      ensures fresh(x) && fresh(y) && x.self == 0.0 && y.self == 0.0
      ensures (root, rng.pos) == Generate(expressionDepth, rng.u, old(rng.pos), x, y)
      ensures P.Height(Translate(root)) <= expressionDepth
    {
      x := new Variable("X");
      y := new Variable("Y");
      root := Leaf(x);  // replaced below: createExpression needs the finished object
      new;
      root := CreateExpression(expressionDepth, rng);
      GenerateShape(expressionDepth, rng.u, old(rng.pos), x, y);
    }

    /** generateExpression() */
    method GenerateExpression(rng: Random) returns (d: Drawn)
      requires rng.Valid()
      modifies rng
      ensures rng.Valid()
      ensures d.Shared? ==> Draw(rng.u, old(rng.pos), x, y) == (Leaf(d.v), rng.pos)
      ensures d.Fresh? ==>
        fresh(d.node) && d.node.expr == [] && Draw(rng.u, old(rng.pos), x, y) == (Op(d.node.op, []), rng.pos)
    {
      var r := rng.NextDouble();
      var code := IntBelow(r, 5);
      if code == VariableCode {
        var coin := rng.NextDouble();
        d := Shared(if coin < 0.5 then x else y);
      } else if code == MultiplyCode {
        var node := new Operation(Multiply);
        d := Fresh(node);
      } else if code == AverageCode {
        var node := new Operation(Average);
        d := Fresh(node);
      } else if code == SinCode {
        var node := new Operation(Sin);
        d := Fresh(node);
      } else if code == CosCode {
        var node := new Operation(Cos);
        d := Fresh(node);
      } else {
        // the "Broken generation of expression" exception: no code is drawn outside 0..4
        assert false;
        d := Shared(x);
      }
    }

    /** createExpression(depth): builds the tree Generate describes, drawing from rng. */
    method CreateExpression(depth: nat, rng: Random) returns (e: Expression)
      requires rng.Valid()
      modifies rng
      ensures rng.Valid()
      ensures (e, rng.pos) == Generate(depth, rng.u, old(rng.pos), x, y)
      decreases depth
    {
      if depth == 0 {
        var r := rng.NextDouble();
        return Leaf(if r < 0.5 then x else y);
      }
      var d := depth - 1;
      var drawn := GenerateExpression(rng);
      match drawn
      case Shared(v) =>
        e := Leaf(v);
      case Fresh(node) =>
        var n := HowManyArguments(node.Value());
        if n == 1 {
          var c := CreateExpression(d, rng);
          node.AddArgument(c);
          assert node.expr == [c];
        } else if n == 2 {
          var r := rng.NextDouble();
          var numExpressions := ChildCount(r);
          ghost var start := rng.pos;
          var i := 0;
          while i < numExpressions
            invariant 0 <= i <= numExpressions
            invariant rng.Valid()
            invariant (node.expr, rng.pos) == GenerateChildren(i, d, rng.u, start, x, y)
          {
            var c := CreateExpression(d, rng);
            node.AddArgument(c);
            i := i + 1;
          }
        }
        e := node.Value();
    }

    /** evaluateExpression(setX, setY): the root evaluated with x set to setX and y to
        setY. For coordinates in [-1, 1] the value lies in [-1, 1]. */
    method EvaluateExpression(setX: real, setY: real, sem: Semantics) returns (r: Result<Num>)
      requires Valid()
      modifies x, y
      ensures Valid() && x.self == setX && y.self == setY
      ensures r == P.Eval(Translate(root), sem, setX, setY)
      ensures BoundedTrig(sem) && -1.0 <= setX <= 1.0 && -1.0 <= setY <= 1.0 ==> r.Ok? && InUnit(r.value)
    {
      r := EvaluateExpressionOf(root, setX, setY, sem);
      GeneratedLeaves(root, x, y);
      if BoundedTrig(sem) && -1.0 <= setX <= 1.0 && -1.0 <= setY <= 1.0 {
        GeneratedIsPrintableAndClosed(root, x, y);
        P.EvalInUnit(Translate(root), sem, setX, setY);
      }
    }

    /** evaluateExpression(e, setX, setY): sets the shared variables, then evaluates e
        in the new state; every leaf that is x or y then answers setX or setY, so a
        tree over x and y evaluates as the parallel design does at (setX, setY). */
    method EvaluateExpressionOf(e: Expression, setX: real, setY: real, sem: Semantics) returns (r: Result<Num>)
      requires Valid()
      modifies x, y
      ensures Valid() && x.self == setX && y.self == setY
      ensures r == Eval(e, sem)
      ensures Leaves(e) <= {x, y} ==> forall v :: v in Leaves(e) ==> v.Evaluate() == setX || v.Evaluate() == setY
      ensures Leaves(e) <= {x, y} ==> r == P.Eval(Translate(e), sem, setX, setY)
    {
      x.ChangeSelf(setX);
      y.ChangeSelf(setY);
      r := Evaluate(e, sem);
      if Leaves(e) <= {x, y} {
        EvalMatchesParallel(e, sem, x, y);
      }
    }

    /** toString(): the root's text, which a generated root always has. */
    method ToString() returns (r: Result<string>)
      requires Valid()
      ensures r == Text(root) && r.Ok?
    {
      r := L.ToString(root);
      GeneratedIsPrintableAndClosed(root, x, y);
      TextMatchesParallel(root);
      P.TextOkIff(Translate(root));
    }
  }

  // ---------------------------------------------------------------------------
  // The trees the generator produces

  /** The shape of a generated tree: every leaf is x or y, Sin and Cos have exactly one
      child, and Multiply and Average two to four. */
  ghost predicate Generated(e: Expression, x: Variable, y: Variable)
  {
    match e
    case Leaf(v) => v == x || v == y
    case Op(Sin, cs) => |cs| == 1 && Generated(cs[0], x, y)
    case Op(Cos, cs) => |cs| == 1 && Generated(cs[0], x, y)
    case Op(Multiply, cs) => 2 <= |cs| <= 4 && forall i :: 0 <= i < |cs| ==> Generated(cs[i], x, y)
    case Op(Average, cs) => 2 <= |cs| <= 4 && forall i :: 0 <= i < |cs| ==> Generated(cs[i], x, y)
  }

  /** Whatever the draws, createExpression(depth) yields a tree of the generated shape
      whose height is at most depth. */
  lemma {:induction false} GenerateShape(depth: nat, u: nat -> real, pos: nat, x: Variable, y: Variable)
    requires Unit(u)
    ensures Generated(Generate(depth, u, pos, x, y).0, x, y)
    ensures P.Height(Translate(Generate(depth, u, pos, x, y).0)) <= depth
    decreases depth, 0, 0
  {
    if depth > 0 {
      var e := Generate(depth, u, pos, x, y).0;
      var (d, p) := Draw(u, pos, x, y);
      if d.Op? && (d.op.Sin? || d.op.Cos?) {
        GenerateShape(depth - 1, u, p, x, y);
        TranslateHeight(d.op, e.expr, depth - 1);
      } else if d.Op? {
        GenerateChildrenShape(ChildCount(u(p)), depth - 1, u, p + 1, x, y);
        TranslateHeight(d.op, e.expr, depth - 1);
      }
    }
  }

  lemma {:induction false} GenerateChildrenShape(k: nat, depth: nat, u: nat -> real, pos: nat, x: Variable, y: Variable)
    requires Unit(u)
    ensures forall i :: 0 <= i < k ==> Generated(GenerateChildren(k, depth, u, pos, x, y).0[i], x, y)
    ensures forall i :: 0 <= i < k ==> P.Height(Translate(GenerateChildren(k, depth, u, pos, x, y).0[i])) <= depth
    decreases depth, 1, k
  {
    if k > 0 {
      var p := GenerateChildren(k - 1, depth, u, pos, x, y).1;
      GenerateChildrenShape(k - 1, depth, u, pos, x, y);
      GenerateShape(depth, u, p, x, y);
    }
  }

  /** The leaves of a generated tree are among x and y. */
  lemma {:induction false} GeneratedLeaves(e: Expression, x: Variable, y: Variable)
    requires Generated(e, x, y)
    ensures Leaves(e) <= {x, y}
  {
    match e
    case Leaf(_) =>
    case Op(_, cs) => GeneratedLeavesAll(cs, x, y);
  }

  lemma {:induction false} GeneratedLeavesAll(cs: seq<Expression>, x: Variable, y: Variable)
    requires forall i :: 0 <= i < |cs| ==> Generated(cs[i], x, y)
    ensures LeavesAll(cs) <= {x, y}
  {
    if |cs| > 0 {
      GeneratedLeavesAll(cs[..|cs| - 1], x, y);
      GeneratedLeaves(cs[|cs| - 1], x, y);
    }
  }

  /** With x named "X" and y named "Y", a generated tree reads, in the parallel design,
      as a tree that prints without exception and whose value stays in [-1, 1]. */
  lemma {:induction false} GeneratedIsPrintableAndClosed(e: Expression, x: Variable, y: Variable)
    requires Generated(e, x, y) && x.name == "X" && y.name == "Y"
    ensures P.Printable(Translate(e)) && P.Closed(Translate(e))
  {
    match e
    case Leaf(_) =>
    case Op(_, cs) =>
      forall i | 0 <= i < |cs|
        ensures P.Printable(TranslateAll(cs)[i]) && P.Closed(TranslateAll(cs)[i])
      {
        TranslateAllIndex(cs, i);
        GeneratedIsPrintableAndClosed(cs[i], x, y);
      }
  }
}
