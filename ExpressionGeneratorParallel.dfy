/** The generator of the parallel design (ExpressionGeneratorParallel.java): it draws a
    random tree of ExpressionParallel nodes down to a given depth and wraps its root.
    The static RANDOM field is a Random object passed to every operation that draws. */
module ExpressionGeneratorParallel {
  import opened Common
  import opened Numeric
  import opened Randomness
  import P = ExpressionParallel

  /** The enum ExpressionType: the variants the generator knows, in declaration order. */
  datatype ExpressionType = Variable | Multiply | Average | Sin | Cos

  /** EXPRESSIONS, the enum's values in order, and SIZE, their number. */
  const Expressions: seq<ExpressionType> := [Variable, Multiply, Average, Sin, Cos]
  const Size: nat := |Expressions|

  /** EXPRESSIONS lists every variant exactly once, so SIZE is 5 and nextInt(SIZE)
      reaches each of them. */
  lemma ExpressionTypeTable()
    ensures Size == 5
    ensures forall t: ExpressionType :: t in Expressions
    ensures forall i, j :: 0 <= i < j < Size ==> Expressions[i] != Expressions[j]
  {
    forall t: ExpressionType
      ensures t in Expressions
    {
      match t
      case Variable => assert Expressions[0] == t;
      case Multiply => assert Expressions[1] == t;
      case Average => assert Expressions[2] == t;
      case Sin => assert Expressions[3] == t;
      case Cos => assert Expressions[4] == t;
    }
  }

  /** A variable leaf: "X" when the coin came up true, "Y" otherwise. */
  function Leaf(isX: bool): (e: P.Expr)
    ensures e.kind.Variable? && e.expr == []
    ensures e.kind.name == "X" <==> isX
    ensures e.kind.name == "X" || e.kind.name == "Y"
  {
    P.Expr(P.Variable(if isX then "X" else "Y"), [])
  }

  /** ExpressionType.create(): the kind of the new, childless node and the position of
      the next draw. Only VARIABLE draws (a nextBoolean for its name). */
  function KindOf(t: ExpressionType, u: nat -> real, pos: nat): (r: (P.Kind, nat))
    ensures t.Variable? <==> r.0.Variable?
    ensures r.0.Variable? ==> r.0.name == "X" || r.0.name == "Y"
    ensures r.1 == if t.Variable? then pos + 1 else pos
  {
    match t
    case Variable => (P.Variable(if BoolOf(u(pos)) then "X" else "Y"), pos + 1)
    case Multiply => (P.Multiply, pos)
    case Average => (P.Average, pos)
    case Sin => (P.Sin, pos)
    case Cos => (P.Cos, pos)
  }

  /** ExpressionType.generateRandomExpression(): one nextInt(SIZE) picks the variant. */
  function RandomKind(u: nat -> real, pos: nat): (r: (P.Kind, nat))
    requires Unit(u)
    ensures r.1 > pos
    ensures !r.0.Power? && !r.0.AbsoluteValue?
    ensures r.0.Variable? ==> r.0.name == "X" || r.0.name == "Y"
  {
    KindOf(Expressions[IntBelow(u(pos), Size)], u, pos + 1)
  }

  /** The tree createExpression(depth) builds from the draws starting at `pos`, together
      with the position of the first draw it leaves unused. At depth 0 a coin names a
      variable; otherwise a variant is drawn and receives as many subtrees of depth - 1
      as howManyArguments asks for, the first one drawn first. Whatever the draws, the
      tree has the generated shape and is no higher than depth ("it does not
      necessarily always reach it"). */
  function Generate(depth: nat, u: nat -> real, pos: nat): (r: (P.Expr, nat))
    requires Unit(u)
    ensures r.1 > pos
    ensures Generated(r.0) && P.Height(r.0) <= depth
  {
    if depth == 0 then (Leaf(BoolOf(u(pos))), pos + 1)
    else
      var (k, p) := RandomKind(u, pos);
      var n := P.HowManyArguments(k);
      if n == 1 then
        var (c, p1) := Generate(depth - 1, u, p);
        P.HeightOfChildren(k, [c], depth - 1);
        (P.Expr(k, [c]), p1)
      else if n == 2 then
        var (c0, p1) := Generate(depth - 1, u, p);
        var (c1, p2) := Generate(depth - 1, u, p1);
        P.HeightOfChildren(k, [c0, c1], depth - 1);
        (P.Expr(k, [c0, c1]), p2)
      else
        (P.Expr(k, []), p)
  }

  /** ExpressionType.create() */
  method Create(t: ExpressionType, rng: Random) returns (n: P.Node)
    requires rng.Valid()
    modifies rng
    ensures fresh(n) && n.expr == []
    ensures (n.kind, rng.pos) == KindOf(t, rng.u, old(rng.pos))
  {
    match t
    case Variable =>
      var b := rng.NextBoolean();
      n := new P.Node(P.Variable(if b then "X" else "Y"));
    case Multiply => n := new P.Node(P.Multiply);
    case Average => n := new P.Node(P.Average);
    case Sin => n := new P.Node(P.Sin);
    case Cos => n := new P.Node(P.Cos);
  }

  /** ExpressionType.generateRandomExpression() */
  method GenerateRandomExpression(rng: Random) returns (n: P.Node)
    requires rng.Valid()
    modifies rng
    ensures fresh(n) && n.expr == []
    ensures (n.kind, rng.pos) == RandomKind(rng.u, old(rng.pos))
  {
    var i := rng.NextInt(Size);
    n := Create(Expressions[i], rng);
  }

  /** createExpression(depth): builds the tree Generate describes, drawing from rng. */
  method CreateExpression(depth: nat, rng: Random) returns (e: P.Expr)
    requires rng.Valid()
    modifies rng
    ensures rng.Valid()
    ensures (e, rng.pos) == Generate(depth, rng.u, old(rng.pos))
    decreases depth
  {
    if depth == 0 {
      var b := rng.NextBoolean();
      return Leaf(b);
    }
    var d := depth - 1;
    var node := GenerateRandomExpression(rng);
    var n := P.HowManyArguments(node.kind);
    if n == 1 {
      var c := CreateExpression(d, rng);
      node.AddArgument(c);
      assert node.expr == [c];
    } else if n == 2 {
      var c0 := CreateExpression(d, rng);
      var c1 := CreateExpression(d, rng);
      node.AddArguments([c0, c1]);
      assert node.expr == [c0, c1];
    } else if n == -1 {
      // no variant asks for a variable number of arguments
      assert false;
    }
    e := node.Value();
  }

  /** The wrapper object: the root of one expression. */
  class ExpressionGeneratorParallel {
    var root: P.Expr

    /** new ExpressionGeneratorParallel(expressionDepth): a random tree no higher than
        expressionDepth, of the shape the generator produces. */
    constructor (expressionDepth: nat, rng: Random)
      requires rng.Valid()
      modifies rng
      ensures rng.Valid()
      ensures (root, rng.pos) == Generate(expressionDepth, rng.u, old(rng.pos))
      ensures Generated(root) && P.Height(root) <= expressionDepth
    {
      var e := CreateExpression(expressionDepth, rng);
      root := e;
    }

    /** new ExpressionGeneratorParallel(ex): wraps a ready-made tree. */
    constructor FromExpression(ex: P.Expr)
      ensures root == ex
    {
      root := ex;
    }

    /** evaluateExpression(setX, setY): the root's value at (setX, setY), in [-1, 1]
        for a generated root and coordinates in [-1, 1]. */
    method EvaluateExpression(setX: real, setY: real, sem: Semantics) returns (r: Result<Num>)
      ensures r == P.Eval(root, sem, setX, setY)
      ensures Generated(root) && BoundedTrig(sem) && -1.0 <= setX <= 1.0 && -1.0 <= setY <= 1.0
        ==> r.Ok? && InUnit(r.value)
    {
      r := P.Evaluate(root, sem, setX, setY);
      if Generated(root) && BoundedTrig(sem) && -1.0 <= setX <= 1.0 && -1.0 <= setY <= 1.0 {
        GeneratedIsPrintableAndClosed(root);
        P.EvalInUnit(root, sem, setX, setY);
      }
    }

    /** toString(): the root's text, which a generated root always has. */
    method ToString() returns (r: Result<string>)
      ensures r == P.Text(root)
      ensures Generated(root) ==> r.Ok?
    {
      r := P.ToString(root);
      if Generated(root) {
        GeneratedIsPrintableAndClosed(root);
        P.TextOkIff(root);
      }
    }
  }

  // ---------------------------------------------------------------------------
  // The trees the generator produces

  /** The shape of a generated tree: leaves are the variables X and Y with no children,
      Sin and Cos have exactly one child, Multiply and Average exactly two (addArguments
      with two subtrees), and Power and AbsoluteValue never occur. */
  ghost predicate Generated(e: P.Expr)
  {
    match e.kind
    case Variable(name) => (name == "X" || name == "Y") && e.expr == []
    case Sin => |e.expr| == 1 && Generated(e.expr[0])
    case Cos => |e.expr| == 1 && Generated(e.expr[0])
    case Multiply => |e.expr| == 2 && Generated(e.expr[0]) && Generated(e.expr[1])
    case Average => |e.expr| == 2 && Generated(e.expr[0]) && Generated(e.expr[1])
    case AbsoluteValue => false
    case Power => false
  }

  /** A generated tree prints without exception and, having no Power and a child for
      every Average, Sin and Cos, evaluates within [-1, 1]. */
  lemma {:induction false} GeneratedIsPrintableAndClosed(e: P.Expr)
    requires Generated(e)
    ensures P.Printable(e) && P.Closed(e)
  {
    match e.kind
    case Variable(_) =>
    case Sin => GeneratedIsPrintableAndClosed(e.expr[0]);
    case Cos => GeneratedIsPrintableAndClosed(e.expr[0]);
    case Multiply =>
      GeneratedIsPrintableAndClosed(e.expr[0]);
      GeneratedIsPrintableAndClosed(e.expr[1]);
    case Average =>
      GeneratedIsPrintableAndClosed(e.expr[0]);
      GeneratedIsPrintableAndClosed(e.expr[1]);
  }

  /** Every tree the generator draws prints, and for coordinates in [-1, 1] evaluates
      without exception or NaN to a value in [-1, 1]. */
  lemma GeneratedTreesBehave(depth: nat, u: nat -> real, pos: nat, sem: Semantics, x: real, y: real)
    requires Unit(u) && BoundedTrig(sem) && -1.0 <= x <= 1.0 && -1.0 <= y <= 1.0
    ensures P.Text(Generate(depth, u, pos).0).Ok?
    ensures P.Eval(Generate(depth, u, pos).0, sem, x, y).Ok?
    ensures InUnit(P.Eval(Generate(depth, u, pos).0, sem, x, y).value)
  {
    var e := Generate(depth, u, pos).0;
    GeneratedIsPrintableAndClosed(e);
    P.TextOkIff(e);
    P.EvalInUnit(e, sem, x, y);
  }
}
