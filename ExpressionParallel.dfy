/** The expression tree of the parallel design (package randomartassignment.expression).
    Every node keeps its subexpressions in a list `expr`; the variant decides how many
    of them it asks for, how it prints itself and how it evaluates. Evaluation takes the
    pixel coordinates x and y as parameters, so no node holds per-evaluation state. */
module ExpressionParallel {
  import opened Common
  import opened Numeric

  /** The subclasses of ExpressionParallel. A Variable carries its name, "X" or "Y". */
  datatype Kind =
    | Variable(name: string)
    | Multiply
    | Average
    | Sin
    | Cos
    | AbsoluteValue
    | Power

  /** A node together with its list of subexpressions (the field `expr`). */
  datatype Expr = Expr(kind: Kind, expr: seq<Expr>)

  /** howManyArguments(): 0 for no argument, 1 for one, 2 for "two or more" (Multiply,
      Average) or exactly two (Power). No variant answers anything else, -1 included. */
  function HowManyArguments(k: Kind): (n: int)
    ensures n == 0 <==> k.Variable?
    ensures n == 1 <==> (k.Sin? || k.Cos? || k.AbsoluteValue?)
    ensures n == 2 <==> (k.Multiply? || k.Average? || k.Power?)
  {
    match k
    case Variable(_) => 0
    case Multiply | Average | Power => 2
    case Sin | Cos | AbsoluteValue => 1
  }

  /** An ExpressionParallel object while its subexpressions are attached to it. The
      children are held as finished trees: the parallel design never shares a node. */
  class Node {
    const kind: Kind
    var expr: seq<Expr>

    /** The no-argument constructors: an empty child list. */
    constructor (kind: Kind)
      ensures this.kind == kind && expr == []
    {
      this.kind := kind;
      expr := [];
    }

    /** The varargs constructors: the arguments become the children, in order. */
    constructor WithArguments(kind: Kind, ex: seq<Expr>)
      ensures this.kind == kind && expr == ex
    {
      this.kind := kind;
      expr := [];
      new;
      AddArguments(ex);
    }

    /** addArgument: appends one child at the end. */
    method AddArgument(ex: Expr)
      modifies this
      ensures expr == old(expr) + [ex]
    {
      expr := expr + [ex];
    }

    /** addArguments: appends every argument, in the order given. */
    method AddArguments(ex: seq<Expr>)
      modifies this
      ensures expr == old(expr) + ex
    {
      var i := 0;
      while i < |ex|
        invariant 0 <= i <= |ex|
        invariant expr == old(expr) + ex[..i]
      {
        expr := expr + [ex[i]];
        i := i + 1;
      }
      assert ex[..i] == ex;
    }

    /** getArgument: the child at `index`, or IndexOutOfBoundsException. */
    function GetArgument(index: int): (r: Result<Expr>)
      reads this
      ensures r.Ok? <==> 0 <= index < |expr|
      ensures r.Ok? ==> r.value == expr[index]
      ensures r.Err? ==> r.fault == IndexOutOfBounds
    {
      if 0 <= index < |expr| then Ok(expr[index]) else Err(IndexOutOfBounds)
    }

    /** The tree this node currently roots. */
    function Value(): Expr
      reads this
    {
      Expr(kind, expr)
    }
  }

  // ---------------------------------------------------------------------------
  // toString

  /** The text of a tree, or the exception toString throws on it. */
  function Text(e: Expr): Result<string>
  {
    match e.kind
    case Variable(name) => Ok(name)
    case Multiply =>
      var parts :- TextAll(e.expr);
      MultiplyText(parts)
    case Average =>
      var parts :- TextAll(e.expr);
      Ok(AverageText(parts))
    case Sin =>
      if |e.expr| == 0 then Err(NoSuchElement)
      else var a :- Text(e.expr[0]); Ok(SinText(a))
    case Cos =>
      if |e.expr| == 0 then Err(NoSuchElement)
      else var a :- Text(e.expr[0]); Ok(CosText(a))
    case AbsoluteValue =>
      if |e.expr| == 0 then Err(NoSuchElement)
      else var a :- Text(e.expr[0]); Ok("abs(" + a + ")")
    case Power =>
      // left to right: child 0 is fetched and printed before child 1 is fetched
      if |e.expr| < 1 then Err(IndexOutOfBounds)
      else var a :- Text(e.expr[0]);
      if |e.expr| < 2 then Err(IndexOutOfBounds)
      else var b :- Text(e.expr[1]);
      Ok("(" + a + " ^ " + b + ")")
  }

  /** The children's texts, in order; the first exception met stops the walk. */
  function TextAll(cs: seq<Expr>): Result<seq<string>>
  {
    if |cs| == 0 then Ok([])
    else
      var init :- TextAll(cs[..|cs| - 1]);
      var last :- Text(cs[|cs| - 1]);
      Ok(init + [last])
  }

  lemma {:induction false} TextAllErrPersists(cs: seq<Expr>, j: nat)
    requires j <= |cs| && TextAll(cs[..j]).Err?
    ensures TextAll(cs) == TextAll(cs[..j])
    decreases |cs| - j
  {
    if j < |cs| {
      assert cs[..j + 1][..j] == cs[..j];
      TextAllErrPersists(cs, j + 1);
    } else {
      assert cs[..j] == cs;
    }
  }

  /** The loop shared by Multiply.toString and Average.toString: starting from `ret`,
      append each child's text followed by `sep`. */
  method Accumulate(cs: seq<Expr>, ret: string, sep: string) returns (r: Result<string>)
    ensures TextAll(cs).Ok? <==> r.Ok?
    ensures r.Ok? ==> r.value == ret + Trailing(TextAll(cs).value, sep)
    ensures r.Err? ==> r == Err(TextAll(cs).fault)
    decreases cs
  {
    var acc := ret;
    var i := 0;
    while i < |cs|
      invariant 0 <= i <= |cs|
      invariant TextAll(cs[..i]).Ok?
      invariant acc == ret + Trailing(TextAll(cs[..i]).value, sep)
    {
      assert cs[..i + 1][..i] == cs[..i];
      var s := ToString(cs[i]);
      if s.Err? {
        TextAllErrPersists(cs, i + 1);
        return Err(s.fault);
      }
      ghost var before := TextAll(cs[..i]).value;
      assert (before + [s.value])[..|before|] == before;
      acc := acc + s.value + sep;
      i := i + 1;
    }
    assert cs[..i] == cs;
    r := Ok(acc);
  }

  /** toString, as the classes compute it: Multiply and Average accumulate
      `text + separator` over the children and then cut the last separator off. */
  method ToString(e: Expr) returns (r: Result<string>)
    ensures r == Text(e)
    decreases e
  {
    match e.kind
    case Variable(name) =>
      r := Ok(name);
    case Multiply =>
      var ret :- Accumulate(e.expr, "", " * ");
      ghost var parts := TextAll(e.expr).value;
      assert ret == Trailing(parts, " * ");
      MultiplyTruncation(parts);
      if |ret| < 3 {
        return Err(StringIndexOutOfBounds);
      }
      r := Ok(ret[..|ret| - 3]);
    case Average =>
      var ret :- Accumulate(e.expr, "avg(", ", ");
      AverageTruncation(TextAll(e.expr).value);
      r := Ok(ret[..|ret| - 2] + ")");
    case Sin =>
      if |e.expr| == 0 {
        return Err(NoSuchElement);
      }
      var a :- ToString(e.expr[0]);
      r := Ok(SinText(a));
    case Cos =>
      if |e.expr| == 0 {
        return Err(NoSuchElement);
      }
      var a :- ToString(e.expr[0]);
      r := Ok(CosText(a));
    case AbsoluteValue =>
      if |e.expr| == 0 {
        return Err(NoSuchElement);
      }
      var a :- ToString(e.expr[0]);
      r := Ok("abs(" + a + ")");
    case Power =>
      if |e.expr| < 1 {
        return Err(IndexOutOfBounds);
      }
      var a :- ToString(e.expr[0]);
      if |e.expr| < 2 {
        return Err(IndexOutOfBounds);
      }
      var b :- ToString(e.expr[1]);
      r := Ok("(" + a + " ^ " + b + ")");
  }

  // ---------------------------------------------------------------------------
  // evaluate

  /** The value of a tree at (x, y), or the exception evaluate throws on it. */
  function Eval(e: Expr, sem: Semantics, x: real, y: real): Result<Num>
  {
    match e.kind
    case Variable(name) => Ok(Finite(if name == "X" then x else y))
    case Multiply =>
      var vals :- EvalAll(e.expr, sem, x, y);
      Ok(Product(vals))
    case Average =>
      var vals :- EvalAll(e.expr, sem, x, y);
      Ok(Mean(vals))
    case Sin =>
      if |e.expr| == 0 then Err(NoSuchElement)
      else var a :- Eval(e.expr[0], sem, x, y); Ok(SinPi(sem, a))
    case Cos =>
      if |e.expr| == 0 then Err(NoSuchElement)
      else var a :- Eval(e.expr[0], sem, x, y); Ok(CosPi(sem, a))
    case AbsoluteValue =>
      if |e.expr| == 0 then Err(NoSuchElement)
      else var a :- Eval(e.expr[0], sem, x, y); Ok(Abs(a))
    case Power =>
      // the first child raised to the absolute value of the second
      if |e.expr| < 1 then Err(IndexOutOfBounds)
      else var a :- Eval(e.expr[0], sem, x, y);
      if |e.expr| < 2 then Err(IndexOutOfBounds)
      else var b :- Eval(e.expr[1], sem, x, y);
      Ok(Pow(sem, a, Abs(b)))
  }

  /** The children's values, in order; the first exception met stops the walk. */
  function EvalAll(cs: seq<Expr>, sem: Semantics, x: real, y: real): Result<seq<Num>>
  {
    if |cs| == 0 then Ok([])
    else
      var init :- EvalAll(cs[..|cs| - 1], sem, x, y);
      var last :- Eval(cs[|cs| - 1], sem, x, y);
      Ok(init + [last])
  }

  lemma {:induction false} EvalAllErrPersists(cs: seq<Expr>, j: nat, sem: Semantics, x: real, y: real)
    requires j <= |cs| && EvalAll(cs[..j], sem, x, y).Err?
    ensures EvalAll(cs, sem, x, y) == EvalAll(cs[..j], sem, x, y)
    decreases |cs| - j
  {
    if j < |cs| {
      assert cs[..j + 1][..j] == cs[..j];
      EvalAllErrPersists(cs, j + 1, sem, x, y);
    } else {
      assert cs[..j] == cs;
    }
  }

  /** The loop of Multiply.evaluate: each child's value, in order, is multiplied into
      a product that starts at 1. */
  method MultiplyLoop(cs: seq<Expr>, sem: Semantics, x: real, y: real) returns (r: Result<Num>)
    ensures EvalAll(cs, sem, x, y).Ok? <==> r.Ok?
    ensures r.Ok? ==> r.value == Product(EvalAll(cs, sem, x, y).value)
    ensures r.Err? ==> r == Err(EvalAll(cs, sem, x, y).fault)
    decreases cs
  {
    var product := Finite(1.0);
    var i := 0;
    while i < |cs|
      invariant 0 <= i <= |cs|
      invariant EvalAll(cs[..i], sem, x, y).Ok?
      invariant product == Product(EvalAll(cs[..i], sem, x, y).value)
    {
      assert cs[..i + 1][..i] == cs[..i];
      var v := Evaluate(cs[i], sem, x, y);
      if v.Err? {
        EvalAllErrPersists(cs, i + 1, sem, x, y);
        return Err(v.fault);
      }
      ghost var before := EvalAll(cs[..i], sem, x, y).value;
      assert (before + [v.value])[..|before|] == before;
      product := Mul(product, v.value);
      i := i + 1;
    }
    assert cs[..i] == cs;
    r := Ok(product);
  }

  /** The loop of Average.evaluate: each child's value, in order, is added to a total
      that starts at 0 (the division follows it). */
  method AverageLoop(cs: seq<Expr>, sem: Semantics, x: real, y: real) returns (r: Result<Num>)
    ensures EvalAll(cs, sem, x, y).Ok? <==> r.Ok?
    ensures r.Ok? ==> |EvalAll(cs, sem, x, y).value| == |cs| && r.value == Sum(EvalAll(cs, sem, x, y).value)
    ensures r.Err? ==> r == Err(EvalAll(cs, sem, x, y).fault)
    decreases cs
  {
    var total := Finite(0.0);
    var i := 0;
    while i < |cs|
      invariant 0 <= i <= |cs|
      invariant EvalAll(cs[..i], sem, x, y).Ok?
      invariant |EvalAll(cs[..i], sem, x, y).value| == i
      invariant total == Sum(EvalAll(cs[..i], sem, x, y).value)
    {
      assert cs[..i + 1][..i] == cs[..i];
      var v := Evaluate(cs[i], sem, x, y);
      if v.Err? {
        EvalAllErrPersists(cs, i + 1, sem, x, y);
        return Err(v.fault);
      }
      ghost var before := EvalAll(cs[..i], sem, x, y).value;
      assert (before + [v.value])[..|before|] == before;
      total := Add(total, v.value);
      i := i + 1;
    }
    assert cs[..i] == cs;
    r := Ok(total);
  }

  /** evaluate, as the classes compute it: Average divides the total of its loop by
      the number of children. */
  method Evaluate(e: Expr, sem: Semantics, x: real, y: real) returns (r: Result<Num>)
    ensures r == Eval(e, sem, x, y)
    decreases e
  {
    match e.kind
    case Variable(name) =>
      r := Ok(Finite(if name == "X" then x else y));
    case Multiply =>
      r := MultiplyLoop(e.expr, sem, x, y);
    case Average =>
      var total :- AverageLoop(e.expr, sem, x, y);
      r := Ok(DivBy(total, |e.expr|));
    case Sin =>
      if |e.expr| == 0 {
        return Err(NoSuchElement);
      }
      var a :- Evaluate(e.expr[0], sem, x, y);
      r := Ok(SinPi(sem, a));
    case Cos =>
      if |e.expr| == 0 {
        return Err(NoSuchElement);
      }
      var a :- Evaluate(e.expr[0], sem, x, y);
      r := Ok(CosPi(sem, a));
    case AbsoluteValue =>
      if |e.expr| == 0 {
        return Err(NoSuchElement);
      }
      var a :- Evaluate(e.expr[0], sem, x, y);
      r := Ok(Abs(a));
    case Power =>
      if |e.expr| < 1 {
        return Err(IndexOutOfBounds);
      }
      var a :- Evaluate(e.expr[0], sem, x, y);
      if |e.expr| < 2 {
        return Err(IndexOutOfBounds);
      }
      var b :- Evaluate(e.expr[1], sem, x, y);
      r := Ok(Pow(sem, a, Abs(b)));
  }

  // ---------------------------------------------------------------------------
  // Shape

  /** The number of edges on the longest root-to-leaf path. */
  function Height(e: Expr): nat
  {
    if |e.expr| == 0 then 0 else 1 + MaxHeight(e.expr)
  }

  function MaxHeight(cs: seq<Expr>): nat
  {
    if |cs| == 0 then 0
    else
      var h, last := MaxHeight(cs[..|cs| - 1]), Height(cs[|cs| - 1]);
      if h < last then last else h
  }

  /** A tree's height is bounded by d exactly when it is a leaf, or d > 0 and every
      child's height is bounded by d - 1. */
  lemma {:induction false} HeightAtMost(e: Expr, d: nat)
    ensures Height(e) <= d <==>
      (|e.expr| == 0 || (d > 0 && forall i :: 0 <= i < |e.expr| ==> Height(e.expr[i]) <= d - 1))
  {
    if |e.expr| > 0 && d > 0 {
      MaxHeightAtMost(e.expr, d - 1);
    }
  }

  /** A node is at most one higher than the highest of its children. */
  lemma HeightOfChildren(k: Kind, cs: seq<Expr>, d: nat)
    requires forall i :: 0 <= i < |cs| ==> Height(cs[i]) <= d
    ensures Height(Expr(k, cs)) <= d + 1
  {
    HeightAtMost(Expr(k, cs), d + 1);
  }

  lemma {:induction false} MaxHeightAtMost(cs: seq<Expr>, d: nat)
    ensures MaxHeight(cs) <= d <==> forall i :: 0 <= i < |cs| ==> Height(cs[i]) <= d
  {
    if |cs| > 0 {
      var n := |cs|;
      MaxHeightAtMost(cs[..n - 1], d);
      assert forall i :: 0 <= i < n - 1 ==> cs[..n - 1][i] == cs[i];
    }
  }

  // ---------------------------------------------------------------------------
  // When toString and evaluate throw

  /** The trees toString prints without an exception: Multiply needs a child (the
      substring), Sin, Cos and AbsoluteValue a first child (getFirst), Power two children
      (get(0), get(1)); Average prints even with none. Only the children read count. */
  ghost predicate Printable(e: Expr)
  {
    match e.kind
    case Variable(_) => true
    case Multiply => |e.expr| > 0 && forall i :: 0 <= i < |e.expr| ==> Printable(e.expr[i])
    case Average => forall i :: 0 <= i < |e.expr| ==> Printable(e.expr[i])
    case Sin => |e.expr| > 0 && Printable(e.expr[0])
    case Cos => |e.expr| > 0 && Printable(e.expr[0])
    case AbsoluteValue => |e.expr| > 0 && Printable(e.expr[0])
    case Power => |e.expr| > 1 && Printable(e.expr[0]) && Printable(e.expr[1])
  }

  /** The trees evaluate computes without an exception: as Printable, except that a
      Multiply with no children is fine (the empty product, 1). */
  ghost predicate Evaluable(e: Expr)
  {
    match e.kind
    case Variable(_) => true
    case Multiply => forall i :: 0 <= i < |e.expr| ==> Evaluable(e.expr[i])
    case Average => forall i :: 0 <= i < |e.expr| ==> Evaluable(e.expr[i])
    case Sin => |e.expr| > 0 && Evaluable(e.expr[0])
    case Cos => |e.expr| > 0 && Evaluable(e.expr[0])
    case AbsoluteValue => |e.expr| > 0 && Evaluable(e.expr[0])
    case Power => |e.expr| > 1 && Evaluable(e.expr[0]) && Evaluable(e.expr[1])
  }

  lemma {:induction false} TextOkIff(e: Expr)
    ensures Text(e).Ok? <==> Printable(e)
  {
    match e.kind
    case Variable(_) =>
    case Multiply => TextAllOkIff(e.expr);
    case Average => TextAllOkIff(e.expr);
    case Sin => if |e.expr| > 0 { TextOkIff(e.expr[0]); }
    case Cos => if |e.expr| > 0 { TextOkIff(e.expr[0]); }
    case AbsoluteValue => if |e.expr| > 0 { TextOkIff(e.expr[0]); }
    case Power =>
      if |e.expr| > 0 { TextOkIff(e.expr[0]); }
      if |e.expr| > 1 { TextOkIff(e.expr[1]); }
  }

  lemma {:induction false} TextAllOkIff(cs: seq<Expr>)
    ensures TextAll(cs).Ok? <==> forall i :: 0 <= i < |cs| ==> Printable(cs[i])
    ensures TextAll(cs).Ok? ==> |TextAll(cs).value| == |cs|
  {
    if |cs| > 0 {
      var n := |cs|;
      TextAllOkIff(cs[..n - 1]);
      TextOkIff(cs[n - 1]);
      assert forall i :: 0 <= i < n - 1 ==> cs[..n - 1][i] == cs[i];
    }
  }

  lemma {:induction false} EvalOkIff(e: Expr, sem: Semantics, x: real, y: real)
    ensures Eval(e, sem, x, y).Ok? <==> Evaluable(e)
  {
    match e.kind
    case Variable(_) =>
    case Multiply => EvalAllOkIff(e.expr, sem, x, y);
    case Average => EvalAllOkIff(e.expr, sem, x, y);
    case Sin => if |e.expr| > 0 { EvalOkIff(e.expr[0], sem, x, y); }
    case Cos => if |e.expr| > 0 { EvalOkIff(e.expr[0], sem, x, y); }
    case AbsoluteValue => if |e.expr| > 0 { EvalOkIff(e.expr[0], sem, x, y); }
    case Power =>
      if |e.expr| > 0 { EvalOkIff(e.expr[0], sem, x, y); }
      if |e.expr| > 1 { EvalOkIff(e.expr[1], sem, x, y); }
  }

  lemma {:induction false} EvalAllOkIff(cs: seq<Expr>, sem: Semantics, x: real, y: real)
    ensures EvalAll(cs, sem, x, y).Ok? <==> forall i :: 0 <= i < |cs| ==> Evaluable(cs[i])
  {
    if |cs| > 0 {
      var n := |cs|;
      EvalAllOkIff(cs[..n - 1], sem, x, y);
      EvalOkIff(cs[n - 1], sem, x, y);
      assert forall i :: 0 <= i < n - 1 ==> cs[..n - 1][i] == cs[i];
    }
  }

  // ---------------------------------------------------------------------------
  // The documented range [-1, 1]

  /** The trees whose value the design keeps in [-1, 1]: no Power, and every Average
      and unary node has the child it reads. */
  ghost predicate Closed(e: Expr)
  {
    match e.kind
    case Variable(_) => true
    case Multiply => forall i :: 0 <= i < |e.expr| ==> Closed(e.expr[i])
    case Average => |e.expr| > 0 && forall i :: 0 <= i < |e.expr| ==> Closed(e.expr[i])
    case Sin => |e.expr| > 0 && Closed(e.expr[0])
    case Cos => |e.expr| > 0 && Closed(e.expr[0])
    case AbsoluteValue => |e.expr| > 0 && Closed(e.expr[0])
    case Power => false
  }

  /** For x and y in [-1, 1], a Closed tree evaluates, without exception or NaN, to a
      value in [-1, 1], whatever sine and cosine are as long as they stay in [-1, 1]. */
  lemma {:induction false} EvalInUnit(e: Expr, sem: Semantics, x: real, y: real)
    requires BoundedTrig(sem) && -1.0 <= x <= 1.0 && -1.0 <= y <= 1.0
    requires Closed(e)
    ensures Eval(e, sem, x, y).Ok? && InUnit(Eval(e, sem, x, y).value)
  {
    match e.kind
    case Variable(_) =>
    case Multiply =>
      EvalAllInUnit(e.expr, sem, x, y);
      ProductInUnit(EvalAll(e.expr, sem, x, y).value);
    case Average =>
      EvalAllInUnit(e.expr, sem, x, y);
      MeanInUnit(EvalAll(e.expr, sem, x, y).value);
    case Sin => EvalInUnit(e.expr[0], sem, x, y);
    case Cos => EvalInUnit(e.expr[0], sem, x, y);
    case AbsoluteValue => EvalInUnit(e.expr[0], sem, x, y);
  }

  lemma {:induction false} EvalAllInUnit(cs: seq<Expr>, sem: Semantics, x: real, y: real)
    requires BoundedTrig(sem) && -1.0 <= x <= 1.0 && -1.0 <= y <= 1.0
    requires forall i :: 0 <= i < |cs| ==> Closed(cs[i])
    ensures EvalAll(cs, sem, x, y).Ok?
    ensures |EvalAll(cs, sem, x, y).value| == |cs|
    ensures forall i :: 0 <= i < |cs| ==> InUnit(EvalAll(cs, sem, x, y).value[i])
  {
    if |cs| > 0 {
      var n := |cs|;
      EvalAllInUnit(cs[..n - 1], sem, x, y);
      EvalInUnit(cs[n - 1], sem, x, y);
    }
  }

  // ---------------------------------------------------------------------------
  // Which children a node reads

  /** Variable.evaluate answers x exactly for the name "X" and y for any other name, and
      Variable.toString is the name; a Variable's own child list is never read. */
  lemma VariableSelects(name: string, cs: seq<Expr>, sem: Semantics, x: real, y: real)
    ensures Eval(Expr(Variable(name), cs), sem, x, y) == Ok(Finite(if name == "X" then x else y))
    ensures Text(Expr(Variable(name), cs)) == Ok(name)
  {
  }

  /** Sin, Cos and AbsoluteValue read only their first child (getFirst): children after
      it change neither the text nor the value. */
  lemma UnaryReadsFirstOnly(k: Kind, c: Expr, rest: seq<Expr>, sem: Semantics, x: real, y: real)
    requires k.Sin? || k.Cos? || k.AbsoluteValue?
    ensures Text(Expr(k, [c] + rest)) == Text(Expr(k, [c]))
    ensures Eval(Expr(k, [c] + rest), sem, x, y) == Eval(Expr(k, [c]), sem, x, y)
  {
  }

  /** Sin.toString and Cos.toString wrap the first child's text in "sin(pi * ...)" and
      "cos(pi * ...)"; an empty child list throws NoSuchElementException. */
  lemma TrigText(c: Expr, rest: seq<Expr>)
    ensures Text(Expr(Sin, [])) == Text(Expr(Cos, [])) == Err(NoSuchElement)
    ensures Text(c).Ok? ==> Text(Expr(Sin, [c] + rest)) == Ok("sin(pi * " + Text(c).value + ")")
    ensures Text(c).Ok? ==> Text(Expr(Cos, [c] + rest)) == Ok("cos(pi * " + Text(c).value + ")")
  {
  }

  lemma TextAllPair(a: Expr, b: Expr)
    requires Text(a).Ok? && Text(b).Ok?
    ensures TextAll([a, b]) == Ok([Text(a).value, Text(b).value])
  {
    var ta, tb := Text(a).value, Text(b).value;
    var none: seq<string> := [];
    assert [a][..0] == [];
    assert none + [ta] == [ta];
    assert TextAll([a]) == Ok([ta]);
    var cs := [a, b];
    assert cs[..|cs| - 1] == [a] && cs[|cs| - 1] == b;
    assert [ta] + [tb] == [ta, tb];
  }

  lemma MultiplyPairText(a: Expr, b: Expr)
    requires Text(a).Ok? && Text(b).Ok?
    ensures Text(Expr(Multiply, [a, b])) == Ok(Text(a).value + " * " + Text(b).value)
  {
    TextAllPair(a, b);
    var p := [Text(a).value, Text(b).value];
    assert p[..1] == [p[0]];
    assert Join(p, " * ") == Join([p[0]], " * ") + " * " + p[1];
  }

  /** Multiply prints its children with " * " between them and no parentheses, so two
      different trees can print the same text: toString is not injective. */
  lemma MultiplyTextAmbiguous()
    ensures var vx, vy := Expr(Variable("X"), []), Expr(Variable("Y"), []);
      var left := Expr(Multiply, [Expr(Multiply, [vx, vy]), vx]);
      var right := Expr(Multiply, [vx, Expr(Multiply, [vy, vx])]);
      left != right && Text(left) == Text(right) == Ok("X * Y * X")
  {
    var vx, vy := Expr(Variable("X"), []), Expr(Variable("Y"), []);
    assert Text(vx) == Ok("X") && Text(vy) == Ok("Y");
    assert "X" + " * " + "Y" == "X * Y" && "Y" + " * " + "X" == "Y * X";
    MultiplyPairText(vx, vy);
    MultiplyPairText(vy, vx);
    var xy, yx := Expr(Multiply, [vx, vy]), Expr(Multiply, [vy, vx]);
    assert Text(xy) == Ok("X * Y") && Text(yx) == Ok("Y * X");
    MultiplyPairText(xy, vx);
    MultiplyPairText(vx, yx);
    assert "X * Y" + " * " + "X" == "X * Y * X" == "X" + " * " + "Y * X";
  }

  lemma EvalAllPair(a: Expr, b: Expr, sem: Semantics, x: real, y: real)
    requires Eval(a, sem, x, y).Ok? && Eval(b, sem, x, y).Ok?
    ensures EvalAll([a, b], sem, x, y) == Ok([Eval(a, sem, x, y).value, Eval(b, sem, x, y).value])
  {
    var va, vb := Eval(a, sem, x, y).value, Eval(b, sem, x, y).value;
    var none: seq<Num> := [];
    assert [a][..0] == [];
    assert none + [va] == [va];
    assert EvalAll([a], sem, x, y) == Ok([va]);
    var cs := [a, b];
    assert cs[..|cs| - 1] == [a] && cs[|cs| - 1] == b;
    assert [va] + [vb] == [va, vb];
  }

  /** Multiply(X, X) evaluated at x = 0.5 is exactly 0.25, whatever y and the library
      functions are. */
  lemma SquareAtHalf(sem: Semantics, y: real)
    ensures var vx := Expr(Variable("X"), []);
      Eval(Expr(Multiply, [vx, vx]), sem, 0.5, y) == Ok(Finite(0.25))
  {
    var vx := Expr(Variable("X"), []);
    assert Eval(vx, sem, 0.5, y) == Ok(Finite(0.5));
    EvalAllPair(vx, vx, sem, 0.5, y);
    ProductPair(Finite(0.5), Finite(0.5));
  }
}
