/** The expression tree of the legacy design (src/Expression.java). Its variants print
    and evaluate as those of the parallel design, except that a Variable is an object
    holding its own current value `self`, which evaluate() returns. A tree is modelled
    as a value whose leaves are references to Variable objects, so two leaves may be
    the same object, as the generator makes them. */
module Expression {
  import opened Common
  import opened Numeric
  import P = ExpressionParallel

  /** Expression.Variable: a name, and the value last given by changeSelf. */
  class Variable {
    const name: string
    var self: real

    /** new Variable(n): named n, with value 0. */
    constructor (n: string)
      ensures name == n && self == 0.0
    {
      name := n;
      self := 0.0;
    }

    /** changeSelf(s): afterwards evaluate() answers s; the name stays. */
    method ChangeSelf(s: real)
      modifies this
      ensures self == s && Evaluate() == s
    {
      self := s;
    }

    /** evaluate() */
    function Evaluate(): real
      reads this
    {
      self
    }
  }

  /** The operator subclasses of Expression. */
  datatype Operator = Multiply | Average | Sin | Cos

  /** A leaf is a Variable object; an operator node holds its list `expr` of children. */
  datatype Expression = Leaf(v: Variable) | Op(op: Operator, expr: seq<Expression>)

  /** howManyArguments(): 0 for a Variable, 2 for Multiply and Average, 1 for Sin and Cos. */
  function HowManyArguments(e: Expression): (n: int)
    ensures n == 0 <==> e.Leaf?
    ensures n == 1 <==> (e.Op? && (e.op.Sin? || e.op.Cos?))
    ensures n == 2 <==> (e.Op? && (e.op.Multiply? || e.op.Average?))
  {
    match e
    case Leaf(_) => 0
    case Op(op, _) => if op.Multiply? || op.Average? then 2 else 1
  }

  /** An operator object while its children are attached to it. */
  class Operation {
    const op: Operator
    var expr: seq<Expression>

    /** The no-argument constructors: an empty child list. */
    constructor (op: Operator)
      ensures this.op == op && expr == []
    {
      this.op := op;
      expr := [];
    }

    /** The varargs constructors: the arguments become the children, in order. */
    constructor WithArguments(op: Operator, ex: seq<Expression>)
      ensures this.op == op && expr == ex
    {
      this.op := op;
      expr := [];
      new;
      AddArguments(ex);
    }

    /** addArgument: appends one child at the end. */
    method AddArgument(ex: Expression)
      modifies this
      ensures expr == old(expr) + [ex]
    {
      expr := expr + [ex];
    }

    /** addArguments: appends every argument, in the order given. */
    method AddArguments(ex: seq<Expression>)
      modifies this
      ensures expr == old(expr) + ex
    {
      var i := 0;
      while i < |ex|
        invariant 0 <= i <= |ex|
        invariant expr == old(expr) + ex[..i]
      {
        expr := expr + [ex[i]];
        i := i + 1;
      }
      assert ex[..i] == ex;
    }

    /** getArgument: the child at `index`, or IndexOutOfBoundsException. */
    function GetArgument(index: int): (r: Result<Expression>)
      reads this
      ensures r.Ok? <==> 0 <= index < |expr|
      ensures r.Ok? ==> r.value == expr[index]
      ensures r.Err? ==> r.fault == IndexOutOfBounds
    {
      if 0 <= index < |expr| then Ok(expr[index]) else Err(IndexOutOfBounds)
    }

    /** The tree this node currently roots. */
    function Value(): Expression
      reads this
    {
      Op(op, expr)
    }
  }

  // ---------------------------------------------------------------------------
  // toString

  /** The text of a tree, or the exception toString throws on it. */
  function Text(e: Expression): Result<string>
  {
    match e
    case Leaf(v) => Ok(v.name)
    case Op(Multiply, cs) =>
      var parts :- TextAll(cs);
      MultiplyText(parts)
    case Op(Average, cs) =>
      var parts :- TextAll(cs);
      Ok(AverageText(parts))
    case Op(Sin, cs) =>
      if |cs| == 0 then Err(NoSuchElement)
      else var a :- Text(cs[0]); Ok(SinText(a))
    case Op(Cos, cs) =>
      if |cs| == 0 then Err(NoSuchElement)
      else var a :- Text(cs[0]); Ok(CosText(a))
  }

  /** The children's texts, in order; the first exception met stops the walk. */
  function TextAll(cs: seq<Expression>): Result<seq<string>>
  {
    if |cs| == 0 then Ok([])
    else
      var init :- TextAll(cs[..|cs| - 1]);
      var last :- Text(cs[|cs| - 1]);
      Ok(init + [last])
  }

  lemma {:induction false} TextAllErrPersists(cs: seq<Expression>, j: nat)
    requires j <= |cs| && TextAll(cs[..j]).Err?
    ensures TextAll(cs) == TextAll(cs[..j])
    decreases |cs| - j
  {
    if j < |cs| {
      assert cs[..j + 1][..j] == cs[..j];
      TextAllErrPersists(cs, j + 1);
    } else {
      assert cs[..j] == cs;
    }
  }

  /** The loop of Multiply.toString and Average.toString: starting from `ret`, append
      each child's text followed by `sep`. */
  method Accumulate(cs: seq<Expression>, ret: string, sep: string) returns (r: Result<string>)
    ensures TextAll(cs).Ok? <==> r.Ok?
    ensures r.Ok? ==> r.value == ret + Trailing(TextAll(cs).value, sep)
    ensures r.Err? ==> r == Err(TextAll(cs).fault)
    decreases cs
  {
    var acc := ret;
    var i := 0;
    while i < |cs|
      invariant 0 <= i <= |cs|
      invariant TextAll(cs[..i]).Ok?
      invariant acc == ret + Trailing(TextAll(cs[..i]).value, sep)
    {
      assert cs[..i + 1][..i] == cs[..i];
      var s := ToString(cs[i]);
      if s.Err? {
        TextAllErrPersists(cs, i + 1);
        return Err(s.fault);
      }
      ghost var before := TextAll(cs[..i]).value;
      assert (before + [s.value])[..|before|] == before;
      acc := acc + s.value + sep;
      i := i + 1;
    }
    assert cs[..i] == cs;
    r := Ok(acc);
  }

  /** toString, as the classes compute it. */
  method ToString(e: Expression) returns (r: Result<string>)
    ensures r == Text(e)
    decreases e
  {
    match e
    case Leaf(v) =>
      r := Ok(v.name);
    case Op(Multiply, cs) =>
      var ret :- Accumulate(cs, "", " * ");
      ghost var parts := TextAll(cs).value;
      assert ret == Trailing(parts, " * ");
      MultiplyTruncation(parts);
      if |ret| < 3 {
        return Err(StringIndexOutOfBounds);
      }
      r := Ok(ret[..|ret| - 3]);
    case Op(Average, cs) =>
      var ret :- Accumulate(cs, "avg(", ", ");
      AverageTruncation(TextAll(cs).value);
      r := Ok(ret[..|ret| - 2] + ")");
    case Op(Sin, cs) =>
      if |cs| == 0 {
        return Err(NoSuchElement);
      }
      var a :- ToString(cs[0]);
      r := Ok(SinText(a));
    case Op(Cos, cs) =>
      if |cs| == 0 {
        return Err(NoSuchElement);
      }
      var a :- ToString(cs[0]);
      r := Ok(CosText(a));
  }

  // ---------------------------------------------------------------------------
  // evaluate

  /** Variable.evaluate answers the object's current value, whatever its name, and
      Variable.toString is the name. */
  lemma VariableLeaf(v: Variable, sem: Semantics)
    ensures Eval(Leaf(v), sem) == Ok(Finite(v.Evaluate()))
    ensures Text(Leaf(v)) == Ok(v.name)
  {
  }

  /** The Variable objects at the leaves: what evaluate() reads. */
  function Leaves(e: Expression): set<Variable>
  {
    match e
    case Leaf(v) => {v}
    case Op(_, cs) => LeavesAll(cs)
  }

  function LeavesAll(cs: seq<Expression>): set<Variable>
  {
    if |cs| == 0 then {} else LeavesAll(cs[..|cs| - 1]) + Leaves(cs[|cs| - 1])
  }

  /** The leaves of a tree held by the program are allocated objects (so a call that
      allocates but modifies nothing leaves their values, and Eval, unchanged). */
  lemma {:induction false} LeavesAllocated(cs: seq<Expression>)
    ensures forall v :: v in LeavesAll(cs) ==> allocated(v)
  {
    if |cs| > 0 {
      LeavesAllocated(cs[..|cs| - 1]);
      match cs[|cs| - 1]
      case Leaf(_) =>
      case Op(_, children) =>
        LeavesAllocated(children);
        assert Leaves(cs[|cs| - 1]) == LeavesAll(children);
    }
  }

  lemma {:induction false} LeavesOfChild(cs: seq<Expression>, i: nat)
    requires i < |cs|
    ensures Leaves(cs[i]) <= LeavesAll(cs)
  {
    if i < |cs| - 1 {
      LeavesOfChild(cs[..|cs| - 1], i);
    }
  }

  /** The value of a tree in the current heap: each leaf answers its object's `self`. */
  function Eval(e: Expression, sem: Semantics): Result<Num>
    reads Leaves(e)
  {
    match e
    case Leaf(v) => Ok(Finite(v.self))
    case Op(Multiply, cs) =>
      var vals :- EvalAll(cs, sem);
      Ok(Product(vals))
    case Op(Average, cs) =>
      var vals :- EvalAll(cs, sem);
      Ok(Mean(vals))
    case Op(Sin, cs) =>
      if |cs| == 0 then Err(NoSuchElement)
      else LeavesOfChild(cs, 0); var a :- Eval(cs[0], sem); Ok(SinPi(sem, a))
    case Op(Cos, cs) =>
      if |cs| == 0 then Err(NoSuchElement)
      else LeavesOfChild(cs, 0); var a :- Eval(cs[0], sem); Ok(CosPi(sem, a))
  }

  /** The children's values, in order; the first exception met stops the walk. */
  function EvalAll(cs: seq<Expression>, sem: Semantics): Result<seq<Num>>
    reads LeavesAll(cs)
  {
    if |cs| == 0 then Ok([])
    else
      var init :- EvalAll(cs[..|cs| - 1], sem);
      var last :- Eval(cs[|cs| - 1], sem);
      Ok(init + [last])
  }

  lemma {:induction false} EvalAllErrPersists(cs: seq<Expression>, j: nat, sem: Semantics)
    requires j <= |cs| && EvalAll(cs[..j], sem).Err?
    ensures EvalAll(cs, sem) == EvalAll(cs[..j], sem)
    decreases |cs| - j
  {
    if j < |cs| {
      assert cs[..j + 1][..j] == cs[..j];
      EvalAllErrPersists(cs, j + 1, sem);
    } else {
      assert cs[..j] == cs;
    }
  }

  /** The loop of Multiply.evaluate: each child's value, in order, is multiplied into
      a product that starts at 1. */
  method MultiplyLoop(cs: seq<Expression>, sem: Semantics) returns (r: Result<Num>)
    ensures EvalAll(cs, sem).Ok? <==> r.Ok?
    ensures r.Ok? ==> r.value == Product(EvalAll(cs, sem).value)
    ensures r.Err? ==> r == Err(EvalAll(cs, sem).fault)
    decreases cs
  {
    var product := Finite(1.0);
    var i := 0;
    while i < |cs|
      invariant 0 <= i <= |cs|
      invariant EvalAll(cs[..i], sem).Ok?
      invariant product == Product(EvalAll(cs[..i], sem).value)
    {
      assert cs[..i + 1][..i] == cs[..i];
      LeavesAllocated(cs[..i]);
      var v := Evaluate(cs[i], sem);
      if v.Err? {
        EvalAllErrPersists(cs, i + 1, sem);
        return Err(v.fault);
      }
      ghost var before := EvalAll(cs[..i], sem).value;
      assert (before + [v.value])[..|before|] == before;
      product := Mul(product, v.value);
      i := i + 1;
    }
    assert cs[..i] == cs;
    r := Ok(product);
  }

  /** The loop of Average.evaluate: each child's value, in order, is added to a total
      that starts at 0 (the division follows it). */
  method AverageLoop(cs: seq<Expression>, sem: Semantics) returns (r: Result<Num>)
    ensures EvalAll(cs, sem).Ok? <==> r.Ok?
    ensures r.Ok? ==> |EvalAll(cs, sem).value| == |cs| && r.value == Sum(EvalAll(cs, sem).value)
    ensures r.Err? ==> r == Err(EvalAll(cs, sem).fault)
    decreases cs
  {
    var total := Finite(0.0);
    var i := 0;
    while i < |cs|
      invariant 0 <= i <= |cs|
      invariant EvalAll(cs[..i], sem).Ok?
      invariant |EvalAll(cs[..i], sem).value| == i
      invariant total == Sum(EvalAll(cs[..i], sem).value)
    {
      assert cs[..i + 1][..i] == cs[..i];
      LeavesAllocated(cs[..i]);
      var v := Evaluate(cs[i], sem);
      if v.Err? {
        EvalAllErrPersists(cs, i + 1, sem);
        return Err(v.fault);
      }
      ghost var before := EvalAll(cs[..i], sem).value;
      assert (before + [v.value])[..|before|] == before;
      total := Add(total, v.value);
      i := i + 1;
    }
    assert cs[..i] == cs;
    r := Ok(total);
  }

  /** evaluate, as the classes compute it: Average divides its total by the number of
      children. */
  method Evaluate(e: Expression, sem: Semantics) returns (r: Result<Num>)
    ensures r == Eval(e, sem)
    decreases e
  {
    match e
    case Leaf(v) =>
      r := Ok(Finite(v.Evaluate()));
    case Op(Multiply, cs) =>
      r := MultiplyLoop(cs, sem);
    case Op(Average, cs) =>
      var total :- AverageLoop(cs, sem);
      r := Ok(DivBy(total, |cs|));
    case Op(Sin, cs) =>
      if |cs| == 0 {
        return Err(NoSuchElement);
      }
      var a :- Evaluate(cs[0], sem);
      r := Ok(SinPi(sem, a));
    case Op(Cos, cs) =>
      if |cs| == 0 {
        return Err(NoSuchElement);
      }
      var a :- Evaluate(cs[0], sem);
      r := Ok(CosPi(sem, a));
  }

  // ---------------------------------------------------------------------------
  // The two designs agree

  /** The parallel tree with the same shape: each leaf becomes a parallel Variable of
      the same name. */
  function Translate(e: Expression): P.Expr
  {
    match e
    case Leaf(v) => P.Expr(P.Variable(v.name), [])
    case Op(op, cs) => P.Expr(KindOf(op), TranslateAll(cs))
  }

  function TranslateAll(cs: seq<Expression>): (r: seq<P.Expr>)
    ensures |r| == |cs|
  {
    if |cs| == 0 then [] else TranslateAll(cs[..|cs| - 1]) + [Translate(cs[|cs| - 1])]
  }

  function KindOf(op: Operator): P.Kind
  {
    match op
    case Multiply => P.Multiply
    case Average => P.Average
    case Sin => P.Sin
    case Cos => P.Cos
  }

  lemma {:induction false} TranslateAllIndex(cs: seq<Expression>, i: nat)
    requires i < |cs|
    ensures TranslateAll(cs)[i] == Translate(cs[i])
  {
    if i < |cs| - 1 {
      TranslateAllIndex(cs[..|cs| - 1], i);
    }
  }

  /** An operator node is at most one higher than the highest of its children. */
  lemma TranslateHeight(op: Operator, cs: seq<Expression>, d: nat)
    requires forall i :: 0 <= i < |cs| ==> P.Height(Translate(cs[i])) <= d
    ensures P.Height(Translate(Op(op, cs))) <= d + 1
  {
    forall i | 0 <= i < |cs|
      ensures P.Height(TranslateAll(cs)[i]) <= d
    {
      TranslateAllIndex(cs, i);
    }
    P.HeightAtMost(Translate(Op(op, cs)), d + 1);
  }

  /** Both designs print a tree alike, exceptions included. */
  lemma {:induction false} TextMatchesParallel(e: Expression)
    ensures Text(e) == P.Text(Translate(e))
  {
    match e
    case Leaf(_) =>
    case Op(Multiply, cs) => TextAllMatchesParallel(cs);
    case Op(Average, cs) => TextAllMatchesParallel(cs);
    case Op(Sin, cs) =>
      if |cs| > 0 {
        TextMatchesParallel(cs[0]);
        TranslateAllIndex(cs, 0);
      }
    case Op(Cos, cs) =>
      if |cs| > 0 {
        TextMatchesParallel(cs[0]);
        TranslateAllIndex(cs, 0);
      }
  }

  lemma {:induction false} TextAllMatchesParallel(cs: seq<Expression>)
    ensures TextAll(cs) == P.TextAll(TranslateAll(cs))
  {
    if |cs| > 0 {
      var n := |cs|;
      TextAllMatchesParallel(cs[..n - 1]);
      TextMatchesParallel(cs[n - 1]);
      assert TranslateAll(cs)[..n - 1] == TranslateAll(cs[..n - 1]);
    }
  }

  /** When every leaf is one of two objects named "X" and "Y", evaluating a legacy tree
      in the current heap gives what the parallel design computes with x and y passed
      as the values of those two objects. */
  lemma {:induction false} EvalMatchesParallel(e: Expression, sem: Semantics, x: Variable, y: Variable)
    requires x.name == "X" && y.name == "Y"
    requires Leaves(e) <= {x, y}
    ensures Eval(e, sem) == P.Eval(Translate(e), sem, x.self, y.self)
  {
    match e
    case Leaf(_) =>
    case Op(Multiply, cs) => EvalAllMatchesParallel(cs, sem, x, y);
    case Op(Average, cs) => EvalAllMatchesParallel(cs, sem, x, y);
    case Op(Sin, cs) =>
      if |cs| > 0 {
        LeavesOfChild(cs, 0);
        EvalMatchesParallel(cs[0], sem, x, y);
        TranslateAllIndex(cs, 0);
      }
    case Op(Cos, cs) =>
      if |cs| > 0 {
        LeavesOfChild(cs, 0);
        EvalMatchesParallel(cs[0], sem, x, y);
        TranslateAllIndex(cs, 0);
      }
  }

  lemma {:induction false} EvalAllMatchesParallel(cs: seq<Expression>, sem: Semantics, x: Variable, y: Variable)
    requires x.name == "X" && y.name == "Y"
    requires LeavesAll(cs) <= {x, y}
    ensures EvalAll(cs, sem) == P.EvalAll(TranslateAll(cs), sem, x.self, y.self)
  {
    if |cs| > 0 {
      var n := |cs|;
      EvalAllMatchesParallel(cs[..n - 1], sem, x, y);
      EvalMatchesParallel(cs[n - 1], sem, x, y);
      assert TranslateAll(cs)[..n - 1] == TranslateAll(cs[..n - 1]);
    }
  }
}
