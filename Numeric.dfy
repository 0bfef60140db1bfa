/** The values the evaluators compute. A Java double is abstracted as a real number or
    NaN; the library functions Math.sin, Math.cos and Math.pow are not modelled but
    passed in as a Semantics record, so every statement proved here holds for any
    choice of them. */
module Numeric {

  /** A finite double, or NaN. */
  datatype Num = Finite(v: real) | NaN

  /** The library functions the evaluators call: sinPi(a) stands for
      Math.sin(Math.PI * a), cosPi(a) for Math.cos(Math.PI * a), and pow for Math.pow on
      a finite base and a finite, non-zero exponent (it may answer NaN, as Math.pow does
      for a negative base and a fractional exponent). */
  datatype Semantics = Semantics(sinPi: real -> real, cosPi: real -> real, pow: (real, real) -> Num)

  function Mul(a: Num, b: Num): Num
  {
    if a.Finite? && b.Finite? then Finite(a.v * b.v) else NaN
  }

  function Add(a: Num, b: Num): Num
  {
    if a.Finite? && b.Finite? then Finite(a.v + b.v) else NaN
  }

  /** The total divided by an int count. Only an empty sum, 0.0, is ever divided by 0,
      and 0.0 / 0 is NaN. */
  function DivBy(a: Num, n: nat): Num
  {
    if a.Finite? && n > 0 then Finite(a.v / n as real) else NaN
  }

  /** Math.abs */
  function Abs(a: Num): Num
  {
    if a.NaN? then NaN else Finite(if a.v < 0.0 then -a.v else a.v)
  }

  /** Math.sin(Math.PI * a) */
  function SinPi(sem: Semantics, a: Num): Num
  {
    if a.NaN? then NaN else Finite(sem.sinPi(a.v))
  }

  /** Math.cos(Math.PI * a) */
  function CosPi(sem: Semantics, a: Num): Num
  {
    if a.NaN? then NaN else Finite(sem.cosPi(a.v))
  }

  /** Math.pow(a, b): 1.0 when the exponent is zero (even for a NaN base), NaN when
      either argument is NaN, and otherwise the library's answer. */
  function Pow(sem: Semantics, a: Num, b: Num): Num
  {
    if b == Finite(0.0) then Finite(1.0)
    else if a.NaN? || b.NaN? then NaN
    else sem.pow(a.v, b.v)
  }

  /** The values multiplied together in order, starting from 1. */
  function Product(vals: seq<Num>): Num
  {
    if |vals| == 0 then Finite(1.0) else Mul(Product(vals[..|vals| - 1]), vals[|vals| - 1])
  }

  lemma ProductPair(a: Num, b: Num)
    ensures Product([a, b]) == Mul(Mul(Finite(1.0), a), b)
  {
    var vals := [a, b];
    assert vals[..|vals| - 1] == [a] && vals[|vals| - 1] == b;
    assert [a][..0] == [];
    assert Product([a]) == Mul(Finite(1.0), a);
  }

  /** The values added together in order, starting from 0. */
  function Sum(vals: seq<Num>): Num
  {
    if |vals| == 0 then Finite(0.0) else Add(Sum(vals[..|vals| - 1]), vals[|vals| - 1])
  }

  /** The arithmetic mean as Average.evaluate computes it: the sum divided by the count. */
  function Mean(vals: seq<Num>): Num
  {
    DivBy(Sum(vals), |vals|)
  }

  /** The range every evaluate method documents for its result: a double in [-1, 1]. */
  predicate InUnit(a: Num)
  {
    a.Finite? && -1.0 <= a.v <= 1.0
  }

  /** Library sine and cosine stay within [-1, 1]. */
  ghost predicate BoundedTrig(sem: Semantics)
  {
    (forall t :: -1.0 <= sem.sinPi(t) <= 1.0) && (forall t :: -1.0 <= sem.cosPi(t) <= 1.0)
  }

  lemma MulInUnit(a: real, b: real)
    requires -1.0 <= a <= 1.0 && -1.0 <= b <= 1.0
    ensures -1.0 <= a * b <= 1.0
  {
    if a >= 0.0 && b >= 0.0 {
      assert a * b <= 1.0 * b;
    } else if a >= 0.0 {
      assert a * b >= a * -1.0;
    } else if b >= 0.0 {
      assert a * b >= -1.0 * b;
    } else {
      assert a * b == (-a) * (-b);
      assert (-a) * (-b) <= 1.0 * (-b);
    }
  }

  /** A product of values in [-1, 1] stays in [-1, 1] (the empty product is 1). */
  lemma {:induction false} ProductInUnit(vals: seq<Num>)
    requires forall i :: 0 <= i < |vals| ==> InUnit(vals[i])
    ensures InUnit(Product(vals))
  {
    if |vals| > 0 {
      var n := |vals|;
      ProductInUnit(vals[..n - 1]);
      MulInUnit(Product(vals[..n - 1]).v, vals[n - 1].v);
    }
  }

  /** The sum of n values in [-1, 1] is finite and lies in [-n, n]. */
  lemma {:induction false} SumBounded(vals: seq<Num>)
    requires forall i :: 0 <= i < |vals| ==> InUnit(vals[i])
    ensures Sum(vals).Finite?
    ensures -(|vals| as real) <= Sum(vals).v <= |vals| as real
  {
    if |vals| > 0 {
      SumBounded(vals[..|vals| - 1]);
    }
  }

  /** The mean of at least one value in [-1, 1] stays in [-1, 1] (convexity); the mean
      of no values is NaN. */
  lemma MeanInUnit(vals: seq<Num>)
    requires forall i :: 0 <= i < |vals| ==> InUnit(vals[i])
    ensures |vals| > 0 <==> InUnit(Mean(vals))
    ensures |vals| == 0 ==> Mean(vals) == NaN
  {
    if |vals| > 0 {
      SumBounded(vals);
      var n := |vals| as real;
      var s := Sum(vals).v;
      assert -n <= s <= n;
      assert s / n * n == s;
    }
  }
}
