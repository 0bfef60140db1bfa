/** The source of randomness. java.util.Random and Math.random() are not modelled; a
    random stream is an arbitrary oracle `u` whose i-th draw is a double in [0, 1),
    and every property proved about the generators holds for every such oracle. */
module Randomness {

  /** Every draw lies in [0, 1), as Math.random() promises. */
  ghost predicate Unit(u: nat -> real)
  {
    forall i :: 0.0 <= u(i) < 1.0
  }

  /** An integer draw below `bound` made from one uniform draw: the integer part of r * bound, and
      the model of Random.nextInt(bound). Always a valid index. */
  function IntBelow(r: real, bound: nat): (k: int)
    requires 0.0 <= r < 1.0 && bound > 0
    ensures 0 <= k < bound
  {
    var b := bound as real;
    assert r * b < b by {
      assert (1.0 - r) * b > 0.0;
    }
    (r * b).Floor
  }

  /** Random.nextBoolean() made from one uniform draw. */
  function BoolOf(r: real): bool
  {
    r < 0.5
  }

  /** One shared random stream: the oracle and how many draws have been taken. */
  class Random {
    const u: nat -> real
    var pos: nat

    ghost predicate Valid()
    {
      Unit(u)
    }

    constructor (u: nat -> real)
      requires Unit(u)
      ensures Valid() && this.u == u && pos == 0
    {
      this.u := u;
      pos := 0;
    }

    /** Math.random() */
    method NextDouble() returns (r: real)
      requires Valid()
      modifies this
      ensures pos == old(pos) + 1
      ensures r == u(old(pos)) && 0.0 <= r < 1.0
    {
      r := u(pos);
      pos := pos + 1;
    }

    /** Random.nextInt(bound) */
    method NextInt(bound: nat) returns (k: int)
      requires Valid() && bound > 0
      modifies this
      ensures pos == old(pos) + 1
      ensures k == IntBelow(u(old(pos)), bound) && 0 <= k < bound
    {
      k := IntBelow(u(pos), bound);
      pos := pos + 1;
    }

    /** Random.nextBoolean() */
    method NextBoolean() returns (b: bool)
      requires Valid()
      modifies this
      ensures pos == old(pos) + 1
      ensures b == BoolOf(u(old(pos)))
    {
      b := BoolOf(u(pos));
      pos := pos + 1;
    }
  }
}
