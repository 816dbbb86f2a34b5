/** The server's pseudo-random generator. */
module Rng {
  import opened Bytes

  const MULTIPLIER: nat := 279410273
  const MODULUS: nat := 4294967291
  const INVERSE: nat := 3236736190

  /** The value that follows `v`. */
  function Next(v: nat): (r: nat)
    ensures r < MODULUS
  {
    v * MULTIPLIER % MODULUS
  }

  /** The state after i calls, hence also output number i: the seed is output 0. */
  function Output(seed: nat, i: nat): nat {
    if i == 0 then seed else Next(Output(seed, i - 1))
  }

  function Power(b: nat, n: nat): nat {
    if n == 0 then 1 else Power(b, n - 1) * b
  }

  class RNG {
    var v: nat

    // How many numbers have been drawn.
    ghost var draws: nat

    ghost predicate Valid()
      reads this
    {
      v < U32
    }

    constructor (seed: nat)
      requires seed < U32
      ensures v == seed && draws == 0 && Valid()
    {
      v := seed;
      draws := 0;
    }

    /** Returns the current value and advances; the product is formed in 64 bits and does not overflow them. */
    method GenerateNext() returns (toReturn: nat)
      requires Valid()
      modifies this
      ensures Valid()
      ensures toReturn == old(v) < U32 && v == Next(old(v)) && draws == old(draws) + 1
    {
      toReturn := v;
      var product := v * MULTIPLIER;
      assert product < U64;
      v := product % U64 % MODULUS;
      draws := draws + 1;
    }
  }

  lemma ModIsUnique(n: int, q: int, r: nat)
    requires n == q * MODULUS + r && r < MODULUS
    ensures n % MODULUS == r
  {
  }

  lemma ModOfProduct(a: nat, b: nat)
    ensures a % MODULUS * b % MODULUS == a * b % MODULUS
  {
    var q, r := a / MODULUS, a % MODULUS;
    assert a == q * MODULUS + r;
    var k, s := r * b / MODULUS, r * b % MODULUS;
    assert r * b == k * MODULUS + s;
    calc {
      a * b;
      (q * MODULUS + r) * b;
      q * MODULUS * b + r * b;
      q * b * MODULUS + k * MODULUS + s;
      (q * b + k) * MODULUS + s;
    }
    ModIsUnique(a * b, q * b + k, s);
  }

  /** Closed form: output i is seed times the i-th power of the multiplier. */
  lemma {:induction false} OutputIsPower(seed: nat, i: nat)
    requires i > 0
    ensures Output(seed, i) == seed * Power(MULTIPLIER, i) % MODULUS
  {
    if i == 1 {
      assert Output(seed, 1) == Next(Output(seed, 0)) == Next(seed);
      assert Power(MULTIPLIER, 1) == Power(MULTIPLIER, 0) * MULTIPLIER == MULTIPLIER;
    } else {
      OutputIsPower(seed, i - 1);
      var p := Power(MULTIPLIER, i - 1);
      ModOfProduct(seed * p, MULTIPLIER);
      assert seed * p * MULTIPLIER == seed * (p * MULTIPLIER);
    }
  }

  /** The multiplier is invertible, so a step can be undone. */
  lemma StepUndone(v: nat)
    requires v < MODULUS
    ensures Next(v) * INVERSE % MODULUS == v
  {
    ModOfProduct(v * MULTIPLIER, INVERSE);
    var k := 210566759;
    assert MULTIPLIER * INVERSE == k * MODULUS + 1;
    assert v * MULTIPLIER * INVERSE == v * (k * MODULUS + 1) == v * k * MODULUS + v;
    ModIsUnique(v * MULTIPLIER * INVERSE, v * k, v);
  }

  lemma StepInjective(v: nat, w: nat)
    requires v < MODULUS && w < MODULUS && Next(v) == Next(w)
    ensures v == w
  {
    StepUndone(v);
    StepUndone(w);
  }

  /** A value is divisible by the modulus exactly when the next one is: then all that follow are 0. */
  lemma ZeroStep(v: nat)
    ensures Next(v) == 0 <==> v % MODULUS == 0
  {
    ModOfProduct(v, MULTIPLIER);
    assert Next(v % MODULUS) == Next(v);
    if Next(v) == 0 {
      StepUndone(v % MODULUS);
    }
  }

  /** The generator is absorbed by 0 for the multiples of the modulus only: of all 32-bit seeds, 0 and 4294967291. */
  lemma {:induction false} ZeroExactlyWhen(seed: nat, i: nat)
    requires i > 0
    ensures Output(seed, i) == 0 <==> seed % MODULUS == 0
  {
    var v := Output(seed, i - 1);
    assert Output(seed, i) == Next(v);
    hide Next;
    ZeroStep(v);
    if i > 1 {
      ZeroExactlyWhen(seed, i - 1);
      SmallValue(seed, i - 1);
    }
  }

  lemma SmallValue(seed: nat, i: nat)
    requires i > 0
    ensures Output(seed, i) % MODULUS == Output(seed, i)
  {
  }

  /** From output 1 on the sequence is a pure cycle: a repetition anywhere is a repetition of output 1. */
  lemma {:induction false} FirstRepeatIsOutputOne(seed: nat, i: nat, j: nat)
    requires 1 <= i < j && Output(seed, i) == Output(seed, j)
    ensures Output(seed, 1) == Output(seed, 1 + j - i)
  {
    if i > 1 {
      StepInjective(Output(seed, i - 1), Output(seed, j - 1));
      FirstRepeatIsOutputOne(seed, i - 1, j - 1);
    }
  }
}
