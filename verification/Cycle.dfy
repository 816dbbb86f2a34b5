/** The length of the generator's cycle. */
module Cycle {
  import opened Rng

  const LARGE_FACTOR: nat := 22605091

  /** Half of MODULUS - 1. */
  const CYCLE: nat := 5 * 19 * LARGE_FACTOR

  // ---- Powers of the multiplier ----

  lemma {:induction false} PowerOfSum(b: nat, m: nat, n: nat)
    ensures Power(b, m + n) == Power(b, m) * Power(b, n)
  {
    PowerStep(b, n);
    PowerStep(b, m + n);
    hide Power;
    if n > 0 {
      PowerOfSum(b, m, n - 1);
      Reordered(Power(b, m), Power(b, n - 1), b);
    } else {
      assert Power(b, m) * 1 == Power(b, m);
    }
  }

  lemma PowerStep(b: nat, n: nat)
    ensures Power(b, n) == if n == 0 then 1 else Power(b, n - 1) * b
  {
  }

  lemma Reordered(x: nat, y: nat, z: nat)
    ensures x * y * z == x * (y * z)
  {
  }

  ghost predicate PowerIs(n: nat, r: nat) {
    Power(MULTIPLIER, n) % MODULUS == r
  }

  lemma First()
    ensures PowerIs(1, MULTIPLIER)
  {
    assert Power(MULTIPLIER, 1) == Power(MULTIPLIER, 0) * MULTIPLIER == MULTIPLIER;
  }

  /** One multiplication; q is the quotient that shows the remainder t. */
  lemma Product(m: nat, r: nat, n: nat, s: nat, q: nat, t: nat)
    requires PowerIs(m, r) && PowerIs(n, s) && r * s == q * MODULUS + t && t < MODULUS
    ensures PowerIs(m + n, t)
  {
    var a, b := Power(MULTIPLIER, m), Power(MULTIPLIER, n);
    PowerOfSum(MULTIPLIER, m, n);
    ModOfProduct(a, b);
    ModOfProduct(b, r);
    assert a % MODULUS * b == b * r && b % MODULUS * r == r * s;
    ModIsUnique(r * s, q, t);
  }

  /** By repeated squaring. */
  lemma Power95()
    ensures PowerIs(95, 3428339868)
  {
    hide PowerIs;
    First();
    Product(1, 279410273, 1, 279410273, 18177111, 3468058228);
    Product(2, 3468058228, 2, 3468058228, 2800353776, 1650159168);
    Product(4, 1650159168, 1, 279410273, 107351556, 1966378068);
    Product(5, 1966378068, 5, 1966378068, 900272911, 593058523);
    Product(10, 593058523, 1, 279410273, 38581584, 2501437835);
    Product(11, 2501437835, 11, 2501437835, 1456865866, 525098219);
    Product(22, 525098219, 1, 279410273, 34160408, 1715389059);
    Product(23, 1715389059, 23, 1715389059, 685118051, 4218235640);
    Product(46, 4218235640, 1, 279410273, 274418474, 1874595786);
    Product(47, 1874595786, 47, 1874595786, 818192345, 1367370401);
    Product(94, 1367370401, 1, 279410273, 88954655, 3428339868);
  }

  lemma PowerLarge()
    ensures PowerIs(LARGE_FACTOR, 696734171)
  {
    hide PowerIs;
    First();
    Product(1, 279410273, 1, 279410273, 18177111, 3468058228);
    Product(2, 3468058228, 2, 3468058228, 2800353776, 1650159168);
    Product(4, 1650159168, 1, 279410273, 107351556, 1966378068);
    Product(5, 1966378068, 5, 1966378068, 900272911, 593058523);
    Product(10, 593058523, 10, 593058523, 81890824, 1189903745);
    Product(20, 1189903745, 1, 279410273, 77409513, 3886933102);
    Product(21, 3886933102, 21, 3886933102, 3517663329, 618170665);
    Product(42, 618170665, 1, 279410273, 40215261, 3674213594);
    Product(43, 3674213594, 43, 3674213594, 3143177728, 2774701988);
    Product(86, 2774701988, 86, 2774701988, 1792556403, 4053537871);
    Product(172, 4053537871, 172, 4053537871, 3825679721, 4094206830);
    Product(344, 4094206830, 344, 4094206830, 3902830552, 3663174268);
    Product(688, 3663174268, 1, 279410273, 238308804, 3931125200);
    Product(689, 3931125200, 689, 3931125200, 3598105478, 497119902);
    Product(1378, 497119902, 1, 279410273, 32340271, 1404477385);
    Product(1379, 1404477385, 1379, 1404477385, 459271652, 1952903493);
    Product(2758, 1952903493, 1, 279410273, 127046671, 1746345328);
    Product(2759, 1746345328, 2759, 1746345328, 710068738, 555778826);
    Product(5518, 555778826, 5518, 555778826, 71919081, 2936158705);
    Product(11036, 2936158705, 1, 279410273, 191012608, 1806771537);
    Product(11037, 1806771537, 11037, 1806771537, 760057799, 938889860);
    Product(22074, 938889860, 1, 279410273, 61079736, 3836616604);
    Product(22075, 3836616604, 22075, 3836616604, 3427180224, 3646439632);
    Product(44150, 3646439632, 44150, 3646439632, 3095837776, 3658110608);
    Product(88300, 3658110608, 1, 279410273, 237979387, 548245367);
    Product(88301, 548245367, 88301, 548245367, 69982601, 202860798);
    Product(176602, 202860798, 176602, 202860798, 9581563, 3683540971);
    Product(353204, 3683540971, 353204, 3683540971, 3159156558, 1277478463);
    Product(706408, 1277478463, 1, 279410273, 83106711, 690860498);
    Product(706409, 690860498, 706409, 690860498, 111127325, 1685481429);
    Product(1412818, 1685481429, 1412818, 1685481429, 661436387, 261664424);
    Product(2825636, 261664424, 2825636, 261664424, 15941511, 2473135075);
    Product(5651272, 2473135075, 5651272, 2473135075, 1424084675, 455890200);
    Product(11302544, 455890200, 1, 279410273, 29658061, 3330541849);
    Product(11302545, 3330541849, 11302545, 3330541849, 2582676015, 265113436);
    Product(22605090, 265113436, 1, 279410273, 17247027, 696734171);
  }

  /** The multiplier comes back to 1 at CYCLE, but not at a fifth, a nineteenth or the last factor of it. */
  lemma PowersOfCycle()
    ensures PowerIs(CYCLE, 1) && PowerIs(CYCLE / 5, 3451601923) && PowerIs(CYCLE / 19, 3260750288)
  {
    hide PowerIs;
    PowerLarge();
    Product(22605091, 696734171, 22605091, 696734171, 113024959, 3067441172);
    Product(45210182, 3067441172, 45210182, 3067441172, 2190749010, 2940101674);
    Product(22605091, 696734171, 90420364, 2940101674, 476946426, 3260750288);
    Product(90420364, 2940101674, 113025455, 3260750288, 2232132803, 2191635439);
    Product(113025455, 3260750288, 113025455, 3260750288, 2475570061, 2118208193);
    Product(203445819, 2191635439, 226050910, 2118208193, 1080879044, 3451601923);
    Product(429496729, 3451601923, 429496729, 3451601923, 2773840876, 1998511013);
    Product(858993458, 1998511013, 858993458, 1998511013, 929936364, 2990816245);
    Product(429496729, 3451601923, 1717986916, 2990816245, 2403535674, 1);
  }

  // ---- Coming back to the same value ----

  /** After k draws the generator is where it was. */
  ghost predicate Returns(v: nat, k: nat) {
    Output(v, k) == v
  }

  lemma {:induction false} OutputOfSum(v: nat, m: nat, n: nat)
    ensures Output(v, m + n) == Output(Output(v, m), n)
  {
    hide Next;
    if n > 0 {
      OutputOfSum(v, m, n - 1);
    }
  }

  lemma ReturnsAfterBoth(v: nat, m: nat, n: nat)
    requires Returns(v, m)
    ensures Returns(v, m + n) <==> Returns(v, n)
  {
    OutputOfSum(v, m, n);
    hide Output;
  }

  lemma {:induction false} ReturnsAgain(v: nat, k: nat, times: nat)
    requires Returns(v, k)
    ensures Returns(v, times * k)
    decreases times
  {
    if times > 0 {
      ReturnsAgain(v, k, times - 1);
      ReturnsAfterBoth(v, k, (times - 1) * k);
      assert k + (times - 1) * k == times * k;
    }
  }

  lemma ReturnsAfterRemainder(v: nat, m: nat, n: nat)
    requires Returns(v, m) && Returns(v, n) && 0 < n
    ensures Returns(v, m % n)
  {
    hide Returns;
    ReturnsAgain(v, n, m / n);
    assert m == m / n * n + m % n;
    ReturnsAfterBoth(v, m / n * n, m % n);
  }

  lemma Divides(a: nat, g: nat, x: nat, b: nat, y: nat)
    requires 0 < g && a == x * g && b == y * g
    ensures forall q: nat :: (q * a + b) == (q * x + y) * g
  {
    forall q: nat ensures q * a + b == (q * x + y) * g {
      assert q * (x * g) == q * x * g;
    }
  }

  /** Euclid: two returns share a common divisor that is one as well. */
  lemma {:induction false} CommonReturn(v: nat, m: nat, n: nat) returns (g: nat, x: nat, y: nat)
    requires Returns(v, m) && Returns(v, n) && 0 < m
    ensures 0 < g && Returns(v, g) && m == x * g && n == y * g
    decreases n
  {
    hide Returns;
    if n == 0 {
      g, x, y := m, 1, 0;
    } else {
      ReturnsAfterRemainder(v, m, n);
      var a, b;
      g, a, b := CommonReturn(v, n, m % n);
      Divides(n, g, a, m % n, b);
      assert m == m / n * n + m % n;
      x, y := m / n * a + b, a;
    }
  }

  // ---- No return before a whole cycle ----

  /** A factor that can be told from 1 by an inverse of the difference moves every value. */
  lemma Moves(v: nat, factor: nat, inverse: nat, q: nat)
    requires 0 < v < MODULUS && 0 < factor && (factor - 1) * inverse == q * MODULUS + 1
    ensures v * factor % MODULUS != v
  {
    if v * factor % MODULUS == v {
      var k := v * factor / MODULUS;
      assert v * factor == k * MODULUS + v;
      assert v * (factor - 1) == k * MODULUS;
      assert v * ((factor - 1) * inverse) == v * (factor - 1) * inverse == k * MODULUS * inverse;
      assert v * (q * MODULUS + 1) == v * q * MODULUS + v;
      assert v == (k * inverse - v * q) * MODULUS;
      NotAMultiple(v, k * inverse - v * q);
    }
  }

  lemma NotAMultiple(v: nat, m: int)
    requires 0 < v < MODULUS
    ensures v != m * MODULUS
  {
  }

  lemma OutputBy(v: nat, n: nat, factor: nat)
    requires PowerIs(n, factor) && 0 < n
    ensures Output(v, n) == v * factor % MODULUS
  {
    OutputIsPower(v, n);
    var p := Power(MULTIPLIER, n);
    ModOfProduct(p, v);
    hide Power;
    assert p % MODULUS * v == v * factor && p * v == v * p;
  }

  lemma NoShortReturn(v: nat)
    requires 0 < v < MODULUS
    ensures !Returns(v, CYCLE / 5) && !Returns(v, CYCLE / 19) && !Returns(v, 95)
  {
    PowersOfCycle();
    Power95();
    OutputBy(v, CYCLE / 5, 3451601923);
    Moves(v, 3451601923, 535807193, 430595395);
    OutputBy(v, CYCLE / 19, 3260750288);
    Moves(v, 3260750288, 3052901906, 2317771031);
    OutputBy(v, 95, 3428339868);
    Moves(v, 3428339868, 2806552367, 2240253468);
  }

  lemma WholeCycleReturns(v: nat)
    requires v < MODULUS
    ensures Returns(v, CYCLE)
  {
    PowersOfCycle();
    OutputBy(v, CYCLE, 1);
  }

  // ---- The large factor is prime ----

  lemma NoDivisorFrom2(t: nat)
    requires 2 <= t < 602
    ensures LARGE_FACTOR % t != 0
  {
    if t < 102 {
    } else if t < 202 {
    } else if t < 302 {
    } else if t < 402 {
    } else if t < 502 {
    }
  }

  lemma NoDivisorFrom602(t: nat)
    requires 602 <= t < 1202
    ensures LARGE_FACTOR % t != 0
  {
    if t < 702 {
    } else if t < 802 {
    } else if t < 902 {
    } else if t < 1002 {
    } else if t < 1102 {
    }
  }

  lemma NoDivisorFrom1202(t: nat)
    requires 1202 <= t < 1802
    ensures LARGE_FACTOR % t != 0
  {
    if t < 1302 {
    } else if t < 1402 {
    } else if t < 1502 {
    } else if t < 1602 {
    } else if t < 1702 {
    }
  }

  lemma NoDivisorFrom1802(t: nat)
    requires 1802 <= t < 2402
    ensures LARGE_FACTOR % t != 0
  {
    if t < 1902 {
    } else if t < 2002 {
    } else if t < 2102 {
    } else if t < 2202 {
    } else if t < 2302 {
    }
  }

  lemma NoDivisorFrom2402(t: nat)
    requires 2402 <= t < 3002
    ensures LARGE_FACTOR % t != 0
  {
    if t < 2502 {
    } else if t < 2602 {
    } else if t < 2702 {
    } else if t < 2802 {
    } else if t < 2902 {
    }
  }

  lemma NoDivisorFrom3002(t: nat)
    requires 3002 <= t < 3602
    ensures LARGE_FACTOR % t != 0
  {
    if t < 3102 {
    } else if t < 3202 {
    } else if t < 3302 {
    } else if t < 3402 {
    } else if t < 3502 {
    }
  }

  lemma NoDivisorFrom3602(t: nat)
    requires 3602 <= t < 4202
    ensures LARGE_FACTOR % t != 0
  {
    if t < 3702 {
    } else if t < 3802 {
    } else if t < 3902 {
    } else if t < 4002 {
    } else if t < 4102 {
    }
  }

  lemma NoDivisorFrom4202(t: nat)
    requires 4202 <= t < 4755
    ensures LARGE_FACTOR % t != 0
  {
    if t < 4302 {
    } else if t < 4402 {
    } else if t < 4502 {
    } else if t < 4602 {
    } else if t < 4702 {
    }
  }

  lemma NoSmallDivisor(t: nat)
    requires 2 <= t < 4755
    ensures LARGE_FACTOR % t != 0
  {
    if t < 602 {
      NoDivisorFrom2(t);
    } else if t < 1202 {
      NoDivisorFrom602(t);
    } else if t < 1802 {
      NoDivisorFrom1202(t);
    } else if t < 2402 {
      NoDivisorFrom1802(t);
    } else if t < 3002 {
      NoDivisorFrom2402(t);
    } else if t < 3602 {
      NoDivisorFrom3002(t);
    } else if t < 4202 {
      NoDivisorFrom3602(t);
    } else {
      NoDivisorFrom4202(t);
    }
  }

  lemma LargeFactorIsPrime(t: nat, s: nat)
    requires t * s == LARGE_FACTOR
    ensures t == 1 || s == 1
  {
    if t >= 2 && s >= 2 {
      if t < 4755 {
        NoSmallDivisor(t);
        DivisorDivides(t, s);
      } else if s < 4755 {
        NoSmallDivisor(s);
        DivisorDivides(s, t);
      } else {
        TooLarge(t, s);
      }
    }
  }

  lemma MultipleBounds(t: nat, m: int)
    ensures m >= 1 ==> t * m >= t
    ensures m <= -1 ==> t * m + t <= 0
  {
  }

  lemma DivisorDivides(t: nat, s: nat)
    requires 0 < t
    ensures t * s % t == 0
  {
    var q, r := t * s / t, t * s % t;
    assert t * (s - q) == r;
    MultipleBounds(t, s - q);
  }

  lemma TooLarge(t: nat, s: nat)
    requires t >= 4755 && s >= 4755
    ensures t * s > LARGE_FACTOR
  {
    assert t * s >= 4755 * s;
  }

  // ---- The length of the cycle ----

  /** Cancelling h, by an inverse u of it. */
  lemma Cancel(q: nat, g: nat, h: nat, m: nat, u: nat, w: int)
    requires g * h == q * m && h * u == q * w + 1
    ensures g == q * (m * u - g * w)
  {
    assert g * h * u == g * (h * u) == g * (q * w + 1) == q * (g * w) + g;
    assert q * m * u == q * (m * u);
  }

  lemma InverseOfFive(y: nat) returns (u: nat)
    requires 0 < y < 5
    ensures y * u % 5 == 1
  {
    u := if y == 1 then 1 else if y == 2 then 3 else if y == 3 then 2 else 4;
  }

  lemma InverseOfNineteen(y: nat) returns (u: nat)
    requires 0 < y < 19
    ensures y * u % 19 == 1
  {
    u := [0, 1, 10, 13, 5, 4, 16, 11, 12, 17, 2, 7, 8, 3, 15, 14, 6, 9, 18][y];
  }

  lemma ShiftedInverse(q: nat, h: nat, y: nat, u: nat)
    requires 0 < q && y == h % q && y * u % q == 1
    ensures h * u == q * (h / q * u + y * u / q) + 1
  {
    assert h == q * (h / q) + y;
    assert h * u == q * (h / q) * u + y * u == q * (h / q * u) + y * u;
    assert y * u == q * (y * u / q) + 1;
  }

  /** A prime factor of a product that is not in one factor is in the other. */
  lemma FiveInOther(g: nat, h: nat, m: nat) returns (k: int)
    requires g * h == 5 * m && h % 5 != 0
    ensures g == 5 * k
  {
    var u := InverseOfFive(h % 5);
    ShiftedInverse(5, h, h % 5, u);
    Cancel(5, g, h, m, u, h / 5 * u + h % 5 * u / 5);
    k := m * u - g * (h / 5 * u + h % 5 * u / 5);
  }

  lemma NineteenInOther(g: nat, h: nat, m: nat) returns (k: int)
    requires g * h == 19 * m && h % 19 != 0
    ensures g == 19 * k
  {
    var u := InverseOfNineteen(h % 19);
    ShiftedInverse(19, h, h % 19, u);
    Cancel(19, g, h, m, u, h / 19 * u + h % 19 * u / 19);
    k := m * u - g * (h / 19 * u + h % 19 * u / 19);
  }

  /** A proper divisor of the cycle misses one of its prime factors. */
  lemma ProperDivisor(g: nat, h: nat)
    requires g * h == CYCLE && h > 1
    ensures h % 5 == 0 || h % 19 == 0 || (g == 95 && h == LARGE_FACTOR)
  {
    if h % 5 != 0 && h % 19 != 0 {
      var a := FiveInOther(g, h, 19 * LARGE_FACTOR);
      var b := NineteenInOther(g, h, 5 * LARGE_FACTOR);
      var k := Both(g, a, b);
      CancelNinetyFive(k, h);
      LargeFactorIsPrime(k, h);
    }
  }

  lemma Both(g: nat, a: int, b: int) returns (k: nat)
    requires g == 5 * a && g == 19 * b
    ensures g == 95 * k
  {
    assert g == 20 * g - 19 * g == 95 * (4 * b - a);
    k := 4 * b - a;
  }

  lemma CancelNinetyFive(k: nat, h: nat)
    requires 95 * k * h == CYCLE
    ensures k * h == LARGE_FACTOR
  {
    assert 95 * k * h == 95 * (k * h);
  }

  lemma Share(g: nat, h: nat, q: nat)
    requires g * h == CYCLE && (q == 5 || q == 19) && h % q == 0
    ensures CYCLE / q == h / q * g
  {
    assert h == h / q * q;
    assert g * (h / q * q) == h / q * g * q;
  }

  /** No value but 0 comes back before CYCLE draws have been made. */
  lemma NoReturn(v: nat, k: nat)
    requires 0 < v < MODULUS && 0 < k < CYCLE
    ensures !Returns(v, k)
  {
    hide Returns;
    if Returns(v, k) {
      WholeCycleReturns(v);
      var g, x, h := CommonReturn(v, k, CYCLE);
      NoShortReturn(v);
      SmallerShare(g, x, h, k);
      ProperDivisor(g, h);
      if h % 5 == 0 {
        Share(g, h, 5);
        ReturnsAgain(v, g, h / 5);
      } else if h % 19 == 0 {
        Share(g, h, 19);
        ReturnsAgain(v, g, h / 19);
      }
    }
  }

  lemma SmallerShare(g: nat, x: nat, h: nat, k: nat)
    requires k == x * g && CYCLE == h * g && 0 < k < CYCLE
    ensures h > 1
  {
    ShareBounds(g, x, h);
  }

  lemma ShareBounds(g: nat, x: nat, h: nat)
    ensures x >= h ==> x * g >= h * g
    ensures x == 0 ==> x * g == 0
  {
  }

  lemma SeedLeavesZero(seed: nat, i: nat)
    requires seed % MODULUS != 0 && 0 < i
    ensures 0 < Output(seed, i) < MODULUS
  {
    ZeroExactlyWhen(seed, i);
  }

  /** From output 1 on, outputs agree exactly when they are a whole number of cycles apart. */
  lemma OutputsAgree(seed: nat, i: nat, j: nat)
    requires seed % MODULUS != 0 && 0 < i <= j
    ensures Output(seed, i) == Output(seed, j) <==> (j - i) % CYCLE == 0
  {
    var v, k := Output(seed, i), j - i;
    SeedLeavesZero(seed, i);
    OutputOfSum(seed, i, k);
    ReturnsExactly(v, k);
    hide Output;
  }

  /** The seed itself comes again exactly after whole cycles, if it is less than the modulus. */
  lemma SeedAgrees(seed: nat, j: nat)
    requires seed % MODULUS != 0 && 0 < j
    ensures Output(seed, 0) == Output(seed, j) <==> j % CYCLE == 0 && seed < MODULUS
  {
    SeedLeavesZero(seed, j);
    if seed < MODULUS {
      ReturnsExactly(seed, j);
    }
  }

  lemma ReturnsExactly(v: nat, k: nat)
    requires 0 < v < MODULUS
    ensures Returns(v, k) <==> k % CYCLE == 0
  {
    hide Returns;
    var q, r := k / CYCLE, k % CYCLE;
    WholeCycleReturns(v);
    ReturnsAgain(v, CYCLE, q);
    ReturnsAfterBoth(v, q * CYCLE, r);
    assert k == q * CYCLE + r;
    if r > 0 {
      NoReturn(v, r);
    } else {
      NothingReturns(v);
    }
  }

  lemma NothingReturns(v: nat)
    ensures Returns(v, 0)
  {
  }

  /** Within one cycle no two outputs agree, the seed included. */
  lemma OutputsDistinct(seed: nat, i: nat, j: nat)
    requires seed % MODULUS != 0 && i < j < CYCLE
    ensures Output(seed, i) != Output(seed, j)
  {
    if i > 0 {
      OutputsAgree(seed, i, j);
    } else if seed < MODULUS {
      NoReturn(seed, j);
    } else {
      SeedLeavesZero(seed, j);
    }
  }
}
