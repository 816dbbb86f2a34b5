/**
 * What the checksum is: the remainder of a division of polynomials over the two-element field, by the generator of
 * CRC-32-IEEE, which is given by its exponents.
 */
module Division {
  import opened Bytes
  import opened Crc32

  /** A polynomial over the two-element field is the set of its exponents. */
  type Polynomial = set<nat>

  const GENERATOR: Polynomial := {32, 26, 23, 22, 16, 12, 11, 10, 8, 7, 5, 4, 2, 1, 0}

  function Plus(p: Polynomial, q: Polynomial): Polynomial {
    (p - q) + (q - p)
  }

  /** p times x to the k. */
  function Raised(p: Polynomial, k: nat): Polynomial {
    set e | e in p :: e + k
  }

  /** The terms of the generator that contribute to the coefficient of x^e in its product with q. */
  function Terms(q: Polynomial, e: nat): set<nat> {
    set g | g in GENERATOR && g <= e && e - g in q
  }

  /** p is the product of q and the generator: each coefficient is a sum over the two-element field. */
  ghost predicate IsProduct(p: Polynomial, q: Polynomial) {
    forall e: nat :: e in p <==> Odd(|Terms(q, e)|)
  }

  ghost predicate Congruent(p: Polynomial, q: Polynomial) {
    exists k: Polynomial :: IsProduct(Plus(p, q), k)
  }

  /** r is what is left of p when it is divided by the generator. */
  ghost predicate IsRemainder(p: Polynomial, r: Polynomial) {
    (forall e | e in r :: e < 32) && Congruent(p, r)
  }

  // ---- Products ----

  lemma SizeOfSum(a: set<nat>, b: set<nat>)
    ensures |Plus(a, b)| + 2 * |a * b| == |a| + |b|
  {
    assert a == (a - b) + (a * b) && b == (b - a) + (a * b);
    assert |a| == |a - b| + |a * b| && |b| == |b - a| + |a * b|;
    assert (a - b) !! (b - a);
  }

  lemma OddOfSum(a: set<nat>, b: set<nat>)
    ensures Odd(|Plus(a, b)|) <==> Odd(|a|) != Odd(|b|)
  {
    SizeOfSum(a, b);
    ParityOf(|Plus(a, b)|, |a * b|, |a|, |b|);
  }

  lemma ParityOf(n: nat, k: nat, a: nat, b: nat)
    requires n + 2 * k == a + b
    ensures Odd(n) <==> Odd(a) != Odd(b)
  {
  }

  lemma TermsOfSum(p: Polynomial, q: Polynomial, e: nat)
    ensures Terms(Plus(p, q), e) == Plus(Terms(p, e), Terms(q, e))
  {
    hide GENERATOR;
  }

  lemma ProductOfSum(a: Polynomial, p: Polynomial, b: Polynomial, q: Polynomial)
    requires IsProduct(a, p) && IsProduct(b, q)
    ensures IsProduct(Plus(a, b), Plus(p, q))
  {
    forall e: nat ensures e in Plus(a, b) <==> Odd(|Terms(Plus(p, q), e)|) {
      hide GENERATOR;
      TermsOfSum(p, q, e);
      OddOfSum(Terms(p, e), Terms(q, e));
      hide Terms;
    }
  }

  lemma TermsOfRaised(q: Polynomial, e: nat)
    ensures Terms(Raised(q, 1), e) == if e == 0 then {} else Terms(q, e - 1)
  {
    hide GENERATOR;
    if e > 0 {
      forall g ensures g in Terms(Raised(q, 1), e) <==> g in Terms(q, e - 1) {
        if g in Terms(q, e - 1) {
          assert e - g == (e - 1 - g) + 1;
        }
      }
    }
  }

  lemma ProductOfRaised(p: Polynomial, q: Polynomial)
    requires IsProduct(p, q)
    ensures IsProduct(Raised(p, 1), Raised(q, 1))
  {
    forall e: nat ensures e in Raised(p, 1) <==> Odd(|Terms(Raised(q, 1), e)|) {
      hide GENERATOR;
      TermsOfRaised(q, e);
      if e > 0 {
        assert e - 1 in p <==> e in Raised(p, 1);
      }
      hide Terms;
    }
  }

  lemma ProductWithOne()
    ensures IsProduct(GENERATOR, {0})
  {
    hide *;
    var one: Polynomial := {0};
    forall e: nat ensures e in GENERATOR <==> Odd(|Terms(one, e)|) {
      OneTerm(e);
      OneIsOdd(e);
    }
    ProductFrom(GENERATOR, one);
  }

  lemma OneIsOdd(e: nat)
    ensures |{e}| == 1 && Odd(1) && !Odd(0)
  {
  }

  lemma ProductFrom(p: Polynomial, q: Polynomial)
    requires forall e: nat :: e in p <==> Odd(|Terms(q, e)|)
    ensures IsProduct(p, q)
  {
    hide Terms;
  }

  lemma OneTerm(e: nat)
    ensures Terms({0}, e) == if e in GENERATOR then {e} else {}
  {
    hide GENERATOR;
  }

  lemma NoTerms(e: nat)
    ensures Terms({}, e) == {}
  {
    hide GENERATOR;
  }

  lemma ProductWithNothing()
    ensures IsProduct({}, {})
  {
    forall e: nat ensures !Odd(|Terms({}, e)|) {
      NoTerms(e);
      hide Terms;
    }
  }

  // ---- Congruence ----

  lemma SumAgain(p: Polynomial, q: Polynomial, r: Polynomial, s: Polynomial)
    ensures Plus(Plus(p, q), Plus(r, s)) == Plus(Plus(p, r), Plus(q, s)) && Plus(p, p) == {} && Plus(p, q) == Plus(q, p)
    ensures Plus(Plus(p, q), Plus(q, r)) == Plus(p, r)
  {
  }

  lemma CongruentItself(p: Polynomial)
    ensures Congruent(p, p)
  {
    SumAgain(p, p, p, p);
    ProductWithNothing();
    hide IsProduct;
  }

  lemma CongruentSum(p: Polynomial, q: Polynomial, r: Polynomial, s: Polynomial)
    requires Congruent(p, q) && Congruent(r, s)
    ensures Congruent(Plus(p, r), Plus(q, s))
  {
    hide IsProduct;
    var k :| IsProduct(Plus(p, q), k);
    var m :| IsProduct(Plus(r, s), m);
    ProductOfSum(Plus(p, q), k, Plus(r, s), m);
    SumAgain(p, q, r, s);
  }

  lemma CongruentThrough(p: Polynomial, q: Polynomial, r: Polynomial)
    requires Congruent(p, q) && Congruent(q, r)
    ensures Congruent(p, r)
  {
    hide IsProduct;
    var k :| IsProduct(Plus(p, q), k);
    var m :| IsProduct(Plus(q, r), m);
    ProductOfSum(Plus(p, q), k, Plus(q, r), m);
    SumAgain(p, q, r, r);
  }

  lemma RaisedSum(p: Polynomial, q: Polynomial, k: nat)
    ensures Raised(Plus(p, q), k) == Plus(Raised(p, k), Raised(q, k))
  {
    forall e ensures e in Raised(Plus(p, q), k) <==> e in Plus(Raised(p, k), Raised(q, k)) {
      if e in Plus(Raised(p, k), Raised(q, k)) {
        assert e - k in Plus(p, q);
      }
    }
  }

  lemma CongruentRaised(p: Polynomial, q: Polynomial)
    requires Congruent(p, q)
    ensures Congruent(Raised(p, 1), Raised(q, 1))
  {
    hide IsProduct;
    var k :| IsProduct(Plus(p, q), k);
    ProductOfRaised(Plus(p, q), k);
    RaisedSum(p, q, 1);
  }

  lemma GeneratorIsNothing()
    ensures Congruent(GENERATOR, {})
  {
    ProductWithOne();
    assert Plus(GENERATOR, {}) == GENERATOR;
    hide IsProduct;
  }

  // ---- There is only one remainder ----

  lemma {:induction false} Highest(q: Polynomial) returns (m: nat)
    requires q != {}
    ensures m in q && forall e | e in q :: e <= m
    decreases |q|
  {
    var e :| e in q;
    if q == {e} {
      m := e;
    } else {
      var k := Highest(q - {e});
      m := if e < k then k else e;
      assert q == q - {e} + {e};
    }
  }

  lemma TopTerm(q: Polynomial, m: nat)
    requires m in q && forall e | e in q :: e <= m
    ensures Terms(q, m + 32) == {32}
  {
    SmallExponents();
    hide GENERATOR;
    var terms := Terms(q, m + 32);
    forall g: nat ensures g in terms <==> g in {32} {
      if g in GENERATOR && m + 32 - g in q {
        assert m + 32 - g <= m;
      }
    }
  }

  lemma SmallExponents()
    ensures 32 in GENERATOR && forall g | g in GENERATOR :: g <= 32
  {
  }

  lemma RemainderIsUnique(p: Polynomial, r: Polynomial, s: Polynomial)
    requires IsRemainder(p, r) && IsRemainder(p, s)
    ensures r == s
  {
    hide IsProduct;
    SumAgain(p, r, s, s);
    CongruentItself(p);
    var a :| IsProduct(Plus(p, r), a);
    var b :| IsProduct(Plus(p, s), b);
    ProductOfSum(Plus(p, r), a, Plus(p, s), b);
    assert Plus(Plus(p, r), Plus(p, s)) == Plus(r, s);
    var k := Plus(a, b);
    if k != {} {
      var m := Highest(k);
      TopTerm(k, m);
      TooHigh(Plus(r, s), k, m);
    }
    assert k == {};
    NoProduct(Plus(r, s));
    forall e ensures e in r <==> e in s {
      assert e !in Plus(r, s);
    }
  }

  lemma TooHigh(p: Polynomial, k: Polynomial, m: nat)
    requires IsProduct(p, k) && Terms(k, m + 32) == {32}
    ensures m + 32 in p
  {
    hide Terms;
    assert Odd(|{32}|);
  }

  lemma NoProduct(p: Polynomial)
    requires IsProduct(p, {})
    ensures p == {}
  {
    forall e: nat ensures e !in p {
      NoTerms(e);
      hide Terms;
    }
  }

  // ---- The register as a polynomial ----

  function Halves(c: bv32, k: nat): bv32 {
    if k == 0 then c else Half(Halves(c, k - 1))
  }

  /** The coefficient of x^e; the register is kept in reverse, its lowest bit being that of x^31. */
  predicate Coefficient(c: bv32, e: nat) {
    e < 32 && !Even(Halves(c, 31 - e))
  }

  function PolynomialOf(c: bv32): Polynomial {
    set e: nat | e < 32 && Coefficient(c, e)
  }

  lemma HalfXor(a: bv32, b: bv32)
    ensures Half(Xor(a, b)) == Xor(Half(a), Half(b)) && (Even(Xor(a, b)) <==> (Even(a) == Even(b)))
  {
  }

  lemma {:induction false} HalvesXor(a: bv32, b: bv32, k: nat)
    ensures Halves(Xor(a, b), k) == Xor(Halves(a, k), Halves(b, k))
    ensures Even(Halves(Xor(a, b), k)) <==> (Even(Halves(a, k)) == Even(Halves(b, k)))
  {
    hide Half;
    hide Xor;
    hide Even;
    HalfXor(Halves(a, k), Halves(b, k));
    if k > 0 {
      HalvesXor(a, b, k - 1);
      HalfXor(Halves(a, k - 1), Halves(b, k - 1));
    }
  }

  lemma CoefficientOfXor(a: bv32, b: bv32, e: nat)
    requires e < 32
    ensures Coefficient(Xor(a, b), e) <==> Coefficient(a, e) != Coefficient(b, e)
  {
    HalvesXor(a, b, 31 - e);
    hide Halves;
    hide Xor;
    hide Even;
  }

  lemma PolynomialOfXor(a: bv32, b: bv32)
    ensures PolynomialOf(Xor(a, b)) == Plus(PolynomialOf(a), PolynomialOf(b))
  {
    forall e: nat | e < 32 ensures Coefficient(Xor(a, b), e) <==> Coefficient(a, e) != Coefficient(b, e) {
      CoefficientOfXor(a, b, e);
    }
    hide Coefficient;
    hide Xor;
  }

  lemma {:induction false} HalvesOfHalf(c: bv32, k: nat)
    ensures Halves(Half(c), k) == Halves(c, k + 1)
  {
    hide Half;
    if k > 0 {
      HalvesOfHalf(c, k - 1);
    }
  }

  lemma {:induction false} HalvesTwice(c: bv32, j: nat, k: nat)
    ensures Halves(Halves(c, j), k) == Halves(c, j + k)
  {
    hide Half;
    if k > 0 {
      HalvesTwice(c, j, k - 1);
    }
  }

  lemma EightHalves(c: bv32)
    ensures Halves(c, 8) == c >> 8
  {
    hide Half;
    assert Halves(c, 0) == c;
    assert Halves(c, 1) == Half(c) && Halves(c, 2) == Half(Half(c)) && Halves(c, 3) == Half(Half(Half(c)));
    assert Halves(c, 4) == Half(Halves(c, 3)) && Halves(c, 5) == Half(Halves(c, 4));
    assert Halves(c, 6) == Half(Halves(c, 5));
    assert Halves(c, 7) == Half(Halves(c, 6)) && Halves(c, 8) == Half(Halves(c, 7));
    EightShifts(c);
  }

  lemma EightShifts(c: bv32)
    ensures Half(Half(Half(Half(Half(Half(Half(Half(c)))))))) == c >> 8
  {
  }

  lemma NothingLeft(c: bv32)
    ensures Halves(c, 32) == 0
  {
    FourShifts(c);
    hide *;
    EightHalves(c);
    EightHalves(Halves(c, 8));
    EightHalves(Halves(c, 16));
    EightHalves(Halves(c, 24));
    HalvesTwice(c, 8, 8);
    HalvesTwice(c, 16, 8);
    HalvesTwice(c, 24, 8);
  }

  lemma FourShifts(c: bv32)
    ensures (((c >> 8) >> 8) >> 8) >> 8 == 0
  {
  }

  lemma CoefficientOfHalf(c: bv32, e: nat)
    requires e < 32
    ensures Coefficient(Half(c), e) <==> e > 0 && Coefficient(c, e - 1)
  {
    HalvesOfHalf(c, 31 - e);
    NothingLeft(c);
    hide Halves;
    hide Half;
  }

  /** Halving multiplies by x, but for the bit that falls out, which is the term of x^32. */
  lemma PolynomialOfHalf(c: bv32)
    ensures Raised(PolynomialOf(c), 1) == PolynomialOf(Half(c)) + if Even(c) then {} else {32}
  {
    forall e: nat | e < 32 ensures Coefficient(Half(c), e) <==> e > 0 && Coefficient(c, e - 1) {
      CoefficientOfHalf(c, e);
    }
    assert Coefficient(c, 31) <==> !Even(c);
    hide Coefficient;
    hide Half;
    hide Even;
    var p, q := PolynomialOf(c), PolynomialOf(Half(c));
    forall e: nat ensures e in Raised(p, 1) <==> e in q || (e == 32 && Coefficient(c, 31)) {
      if e > 0 {
        assert e in Raised(p, 1) <==> e - 1 in p;
      }
    }
  }

  lemma PolynomialHalves()
    ensures Halves(POLYNOMIAL, 0) == 0xEDB88320
    ensures Halves(POLYNOMIAL, 1) == 0x76DC4190
    ensures Halves(POLYNOMIAL, 2) == 0x3B6E20C8
    ensures Halves(POLYNOMIAL, 3) == 0x1DB71064
    ensures Halves(POLYNOMIAL, 4) == 0xEDB8832
    ensures Halves(POLYNOMIAL, 5) == 0x76DC419
    ensures Halves(POLYNOMIAL, 6) == 0x3B6E20C
    ensures Halves(POLYNOMIAL, 7) == 0x1DB7106
    ensures Halves(POLYNOMIAL, 8) == 0xEDB883
    ensures Halves(POLYNOMIAL, 9) == 0x76DC41
    ensures Halves(POLYNOMIAL, 10) == 0x3B6E20
    ensures Halves(POLYNOMIAL, 11) == 0x1DB710
    ensures Halves(POLYNOMIAL, 12) == 0xEDB88
    ensures Halves(POLYNOMIAL, 13) == 0x76DC4
    ensures Halves(POLYNOMIAL, 14) == 0x3B6E2
    ensures Halves(POLYNOMIAL, 15) == 0x1DB71
    ensures Halves(POLYNOMIAL, 16) == 0xEDB8
    ensures Halves(POLYNOMIAL, 17) == 0x76DC
    ensures Halves(POLYNOMIAL, 18) == 0x3B6E
    ensures Halves(POLYNOMIAL, 19) == 0x1DB7
    ensures Halves(POLYNOMIAL, 20) == 0xEDB
    ensures Halves(POLYNOMIAL, 21) == 0x76D
    ensures Halves(POLYNOMIAL, 22) == 0x3B6
    ensures Halves(POLYNOMIAL, 23) == 0x1DB
    ensures Halves(POLYNOMIAL, 24) == 0xED
    ensures Halves(POLYNOMIAL, 25) == 0x76
    ensures Halves(POLYNOMIAL, 26) == 0x3B
    ensures Halves(POLYNOMIAL, 27) == 0x1D
    ensures Halves(POLYNOMIAL, 28) == 0xE
    ensures Halves(POLYNOMIAL, 29) == 0x7
    ensures Halves(POLYNOMIAL, 30) == 0x3
    ensures Halves(POLYNOMIAL, 31) == 0x1
  {
    assert Halves(POLYNOMIAL, 0) == 0xEDB88320;
    assert Halves(POLYNOMIAL, 1) == 0x76DC4190;
    assert Halves(POLYNOMIAL, 2) == 0x3B6E20C8;
    assert Halves(POLYNOMIAL, 3) == 0x1DB71064;
    assert Halves(POLYNOMIAL, 4) == 0xEDB8832;
    assert Halves(POLYNOMIAL, 5) == 0x76DC419;
    assert Halves(POLYNOMIAL, 6) == 0x3B6E20C;
    assert Halves(POLYNOMIAL, 7) == 0x1DB7106;
    assert Halves(POLYNOMIAL, 8) == 0xEDB883;
    assert Halves(POLYNOMIAL, 9) == 0x76DC41;
    assert Halves(POLYNOMIAL, 10) == 0x3B6E20;
    assert Halves(POLYNOMIAL, 11) == 0x1DB710;
    assert Halves(POLYNOMIAL, 12) == 0xEDB88;
    assert Halves(POLYNOMIAL, 13) == 0x76DC4;
    assert Halves(POLYNOMIAL, 14) == 0x3B6E2;
    assert Halves(POLYNOMIAL, 15) == 0x1DB71;
    assert Halves(POLYNOMIAL, 16) == 0xEDB8;
    assert Halves(POLYNOMIAL, 17) == 0x76DC;
    assert Halves(POLYNOMIAL, 18) == 0x3B6E;
    assert Halves(POLYNOMIAL, 19) == 0x1DB7;
    assert Halves(POLYNOMIAL, 20) == 0xEDB;
    assert Halves(POLYNOMIAL, 21) == 0x76D;
    assert Halves(POLYNOMIAL, 22) == 0x3B6;
    assert Halves(POLYNOMIAL, 23) == 0x1DB;
    assert Halves(POLYNOMIAL, 24) == 0xED;
    assert Halves(POLYNOMIAL, 25) == 0x76;
    assert Halves(POLYNOMIAL, 26) == 0x3B;
    assert Halves(POLYNOMIAL, 27) == 0x1D;
    assert Halves(POLYNOMIAL, 28) == 0xE;
    assert Halves(POLYNOMIAL, 29) == 0x7;
    assert Halves(POLYNOMIAL, 30) == 0x3;
    assert Halves(POLYNOMIAL, 31) == 0x1;
  }

  /** The constant of the code is the generator without its highest term. */
  lemma PolynomialIsGenerator()
    ensures Plus(PolynomialOf(POLYNOMIAL), {32}) == GENERATOR
  {
    PolynomialHalves();
    hide Halves;
    forall e: nat | e < 32 ensures Coefficient(POLYNOMIAL, e) <==> e in GENERATOR {
    }
    hide Coefficient;
  }

  // ---- One bit, one byte, all bytes ----

  /** A bit step multiplies by x and takes the remainder. */
  lemma StepIsRemainder(c: bv32)
    ensures Congruent(Raised(PolynomialOf(c), 1), PolynomialOf(BitStep(c)))
  {
    PolynomialOfHalf(c);
    PolynomialOfXor(Half(c), POLYNOMIAL);
    PolynomialIsGenerator();
    GeneratorIsNothing();
    BitStepIs(c);
    SmallPolynomial(Half(c));
    hide *;
    var p, r := Raised(PolynomialOf(c), 1), PolynomialOf(Half(c));
    CongruentItself(p);
    if Even(c) {
      assert r + {} == r;
    } else {
      PlusDisjoint(r, {32});
      CongruentSum(p, p, {}, GENERATOR) by {
        CongruentBack(GENERATOR, {});
      }
      PlusNothing(p);
      PlusThree(r, {32}, PolynomialOf(POLYNOMIAL));
    }
  }

  lemma CongruentBack(p: Polynomial, q: Polynomial)
    requires Congruent(p, q)
    ensures Congruent(q, p)
  {
    SumAgain(p, q, p, q);
    hide IsProduct;
  }

  lemma PlusNothing(p: Polynomial)
    ensures Plus(p, {}) == p
  {
  }

  lemma PlusDisjoint(p: Polynomial, q: Polynomial)
    requires p !! q
    ensures Plus(p, q) == p + q
  {
  }

  /** (r + t) + (g + t) is r + g. */
  lemma PlusThree(r: Polynomial, t: Polynomial, g: Polynomial)
    ensures Plus(Plus(r, t), Plus(g, t)) == Plus(r, g)
  {
  }

  lemma BitStepIs(c: bv32)
    ensures BitStep(c) == if Even(c) then Half(c) else Xor(Half(c), POLYNOMIAL)
  {
    EvenOrOdd(c);
  }

  lemma EvenOrOdd(c: bv32)
    ensures c & 1 == 0 || c & 1 == 1
  {
  }

  lemma SmallPolynomial(c: bv32)
    ensures forall e | e in PolynomialOf(c) :: e < 32
    ensures PolynomialOf(c) !! {32}
  {
    hide Coefficient;
  }

  /** A bit of data is added in at the top, and then there is a bit step. */
  function Fed(c: bv32, bit: bool): bv32 {
    BitStep(Xor(c, if bit then 1 else 0))
  }

  lemma PolynomialOfOne()
    ensures PolynomialOf(1) == {31} && PolynomialOf(0) == {}
  {
    assert Halves(0, 0) == 0;
    OneHalves(31);
    forall e: nat | e < 32 ensures (Coefficient(1, e) <==> e == 31) && !Coefficient(0, e) {
      OneHalves(31 - e);
    }
    hide Coefficient;
  }

  lemma {:induction false} OneHalves(k: nat)
    ensures Halves(1, k) == if k == 0 then 1 else 0
    ensures Halves(0, k) == 0
  {
    if k > 0 {
      OneHalves(k - 1);
    }
  }

  /** The polynomial of a string of bits, the first bit being its highest coefficient. */
  function MessagePolynomial(bits: seq<bool>): Polynomial {
    set e: nat | e < |bits| && HasTerm(bits, e)
  }

  predicate HasTerm(bits: seq<bool>, e: nat) {
    e < |bits| && bits[|bits| - 1 - e]
  }

  const ALL_ONES: Polynomial := set e: nat | e < 32

  /** What is divided: the message times x^32, its first 32 bits complemented. */
  function Dividend(bits: seq<bool>): Polynomial {
    Plus(Raised(MessagePolynomial(bits), 32), Raised(ALL_ONES, |bits|))
  }

  lemma DividendNext(bits: seq<bool>, bit: bool)
    ensures Dividend(bits + [bit]) == Plus(Raised(Dividend(bits), 1), if bit then {32} else {})
  {
    var next, n := bits + [bit], |bits|;
    MessageNext(bits, bit);
    hide MessagePolynomial;
    var m, o := MessagePolynomial(bits), Raised(ALL_ONES, n);
    RaisedTwice(ALL_ONES, n);
    RaisedTwice(m, 32);
    RaisedFirst(m, 32);
    RaisedSum(Raised(m, 32), o, 1);
    var last: Polynomial := if bit then {0} else {};
    RaisedSum(Raised(m, 1), last, 32);
    RaisedLast(bit);
    hide Raised;
    hide ALL_ONES;
    MovedLast(Raised(Raised(m, 32), 1), Raised(o, 1), Raised(last, 32));
  }

  lemma MovedLast(p: Polynomial, q: Polynomial, r: Polynomial)
    ensures Plus(Plus(p, r), q) == Plus(Plus(p, q), r)
  {
  }

  lemma RaisedLast(bit: bool)
    ensures Raised(if bit then {0} else {}, 32) == if bit then {32} else {}
  {
  }

  lemma RaisedTwice(p: Polynomial, k: nat)
    ensures Raised(Raised(p, k), 1) == Raised(p, k + 1)
  {
    forall e ensures e in Raised(Raised(p, k), 1) <==> e in Raised(p, k + 1) {
      if e in Raised(p, k + 1) {
        assert e - 1 in Raised(p, k);
      }
    }
  }

  lemma RaisedFirst(p: Polynomial, k: nat)
    ensures Raised(Raised(p, 1), k) == Raised(p, k + 1)
  {
    forall e ensures e in Raised(Raised(p, 1), k) <==> e in Raised(p, k + 1) {
      if e in Raised(p, k + 1) {
        assert e - k in Raised(p, 1);
      }
    }
  }

  lemma MessageNext(bits: seq<bool>, bit: bool)
    ensures MessagePolynomial(bits + [bit]) == Plus(Raised(MessagePolynomial(bits), 1), if bit then {0} else {})
  {
    var next, m := bits + [bit], MessagePolynomial(bits);
    forall e: nat ensures HasTerm(next, e) <==> if e == 0 then bit else HasTerm(bits, e - 1) {
    }
    hide HasTerm;
    forall e: nat ensures e in Raised(m, 1) <==> e > 0 && e - 1 in m {
    }
    hide Raised;
  }

  function FedBits(c: bv32, bits: seq<bool>): bv32 {
    if bits == [] then c else Fed(FedBits(c, bits[..|bits| - 1]), bits[|bits| - 1])
  }

  lemma OnesHalves()
    ensures Halves(ONES, 0) == 0xFFFFFFFF
    ensures Halves(ONES, 1) == 0x7FFFFFFF
    ensures Halves(ONES, 2) == 0x3FFFFFFF
    ensures Halves(ONES, 3) == 0x1FFFFFFF
    ensures Halves(ONES, 4) == 0xFFFFFFF
    ensures Halves(ONES, 5) == 0x7FFFFFF
    ensures Halves(ONES, 6) == 0x3FFFFFF
    ensures Halves(ONES, 7) == 0x1FFFFFF
    ensures Halves(ONES, 8) == 0xFFFFFF
    ensures Halves(ONES, 9) == 0x7FFFFF
    ensures Halves(ONES, 10) == 0x3FFFFF
    ensures Halves(ONES, 11) == 0x1FFFFF
    ensures Halves(ONES, 12) == 0xFFFFF
    ensures Halves(ONES, 13) == 0x7FFFF
    ensures Halves(ONES, 14) == 0x3FFFF
    ensures Halves(ONES, 15) == 0x1FFFF
    ensures Halves(ONES, 16) == 0xFFFF
    ensures Halves(ONES, 17) == 0x7FFF
    ensures Halves(ONES, 18) == 0x3FFF
    ensures Halves(ONES, 19) == 0x1FFF
    ensures Halves(ONES, 20) == 0xFFF
    ensures Halves(ONES, 21) == 0x7FF
    ensures Halves(ONES, 22) == 0x3FF
    ensures Halves(ONES, 23) == 0x1FF
    ensures Halves(ONES, 24) == 0xFF
    ensures Halves(ONES, 25) == 0x7F
    ensures Halves(ONES, 26) == 0x3F
    ensures Halves(ONES, 27) == 0x1F
    ensures Halves(ONES, 28) == 0xF
    ensures Halves(ONES, 29) == 0x7
    ensures Halves(ONES, 30) == 0x3
    ensures Halves(ONES, 31) == 0x1
  {
    assert Halves(ONES, 0) == 0xFFFFFFFF;
    assert Halves(ONES, 1) == 0x7FFFFFFF;
    assert Halves(ONES, 2) == 0x3FFFFFFF;
    assert Halves(ONES, 3) == 0x1FFFFFFF;
    assert Halves(ONES, 4) == 0xFFFFFFF;
    assert Halves(ONES, 5) == 0x7FFFFFF;
    assert Halves(ONES, 6) == 0x3FFFFFF;
    assert Halves(ONES, 7) == 0x1FFFFFF;
    assert Halves(ONES, 8) == 0xFFFFFF;
    assert Halves(ONES, 9) == 0x7FFFFF;
    assert Halves(ONES, 10) == 0x3FFFFF;
    assert Halves(ONES, 11) == 0x1FFFFF;
    assert Halves(ONES, 12) == 0xFFFFF;
    assert Halves(ONES, 13) == 0x7FFFF;
    assert Halves(ONES, 14) == 0x3FFFF;
    assert Halves(ONES, 15) == 0x1FFFF;
    assert Halves(ONES, 16) == 0xFFFF;
    assert Halves(ONES, 17) == 0x7FFF;
    assert Halves(ONES, 18) == 0x3FFF;
    assert Halves(ONES, 19) == 0x1FFF;
    assert Halves(ONES, 20) == 0xFFF;
    assert Halves(ONES, 21) == 0x7FF;
    assert Halves(ONES, 22) == 0x3FF;
    assert Halves(ONES, 23) == 0x1FF;
    assert Halves(ONES, 24) == 0xFF;
    assert Halves(ONES, 25) == 0x7F;
    assert Halves(ONES, 26) == 0x3F;
    assert Halves(ONES, 27) == 0x1F;
    assert Halves(ONES, 28) == 0xF;
    assert Halves(ONES, 29) == 0x7;
    assert Halves(ONES, 30) == 0x3;
    assert Halves(ONES, 31) == 0x1;
  }

  lemma PolynomialOfOnes()
    ensures PolynomialOf(ONES) == ALL_ONES
  {
    OnesHalves();
    hide Halves;
    hide ONES;
    forall e: nat | e < 32 ensures Coefficient(ONES, e) {
    }
    hide Coefficient;
  }

  lemma FedIsRemainder(c: bv32, bit: bool)
    ensures Congruent(Plus(Raised(PolynomialOf(c), 1), if bit then {32} else {}), PolynomialOf(Fed(c, bit)))
  {
    var b: bv32 := if bit then 1 else 0;
    PolynomialOfXor(c, b);
    PolynomialOfOne();
    StepIsRemainder(Xor(c, b));
    RaisedSum(PolynomialOf(c), PolynomialOf(b), 1);
    assert Raised({31}, 1) == {32} && Raised({}, 1) == {};
    hide Congruent;
    hide PolynomialOf;
    hide Raised;
    hide BitStep;
    hide Xor;
  }

  lemma NothingToDivide()
    ensures Dividend([]) == ALL_ONES
  {
    assert Raised({}, 32) == {} && Raised(ALL_ONES, 0) == ALL_ONES;
  }

  /** The register is always the remainder of what has been fed so far. */
  lemma {:induction false} RegisterIsRemainder(bits: seq<bool>)
    ensures Congruent(Dividend(bits), PolynomialOf(FedBits(ONES, bits)))
  {
    hide *;
    if bits == [] {
      NothingFed(ONES);
      NothingToDivide();
      PolynomialOfOnes();
      CongruentItself(ALL_ONES);
    } else {
      var front, bit := bits[..|bits| - 1], bits[|bits| - 1];
      var c := FedBits(ONES, front);
      var last: Polynomial := if bit then {32} else {};
      RegisterIsRemainder(front);
      FedLast(ONES, bits);
      DividendNext(front, bit);
      assert bits == front + [bit];
      CongruentRaised(Dividend(front), PolynomialOf(c));
      CongruentItself(last);
      CongruentSum(Raised(Dividend(front), 1), Raised(PolynomialOf(c), 1), last, last);
      FedIsRemainder(c, bit);
      CongruentThrough(Dividend(bits), Plus(Raised(PolynomialOf(c), 1), last), PolynomialOf(Fed(c, bit)));
    }
  }

  lemma NothingFed(c: bv32)
    ensures FedBits(c, []) == c
  {
  }

  lemma FedLast(c: bv32, bits: seq<bool>)
    requires bits != []
    ensures FedBits(c, bits) == Fed(FedBits(c, bits[..|bits| - 1]), bits[|bits| - 1])
  {
    hide Fed;
  }

  // ---- Bytes ----

  /** The bits of a byte in the order in which they are sent, the lowest first. */
  function BitsOfByte(b: byte): seq<bool> {
    var n := b as nat;
    [Bit(n, 0), Bit(n, 1), Bit(n, 2), Bit(n, 3), Bit(n, 4), Bit(n, 5), Bit(n, 6), Bit(n, 7)]
  }

  function BitsOfData(data: seq<byte>): seq<bool> {
    if data == [] then [] else BitsOfData(data[..|data| - 1]) + BitsOfByte(data[|data| - 1])
  }

  function One(bit: bool): bv32 {
    if bit then 1 else 0
  }

  lemma PackSplits(b0: bool, b1: bool, b2: bool, b3: bool, b4: bool, b5: bool, b6: bool, b7: bool) returns (rest: bv32)
    ensures Pack(b0, b1, b2, b3, b4, b5, b6, b7) == Xor(One(b0), rest) && Even(rest)
    ensures Half(rest) == Pack(b1, b2, b3, b4, b5, b6, b7, false)
  {
    rest := Pack(false, b1, b2, b3, b4, b5, b6, b7);
  }

  lemma XorTwice(r: bv32, a: bv32, b: bv32)
    ensures Xor(r, Xor(a, b)) == Xor(Xor(r, a), b)
  {
  }

  /** One bit step takes one bit of the byte and leaves the others for later. */
  lemma StepOfByte(c: bv32, b0: bool, b1: bool, b2: bool, b3: bool, b4: bool, b5: bool, b6: bool, b7: bool)
    ensures BitStep(Xor(c, Pack(b0, b1, b2, b3, b4, b5, b6, b7)))
         == Xor(Fed(c, b0), Pack(b1, b2, b3, b4, b5, b6, b7, false))
  {
    var rest := PackSplits(b0, b1, b2, b3, b4, b5, b6, b7);
    hide Pack;
    XorTwice(c, One(b0), rest);
    BitStepLinear(Xor(c, One(b0)), rest);
    BitStepIs(rest);
    hide Xor;
    hide BitStep;
    hide Half;
    hide Even;
  }

  lemma NothingPacked(c: bv32)
    ensures Xor(c, Pack(false, false, false, false, false, false, false, false)) == c
  {
  }

  lemma StepsOne(c: bv32, n: nat)
    ensures BitSteps(c, n + 1) == BitSteps(BitStep(c), n) && BitSteps(c, 0) == c
  {
    BitStepsCompose(c, 1, n);
    assert BitSteps(c, 1) == BitStep(BitSteps(c, 0));
    hide BitStep;
  }

  lemma {:induction false} FedFirst(c: bv32, bit: bool, bits: seq<bool>)
    ensures FedBits(c, [bit] + bits) == FedBits(Fed(c, bit), bits)
  {
    hide Fed;
    if bits == [] {
      assert [bit] + bits == [bit] && [bit][..0] == [];
      assert FedBits(c, []) == c;
    } else {
      var n := |bits| - 1;
      FedFirst(c, bit, bits[..n]);
      assert ([bit] + bits)[..n + 1] == [bit] + bits[..n];
    }
  }

  /** The register after the first n of these bits. */
  function FedTimes(c: bv32, b0: bool, b1: bool, b2: bool, b3: bool, b4: bool, b5: bool, b6: bool, b7: bool,
                    n: nat): bv32
    decreases n
  {
    if n == 0 then c else FedTimes(Fed(c, b0), b1, b2, b3, b4, b5, b6, b7, false, n - 1)
  }

  lemma FedTimesIs(c: bv32, b0: bool, b1: bool, b2: bool, b3: bool, b4: bool, b5: bool, b6: bool, b7: bool, n: nat)
    ensures FedTimes(c, b0, b1, b2, b3, b4, b5, b6, b7, n)
         == if n == 0 then c else FedTimes(Fed(c, b0), b1, b2, b3, b4, b5, b6, b7, false, n - 1)
  {
    hide Fed;
  }

  /** Adding a byte in and eight bit steps are the same as feeding its bits. */
  lemma {:induction false} ByteIsFed(c: bv32, b0: bool, b1: bool, b2: bool, b3: bool, b4: bool, b5: bool, b6: bool,
                                     b7: bool, n: nat)
    ensures BitSteps(Xor(c, Pack(b0, b1, b2, b3, b4, b5, b6, b7)), n)
         == Xor(FedTimes(c, b0, b1, b2, b3, b4, b5, b6, b7, n), Rest(b0, b1, b2, b3, b4, b5, b6, b7, n))
    decreases n
  {
    hide *;
    RestIs(b0, b1, b2, b3, b4, b5, b6, b7, n);
    FedTimesIs(c, b0, b1, b2, b3, b4, b5, b6, b7, n);
    if n == 0 {
      StepsOne(Xor(c, Pack(b0, b1, b2, b3, b4, b5, b6, b7)), 0);
    } else {
      StepOfByte(c, b0, b1, b2, b3, b4, b5, b6, b7);
      StepsOne(Xor(c, Pack(b0, b1, b2, b3, b4, b5, b6, b7)), n - 1);
      ByteIsFed(Fed(c, b0), b1, b2, b3, b4, b5, b6, b7, false, n - 1);
    }
  }

  /** Two bits at a time. */
  lemma FedTwo(c: bv32, b0: bool, b1: bool, rest: seq<bool>)
    ensures FedBits(c, [b0, b1] + rest) == FedBits(Fed(Fed(c, b0), b1), rest)
  {
    hide *;
    FedFirst(c, b0, [b1] + rest);
    FedFirst(Fed(c, b0), b1, rest);
    assert [b0, b1] + rest == [b0] + ([b1] + rest);
  }

  lemma FedTimesTwo(c: bv32, b0: bool, b1: bool, b2: bool, b3: bool, b4: bool, b5: bool, b6: bool, b7: bool, n: nat)
    requires n >= 2
    ensures FedTimes(c, b0, b1, b2, b3, b4, b5, b6, b7, n)
         == FedTimes(Fed(Fed(c, b0), b1), b2, b3, b4, b5, b6, b7, false, false, n - 2)
  {
    hide *;
    FedTimesIs(c, b0, b1, b2, b3, b4, b5, b6, b7, n);
    FedTimesIs(Fed(c, b0), b1, b2, b3, b4, b5, b6, b7, false, n - 1);
  }

  lemma FedEight(c: bv32, b0: bool, b1: bool, b2: bool, b3: bool, b4: bool, b5: bool, b6: bool, b7: bool)
    ensures FedTimes(c, b0, b1, b2, b3, b4, b5, b6, b7, 8)
         == FedBits(c, [b0, b1] + ([b2, b3] + ([b4, b5] + ([b6, b7] + []))))
  {
    hide *;
    var d := Fed(Fed(c, b0), b1);
    var e := Fed(Fed(d, b2), b3);
    var f := Fed(Fed(e, b4), b5);
    var g := Fed(Fed(f, b6), b7);
    FedTwo(c, b0, b1, [b2, b3] + ([b4, b5] + ([b6, b7] + [])));
    FedTwo(d, b2, b3, [b4, b5] + ([b6, b7] + []));
    FedTwo(e, b4, b5, [b6, b7] + []);
    FedTwo(f, b6, b7, []);
    NothingFed(g);
    FedTimesTwo(c, b0, b1, b2, b3, b4, b5, b6, b7, 8);
    FedTimesTwo(d, b2, b3, b4, b5, b6, b7, false, false, 6);
    FedTimesTwo(e, b4, b5, b6, b7, false, false, false, false, 4);
    FedTimesTwo(f, b6, b7, false, false, false, false, false, false, 2);
    FedTimesIs(g, false, false, false, false, false, false, false, false, 0);
  }

  lemma EightBits(b0: bool, b1: bool, b2: bool, b3: bool, b4: bool, b5: bool, b6: bool, b7: bool)
    ensures [b0, b1] + ([b2, b3] + ([b4, b5] + ([b6, b7] + []))) == [b0, b1, b2, b3, b4, b5, b6, b7]
  {
  }

  /** The bits from the n-th on. */
  function Rest(b0: bool, b1: bool, b2: bool, b3: bool, b4: bool, b5: bool, b6: bool, b7: bool, n: nat): bv32
    decreases n
  {
    if n == 0 then Pack(b0, b1, b2, b3, b4, b5, b6, b7) else Rest(b1, b2, b3, b4, b5, b6, b7, false, n - 1)
  }

  lemma RestIs(b0: bool, b1: bool, b2: bool, b3: bool, b4: bool, b5: bool, b6: bool, b7: bool, n: nat)
    ensures Rest(b0, b1, b2, b3, b4, b5, b6, b7, n)
         == if n == 0 then Pack(b0, b1, b2, b3, b4, b5, b6, b7) else Rest(b1, b2, b3, b4, b5, b6, b7, false, n - 1)
  {
    hide Pack;
  }

  lemma NoRest(b0: bool, b1: bool, b2: bool, b3: bool, b4: bool, b5: bool, b6: bool, b7: bool)
    ensures Rest(b0, b1, b2, b3, b4, b5, b6, b7, 8) == Pack(false, false, false, false, false, false, false, false)
  {
    hide Pack;
    RestIs(b0, b1, b2, b3, b4, b5, b6, b7, 8);
    RestIs(b1, b2, b3, b4, b5, b6, b7, false, 7);
    RestIs(b2, b3, b4, b5, b6, b7, false, false, 6);
    RestIs(b3, b4, b5, b6, b7, false, false, false, 5);
    RestIs(b4, b5, b6, b7, false, false, false, false, 4);
    RestIs(b5, b6, b7, false, false, false, false, false, 3);
    RestIs(b6, b7, false, false, false, false, false, false, 2);
    RestIs(b7, false, false, false, false, false, false, false, 1);
    RestIs(false, false, false, false, false, false, false, false, 0);
  }

  lemma WordIsFed(c: bv32, b: byte)
    ensures BitSteps(Xor(c, Word(b)), 8) == FedBits(c, BitsOfByte(b))
  {
    var n := b as nat;
    var b0, b1, b2, b3 := Bit(n, 0), Bit(n, 1), Bit(n, 2), Bit(n, 3);
    var b4, b5, b6, b7 := Bit(n, 4), Bit(n, 5), Bit(n, 6), Bit(n, 7);
    assert Word(b) == Pack(b0, b1, b2, b3, b4, b5, b6, b7);
    assert BitsOfByte(b) == [b0, b1, b2, b3, b4, b5, b6, b7];
    hide *;
    ByteIsFed(c, b0, b1, b2, b3, b4, b5, b6, b7, 8);
    NoRest(b0, b1, b2, b3, b4, b5, b6, b7);
    FedEight(c, b0, b1, b2, b3, b4, b5, b6, b7);
    EightBits(b0, b1, b2, b3, b4, b5, b6, b7);
    NothingPacked(FedBits(c, BitsOfByte(b)));
  }

  lemma {:induction false} FedMore(c: bv32, a: seq<bool>, b: seq<bool>)
    ensures FedBits(c, a + b) == FedBits(FedBits(c, a), b)
  {
    hide Fed;
    if b == [] {
      assert a + b == a;
    } else {
      FedMore(c, a, b[..|b| - 1]);
      assert (a + b)[..|a + b| - 1] == a + b[..|b| - 1];
    }
  }

  lemma {:induction false} RegisterIsFed(c: bv32, data: seq<byte>)
    ensures Register(c, data) == FedBits(c, BitsOfData(data))
  {
    hide BitSteps;
    hide Word;
    hide Xor;
    hide BitsOfByte;
    hide Fed;
    if data != [] {
      var n := |data| - 1;
      RegisterIsFed(c, data[..n]);
      WordIsFed(Register(c, data[..n]), data[n]);
      FedMore(c, BitsOfData(data[..n]), BitsOfByte(data[n]));
    }
  }

  // ---- The checksum ----

  lemma {:induction false} ZeroFromHalves(c: bv32, k: nat)
    requires k <= 32 && forall i: nat | i < 32 :: Even(Halves(c, i))
    ensures Halves(c, k) == 0
    decreases 32 - k
  {
    if k == 32 {
      NothingLeft(c);
    } else {
      ZeroFromHalves(c, k + 1);
      assert Even(Halves(c, k)) && Half(Halves(c, k)) == 0;
      hide Halves;
      ZeroHalf(Halves(c, k));
    }
  }

  lemma ZeroHalf(c: bv32)
    requires Half(c) == 0 && Even(c)
    ensures c == 0
  {
  }

  lemma PolynomialInjective(a: bv32, b: bv32)
    requires PolynomialOf(a) == PolynomialOf(b)
    ensures a == b
  {
    var c := Xor(a, b);
    PolynomialOfXor(a, b);
    SumAgain(PolynomialOf(a), PolynomialOf(b), {}, {});
    forall i: nat | i < 32 ensures Even(Halves(c, i)) {
      assert 31 - i !in PolynomialOf(c);
    }
    ZeroFromHalves(c, 0);
    assert Halves(c, 0) == c;
    hide Halves;
    hide PolynomialOf;
    XorZero(a, b);
  }

  lemma XorZero(a: bv32, b: bv32)
    requires Xor(a, b) == 0
    ensures a == b
  {
  }

  lemma Complemented(c: bv32)
    ensures PolynomialOf(Xor(c, ONES)) == Plus(ALL_ONES, PolynomialOf(c)) && Xor(Xor(c, ONES), ONES) == c
  {
    PolynomialOfXor(c, ONES);
    PolynomialOfOnes();
    SumAgain(PolynomialOf(c), ALL_ONES, {}, {});
    hide PolynomialOf;
  }

  /**
   * The checksum of data is exactly this: its complement is the remainder of the data as a polynomial, times x^32 and
   * with its first 32 bits complemented, by the generator.
   */
  lemma CrcExactlyWhen(data: seq<byte>, v: bv32)
    ensures v == Crc(data) <==> IsRemainder(Dividend(BitsOfData(data)), Plus(ALL_ONES, PolynomialOf(v)))
  {
    var r := Register(ONES, data);
    assert Crc(data) == Xor(r, ONES);
    RegisterIsFed(ONES, data);
    RegisterIsRemainder(BitsOfData(data));
    hide *;
    Complemented(v);
    Complemented(r);
    SmallPolynomial(r);
    SmallPolynomial(Xor(v, ONES));
    RemainderMeans(Dividend(BitsOfData(data)), PolynomialOf(r));
    if IsRemainder(Dividend(BitsOfData(data)), PolynomialOf(Xor(v, ONES))) {
      RemainderIsUnique(Dividend(BitsOfData(data)), PolynomialOf(r), PolynomialOf(Xor(v, ONES)));
      PolynomialInjective(r, Xor(v, ONES));
    }
  }

  lemma RemainderMeans(p: Polynomial, r: Polynomial)
    ensures IsRemainder(p, r) <==> (forall e | e in r :: e < 32) && Congruent(p, r)
  {
    hide Congruent;
  }
}
