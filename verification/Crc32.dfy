/** CRC-32-IEEE: the table-driven loop, and division one bit at a time as its meaning. */
module Crc32 {
  import opened Bytes

  const POLYNOMIAL: bv32 := 0xEDB88320
  const ONES: bv32 := 0xFFFF_FFFF

  predicate Odd(n: nat) {
    n % 2 == 1
  }

  function Halved(n: nat, k: nat): nat {
    if k == 0 then n else Halved(n, k - 1) / 2
  }

  predicate Bit(n: nat, k: nat) {
    Odd(Halved(n, k))
  }

  function Pack(b0: bool, b1: bool, b2: bool, b3: bool, b4: bool, b5: bool, b6: bool, b7: bool): bv32 {
    (if b0 then 0x01 else 0) | (if b1 then 0x02 else 0) | (if b2 then 0x04 else 0) | (if b3 then 0x08 else 0)
    | (if b4 then 0x10 else 0) | (if b5 then 0x20 else 0) | (if b6 then 0x40 else 0) | (if b7 then 0x80 else 0)
  }

  /** A byte as the low byte of a register. */
  function Word(b: byte): bv32 {
    var n := b as nat;
    Pack(Bit(n, 0), Bit(n, 1), Bit(n, 2), Bit(n, 3), Bit(n, 4), Bit(n, 5), Bit(n, 6), Bit(n, 7))
  }

  /** Addition of polynomials over the two-element field. */
  function Xor(a: bv32, b: bv32): bv32 {
    a ^ b
  }

  function Shr8(c: bv32): bv32 {
    c >> 8
  }

  /** One step of reflected polynomial division. */
  function BitStep(c: bv32): bv32 {
    if c & 1 == 1 then (c >> 1) ^ POLYNOMIAL else c >> 1
  }

  function BitSteps(c: bv32, n: nat): bv32 {
    if n == 0 then c else BitStep(BitSteps(c, n - 1))
  }

  /** The register after the bytes of `data`: each byte is added in, then divided out bit by bit. */
  function Register(c: bv32, data: seq<byte>): bv32 {
    if data == [] then c else BitSteps(Xor(Register(c, data[..|data| - 1]), Word(data[|data| - 1])), 8)
  }

  function Crc(data: seq<byte>): bv32 {
    Xor(Register(ONES, data), ONES)
  }

  // ---- The bit step is linear and injective ----

  lemma ParityOfSum(a: bv32, b: bv32)
    ensures (a ^ b) & 1 == 1 <==> ((a & 1 == 1) != (b & 1 == 1))
  {
  }

  lemma HalfOfSum(a: bv32, b: bv32, p: bv32)
    ensures (a ^ b) >> 1 == (a >> 1) ^ (b >> 1)
    ensures (a ^ b) >> 1 == ((a >> 1) ^ p) ^ ((b >> 1) ^ p)
    ensures ((a ^ b) >> 1) ^ p == ((a >> 1) ^ p) ^ (b >> 1)
    ensures ((a ^ b) >> 1) ^ p == (a >> 1) ^ ((b >> 1) ^ p)
  {
  }

  lemma StepOddOdd(a: bv32, b: bv32)
    requires a & 1 == 1 && b & 1 == 1
    ensures BitStep(Xor(a, b)) == Xor(BitStep(a), BitStep(b))
  {
    ParityOfSum(a, b);
    HalfOfSum(a, b, POLYNOMIAL);
  }

  lemma StepEvenOdd(a: bv32, b: bv32)
    requires a & 1 != 1 && b & 1 == 1
    ensures BitStep(Xor(a, b)) == Xor(BitStep(a), BitStep(b))
  {
    ParityOfSum(a, b);
    HalfOfSum(a, b, POLYNOMIAL);
  }

  lemma XorCommutes(a: bv32, b: bv32)
    ensures Xor(a, b) == Xor(b, a)
  {
  }

  lemma StepOddEven(a: bv32, b: bv32)
    requires a & 1 == 1 && b & 1 != 1
    ensures BitStep(Xor(a, b)) == Xor(BitStep(a), BitStep(b))
  {
    hide BitStep;
    hide Xor;
    StepEvenOdd(b, a);
    XorCommutes(a, b);
    XorCommutes(BitStep(a), BitStep(b));
  }

  lemma StepEvenEven(a: bv32, b: bv32)
    requires a & 1 != 1 && b & 1 != 1
    ensures BitStep(Xor(a, b)) == Xor(BitStep(a), BitStep(b))
  {
    ParityOfSum(a, b);
    HalfOfSum(a, b, POLYNOMIAL);
  }

  lemma BitStepLinear(a: bv32, b: bv32)
    ensures BitStep(Xor(a, b)) == Xor(BitStep(a), BitStep(b))
  {
    hide BitStep;
    hide Xor;
    if a & 1 == 1 {
      if b & 1 == 1 { StepOddOdd(a, b); } else { StepOddEven(a, b); }
    } else {
      if b & 1 == 1 { StepEvenOdd(a, b); } else { StepEvenEven(a, b); }
    }
  }

  lemma BitStepInjective(a: bv32, b: bv32)
    requires BitStep(a) == BitStep(b)
    ensures a == b
  {
  }

  lemma {:induction false} BitStepsLinear(a: bv32, b: bv32, n: nat)
    ensures BitSteps(Xor(a, b), n) == Xor(BitSteps(a, n), BitSteps(b, n))
  {
    hide BitStep;
    hide Xor;
    if n > 0 {
      BitStepsLinear(a, b, n - 1);
      BitStepLinear(BitSteps(a, n - 1), BitSteps(b, n - 1));
    }
  }

  lemma {:induction false} BitStepsInjective(a: bv32, b: bv32, n: nat)
    requires BitSteps(a, n) == BitSteps(b, n)
    ensures a == b
  {
    hide BitStep;
    if n > 0 {
      BitStepInjective(BitSteps(a, n - 1), BitSteps(b, n - 1));
      BitStepsInjective(a, b, n - 1);
    }
  }

  lemma {:induction false} BitStepsCompose(c: bv32, m: nat, n: nat)
    ensures BitSteps(BitSteps(c, m), n) == BitSteps(c, m + n)
  {
    hide BitStep;
    if n > 0 {
      BitStepsCompose(c, m, n - 1);
    }
  }

  // ---- Eight steps at once: the table ----

  function Half(c: bv32): bv32 {
    c >> 1
  }

  predicate Even(c: bv32) {
    c & 1 == 0
  }

  lemma LowByteClear(c: bv32)
    requires c & 0xFF == 0
    ensures Even(c) && Even(Half(c)) && Even(Half(Half(c))) && Even(Half(Half(Half(c))))
    ensures var d := Half(Half(Half(Half(c))));
            Even(d) && Even(Half(d)) && Even(Half(Half(d))) && Even(Half(Half(Half(d))))
            && Half(Half(Half(Half(d)))) == c >> 8
  {
  }

  lemma ShiftOnce(c: bv32, n: nat, x: bv32)
    requires BitSteps(c, n) == x && Even(x)
    ensures BitSteps(c, n + 1) == Half(x)
  {
  }

  /** Eight steps only shift a register whose low byte is zero. */
  lemma ByteShift(c: bv32)
    requires c & 0xFF == 0
    ensures BitSteps(c, 8) == c >> 8
  {
    hide BitStep;
    hide Half;
    hide Even;
    LowByteClear(c);
    assert BitSteps(c, 0) == c;
    var d := Half(Half(Half(Half(c))));
    ShiftOnce(c, 0, c);
    ShiftOnce(c, 1, Half(c));
    ShiftOnce(c, 2, Half(Half(c)));
    ShiftOnce(c, 3, Half(Half(Half(c))));
    ShiftOnce(c, 4, d);
    ShiftOnce(c, 5, Half(d));
    ShiftOnce(c, 6, Half(Half(d)));
    ShiftOnce(c, 7, Half(Half(Half(d))));
  }

  lemma SplitLowByte(c: bv32)
    ensures c == Xor(c & 0xFFFF_FF00, c & 0xFF)
    ensures (c & 0xFFFF_FF00) & 0xFF == 0 && (c & 0xFFFF_FF00) >> 8 == c >> 8
  {
  }

  lemma StepsOfSum(c: bv32, high: bv32, low: bv32, top: bv32)
    requires c == Xor(high, low) && BitSteps(high, 8) == top
    ensures BitSteps(c, 8) == Xor(top, BitSteps(low, 8))
  {
    hide BitSteps;
    hide Xor;
    BitStepsLinear(high, low, 8);
  }

  /** The identity behind the table: eight steps are one shift and one look-up. */
  lemma TableStep(c: bv32)
    ensures BitSteps(c, 8) == Xor(Shr8(c), BitSteps(c & 0xFF, 8))
  {
    hide BitSteps;
    hide Xor;
    SplitLowByte(c);
    ByteShift(c & 0xFFFF_FF00);
    StepsOfSum(c, c & 0xFFFF_FF00, c & 0xFF, Shr8(c));
  }

  lemma PackInjective(b0: bool, b1: bool, b2: bool, b3: bool, b4: bool, b5: bool, b6: bool, b7: bool,
                      c0: bool, c1: bool, c2: bool, c3: bool, c4: bool, c5: bool, c6: bool, c7: bool)
    requires Pack(b0, b1, b2, b3, b4, b5, b6, b7) == Pack(c0, c1, c2, c3, c4, c5, c6, c7)
    ensures b0 == c0 && b1 == c1 && b2 == c2 && b3 == c3 && b4 == c4 && b5 == c5 && b6 == c6 && b7 == c7
  {
  }

  lemma PackIsByte(b0: bool, b1: bool, b2: bool, b3: bool, b4: bool, b5: bool, b6: bool, b7: bool)
    ensures var w := Pack(b0, b1, b2, b3, b4, b5, b6, b7); w & 0xFFFF_FF00 == 0 && w & 0xFF00_0000 == 0 && w >> 8 == 0
  {
  }

  function WithBit(bit: bool, rest: nat): nat {
    2 * rest + if bit then 1 else 0
  }

  lemma WithBitSplits(bit: bool, rest: nat)
    ensures Odd(WithBit(bit, rest)) == bit && WithBit(bit, rest) / 2 == rest
  {
  }

  lemma SplitsWithBit(n: nat)
    ensures WithBit(Odd(n), n / 2) == n
  {
  }

  function FromBits(b0: bool, b1: bool, b2: bool, b3: bool, b4: bool, b5: bool, b6: bool, b7: bool): (n: nat)
    ensures n < 0x100
  {
    WithBit(b0, WithBit(b1, WithBit(b2, WithBit(b3, WithBit(b4, WithBit(b5, WithBit(b6, WithBit(b7, 0))))))))
  }

  lemma ByteHalves(n: nat)
    requires n < 0x100
    ensures Halved(n, 0) == n && Halved(n, 8) == 0
    ensures forall k: nat | k < 8 :: Halved(n, k + 1) == Halved(n, k) / 2
  {
    assert Halved(n, 0) == n;
    assert Halved(n, 1) < 128;
    assert Halved(n, 2) < 64;
    assert Halved(n, 3) < 32;
    assert Halved(n, 4) < 16;
    assert Halved(n, 5) < 8;
    assert Halved(n, 6) < 4;
    assert Halved(n, 7) < 2;
  }

  lemma BitsOfByte(n: nat)
    requires n < 0x100
    ensures n == FromBits(Bit(n, 0), Bit(n, 1), Bit(n, 2), Bit(n, 3), Bit(n, 4), Bit(n, 5), Bit(n, 6), Bit(n, 7))
  {
    ByteHalves(n);
    hide Halved;
    hide Odd;
    hide WithBit;
    SplitsWithBit(Halved(n, 0));
    SplitsWithBit(Halved(n, 1));
    SplitsWithBit(Halved(n, 2));
    SplitsWithBit(Halved(n, 3));
    SplitsWithBit(Halved(n, 4));
    SplitsWithBit(Halved(n, 5));
    SplitsWithBit(Halved(n, 6));
    SplitsWithBit(Halved(n, 7));
  }

  lemma ByteOfBits(b0: bool, b1: bool, b2: bool, b3: bool, b4: bool, b5: bool, b6: bool, b7: bool)
    ensures var n := FromBits(b0, b1, b2, b3, b4, b5, b6, b7);
            && Bit(n, 0) == b0 && Bit(n, 1) == b1 && Bit(n, 2) == b2 && Bit(n, 3) == b3
            && Bit(n, 4) == b4 && Bit(n, 5) == b5 && Bit(n, 6) == b6 && Bit(n, 7) == b7
  {
    hide Halved;
    hide Odd;
    hide WithBit;
    var n7 := WithBit(b7, 0);
    var n6 := WithBit(b6, n7);
    var n5 := WithBit(b5, n6);
    var n4 := WithBit(b4, n5);
    var n3 := WithBit(b3, n4);
    var n2 := WithBit(b2, n3);
    var n1 := WithBit(b1, n2);
    var n := WithBit(b0, n1);
    assert n == FromBits(b0, b1, b2, b3, b4, b5, b6, b7);
    ByteHalves(n);
    WithBitSplits(b0, n1);
    WithBitSplits(b1, n2);
    WithBitSplits(b2, n3);
    WithBitSplits(b3, n4);
    WithBitSplits(b4, n5);
    WithBitSplits(b5, n6);
    WithBitSplits(b6, n7);
    WithBitSplits(b7, 0);
  }

  lemma WordInjective(a: byte, b: byte)
    requires Word(a) == Word(b)
    ensures a == b
  {
    hide Pack;
    hide Bit;
    hide FromBits;
    var m, n := a as nat, b as nat;
    PackInjective(Bit(m, 0), Bit(m, 1), Bit(m, 2), Bit(m, 3), Bit(m, 4), Bit(m, 5), Bit(m, 6), Bit(m, 7),
                  Bit(n, 0), Bit(n, 1), Bit(n, 2), Bit(n, 3), Bit(n, 4), Bit(n, 5), Bit(n, 6), Bit(n, 7));
    BitsOfByte(m);
    BitsOfByte(n);
  }

  lemma RegisterRoundTrip(c: bv32)
    ensures (c as int) as bv32 == c
  {
  }

  lemma AsIntInjective(a: bv32, b: bv32)
    requires a as int == b as int
    ensures a == b
  {
    RegisterRoundTrip(a);
    RegisterRoundTrip(b);
  }

  // ---- The register over concatenations ----

  lemma {:induction false} RegisterOfConcat(c: bv32, a: seq<byte>, b: seq<byte>)
    ensures Register(c, a + b) == Register(Register(c, a), b)
  {
    hide BitSteps;
    hide Xor;
    hide Word;
    if b == [] {
      assert a + b == a;
    } else {
      var front := b[..|b| - 1];
      assert (a + b)[..|a + b| - 1] == a + front;
      RegisterOfConcat(c, a, front);
    }
  }

  lemma XorCancels(a: bv32, b: bv32, w: bv32)
    requires Xor(a, w) == Xor(b, w)
    ensures a == b
  {
  }

  /** Equal bytes never bring two different registers back together. */
  lemma {:induction false} RegisterInjective(a: bv32, b: bv32, data: seq<byte>)
    requires Register(a, data) == Register(b, data)
    ensures a == b
  {
    hide BitSteps;
    hide Xor;
    hide Word;
    if data != [] {
      var front, w := data[..|data| - 1], Word(data[|data| - 1]);
      BitStepsInjective(Xor(Register(a, front), w), Xor(Register(b, front), w), 8);
      XorCancels(Register(a, front), Register(b, front), w);
      RegisterInjective(a, b, front);
    }
  }

  // ---- Four bytes act as one 32-bit word ----

  function Shl8(v: bv32): bv32 {
    v << 8
  }

  predicate Fits24(v: bv32) {
    v & 0xFF00_0000 == 0
  }

  lemma Shl8Facts(v: bv32)
    requires Fits24(v)
    ensures Shl8(v) & 0xFF == 0 && Shl8(v) >> 8 == v
  {
  }

  lemma SmallFits(w: bv32)
    requires w & 0xFFFF_FF00 == 0
    ensures Fits24(w) && Fits24(Shl8(w)) && Fits24(Shl8(Shl8(w)))
  {
  }

  lemma WordFits(b: byte)
    ensures Fits24(Word(b)) && Fits24(Shl8(Word(b))) && Fits24(Shl8(Shl8(Word(b))))
  {
    hide *;
    WordIsByte(b);
    SmallFits(Word(b));
  }

  lemma Unshift(v: bv32)
    requires Fits24(v)
    ensures BitSteps(Shl8(v), 8) == v
  {
    hide BitSteps;
    Shl8Facts(v);
    ByteShift(Shl8(v));
  }

  /** A byte placed k bytes higher in the register is at the bottom after k bytes' worth of steps. */
  lemma ShiftedWords(b: byte)
    ensures BitSteps(Shl8(Word(b)), 8) == Word(b)
    ensures BitSteps(Shl8(Shl8(Word(b))), 16) == Word(b)
    ensures BitSteps(Shl8(Shl8(Shl8(Word(b)))), 24) == Word(b)
  {
    hide *;
    var w := Word(b);
    WordFits(b);
    Unshift(w);
    Unshift(Shl8(w));
    Unshift(Shl8(Shl8(w)));
    BitStepsCompose(Shl8(Shl8(w)), 8, 8);
    BitStepsCompose(Shl8(Shl8(Shl8(w))), 8, 16);
  }

  /** Adding a byte after n steps is adding its shifted image before them. */
  lemma Absorb(x: bv32, shifted: bv32, w: bv32, n: nat)
    requires BitSteps(shifted, n) == w
    ensures Xor(BitSteps(x, n), w) == BitSteps(Xor(x, shifted), n)
  {
    hide BitSteps;
    hide Xor;
    BitStepsLinear(x, shifted, n);
  }

  function Mixed(s: bv32, b0: byte, b1: byte, b2: byte, b3: byte): bv32 {
    Xor(Xor(Xor(Xor(s, Word(b0)), Shl8(Word(b1))), Shl8(Shl8(Word(b2)))), Shl8(Shl8(Shl8(Word(b3)))))
  }

  lemma RegisterOfOne(s: bv32, b: byte)
    ensures Register(s, [b]) == BitSteps(Xor(s, Word(b)), 8)
  {
    hide BitSteps;
    hide Xor;
    hide Word;
    assert [b][..0] == [];
  }

  lemma RegisterOfFour(s: bv32, b0: byte, b1: byte, b2: byte, b3: byte)
    ensures Register(s, [b0, b1, b2, b3]) == BitSteps(Mixed(s, b0, b1, b2, b3), 32)
  {
    hide BitSteps;
    hide Xor;
    hide Word;
    hide Shl8;
    hide Register;
    var x0 := Xor(s, Word(b0));
    var x1 := Xor(x0, Shl8(Word(b1)));
    var x2 := Xor(x1, Shl8(Shl8(Word(b2))));
    var x3 := Xor(x2, Shl8(Shl8(Shl8(Word(b3)))));
    ShiftedWords(b1);
    ShiftedWords(b2);
    ShiftedWords(b3);
    RegisterOfOne(s, b0);
    RegisterOfConcat(s, [b0], [b1]);
    RegisterOfOne(BitSteps(x0, 8), b1);
    Absorb(x0, Shl8(Word(b1)), Word(b1), 8);
    BitStepsCompose(x1, 8, 8);
    assert [b0] + [b1] == [b0, b1];
    RegisterOfConcat(s, [b0, b1], [b2]);
    RegisterOfOne(BitSteps(x1, 16), b2);
    Absorb(x1, Shl8(Shl8(Word(b2))), Word(b2), 16);
    BitStepsCompose(x2, 16, 8);
    assert [b0, b1] + [b2] == [b0, b1, b2];
    RegisterOfConcat(s, [b0, b1, b2], [b3]);
    RegisterOfOne(BitSteps(x2, 24), b3);
    Absorb(x2, Shl8(Shl8(Shl8(Word(b3)))), Word(b3), 24);
    BitStepsCompose(x3, 24, 8);
    assert [b0, b1, b2] + [b3] == [b0, b1, b2, b3];
  }

  lemma PackedWords(s: bv32, v0: bv32, v1: bv32, v2: bv32, v3: bv32, w0: bv32, w1: bv32, w2: bv32, w3: bv32)
    requires v0 & 0xFFFF_FF00 == 0 && v1 & 0xFFFF_FF00 == 0 && v2 & 0xFFFF_FF00 == 0 && v3 & 0xFFFF_FF00 == 0
    requires w0 & 0xFFFF_FF00 == 0 && w1 & 0xFFFF_FF00 == 0 && w2 & 0xFFFF_FF00 == 0 && w3 & 0xFFFF_FF00 == 0
    requires (((s ^ v0) ^ (v1 << 8)) ^ ((v2 << 8) << 8)) ^ (((v3 << 8) << 8) << 8)
             == (((s ^ w0) ^ (w1 << 8)) ^ ((w2 << 8) << 8)) ^ (((w3 << 8) << 8) << 8)
    ensures v0 == w0 && v1 == w1 && v2 == w2 && v3 == w3
  {
  }

  lemma MixedRaw(s: bv32, b0: byte, b1: byte, b2: byte, b3: byte)
    ensures Mixed(s, b0, b1, b2, b3)
            == (((s ^ Word(b0)) ^ (Word(b1) << 8)) ^ ((Word(b2) << 8) << 8)) ^ (((Word(b3) << 8) << 8) << 8)
  {
    hide Word;
  }

  lemma WordIsByte(b: byte)
    ensures Word(b) & 0xFFFF_FF00 == 0 && Shr8(Word(b)) == 0
  {
    var n := b as nat;
    PackIsByte(Bit(n, 0), Bit(n, 1), Bit(n, 2), Bit(n, 3), Bit(n, 4), Bit(n, 5), Bit(n, 6), Bit(n, 7));
    hide Pack;
  }

  lemma MixedInjective(s: bv32, a0: byte, a1: byte, a2: byte, a3: byte, b0: byte, b1: byte, b2: byte, b3: byte)
    requires Mixed(s, a0, a1, a2, a3) == Mixed(s, b0, b1, b2, b3)
    ensures a0 == b0 && a1 == b1 && a2 == b2 && a3 == b3
  {
    hide *;
    MixedRaw(s, a0, a1, a2, a3);
    MixedRaw(s, b0, b1, b2, b3);
    WordIsByte(a0);
    WordIsByte(a1);
    WordIsByte(a2);
    WordIsByte(a3);
    WordIsByte(b0);
    WordIsByte(b1);
    WordIsByte(b2);
    WordIsByte(b3);
    PackedWords(s, Word(a0), Word(a1), Word(a2), Word(a3), Word(b0), Word(b1), Word(b2), Word(b3));
    WordInjective(a0, b0);
    WordInjective(a1, b1);
    WordInjective(a2, b2);
    WordInjective(a3, b3);
  }

  /**
   * Burst detection: two messages that differ only inside one window of four bytes
   * have different checksums.
   */
  lemma BurstChangesCrc(a: seq<byte>, b: seq<byte>, p: nat)
    requires |a| == |b| && p + 4 <= |a|
    requires a[..p] == b[..p] && a[p + 4..] == b[p + 4..]
    requires a != b
    ensures Crc(a) != Crc(b)
  {
    hide BitSteps;
    hide Word;
    hide Register;
    hide Mixed;
    var s := Register(ONES, a[..p]);
    var wa, wb := a[p..p + 4], b[p..p + 4];
    assert a == a[..p] + wa + a[p + 4..] && b == b[..p] + wb + b[p + 4..];
    RegisterOfConcat(ONES, a[..p] + wa, a[p + 4..]);
    RegisterOfConcat(ONES, b[..p] + wb, b[p + 4..]);
    RegisterOfConcat(ONES, a[..p], wa);
    RegisterOfConcat(ONES, b[..p], wb);
    if Crc(a) == Crc(b) {
      XorCancels(Register(ONES, a), Register(ONES, b), ONES);
      RegisterInjective(Register(s, wa), Register(s, wb), a[p + 4..]);
      assert wa == [wa[0], wa[1], wa[2], wa[3]] && wb == [wb[0], wb[1], wb[2], wb[3]];
      RegisterOfFour(s, wa[0], wa[1], wa[2], wa[3]);
      RegisterOfFour(s, wb[0], wb[1], wb[2], wb[3]);
      BitStepsInjective(Mixed(s, wa[0], wa[1], wa[2], wa[3]), Mixed(s, wb[0], wb[1], wb[2], wb[3]), 32);
      MixedInjective(s, wa[0], wa[1], wa[2], wa[3], wb[0], wb[1], wb[2], wb[3]);
      assert false;
    }
  }

  // ---- The code: table generation and the table-driven loop ----

  ghost predicate IsTable(table: seq<bv32>) {
    |table| == 256 && forall b: byte {:trigger Word(b)} :: table[b] == BitSteps(Word(b), 8)
  }

  method ShiftRemainder(remainder: bv32) returns (r: bv32)
    ensures r == BitStep(remainder)
  {
    if remainder & 1 == 1 {
      r := (remainder >> 1) ^ POLYNOMIAL;
    } else {
      r := remainder >> 1;
    }
  }

  /** The inner loop of the table: eight conditional shifts. */
  method TableEntry(b: byte) returns (entry: bv32)
    ensures entry == BitSteps(Word(b), 8)
  {
    hide Word;
    hide BitStep;
    entry := Word(b);
    var bit := 8;
    assert BitSteps(Word(b), 0) == Word(b);
    while bit > 0
      invariant 0 <= bit <= 8
      invariant entry == BitSteps(Word(b), 8 - bit)
    {
      entry := ShiftRemainder(entry);
      bit := bit - 1;
    }
  }

  method GenerateTable() returns (arr: array<bv32>)
    ensures fresh(arr) && IsTable(arr[..])
  {
    hide Word;
    hide BitSteps;
    arr := new bv32[256];
    var b: byte := 0;
    var more := true;
    while more
      invariant more ==> forall k: byte {:trigger Word(k)} :: k < b ==> arr[k] == BitSteps(Word(k), 8)
      invariant !more ==> forall k: byte {:trigger Word(k)} :: arr[k] == BitSteps(Word(k), 8)
      decreases if more then 256 - b as int else 0
    {
      arr[b] := TableEntry(b);
      more := b != 255;
      b := if b == 255 then 0 else b + 1;
    }
  }

  function LowByte(x: bv32): byte {
    FromBits(x & 0x01 != 0, x & 0x02 != 0, x & 0x04 != 0, x & 0x08 != 0,
             x & 0x10 != 0, x & 0x20 != 0, x & 0x40 != 0, x & 0x80 != 0) as byte
  }

  lemma PackOfBits(x: bv32)
    ensures Pack(x & 0x01 != 0, x & 0x02 != 0, x & 0x04 != 0, x & 0x08 != 0,
                 x & 0x10 != 0, x & 0x20 != 0, x & 0x40 != 0, x & 0x80 != 0) == x & 0xFF
  {
  }

  lemma WordOfLowByte(x: bv32)
    ensures Word(LowByte(x)) == x & 0xFF
  {
    PackOfBits(x);
    hide Pack;
    hide Bit;
    hide FromBits;
    ByteOfBits(x & 0x01 != 0, x & 0x02 != 0, x & 0x04 != 0, x & 0x08 != 0,
               x & 0x10 != 0, x & 0x20 != 0, x & 0x40 != 0, x & 0x80 != 0);
  }

  lemma LookUp(x: bv32)
    ensures Xor(Shr8(x), BitSteps(Word(LowByte(x)), 8)) == BitSteps(x, 8)
  {
    hide *;
    WordOfLowByte(x);
    TableStep(x);
  }

  lemma TopUnchanged(c: bv32, w: bv32)
    requires Shr8(w) == 0
    ensures Shr8(Xor(c, w)) == Shr8(c)
  {
  }

  /** `(crc >> 8) ^ table[(crc ^ b) & 0xFF]` divides one byte out of the register. */
  lemma LookUpStep(c: bv32, b: byte)
    ensures Xor(Shr8(c), BitSteps(Word(LowByte(Xor(c, Word(b)))), 8)) == BitSteps(Xor(c, Word(b)), 8)
  {
    hide *;
    WordIsByte(b);
    TopUnchanged(c, Word(b));
    LookUp(Xor(c, Word(b)));
  }

  method Crc32(table: seq<bv32>, data: seq<byte>) returns (crc: bv32)
    requires IsTable(table)
    ensures crc == Crc(data)
  {
    hide Word;
    hide BitSteps;
    hide LowByte;
    hide Xor;
    hide Shr8;
    crc := 0xFFFF_FFFF;
    var i := 0;
    while i < |data|
      invariant 0 <= i <= |data|
      invariant crc == Register(ONES, data[..i])
    {
      assert data[..i + 1][..i] == data[..i];
      LookUpStep(crc, data[i]);
      var index := LowByte(Xor(crc, Word(data[i])));
      assert table[index] == BitSteps(Word(index), 8);
      crc := Xor(Shr8(crc), table[index]);
      i := i + 1;
    }
    assert data[..i] == data;
    crc := Xor(crc, 0xFFFF_FFFF);
  }

  // ---- The checksum as the number that is put on the wire ----

  function Checksum(data: seq<byte>): (n: nat)
    ensures n < U32
  {
    Crc(data) as nat
  }

  lemma BurstChangesChecksum(a: seq<byte>, b: seq<byte>, p: nat)
    requires |a| == |b| && p + 4 <= |a|
    requires a[..p] == b[..p] && a[p + 4..] == b[p + 4..]
    requires a != b
    ensures Checksum(a) != Checksum(b)
  {
    hide Crc;
    BurstChangesCrc(a, b, p);
    if Checksum(a) == Checksum(b) {
      AsIntInjective(Crc(a), Crc(b));
    }
  }
}
