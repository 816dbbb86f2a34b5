/** Bytes, text and the big-endian integers of the wire format. */
module Bytes {

  newtype byte = x: int | 0 <= x < 0x100

  type Text = seq<byte>

  lemma SliceOfSlice<T>(s: seq<T>, a: nat, b: nat, i: nat, j: nat)
    requires a <= b <= |s| && i <= j <= b - a
    ensures s[a..b][i..j] == s[a + i..a + j]
  {
    var t, u := s[a..b][i..j], s[a + i..a + j];
    assert |t| == |u| && forall k | 0 <= k < |t| :: t[k] == u[k];
  }

  lemma DropDrop<T>(s: seq<T>, a: nat, b: nat)
    requires a + b <= |s|
    ensures s[a..][b..] == s[a + b..]
  {
  }

  lemma Associative<T>(a: seq<T>, b: seq<T>, c: seq<T>)
    ensures a + b + c == a + (b + c)
  {
  }

  lemma FourPieces<T>(s: seq<T>, a: seq<T>, b: seq<T>, c: seq<T>, d: seq<T>)
    requires s == a + b + c + d
    ensures s[0..|a|] == a && s[|a|..|a| + |b|] == b
    ensures s[|a| + |b|..|a| + |b| + |c|] == c && s[|a| + |b| + |c|..|s|] == d
  {
  }

  // ---- Numbers on the wire ----

  const U32: nat := 0x1_0000_0000
  const U64: nat := 0x1_0000_0000_0000_0000

  datatype Option<+T> = None | Some(value: T)

  /** The four bytes `htobe32` puts on the wire. */
  function Be32(n: nat): (s: seq<byte>)
    requires n < U32
    ensures |s| == 4
  {
    [(n / 0x100_0000) as byte, (n / 0x1_0000 % 0x100) as byte, (n / 0x100 % 0x100) as byte, (n % 0x100) as byte]
  }

  function ReadBe32(s: seq<byte>, at: nat): (n: nat)
    requires at + 4 <= |s|
    ensures n < U32
  {
    s[at] as nat * 0x100_0000 + s[at + 1] as nat * 0x1_0000 + s[at + 2] as nat * 0x100 + s[at + 3] as nat
  }

  function Be64(n: nat): (s: seq<byte>)
    requires n < U64
    ensures |s| == 8
  {
    Be32(n / U32) + Be32(n % U32)
  }

  function ReadBe64(s: seq<byte>, at: nat): (n: nat)
    requires at + 8 <= |s|
    ensures n < U64
  {
    ReadBe32(s, at) * U32 + ReadBe32(s, at + 4)
  }

  lemma DigitsOf(n: nat)
    requires n < U32
    ensures n / 0x100_0000 * 0x100_0000 + n / 0x1_0000 % 0x100 * 0x1_0000 + n / 0x100 % 0x100 * 0x100 + n % 0x100 == n
  {
    assert n / 0x100 / 0x100 == n / 0x1_0000;
    assert n / 0x1_0000 / 0x100 == n / 0x100_0000;
  }

  lemma DigitsFrom(a: nat, b: nat, c: nat, d: nat)
    requires a < 0x100 && b < 0x100 && c < 0x100 && d < 0x100
    ensures var n := a * 0x100_0000 + b * 0x1_0000 + c * 0x100 + d;
            n / 0x100_0000 == a && n / 0x1_0000 % 0x100 == b && n / 0x100 % 0x100 == c && n % 0x100 == d
  {
    var n := a * 0x100_0000 + b * 0x1_0000 + c * 0x100 + d;
    assert n / 0x100 == a * 0x1_0000 + b * 0x100 + c;
    assert n / 0x1_0000 == a * 0x100 + b;
  }

  /** Reading finds the number that was written, wherever it stands in the buffer. */
  lemma ReadAfterWrite32(s: seq<byte>, at: nat, n: nat)
    requires n < U32 && at + 4 <= |s| && s[at..at + 4] == Be32(n)
    ensures ReadBe32(s, at) == n
  {
    var w := s[at..at + 4];
    assert s[at] == w[0] && s[at + 1] == w[1] && s[at + 2] == w[2] && s[at + 3] == w[3];
    DigitsOf(n);
  }

  lemma WriteAfterRead32(s: seq<byte>, at: nat)
    requires at + 4 <= |s|
    ensures Be32(ReadBe32(s, at)) == s[at..at + 4]
  {
    DigitsFrom(s[at] as nat, s[at + 1] as nat, s[at + 2] as nat, s[at + 3] as nat);
    assert s[at..at + 4] == [s[at], s[at + 1], s[at + 2], s[at + 3]];
  }

  lemma ReadAfterWrite64(s: seq<byte>, at: nat, n: nat)
    requires n < U64 && at + 8 <= |s| && s[at..at + 8] == Be64(n)
    ensures ReadBe64(s, at) == n
  {
    assert s[at..at + 4] == s[at..at + 8][..4] == Be32(n / U32);
    assert s[at + 4..at + 8] == s[at..at + 8][4..] == Be32(n % U32);
    ReadAfterWrite32(s, at, n / U32);
    ReadAfterWrite32(s, at + 4, n % U32);
  }

  lemma WriteAfterRead64(s: seq<byte>, at: nat)
    requires at + 8 <= |s|
    ensures Be64(ReadBe64(s, at)) == s[at..at + 8]
  {
    WriteAfterRead32(s, at);
    WriteAfterRead32(s, at + 4);
    assert ReadBe64(s, at) / U32 == ReadBe32(s, at);
    assert s[at..at + 8] == s[at..at + 4] + s[at + 4..at + 8];
  }
}
