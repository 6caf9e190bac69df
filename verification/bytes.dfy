/** Bytes and fixed-width integers on the wire. */
module Bytes {
  type Byte = b: int | 0 <= b < 0x100
  type Octets = seq<Byte>

  /** A 32-bit unsigned integer, least significant byte first. */
  function U32LE(n: nat): (b: Octets)
    requires n < 0x1_0000_0000
    ensures |b| == 4
  {
    [n % 0x100, n / 0x100 % 0x100, n / 0x1_0000 % 0x100, n / 0x100_0000]
  }

  function ReadU32LE(b: Octets): (n: nat)
    requires |b| >= 4
    ensures n < 0x1_0000_0000
  {
    b[0] as int + 0x100 * (b[1] as int) + 0x1_0000 * (b[2] as int) + 0x100_0000 * (b[3] as int)
  }

  /** A 32-bit unsigned integer, most significant byte first. */
  function U32BE(n: nat): (b: Octets)
    requires n < 0x1_0000_0000
    ensures |b| == 4
  {
    [n / 0x100_0000, n / 0x1_0000 % 0x100, n / 0x100 % 0x100, n % 0x100]
  }

  function ReadU32BE(b: Octets): (n: nat)
    requires |b| >= 4
    ensures n < 0x1_0000_0000
  {
    0x100_0000 * (b[0] as int) + 0x1_0000 * (b[1] as int) + 0x100 * (b[2] as int) + b[3] as int
  }

  lemma {:induction false} ReadBack(n: nat)
    requires n < 0x1_0000_0000
    ensures ReadU32LE(U32LE(n)) == n && ReadU32BE(U32BE(n)) == n
  {
    assert n / 0x1_0000 == n / 0x100 / 0x100 && n / 0x100_0000 == n / 0x1_0000 / 0x100;
    assert n == n / 0x100 * 0x100 + n % 0x100;
    assert n / 0x100 == n / 0x1_0000 * 0x100 + n / 0x100 % 0x100;
    assert n / 0x1_0000 == n / 0x100_0000 * 0x100 + n / 0x1_0000 % 0x100;
  }

  /** The number four bytes make, the least significant one first. */
  function FromBytes(least: int, second: int, third: int, most: int): int {
    least + 0x100 * second + 0x1_0000 * third + 0x100_0000 * most
  }

  /** Four bytes are the field of exactly one number, the first one weighing least. */
  lemma {:induction false} LittleEndianExactly(n: nat, a: Byte, b: Byte, c: Byte, d: Byte)
    requires n < 0x1_0000_0000
    ensures U32LE(n) == [a, b, c, d] <==> n == FromBytes(a, b, c, d)
    ensures ReadU32LE([a, b, c, d]) == FromBytes(a, b, c, d)
  {
    ReadBack(n);
    if n == FromBytes(a, b, c, d) { DigitsOf(n, a, b, c, d); }
    assert U32LE(n) == [a, b, c, d] ==> ReadU32LE(U32LE(n)) == ReadU32LE([a, b, c, d]);
  }

  /** The same with the first byte weighing most. */
  lemma {:induction false} BigEndianExactly(n: nat, a: Byte, b: Byte, c: Byte, d: Byte)
    requires n < 0x1_0000_0000
    ensures U32BE(n) == [a, b, c, d] <==> n == FromBytes(d, c, b, a)
    ensures ReadU32BE([a, b, c, d]) == FromBytes(d, c, b, a)
  {
    ReadBack(n);
    if n == FromBytes(d, c, b, a) { DigitsOf(n, d, c, b, a); }
    assert U32BE(n) == [a, b, c, d] ==> ReadU32BE(U32BE(n)) == ReadU32BE([a, b, c, d]);
  }

  lemma {:induction false} DigitsOf(n: nat, a: Byte, b: Byte, c: Byte, d: Byte)
    requires n == FromBytes(a, b, c, d)
    ensures n % 0x100 == a && n / 0x100 % 0x100 == b && n / 0x1_0000 % 0x100 == c && n / 0x100_0000 == d
  {
    assert n / 0x100 == b + 0x100 * c + 0x1_0000 * d;
    assert n / 0x1_0000 == c + 0x100 * d;
  }

  lemma {:induction false} FirstFourMatter(b: Octets)
    requires |b| >= 4
    ensures ReadU32BE(b[..4]) == ReadU32BE(b) && ReadU32LE(b[..4]) == ReadU32LE(b)
  {
  }

  function Concat(chunks: seq<Octets>): Octets {
    if chunks == [] then [] else chunks[0] + Concat(chunks[1..])
  }

  lemma {:induction false} ConcatAppend(xs: seq<Octets>, ys: seq<Octets>)
    ensures Concat(xs + ys) == Concat(xs) + Concat(ys)
  {
    if xs == [] {
      assert xs + ys == ys;
    } else {
      assert (xs + ys)[1..] == xs[1..] + ys;
      ConcatAppend(xs[1..], ys);
    }
  }
}
