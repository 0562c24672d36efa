/** Bytes as bit vectors and as numbers. The conversions go by nibbles, which keeps them easy to reason about. */
module Bytes {

  /** The low byte of a number, as a cast to `uint8_t` gives it. */
  function ByteOf(n: nat): bv8 { ((n % 0x100 / 16) as bv4 as bv8 << 4) | (n % 16) as bv4 as bv8 }

  /** A byte as a number. */
  function Num(b: bv8): (n: nat)
    ensures n < 0x100
  {
    High(b) * 16 + Low(b)
  }

  function High(b: bv8): (n: nat)
    ensures n < 16
  {
    Nibble((b >> 4) as bv4)
  }

  function Low(b: bv8): (n: nat)
    ensures n < 16
  {
    Nibble((b & 0xF) as bv4)
  }

  function Nibble(x: bv4): (n: nat)
    ensures n < 16
  {
    x as nat
  }

  lemma NibbleOf(n: nat)
    requires n < 16
    ensures Nibble(n as bv4) == n
  {}

  lemma NibbleBack(x: bv4, y: bv4)
    requires Nibble(x) == Nibble(y)
    ensures x == y
  {}

  lemma Halves(x: bv4, y: bv4)
    ensures ((((x as bv8) << 4) | y as bv8) >> 4) as bv4 == x
    ensures ((((x as bv8) << 4) | y as bv8) & 0xF) as bv4 == y
  {}

  lemma Joined(b: bv8)
    ensures (((b >> 4) as bv4 as bv8) << 4) | ((b & 0xF) as bv4 as bv8) == b
  {}

  lemma ByteNum(n: nat)
    ensures Num(ByteOf(n)) == n % 0x100
  {
    NibbleOf(n % 0x100 / 16);
    NibbleOf(n % 16);
    Halves((n % 0x100 / 16) as bv4, (n % 16) as bv4);
    hide Nibble;
    assert n % 0x100 % 16 == n % 16;
  }

  lemma SameHalves(a: bv8, b: bv8)
    requires Num(a) == Num(b)
    ensures High(a) == High(b) && Low(a) == Low(b)
  {
    hide High, Low;
  }

  lemma NumInjective(a: bv8, b: bv8)
    requires Num(a) == Num(b)
    ensures a == b
  {
    SameHalves(a, b);
    hide Num, Nibble;
    NibbleBack((a >> 4) as bv4, (b >> 4) as bv4);
    NibbleBack((a & 0xF) as bv4, (b & 0xF) as bv4);
    Joined(a);
    Joined(b);
  }

  lemma NumByte(b: bv8, n: nat)
    requires n % 0x100 == Num(b)
    ensures ByteOf(n) == b
  {
    hide Num, ByteOf;
    ByteNum(n);
    NumInjective(ByteOf(n), b);
  }

  /** Higher digits do not show in the low byte. */
  lemma LowDigit(q: nat, x: nat)
    ensures (q * 0x100 + x) % 0x100 == x % 0x100
  {}

  /** The high bit tells whether a byte is 128 or more. */
  lemma HighBit(b: bv8)
    ensures b & 0x80 == 0 <==> Num(b) < 128
  {
    TopBit((b >> 4) as bv4);
    HighHalf(b);
    hide Nibble;
  }

  lemma TopBit(x: bv4)
    ensures x & 8 == 0 <==> Nibble(x) < 8
  {}

  lemma HighHalf(b: bv8)
    ensures b & 0x80 == 0 <==> ((b >> 4) as bv4) & 8 == 0
  {}
}
