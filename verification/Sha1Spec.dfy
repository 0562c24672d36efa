/** SHA-1 as FIPS 180-4 defines it: padding (5.1.1), initial value (5.3.1) and block processing (6.1.2). */
module Sha1Spec {

  /** The five working variables, or the five words of a hash value. */
  datatype Words = Words(a: bv32, b: bv32, c: bv32, d: bv32, e: bv32)

  const IV := Words(0x67452301, 0xEFCDAB89, 0x98BADCFE, 0x10325476, 0xC3D2E1F0)

  function Rotl1(x: bv32): bv32 { (x << 1) | (x >> 31) }
  function Rotl5(x: bv32): bv32 { (x << 5) | (x >> 27) }
  function Rotl30(x: bv32): bv32 { (x << 30) | (x >> 2) }

  function Ch(x: bv32, y: bv32, z: bv32): bv32 { (x & y) ^ (!x & z) }
  function Parity(x: bv32, y: bv32, z: bv32): bv32 { x ^ y ^ z }
  function Maj(x: bv32, y: bv32, z: bv32): bv32 { (x & y) ^ (x & z) ^ (y & z) }

  /** The function of round `t` (section 4.1.1). */
  function F(t: nat, x: bv32, y: bv32, z: bv32): bv32 {
    if t < 20 then Ch(x, y, z) else if 40 <= t < 60 then Maj(x, y, z) else Parity(x, y, z)
  }

  /** The constant of round `t` (section 4.2.1). */
  function K(t: nat): bv32 {
    if t < 20 then 0x5A827999 else if t < 40 then 0x6ED9EBA1 else if t < 60 then 0x8F1BBCDC else 0xCA62C1D6
  }

  /** Four bytes as a word, the first byte highest. */
  function BigEndian(b0: bv8, b1: bv8, b2: bv8, b3: bv8): bv32 {
    (b0 as bv32 << 24) | (b1 as bv32 << 16) | (b2 as bv32 << 8) | b3 as bv32
  }

  function Xor4(x: bv32, y: bv32, z: bv32, w: bv32): bv32 { x ^ y ^ z ^ w }

  type Block = b: seq<bv8> | |b| == 64 witness seq(64, _ => 0)

  /** The message schedule of a block. */
  function W(block: Block, t: nat): bv32 {
    if t < 16 then BigEndian(block[4 * t], block[4 * t + 1], block[4 * t + 2], block[4 * t + 3])
    else Rotl1(Xor4(W(block, t - 3), W(block, t - 8), W(block, t - 14), W(block, t - 16)))
  }

  /** Addition is modulo 2^32. */
  function Sum(x: bv32, y: bv32): bv32 { x + y }

  function Sum5(p: bv32, f: bv32, e: bv32, k: bv32, w: bv32): bv32 { p + f + e + k + w }

  /** One round. */
  function Round(r: Words, t: nat, w: bv32): Words {
    Words(Sum5(Rotl5(r.a), F(t, r.b, r.c, r.d), r.e, K(t), w), r.a, Rotl30(r.b), r.c, r.d)
  }

  /** The working variables after `t` rounds. */
  function Rounds(h: Words, block: Block, t: nat): Words {
    if t == 0 then h else Round(Rounds(h, block, t - 1), t - 1, W(block, t - 1))
  }

  function Add(x: Words, y: Words): Words {
    Words(Sum(x.a, y.a), Sum(x.b, y.b), Sum(x.c, y.c), Sum(x.d, y.d), Sum(x.e, y.e))
  }

  /** The hash value after one more block. */
  function Compress(h: Words, block: Block): Words { Add(h, Rounds(h, block, 80)) }

  /** The hash value after the whole blocks of `m`. */
  function Blocks(h: Words, m: seq<bv8>): Words
    decreases |m|
  {
    if |m| < 64 then h else Blocks(Compress(h, m[..64]), m[64..])
  }

  /** The number of zero bytes that bring the message, its end mark and its length to whole blocks. */
  function ZeroBytes(n: nat): (z: nat)
    ensures z < 64 && (n + 1 + z) % 64 == 56
  {
    (119 - n % 64) % 64
  }

  /** A number below 2^64 in eight bytes, the highest first. */
  function Bytes64(n: nat): (s: seq<bv8>)
    ensures |s| == 8
  {
    seq(8, i requires 0 <= i < 8 => (n / Power256(7 - i) % 256) as bv8)
  }

  function Power256(k: nat): (p: nat)
    ensures p > 0
  {
    if k == 0 then 1 else 256 * Power256(k - 1)
  }

  /** The padded message. */
  function Pad(m: seq<bv8>): seq<bv8> {
    m + ([0x80] + (seq(ZeroBytes(|m|), _ => 0) + Bytes64(8 * |m|)))
  }

  function WordBytes(w: bv32): (s: seq<bv8>)
    ensures |s| == 4
  {
    [(w >> 24) as bv8, ((w >> 16) & 0xFF) as bv8, ((w >> 8) & 0xFF) as bv8, (w & 0xFF) as bv8]
  }

  function DigestBytes(h: Words): seq<bv8> {
    WordBytes(h.a) + WordBytes(h.b) + WordBytes(h.c) + WordBytes(h.d) + WordBytes(h.e)
  }

  /** SHA-1 of a message. */
  function Sha1(m: seq<bv8>): seq<bv8> { DigestBytes(Blocks(IV, Pad(m))) }

  lemma {:induction false} BlocksAppend(h: Words, a: seq<bv8>, b: seq<bv8>)
    requires |a| % 64 == 0
    ensures Blocks(h, a + b) == Blocks(Blocks(h, a), b)
    decreases |a|
  {
    hide Compress;
    if a == [] {
      assert a + b == b;
    } else {
      assert (a + b)[..64] == a[..64] && (a + b)[64..] == a[64..] + b;
      BlocksAppend(Compress(h, a[..64]), a[64..], b);
    }
  }

  /** One more whole block. */
  lemma OneBlock(h: Words, m: seq<bv8>, block: Block)
    requires |m| % 64 == 0
    ensures Blocks(h, m + block) == Compress(Blocks(h, m), block)
  {
    hide Compress;
    BlocksAppend(h, m, block);
    assert block[..64] == block && block[64..] == [];
  }

  /** A part of a block does not count yet. */
  lemma PartBlock(h: Words, m: seq<bv8>, t: seq<bv8>)
    requires |m| % 64 == 0 && |t| < 64
    ensures Blocks(h, m + t) == Blocks(h, m)
  {
    hide Compress;
    BlocksAppend(h, m, t);
  }
}
