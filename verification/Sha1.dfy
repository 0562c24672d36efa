/** `CSHA1`: a streaming SHA-1 with a split counter, a circular 16-word schedule and unrolled, renamed rounds.
    The machine is little endian, and the variables are wiped after use. */
module Sha1 {
  import opened Bytes
  import opened Sequences
  import opened Sha1Spec

  /** Four bytes as the machine reads them into a word. */
  function LittleEndian(b0: bv8, b1: bv8, b2: bv8, b3: bv8): bv32 {
    (b3 as bv32 << 24) | (b2 as bv32 << 16) | (b1 as bv32 << 8) | b0 as bv32
  }

  function Raw(block: Block, j: nat): bv32
    requires j < 16
  {
    LittleEndian(block[4 * j], block[4 * j + 1], block[4 * j + 2], block[4 * j + 3])
  }

  /** The byte swap of `SHABLK0`. */
  function Swap(x: bv32): bv32 {
    (((x << 24) | (x >> 8)) & 0xFF00FF00) | (((x << 8) | (x >> 24)) & 0x00FF00FF)
  }

  lemma SwapReads(b0: bv8, b1: bv8, b2: bv8, b3: bv8)
    ensures Swap(LittleEndian(b0, b1, b2, b3)) == BigEndian(b0, b1, b2, b3)
  {}

  /** The last schedule word before `i` that slot `j` holds. */
  function Latest(i: nat, j: nat): nat
    requires i >= 16 && j < 16
  {
    i - 1 - (i - 1 - j) % 16
  }

  /** The 16-word window before round `i`: the words still to come are unswapped, the ones that have been are
      overwritten. */
  ghost predicate Window(l: seq<bv32>, block: Block, i: nat) {
    && |l| == 16
    && forall j :: 0 <= j < 16 ==>
         l[j] == if i >= 16 then W(block, Latest(i, j)) else if j < i then W(block, j) else Raw(block, j)
  }

  lemma SwapWindow(l: seq<bv32>, block: Block, i: nat)
    requires i < 16 && Window(l, block, i)
    ensures Swap(l[i]) == W(block, i) && Window(l[i := Swap(l[i])], block, i + 1)
  {
    SwapReads(block[4 * i], block[4 * i + 1], block[4 * i + 2], block[4 * i + 3]);
    hide Swap, W;
    assert l[i] == Raw(block, i);
    assert W(block, i) == BigEndian(block[4 * i], block[4 * i + 1], block[4 * i + 2],
                                    block[4 * i + 3]) by { FirstWord(block, i); }
    if i == 15 {
      forall j | 0 <= j < 16 ensures Latest(16, j) == j {}
    }
  }

  lemma FirstWord(block: Block, t: nat)
    requires t < 16
    ensures W(block, t) == BigEndian(block[4 * t], block[4 * t + 1], block[4 * t + 2], block[4 * t + 3])
  {}

  lemma NextWord(block: Block, t: nat)
    requires t >= 16
    ensures W(block, t) == Rotl1(Xor4(W(block, t - 3), W(block, t - 8), W(block, t - 14), W(block, t - 16)))
  {}

  lemma SlideWindow(l: seq<bv32>, block: Block, i: nat)
    requires i >= 16 && Window(l, block, i)
    ensures var x := Rotl1(Xor4(l[(i + 13) % 16], l[(i + 8) % 16], l[(i + 2) % 16], l[i % 16]));
            x == W(block, i) && Window(l[i % 16 := x], block, i + 1)
  {
    hide W, Rotl1, Window, Xor4;
    WindowReads(l, block, i);
    NextWord(block, i);
    SlideOne(l, block, i, W(block, i));
  }

  lemma WindowReads(l: seq<bv32>, block: Block, i: nat)
    requires i >= 16 && Window(l, block, i)
    ensures |l| == 16
    ensures l[(i + 13) % 16] == W(block, i - 3) && l[(i + 8) % 16] == W(block, i - 8)
    ensures l[(i + 2) % 16] == W(block, i - 14) && l[i % 16] == W(block, i - 16)
  {
    hide W, Latest;
    LatestSlots(i);
  }

  lemma SlideOne(l: seq<bv32>, block: Block, i: nat, x: bv32)
    requires i >= 16 && Window(l, block, i) && x == W(block, i)
    ensures Window(l[i % 16 := x], block, i + 1)
  {
    hide W, Latest;
    var m := l[i % 16 := x];
    forall j | 0 <= j < 16 ensures m[j] == W(block, Latest(i + 1, j)) { LatestNext(i, j); }
  }

  lemma LatestSlots(i: nat)
    requires i >= 16
    ensures Latest(i, (i + 13) % 16) == i - 3 && Latest(i, (i + 8) % 16) == i - 8
    ensures Latest(i, (i + 2) % 16) == i - 14 && Latest(i, i % 16) == i - 16
  {
    Slot(i, 3);
    Slot(i, 8);
    Slot(i, 14);
    Slot(i, 16);
    hide Latest;
  }

  lemma Mod16(q: nat, x: nat)
    ensures (16 * q + x) % 16 == x % 16
  {}

  lemma Slot(i: nat, k: nat)
    requires 1 <= k <= 16 <= i
    ensures Latest(i, (i + 16 - k) % 16) == i - k
  {
    var q, j := (i - k) / 16, (i - k) % 16;
    Mod16(1, i - k);
    Mod16(q, k - 1);
    assert i - 1 - j == 16 * q + (k - 1);
  }

  lemma LatestNext(i: nat, j: nat)
    requires i >= 16 && j < 16
    ensures Latest(i + 1, j) == if j == i % 16 then i else Latest(i, j)
  {
    var r := (i - 1 - j) % 16;
    assert (i - j) % 16 == if r == 15 then 0 else r + 1;
    assert r == 15 <==> j == i % 16;
  }

  /** The choice function as the macros have it. */
  function Choose(w: bv32, x: bv32, y: bv32): bv32 { (w & (x ^ y)) ^ y }

  /** The majority function as the macros have it. */
  function Majority(w: bv32, x: bv32, y: bv32): bv32 { ((w | x) & y) | (w & x) }

  lemma ChooseIsCh(w: bv32, x: bv32, y: bv32)
    ensures (w & (x ^ y)) ^ y == (w & x) ^ (!w & y)
  {}

  lemma MajorityIsMaj(w: bv32, x: bv32, y: bv32)
    ensures ((w | x) & y) | (w & x) == (w & x) ^ (w & y) ^ (x & y)
  {}

  lemma RewrittenForms(w: bv32, x: bv32, y: bv32)
    ensures Choose(w, x, y) == Ch(w, x, y) && Majority(w, x, y) == Maj(w, x, y)
  {
    ChooseIsCh(w, x, y);
    MajorityIsMaj(w, x, y);
  }

  /** What a macro adds up in its last register. */
  function Mixed(z: bv32, f: bv32, l: bv32, k: bv32, v: bv32): bv32 { z + (f + l + k + Rotl5(v)) }

  lemma MixedIsSum(z: bv32, f: bv32, l: bv32, k: bv32, v: bv32)
    ensures Mixed(z, f, l, k, v) == Sum5(Rotl5(v), f, z, k, l)
  {
    hide Rotl5;
  }

  /** A macro does one round, with the registers renamed. */
  lemma MacroIsRound(i: nat, v: bv32, w: bv32, x: bv32, y: bv32, z: bv32, l: bv32, f: bv32)
    requires f == F(i, w, x, y)
    ensures Round(Words(v, w, x, y, z), i, l) == Words(Mixed(z, f, l, K(i), v), v, Rotl30(w), x, y)
  {
    MixedIsSum(z, f, l, K(i), v);
    hide F, K, Rotl5, Rotl30, Mixed, Sum5;
  }

  class CSHA1 {
    const mState: array<bv32>
    const mCount: array<nat>
    const mBuffer: array<bv8>
    const mDigest: array<bv8>
    const mBlock: array<bv32>

    /** The bytes hashed in so far. */
    ghost var message: seq<bv8>

    /** The arrays are apart and have their sizes. */
    ghost predicate Valid()
    {
      && mState.Length == 5 && mCount.Length == 2 && mBuffer.Length == 64 && mDigest.Length == 20 && mBlock.Length == 16
      && mState != mBlock && mBuffer != mDigest
      && mState as object != mCount as object && mState as object != mBuffer as object
      && mState as object != mDigest as object && mBlock as object != mCount as object
      && mBlock as object != mBuffer as object && mBlock as object != mDigest as object
      && mCount as object != mBuffer as object && mCount as object != mDigest as object
    }

    ghost function Hash(): Words
      requires Valid()
      reads mState
    {
      Words(mState[0], mState[1], mState[2], mState[3], mState[4])
    }

    // ---------- one block ----------

    /** The window and the working variables before round `i`. */
    ghost predicate At(i: nat, r: Words, h: Words, block: Block)
      requires Valid()
      reads mBlock
    {
      i <= 80 && Window(mBlock[..], block, i) && r == Rounds(h, block, i)
    }

    /** `SHABLK0`: the next word of the block, swapped in place. */
    method Block0(i: nat, ghost r: Words, ghost h: Words, ghost block: Block) returns (x: bv32)
      requires Valid() && i < 16 && At(i, r, h, block)
      modifies mBlock
      ensures x == W(block, i) && Window(mBlock[..], block, i + 1) && r == Rounds(h, block, i)
    {
      hide W, Swap, Rounds;
      SwapWindow(mBlock[..], block, i);
      ghost var next := mBlock[..][i := Swap(mBlock[i])];
      x := Swap(mBlock[i]);
      mBlock[i] := x;
      assert mBlock[..] == next;
    }

    /** `SHABLK`: the next word of the schedule, written over the oldest. */
    method BlockNext(i: nat, ghost r: Words, ghost h: Words, ghost block: Block) returns (x: bv32)
      requires Valid() && 16 <= i < 80 && At(i, r, h, block)
      modifies mBlock
      ensures x == W(block, i) && Window(mBlock[..], block, i + 1) && r == Rounds(h, block, i)
    {
      hide W, Rounds, Window, Xor4, Rotl1;
      SlideWindow(mBlock[..], block, i);
      x := Rotl1(Xor4(mBlock[(i + 13) % 16], mBlock[(i + 8) % 16], mBlock[(i + 2) % 16], mBlock[i % 16]));
      ghost var next := mBlock[..][i % 16 := x];
      mBlock[i % 16] := x;
      assert mBlock[..] == next;
    }

    /** `S_R0`. */
    method R0(v: bv32, w: bv32, x: bv32, y: bv32, z: bv32, i: nat, ghost h: Words, ghost block: Block)
      returns (w1: bv32, z1: bv32)
      requires Valid() && 0 <= i < 16 && At(i, Words(v, w, x, y, z), h, block)
      modifies mBlock
      ensures At(i + 1, Words(z1, v, w1, x, y), h, block)
    {
      hide W, Window, Rounds, Rotl5, Rotl30, Choose, Majority, Mixed, Round, Ch, Maj, Parity;
      RewrittenForms(w, x, y);
      NextRounds(h, block, i);
      var l := Block0(i, Words(v, w, x, y, z), h, block);
      MacroIsRound(i, v, w, x, y, z, l, F(i, w, x, y));
      z1 := Mixed(z, Choose(w, x, y), l, 0x5A827999, v);
      w1 := Rotl30(w);
    }

    /** `S_R1`. */
    method R1(v: bv32, w: bv32, x: bv32, y: bv32, z: bv32, i: nat, ghost h: Words, ghost block: Block)
      returns (w1: bv32, z1: bv32)
      requires Valid() && 16 <= i < 20 && At(i, Words(v, w, x, y, z), h, block)
      modifies mBlock
      ensures At(i + 1, Words(z1, v, w1, x, y), h, block)
    {
      hide W, Window, Rounds, Rotl5, Rotl30, Choose, Majority, Mixed, Round, Ch, Maj, Parity;
      RewrittenForms(w, x, y);
      NextRounds(h, block, i);
      var l := BlockNext(i, Words(v, w, x, y, z), h, block);
      MacroIsRound(i, v, w, x, y, z, l, F(i, w, x, y));
      z1 := Mixed(z, Choose(w, x, y), l, 0x5A827999, v);
      w1 := Rotl30(w);
    }

    /** `S_R2`. */
    method R2(v: bv32, w: bv32, x: bv32, y: bv32, z: bv32, i: nat, ghost h: Words, ghost block: Block)
      returns (w1: bv32, z1: bv32)
      requires Valid() && 20 <= i < 40 && At(i, Words(v, w, x, y, z), h, block)
      modifies mBlock
      ensures At(i + 1, Words(z1, v, w1, x, y), h, block)
    {
      hide W, Window, Rounds, Rotl5, Rotl30, Choose, Majority, Mixed, Round, Ch, Maj, Parity;
      RewrittenForms(w, x, y);
      NextRounds(h, block, i);
      var l := BlockNext(i, Words(v, w, x, y, z), h, block);
      MacroIsRound(i, v, w, x, y, z, l, F(i, w, x, y));
      z1 := Mixed(z, Parity(w, x, y), l, 0x6ED9EBA1, v);
      w1 := Rotl30(w);
    }

    /** `S_R3`. */
    method R3(v: bv32, w: bv32, x: bv32, y: bv32, z: bv32, i: nat, ghost h: Words, ghost block: Block)
      returns (w1: bv32, z1: bv32)
      requires Valid() && 40 <= i < 60 && At(i, Words(v, w, x, y, z), h, block)
      modifies mBlock
      ensures At(i + 1, Words(z1, v, w1, x, y), h, block)
    {
      hide W, Window, Rounds, Rotl5, Rotl30, Choose, Majority, Mixed, Round, Ch, Maj, Parity;
      RewrittenForms(w, x, y);
      NextRounds(h, block, i);
      var l := BlockNext(i, Words(v, w, x, y, z), h, block);
      MacroIsRound(i, v, w, x, y, z, l, F(i, w, x, y));
      z1 := Mixed(z, Majority(w, x, y), l, 0x8F1BBCDC, v);
      w1 := Rotl30(w);
    }

    /** `S_R4`. */
    method R4(v: bv32, w: bv32, x: bv32, y: bv32, z: bv32, i: nat, ghost h: Words, ghost block: Block)
      returns (w1: bv32, z1: bv32)
      requires Valid() && 60 <= i < 80 && At(i, Words(v, w, x, y, z), h, block)
      modifies mBlock
      ensures At(i + 1, Words(z1, v, w1, x, y), h, block)
    {
      hide W, Window, Rounds, Rotl5, Rotl30, Choose, Majority, Mixed, Round, Ch, Maj, Parity;
      RewrittenForms(w, x, y);
      NextRounds(h, block, i);
      var l := BlockNext(i, Words(v, w, x, y, z), h, block);
      MacroIsRound(i, v, w, x, y, z, l, F(i, w, x, y));
      z1 := Mixed(z, Parity(w, x, y), l, 0xCA62C1D6, v);
      w1 := Rotl30(w);
    }

    /** Rounds 0 to 19, unrolled. */
    method Rounds0(r: Words, ghost h: Words, ghost block: Block) returns (s: Words)
      requires Valid() && At(0, r, h, block)
      modifies mBlock
      ensures At(20, s, h, block)
    {
      hide Rounds, W, At;
      var a, b, c, d, e := r.a, r.b, r.c, r.d, r.e;
      b, e := R0(a, b, c, d, e, 0, h, block);
      a, d := R0(e, a, b, c, d, 1, h, block);
      e, c := R0(d, e, a, b, c, 2, h, block);
      d, b := R0(c, d, e, a, b, 3, h, block);
      c, a := R0(b, c, d, e, a, 4, h, block);
      b, e := R0(a, b, c, d, e, 5, h, block);
      a, d := R0(e, a, b, c, d, 6, h, block);
      e, c := R0(d, e, a, b, c, 7, h, block);
      d, b := R0(c, d, e, a, b, 8, h, block);
      c, a := R0(b, c, d, e, a, 9, h, block);
      b, e := R0(a, b, c, d, e, 10, h, block);
      a, d := R0(e, a, b, c, d, 11, h, block);
      e, c := R0(d, e, a, b, c, 12, h, block);
      d, b := R0(c, d, e, a, b, 13, h, block);
      c, a := R0(b, c, d, e, a, 14, h, block);
      b, e := R0(a, b, c, d, e, 15, h, block);
      a, d := R1(e, a, b, c, d, 16, h, block);
      e, c := R1(d, e, a, b, c, 17, h, block);
      d, b := R1(c, d, e, a, b, 18, h, block);
      c, a := R1(b, c, d, e, a, 19, h, block);
      s := Words(a, b, c, d, e);
    }

    /** Rounds 20 to 39, unrolled. */
    method Rounds20(r: Words, ghost h: Words, ghost block: Block) returns (s: Words)
      requires Valid() && At(20, r, h, block)
      modifies mBlock
      ensures At(40, s, h, block)
    {
      hide Rounds, W, At;
      var a, b, c, d, e := r.a, r.b, r.c, r.d, r.e;
      b, e := R2(a, b, c, d, e, 20, h, block);
      a, d := R2(e, a, b, c, d, 21, h, block);
      e, c := R2(d, e, a, b, c, 22, h, block);
      d, b := R2(c, d, e, a, b, 23, h, block);
      c, a := R2(b, c, d, e, a, 24, h, block);
      b, e := R2(a, b, c, d, e, 25, h, block);
      a, d := R2(e, a, b, c, d, 26, h, block);
      e, c := R2(d, e, a, b, c, 27, h, block);
      d, b := R2(c, d, e, a, b, 28, h, block);
      c, a := R2(b, c, d, e, a, 29, h, block);
      b, e := R2(a, b, c, d, e, 30, h, block);
      a, d := R2(e, a, b, c, d, 31, h, block);
      e, c := R2(d, e, a, b, c, 32, h, block);
      d, b := R2(c, d, e, a, b, 33, h, block);
      c, a := R2(b, c, d, e, a, 34, h, block);
      b, e := R2(a, b, c, d, e, 35, h, block);
      a, d := R2(e, a, b, c, d, 36, h, block);
      e, c := R2(d, e, a, b, c, 37, h, block);
      d, b := R2(c, d, e, a, b, 38, h, block);
      c, a := R2(b, c, d, e, a, 39, h, block);
      s := Words(a, b, c, d, e);
    }

    /** Rounds 40 to 59, unrolled. */
    method Rounds40(r: Words, ghost h: Words, ghost block: Block) returns (s: Words)
      requires Valid() && At(40, r, h, block)
      modifies mBlock
      ensures At(60, s, h, block)
    {
      hide Rounds, W, At;
      var a, b, c, d, e := r.a, r.b, r.c, r.d, r.e;
      b, e := R3(a, b, c, d, e, 40, h, block);
      a, d := R3(e, a, b, c, d, 41, h, block);
      e, c := R3(d, e, a, b, c, 42, h, block);
      d, b := R3(c, d, e, a, b, 43, h, block);
      c, a := R3(b, c, d, e, a, 44, h, block);
      b, e := R3(a, b, c, d, e, 45, h, block);
      a, d := R3(e, a, b, c, d, 46, h, block);
      e, c := R3(d, e, a, b, c, 47, h, block);
      d, b := R3(c, d, e, a, b, 48, h, block);
      c, a := R3(b, c, d, e, a, 49, h, block);
      b, e := R3(a, b, c, d, e, 50, h, block);
      a, d := R3(e, a, b, c, d, 51, h, block);
      e, c := R3(d, e, a, b, c, 52, h, block);
      d, b := R3(c, d, e, a, b, 53, h, block);
      c, a := R3(b, c, d, e, a, 54, h, block);
      b, e := R3(a, b, c, d, e, 55, h, block);
      a, d := R3(e, a, b, c, d, 56, h, block);
      e, c := R3(d, e, a, b, c, 57, h, block);
      d, b := R3(c, d, e, a, b, 58, h, block);
      c, a := R3(b, c, d, e, a, 59, h, block);
      s := Words(a, b, c, d, e);
    }

    /** Rounds 60 to 79, unrolled. */
    method Rounds60(r: Words, ghost h: Words, ghost block: Block) returns (s: Words)
      requires Valid() && At(60, r, h, block)
      modifies mBlock
      ensures At(80, s, h, block)
    {
      hide Rounds, W, At;
      var a, b, c, d, e := r.a, r.b, r.c, r.d, r.e;
      b, e := R4(a, b, c, d, e, 60, h, block);
      a, d := R4(e, a, b, c, d, 61, h, block);
      e, c := R4(d, e, a, b, c, 62, h, block);
      d, b := R4(c, d, e, a, b, 63, h, block);
      c, a := R4(b, c, d, e, a, 64, h, block);
      b, e := R4(a, b, c, d, e, 65, h, block);
      a, d := R4(e, a, b, c, d, 66, h, block);
      e, c := R4(d, e, a, b, c, 67, h, block);
      d, b := R4(c, d, e, a, b, 68, h, block);
      c, a := R4(b, c, d, e, a, 69, h, block);
      b, e := R4(a, b, c, d, e, 70, h, block);
      a, d := R4(e, a, b, c, d, 71, h, block);
      e, c := R4(d, e, a, b, c, 72, h, block);
      d, b := R4(c, d, e, a, b, 73, h, block);
      c, a := R4(b, c, d, e, a, 74, h, block);
      b, e := R4(a, b, c, d, e, 75, h, block);
      a, d := R4(e, a, b, c, d, 76, h, block);
      e, c := R4(d, e, a, b, c, 77, h, block);
      d, b := R4(c, d, e, a, b, 78, h, block);
      c, a := R4(b, c, d, e, a, 79, h, block);
      s := Words(a, b, c, d, e);
    }

    /** `Transform`: the hash value after one block. */
    method Transform(pBuffer: seq<bv8>)
      requires Valid() && |pBuffer| == 64
      modifies mState, mBlock
      ensures Hash() == Compress(old(Hash()), pBuffer)
    {
      hide W, Rounds, Window, At, Add;
      ghost var h := Hash();
      ghost var block: Block := pBuffer;
      var r := Words(mState[0], mState[1], mState[2], mState[3], mState[4]);
      CopyBlock(pBuffer, r);
      r := Rounds0(r, h, block);
      r := Rounds20(r, h, block);
      r := Rounds40(r, h, block);
      r := Rounds60(r, h, block);
      assert r == Rounds(h, block, 80) by { AtEnd(r, h, block); }
      AddState(r);
    }

    /** The working variables are added back into the state. */
    method AddState(r: Words)
      requires Valid()
      modifies mState
      ensures Hash() == Add(old(Hash()), r)
    {
      hide Sum;
      mState[0] := Sum(mState[0], r.a);
      mState[1] := Sum(mState[1], r.b);
      mState[2] := Sum(mState[2], r.c);
      mState[3] := Sum(mState[3], r.d);
      mState[4] := Sum(mState[4], r.e);
    }

    lemma AtEnd(r: Words, h: Words, block: Block)
      requires Valid() && At(80, r, h, block)
      ensures r == Rounds(h, block, 80)
    {}

    /** `memcpy(mBlock, pBuffer, 64)`. */
    method CopyBlock(pBuffer: seq<bv8>, ghost h: Words)
      requires Valid() && |pBuffer| == 64
      modifies mBlock
      ensures At(0, h, h, pBuffer)
    {
      hide LittleEndian;
      for j := 0 to 16
        invariant forall k :: 0 <= k < j ==> mBlock[k] == Raw(pBuffer, k)
      {
        mBlock[j] := LittleEndian(pBuffer[4 * j], pBuffer[4 * j + 1], pBuffer[4 * j + 2], pBuffer[4 * j + 3]);
      }
    }

    // ---------- streaming ----------

    /** The two count words hold `n` modulo 2^64. */
    ghost predicate Counts(n: nat)
      requires Valid()
      reads mCount
    {
      mCount[0] == n % TWO_32 && mCount[1] == n / TWO_32 % TWO_32
    }

    /** The object has taken in `message`: its whole blocks are hashed, the rest is in the buffer. */
    ghost predicate Streaming()
      reads this, mState, mCount, mBuffer
    {
      && Valid() && Counts(8 * |message|)
      && Hash() == Blocks(IV, message)
      && mBuffer[..|message| % 64] == message[|message| - |message| % 64..]
    }

    constructor ()
      ensures Streaming() && message == []
      ensures fresh(mState) && fresh(mCount) && fresh(mBuffer) && fresh(mDigest) && fresh(mBlock)
    {
      mState, mCount := new bv32[5], new nat[2];
      mBuffer, mDigest, mBlock := new bv8[64], new bv8[20], new bv32[16];
      new;
      Reset();
    }

    method Reset()
      requires Valid()
      modifies this, mState, mCount
      ensures Streaming() && message == []
    {
      mState[0] := 0x67452301;
      mState[1] := 0xEFCDAB89;
      mState[2] := 0x98BADCFE;
      mState[3] := 0x10325476;
      mState[4] := 0xC3D2E1F0;
      mCount[0] := 0;
      mCount[1] := 0;
      message := [];
    }

    /** Adds `uLen` bytes to the count, carrying by hand. */
    method AddCount(uLen: nat, ghost n: nat)
      requires Valid() && Counts(8 * n) && uLen < TWO_32
      modifies mCount
      ensures Counts(8 * (n + uLen))
    {
      CarryIsExact(n, uLen);
      var low := uLen * 8 % TWO_32;
      mCount[0] := (mCount[0] + low) % TWO_32;
      if mCount[0] < low { mCount[1] := (mCount[1] + 1) % TWO_32; } // Overflow
      mCount[1] := (mCount[1] + uLen / 0x2000_0000) % TWO_32;
    }

    /** `memcpy(&mBuffer[j], &data[i], n)`. */
    method CopyBuffer(j: nat, data: seq<bv8>, i: nat, n: nat)
      requires Valid() && j + n <= 64 && i + n <= |data|
      modifies mBuffer
      ensures mBuffer[..j + n] == old(mBuffer[..j]) + data[i..i + n]
    {
      for k := 0 to n
        invariant mBuffer[..j + k] == old(mBuffer[..j]) + data[i..i + k]
      {
        mBuffer[j + k] := data[i + k];
        assert mBuffer[..j + k + 1] == mBuffer[..j + k] + [data[i + k]];
        assert data[i..i + k + 1] == data[i..i + k] + [data[i + k]];
      }
    }

    /** The first part of `Update`: fills the buffer up to a block and hashes it and the whole blocks that follow. */
    method TakeBlocks(data: seq<bv8>, j: nat, ghost m: seq<bv8>) returns (i: nat)
      requires Valid() && j == |m| % 64 && j + |data| > 63
      requires Hash() == Blocks(IV, m) && mBuffer[..j] == m[|m| - j..]
      modifies mState, mBuffer, mBlock
      ensures i <= |data| < i + 64 && (|m| + i) % 64 == 0 && Hash() == Blocks(IV, m + data[..i])
    {
      hide Blocks, Compress;
      i := 64 - j;
      CopyBuffer(j, data, 0, i);
      FilledBlock(m, j, data[..i], mBuffer[..]);
      Transform(mBuffer[..]);
      while i + 63 < |data|
        invariant i <= |data| && (|m| + i) % 64 == 0
        invariant Hash() == Blocks(IV, m + data[..i])
      {
        NextBlock(m, data, i);
        Transform(data[i..i + 64]);
        i := i + 64;
      }
    }

    method Update(data: seq<bv8>)
      requires Streaming() && |data| < TWO_32 - 64
      modifies this, mState, mCount, mBuffer, mBlock
      ensures Streaming() && message == old(message) + data
    {
      hide Blocks, Counts;
      ghost var m := message;
      var uLen := |data|;
      var j := BufferFill();
      AddCount(uLen, |m|);
      var i := 0;
      if j + uLen > 63 {
        i := TakeBlocks(data, j, m);
        AfterBlocks(m, data, i);
        j := 0;
      } else {
        StillPart(m, data);
      }
      if uLen - i != 0 { CopyBuffer(j, data, i, uLen - i); }
      message := m + data;
    }

    /** How many bytes of the buffer are in use. */
    method BufferFill() returns (j: nat)
      requires Streaming()
      ensures j == |message| % 64
    {
      BufferIndex(|message|);
      j := mCount[0] / 8 % 64;
    }

    // ---------- the end ----------

    /** The count as eight bytes, the highest first. */
    method CountBytes() returns (pbFinalCount: seq<bv8>)
      requires Streaming() && 8 * |message| < TWO_32 * TWO_32
      ensures pbFinalCount == Bytes64(8 * |message|)
    {
      pbFinalCount := [];
      hide Bytes64, Streaming;
      for i := 0 to 8
        invariant pbFinalCount == Bytes64(8 * |message|)[..i]
      {
        var b := CountByteAt(i);
        pbFinalCount := pbFinalCount + [b];
      }
    }

    method CountByteAt(i: nat) returns (b: bv8)
      requires Streaming() && 8 * |message| < TWO_32 * TWO_32 && i < 8
      ensures b == Bytes64(8 * |message|)[i]
    {
      hide Power256, Bytes64;
      CountByte(8 * |message|, i);
      Bytes64At(8 * |message|, i);
      b := (mCount[if i >= 4 then 0 else 1] / Power256(3 - i % 4) % 256) as bv8;
    }

    /** Pads the message: the end mark, zero bytes up to 56 modulo 64, and the length. */
    method Finish()
      requires Streaming() && 8 * |message| < TWO_32 * TWO_32
      modifies this, mState, mCount, mBuffer, mBlock
      ensures Streaming() && message == Pad(old(message))
    {
      hide Streaming, Bytes64, ZeroBytes, Pad;
      ghost var m := message;
      ghost var zeros := ZeroBytes(|m|);
      var pbFinalCount := CountBytes();
      Update([0x80]);
      ghost var n := 0;
      MarkedNext(m, 0);
      var fill := BufferFill();
      while fill * 8 != 448
        invariant Streaming() && n <= zeros && message == Marked(m, n)
        invariant fill == |message| % 64
        decreases zeros - n
      {
        PaddingStop(|m|, n);
        Update([0]);
        MarkedNext(m, n);
        n := n + 1;
        fill := BufferFill();
      }
      PaddingStop(|m|, n);
      Update(pbFinalCount);
      MarkedIsPad(m);
    }

    /** The digest: the words of the state, the highest byte of each first. */
    method WriteDigest()
      requires Valid()
      modifies mDigest
      ensures mDigest[..] == DigestBytes(Hash())
    {
      hide WordBytes, ShiftedByte;
      for i := 0 to 20
        invariant mDigest[..i] == DigestBytes(Hash())[..i]
      {
        DigestByte(Hash(), i);
        mDigest[i] := ShiftedByte(mState[i / 4], 3 - i % 4);
        assert mDigest[..i + 1] == mDigest[..i] + [mDigest[i]];
      }
    }

    /** `Final`: the digest of everything hashed in; afterwards the variables are wiped, and only `Reset` makes the
        object usable again. */
    method Final()
      requires Streaming() && 8 * |message| < TWO_32 * TWO_32
      modifies this, mState, mCount, mBuffer, mDigest, mBlock
      ensures Valid() && mDigest[..] == Sha1(old(message))
      ensures mCount[0] == 0 && mCount[1] == 0 && Hash() == Compress(Words(0, 0, 0, 0, 0), seq(64, _ => 0))
    {
      hide Blocks, Pad, DigestBytes, Compress;
      ghost var m := message;
      Finish();
      WriteDigest();
      for i := 0 to 64
        invariant forall k :: 0 <= k < i ==> mBuffer[k] == 0
        invariant mDigest[..] == Sha1(m)
      {
        mBuffer[i] := 0;
      }
      for i := 0 to 5
        invariant forall k :: 0 <= k < i ==> mState[k] == 0
        invariant mDigest[..] == Sha1(m) && forall k :: 0 <= k < 64 ==> mBuffer[k] == 0
      {
        mState[i] := 0;
      }
      mCount[0] := 0;
      mCount[1] := 0;
      assert mBuffer[..] == seq(64, _ => 0);
      Transform(mBuffer[..]);
    }

    method GetHash() returns (digest: seq<bv8>)
      requires Valid()
      ensures digest == mDigest[..]
    {
      digest := mDigest[..];
    }
  }

  lemma NextRounds(h: Words, block: Block, t: nat)
    ensures Rounds(h, block, t + 1) == Round(Rounds(h, block, t), t, W(block, t))
  {}

  /** Whole blocks and a part of one. */
  lemma WholeAndPart(whole: seq<bv8>, part: seq<bv8>)
    requires |whole| % 64 == 0 && |part| < 64
    ensures var s := whole + part;
            |s| % 64 == |part| && s[|s| - |s| % 64..] == part && s[..|s| - |s| % 64] == whole
  {
    var q := |whole| / 64;
    assert |whole + part| == 64 * q + |part|;
  }

  /** The buffer, filled up, is the next block. */
  lemma FilledBlock(m: seq<bv8>, j: nat, first: seq<bv8>, buffer: seq<bv8>)
    requires j == |m| % 64 && |first| == 64 - j && buffer == m[|m| - j..] + first
    ensures |buffer| == 64 && Blocks(IV, m + first) == Compress(Blocks(IV, m), buffer)
    ensures (|m| + |first|) % 64 == 0
  {
    hide Blocks, Compress;
    var whole, part := m[..|m| - j], m[|m| - j..];
    var q := |m| / 64;
    assert |whole| == 64 * q && |m| + |first| == 64 * (q + 1);
    PartBlock(IV, whole, part);
    OneBlock(IV, whole, buffer);
    assert m == whole + part;
    assert m + first == whole + buffer;
  }

  lemma NextBlock(m: seq<bv8>, data: seq<bv8>, i: nat)
    requires (|m| + i) % 64 == 0 && i + 64 <= |data|
    ensures Blocks(IV, m + data[..i + 64]) == Compress(Blocks(IV, m + data[..i]), data[i..i + 64])
  {
    hide Blocks, Compress;
    OneBlock(IV, m + data[..i], data[i..i + 64]);
    assert m + data[..i + 64] == m + data[..i] + data[i..i + 64];
  }

  /** What is left after the whole blocks. */
  lemma AfterBlocks(m: seq<bv8>, data: seq<bv8>, i: nat)
    requires i <= |data| < i + 64 && (|m| + i) % 64 == 0
    ensures var s := m + data;
            |s| % 64 == |data| - i && s[|s| - |s| % 64..] == data[i..] && Blocks(IV, s) == Blocks(IV, m + data[..i])
  {
    hide Blocks;
    PartBlock(IV, m + data[..i], data[i..]);
    assert m + data == (m + data[..i]) + data[i..];
    WholeAndPart(m + data[..i], data[i..]);
  }

  /** Too few bytes for a block. */
  lemma StillPart(m: seq<bv8>, data: seq<bv8>)
    requires |m| % 64 + |data| < 64
    ensures var s := m + data;
            && |s| % 64 == |m| % 64 + |data| && s[|s| - |s| % 64..] == m[|m| - |m| % 64..] + data[0..]
            && Blocks(IV, s) == Blocks(IV, m)
  {
    hide Blocks;
    var q := |m| / 64;
    var whole, part := m[..64 * q], m[64 * q..];
    PartBlock(IV, whole, part);
    PartBlock(IV, whole, part + data);
    assert m == whole + part;
    assert m + data == whole + (part + data);
    WholeAndPart(whole, part + data);
    assert data[0..] == data;
  }

  const TWO_32: int := 0x1_0000_0000

  /** Shifting the count words right by three gives the fill of the buffer. */
  lemma BufferIndex(n: nat)
    ensures 8 * n % TWO_32 / 8 % 64 == n % 64
  {
    var q, r := 8 * n / TWO_32, 8 * n % TWO_32;
    assert r == 8 * (n - q * 0x2000_0000);
    assert r / 8 == n - q * 0x2000_0000;
  }

  lemma AddWords(a0: nat, a1: nat, low: nat, high: nat)
    requires a0 < TWO_32 && low < TWO_32
    ensures var s := (a1 + high) * TWO_32 + (a0 + low);
            && s % TWO_32 == (if a0 + low < TWO_32 then a0 + low else a0 + low - TWO_32)
            && s / TWO_32 == a1 + high + (if a0 + low < TWO_32 then 0 else 1)
  {}

  lemma ModAdd(x: nat, y: nat)
    ensures (x % TWO_32 + y) % TWO_32 == (x + y) % TWO_32
  {}

  /** The two-word sum is the sum modulo 2^64. */
  lemma CarryIsExact(n: nat, uLen: nat)
    requires uLen < TWO_32
    ensures var low := uLen * 8 % TWO_32;
            var c0 := (8 * n % TWO_32 + low) % TWO_32;
            var c1 := 8 * n / TWO_32 % TWO_32;
            var c2 := if c0 < low then (c1 + 1) % TWO_32 else c1;
            && c0 == 8 * (n + uLen) % TWO_32
            && (c2 + uLen / 0x2000_0000) % TWO_32 == 8 * (n + uLen) / TWO_32 % TWO_32
  {
    var low, high := uLen * 8 % TWO_32, uLen / 0x2000_0000;
    var a0, a1 := 8 * n % TWO_32, 8 * n / TWO_32;
    assert uLen * 8 == high * TWO_32 + low;
    assert 8 * (n + uLen) == (a1 + high) * TWO_32 + (a0 + low);
    AddWords(a0, a1, low, high);
    ModAdd(a1, high);
    ModAdd(a1, 1);
    ModAdd(a1 + 1, high);
  }

  /** A number below 2^64 taken apart into two words. */
  lemma CountByte(n: nat, i: nat)
    requires n < TWO_32 * TWO_32 && i < 8
    ensures (if i >= 4 then n % TWO_32 else n / TWO_32 % TWO_32) / Power256(3 - i % 4) % 256 ==
            n / Power256(7 - i) % 256
  {
    var hi, lo := n / TWO_32, n % TWO_32;
    Powers();
    if i < 4 {
      HighByte(n, i);
    } else {
      LowByte(hi, lo, 7 - i);
    }
  }

  lemma Bytes64At(n: nat, i: nat)
    requires i < 8
    ensures Bytes64(n)[i] == (n / Power256(7 - i) % 256) as bv8
  {}

  lemma Powers()
    ensures Power256(0) == 1 && Power256(1) == 0x100 && Power256(2) == 0x1_0000 && Power256(3) == 0x100_0000
    ensures Power256(4) == 0x1_0000_0000 && Power256(5) == 0x100_0000_0000
    ensures Power256(6) == 0x1_0000_0000_0000 && Power256(7) == 0x100_0000_0000_0000
  {
    assert Power256(1) == 256 * Power256(0) && Power256(2) == 256 * Power256(1) && Power256(3) == 256 * Power256(2);
    assert Power256(4) == 256 * Power256(3) && Power256(5) == 256 * Power256(4) && Power256(6) == 256 * Power256(5);
  }

  lemma HighByte(n: nat, i: nat)
    requires n < TWO_32 * TWO_32 && i < 4
    ensures n / TWO_32 % TWO_32 / Power256(3 - i) % 256 == n / Power256(7 - i) % 256
  {
    Powers();
    var hi := n / TWO_32;
    assert hi < TWO_32;
    if i == 0 {
      assert hi / 0x100_0000 == n / 0x100_0000_0000_0000;
    } else if i == 1 {
      assert hi / 0x1_0000 == n / 0x1_0000_0000_0000;
    } else if i == 2 {
      assert hi / 0x100 == n / 0x100_0000_0000;
    }
  }

  lemma LowByte(hi: nat, lo: nat, k: nat)
    requires lo < TWO_32 && k < 4
    ensures lo / Power256(k) % 256 == (hi * TWO_32 + lo) / Power256(k) % 256
  {
    Powers();
    var n := hi * TWO_32 + lo;
    if k == 0 {
      LowDigit(hi * 0x100_0000, lo);
    } else if k == 1 {
      assert n / 0x100 == hi * 0x100_0000 + lo / 0x100;
      LowDigit(hi * 0x1_0000, lo / 0x100);
    } else if k == 2 {
      assert n / 0x1_0000 == hi * 0x1_0000 + lo / 0x1_0000;
      LowDigit(hi * 0x100, lo / 0x1_0000);
    } else {
      assert n / 0x100_0000 == hi * 0x100 + lo / 0x100_0000;
      LowDigit(hi, lo / 0x100_0000);
    }
  }

  /** A message with its end mark and `n` zero bytes. */
  function Marked(m: seq<bv8>, n: nat): (r: seq<bv8>)
    ensures |r| == |m| + 1 + n
  {
    m + [0x80] + seq(n, _ => 0)
  }

  lemma MarkedNext(m: seq<bv8>, n: nat)
    ensures Marked(m, n) + [0] == Marked(m, n + 1) && Marked(m, 0) == m + [0x80]
  {}

  lemma MarkedIsPad(m: seq<bv8>)
    ensures Marked(m, ZeroBytes(|m|)) + Bytes64(8 * |m|) == Pad(m)
  {}

  /** The padding loop stops exactly after the zero bytes that FIPS 180-4 asks for. */
  lemma PaddingStop(m: nat, n: nat)
    requires n <= ZeroBytes(m)
    ensures (m + 1 + n) % 64 == 56 <==> n == ZeroBytes(m)
  {}

  /** The byte of a word `k` places from the right. */
  function ShiftedByte(w: bv32, k: nat): bv8
    requires k < 4
  {
    if k == 3 then ((w >> 24) & 0xFF) as bv8
    else if k == 2 then ((w >> 16) & 0xFF) as bv8
    else if k == 1 then ((w >> 8) & 0xFF) as bv8
    else (w & 0xFF) as bv8
  }

  lemma ShiftedBytes(w: bv32)
    ensures WordBytes(w) == [ShiftedByte(w, 3), ShiftedByte(w, 2), ShiftedByte(w, 1), ShiftedByte(w, 0)]
  {
    TopByte(w);
  }

  lemma TopByte(w: bv32)
    ensures w >> 24 < 256 && (w >> 24) & 0xFF == w >> 24
  {}

  lemma DigestByte(h: Words, i: nat)
    requires i < 20
    ensures |DigestBytes(h)| == 20
    ensures var w := [h.a, h.b, h.c, h.d, h.e];
            DigestBytes(h)[i] == ShiftedByte(w[i / 4], 3 - i % 4)
  {
    hide WordBytes, ShiftedByte;
    var w := [h.a, h.b, h.c, h.d, h.e];
    ShiftedBytes(w[i / 4]);
    DigestWord(h, i);
  }

  lemma DigestWord(h: Words, i: nat)
    requires i < 20
    ensures |DigestBytes(h)| == 20
    ensures var w := [h.a, h.b, h.c, h.d, h.e];
            DigestBytes(h)[i] == WordBytes(w[i / 4])[i % 4]
  {
    hide WordBytes;
  }

  /** Hashing a message in any pieces gives its SHA-1. */
  method HashPieces(pieces: seq<seq<bv8>>) returns (digest: seq<bv8>)
    requires forall i :: 0 <= i < |pieces| ==> |pieces[i]| < TWO_32 - 64
    requires 8 * |Flatten(pieces)| < TWO_32 * TWO_32
    ensures digest == Sha1(Flatten(pieces))
  {
    hide Blocks, Pad;
    var s1 := new CSHA1();
    for i := 0 to |pieces|
      invariant s1.Streaming() && s1.message == Flatten(pieces[..i])
      invariant fresh(s1) && fresh(s1.mState) && fresh(s1.mCount) && fresh(s1.mBuffer) && fresh(s1.mDigest)
                && fresh(s1.mBlock)
    {
      assert pieces[..i + 1][..i] == pieces[..i];
      s1.Update(pieces[i]);
    }
    assert pieces[..|pieces|] == pieces;
    s1.Final();
    digest := s1.GetHash();
  }
}
