/** The example of section 1.3 of RFC 6455: the accept value of one key, computed down to the last bit. */
module WebSocketSample {
  import Bytes
  import Sha1
  import Base64
  import opened Sha1Spec
  import opened WebSocketHandshake

  const KEY := "dGhlIHNhbXBsZSBub25jZQ=="

  const ACCEPT := "s3pPLMBiTxaQ9kYGzzhZRbK+xOo="

  // ---------- schedules and rounds, sixteen or twenty at a time ----------

  /** Words `t` to `t + 3` of a schedule. */
  predicate Four(block: Block, t: nat, x: bv32, y: bv32, z: bv32, w: bv32) {
    W(block, t) == x && W(block, t + 1) == y && W(block, t + 2) == z && W(block, t + 3) == w
  }

  /** The word at `t` by the ones before it. */
  predicate Next(block: Block, t: nat)
    requires t >= 16
  {
    W(block, t) == Rotl1(Xor4(W(block, t - 3), W(block, t - 8), W(block, t - 14), W(block, t - 16)))
  }

  predicate NextSixteen(block: Block, t: nat)
    requires t >= 16
  {
    && Next(block, t) && Next(block, t + 1) && Next(block, t + 2) && Next(block, t + 3)
    && Next(block, t + 4) && Next(block, t + 5) && Next(block, t + 6) && Next(block, t + 7)
    && Next(block, t + 8) && Next(block, t + 9) && Next(block, t + 10) && Next(block, t + 11)
    && Next(block, t + 12) && Next(block, t + 13) && Next(block, t + 14) && Next(block, t + 15)
  }

  lemma NextWords(block: Block, t: nat)
    requires t >= 16
    ensures NextSixteen(block, t)
  {
    forall i | t <= i < t + 16 ensures Next(block, i) { Sha1.NextWord(block, i); }
  }

  /** The state after round `t` by the one before it. */
  predicate NextState(h: Words, block: Block, t: nat) {
    Rounds(h, block, t + 1) == Round(Rounds(h, block, t), t, W(block, t))
  }

  predicate NextTwenty(h: Words, block: Block, t: nat) {
    && NextState(h, block, t) && NextState(h, block, t + 1) && NextState(h, block, t + 2)
    && NextState(h, block, t + 3) && NextState(h, block, t + 4) && NextState(h, block, t + 5)
    && NextState(h, block, t + 6) && NextState(h, block, t + 7) && NextState(h, block, t + 8)
    && NextState(h, block, t + 9) && NextState(h, block, t + 10) && NextState(h, block, t + 11)
    && NextState(h, block, t + 12) && NextState(h, block, t + 13) && NextState(h, block, t + 14)
    && NextState(h, block, t + 15) && NextState(h, block, t + 16) && NextState(h, block, t + 17)
    && NextState(h, block, t + 18) && NextState(h, block, t + 19)
  }

  lemma NextStates(h: Words, block: Block, t: nat)
    ensures NextTwenty(h, block, t)
  {
    forall i | t <= i < t + 20 ensures NextState(h, block, i) { Sha1.NextRounds(h, block, i); }
  }

  // ---------- the first block ----------

  predicate FirstWords0(block: Block) {
    && Four(block, 0, 0x6447686C, 0x49484E68, 0x62584273, 0x5A534275)
    && Four(block, 4, 0x6232356A, 0x5A513D3D, 0x32353845, 0x41464135)
    && Four(block, 8, 0x2D453931, 0x342D3437, 0x44412D39, 0x3543412D)
    && Four(block, 12, 0x43354142, 0x30444338, 0x35423131, 0x80000000)
  }

  predicate FirstWords16(block: Block) {
    && Four(block, 16, 0x363CA02C, 0x24E81236, 0x8856B441, 0x06FB3C92)
    && Four(block, 20, 0x6FB4BCB6, 0x460B16E3, 0x599219AE, 0x35BF9369)
    && Four(block, 24, 0x3267458E, 0xF828FD04, 0x753A96A7, 0x6336F612)
    && Four(block, 28, 0xC3D66383, 0x06EB86F9, 0x73B4FD42, 0xA503C5B8)
  }

  predicate FirstWords32(block: Block) {
    && Four(block, 32, 0x15CDAE35, 0x531E5DC5, 0x6FB6B7D0, 0x6C16E4AC)
    && Four(block, 36, 0x4DDD36BD, 0x35D36946, 0xE8AE8B9C, 0x4A933AD0)
    && Four(block, 40, 0xCE8628B4, 0x415DBA9E, 0x2792F049, 0x8E9B79E7)
    && Four(block, 44, 0x79C425C5, 0x6353B49D, 0x00994218, 0x8A950ED1)
  }

  predicate FirstWords48(block: Block) {
    && Four(block, 48, 0xAF5D0B99, 0xFD9883DE, 0x1ED8FFEB, 0xF007FF28)
    && Four(block, 52, 0x425E3674, 0x059631C0, 0xAD6C3C31, 0x860B71D7)
    && Four(block, 56, 0x87BFC548, 0x3E64F92D, 0x8D0AB761, 0x34E1EE35)
    && Four(block, 60, 0x0ACF5108, 0xC2B479DA, 0x6C93370A, 0xF7935BA1)
  }

  predicate FirstWords64(block: Block) {
    && Four(block, 64, 0xE91C91C1, 0xBED165A2, 0x4C3E4ABE, 0x50D96238)
    && Four(block, 68, 0xB6587DDE, 0x1A2EE6E6, 0x2D335896, 0xF3495D0B)
    && Four(block, 72, 0xF30E0A1D, 0x32CE5459, 0x7165E3B8, 0xAB05FF94)
    && Four(block, 76, 0xC5949F0B, 0xBCD84E4A, 0x07720392, 0xFF3FF806)
  }

  lemma FirstSchedule16(block: Block)
    requires FirstWords0(block)
    ensures FirstWords16(block)
  {
    NextWords(block, 16);
    hide W;
  }

  lemma FirstSchedule32(block: Block)
    requires FirstWords16(block)
    ensures FirstWords32(block)
  {
    NextWords(block, 32);
    hide W;
  }

  lemma FirstSchedule48(block: Block)
    requires FirstWords32(block)
    ensures FirstWords48(block)
  {
    NextWords(block, 48);
    hide W;
  }

  lemma FirstSchedule64(block: Block)
    requires FirstWords48(block)
    ensures FirstWords64(block)
  {
    NextWords(block, 64);
    hide W;
  }

  lemma FirstRounds20(block: Block)
    requires FirstWords0(block) && FirstWords16(block)
    ensures Rounds(IV, block, 20) == Words(0x091AB97C, 0x8DC510B6, 0xDFAECA5A, 0x75F6BD5D, 0x2801311A)
  {
    NextStates(IV, block, 0);
    hide W;
  }

  lemma FirstRounds40(block: Block)
    requires FirstWords16(block) && FirstWords32(block)
    requires Rounds(IV, block, 20) == Words(0x091AB97C, 0x8DC510B6, 0xDFAECA5A, 0x75F6BD5D, 0x2801311A)
    ensures Rounds(IV, block, 40) == Words(0x2BA2C83E, 0xD0869081, 0x1A1D8209, 0xD3334889, 0x2779E4F2)
  {
    NextStates(IV, block, 20);
    hide Rounds, W;
  }

  lemma FirstRounds60(block: Block)
    requires FirstWords32(block) && FirstWords48(block)
    requires Rounds(IV, block, 40) == Words(0x2BA2C83E, 0xD0869081, 0x1A1D8209, 0xD3334889, 0x2779E4F2)
    ensures Rounds(IV, block, 60) == Words(0x4872D85A, 0xD284F163, 0x83091F0B, 0x1BBDBFBD, 0x9F8490BC)
  {
    NextStates(IV, block, 40);
    hide Rounds, W;
  }

  lemma FirstRounds80(block: Block)
    requires FirstWords48(block) && FirstWords64(block)
    requires Rounds(IV, block, 60) == Words(0x4872D85A, 0xD284F163, 0x83091F0B, 0x1BBDBFBD, 0x9F8490BC)
    ensures Rounds(IV, block, 80) == Words(0xF48A5426, 0x835995E1, 0x25C11EFB, 0x4A45C402, 0x9A73C2F2)
  {
    NextStates(IV, block, 60);
    hide Rounds, W;
  }

  /** The hash value between the two blocks. */
  const MIDDLE := Words(0x5BCF7727, 0x7327416A, 0xBE7BFBF9, 0x5A781878, 0x5E46A4E2)

  // ---------- the second block ----------

  predicate SecondWords0(block: Block) {
    && Four(block, 0, 0x00000000, 0x00000000, 0x00000000, 0x00000000)
    && Four(block, 4, 0x00000000, 0x00000000, 0x00000000, 0x00000000)
    && Four(block, 8, 0x00000000, 0x00000000, 0x00000000, 0x00000000)
    && Four(block, 12, 0x00000000, 0x00000000, 0x00000000, 0x000001E0)
  }

  predicate SecondWords16(block: Block) {
    && Four(block, 16, 0x00000000, 0x00000000, 0x000003C0, 0x00000000)
    && Four(block, 20, 0x00000000, 0x00000780, 0x00000000, 0x000003C0)
    && Four(block, 24, 0x00000F00, 0x00000000, 0x00000000, 0x00001E00)
    && Four(block, 28, 0x00000000, 0x00000CC0, 0x00003C00, 0x00000440)
  }

  predicate SecondWords32(block: Block) {
    && Four(block, 32, 0x00000000, 0x00007800, 0x00000F00, 0x00003300)
    && Four(block, 36, 0x0000F000, 0x00000F00, 0x00000000, 0x0001EF00)
    && Four(block, 40, 0x00000000, 0x0000CC00, 0x0003C000, 0x00004380)
    && Four(block, 44, 0x00000000, 0x00078F00, 0x0000FF00, 0x00032680)
  }

  predicate SecondWords48(block: Block) {
    && Four(block, 48, 0x000F0000, 0x0000F000, 0x00003300, 0x001EFF00)
    && Four(block, 52, 0x00000000, 0x000CB800, 0x003C0000, 0x00040B00)
    && Four(block, 56, 0x0000F000, 0x0078FF00, 0x000FF000, 0x00338700)
    && Four(block, 60, 0x00F00000, 0x000FC300, 0x0000F000, 0x01EFBB00)
  }

  predicate SecondWords64(block: Block) {
    && Four(block, 64, 0x00000000, 0x00CC0000, 0x03C0F000, 0x00438000)
    && Four(block, 68, 0x00000000, 0x078F0000, 0x00FF0000, 0x03269E00)
    && Four(block, 72, 0x0F000000, 0x00F0F000, 0x00333C00, 0x1EFF8800)
    && Four(block, 76, 0x00000000, 0x0CB88800, 0x3C00F000, 0x040A4A00)
  }

  lemma SecondSchedule16(block: Block)
    requires SecondWords0(block)
    ensures SecondWords16(block)
  {
    NextWords(block, 16);
    hide W;
  }

  lemma SecondSchedule32(block: Block)
    requires SecondWords16(block)
    ensures SecondWords32(block)
  {
    NextWords(block, 32);
    hide W;
  }

  lemma SecondSchedule48(block: Block)
    requires SecondWords32(block)
    ensures SecondWords48(block)
  {
    NextWords(block, 48);
    hide W;
  }

  lemma SecondSchedule64(block: Block)
    requires SecondWords48(block)
    ensures SecondWords64(block)
  {
    NextWords(block, 64);
    hide W;
  }

  lemma SecondRounds20(block: Block)
    requires SecondWords0(block) && SecondWords16(block)
    ensures Rounds(MIDDLE, block, 20) == Words(0x2A008B51, 0x2F193A09, 0x9C8663C1, 0x8EB5D103, 0x261B7C9A)
  {
    NextStates(MIDDLE, block, 0);
    hide W;
  }

  lemma SecondRounds40(block: Block)
    requires SecondWords16(block) && SecondWords32(block)
    requires Rounds(MIDDLE, block, 20) == Words(0x2A008B51, 0x2F193A09, 0x9C8663C1, 0x8EB5D103, 0x261B7C9A)
    ensures Rounds(MIDDLE, block, 40) == Words(0x6F698F1A, 0xC6FF0CD3, 0xDE5AB7BC, 0x5F6F3CBB, 0x1DA48A85)
  {
    NextStates(MIDDLE, block, 20);
    hide Rounds, W;
  }

  lemma SecondRounds60(block: Block)
    requires SecondWords32(block) && SecondWords48(block)
    requires Rounds(MIDDLE, block, 40) == Words(0x6F698F1A, 0xC6FF0CD3, 0xDE5AB7BC, 0x5F6F3CBB, 0x1DA48A85)
    ensures Rounds(MIDDLE, block, 60) == Words(0x56119F19, 0x085EB2FE, 0x484A25C5, 0xC140CFE8, 0x686DA050)
  {
    NextStates(MIDDLE, block, 40);
    hide Rounds, W;
  }

  lemma SecondRounds80(block: Block)
    requires SecondWords48(block) && SecondWords64(block)
    requires Rounds(MIDDLE, block, 60) == Words(0x56119F19, 0x085EB2FE, 0x484A25C5, 0xC140CFE8, 0x686DA050)
    ensures Rounds(MIDDLE, block, 80) == Words(0x57AAD805, 0x4D3B0DAC, 0xD27A4A0D, 0x74C040CD, 0x54782008)
  {
    NextStates(MIDDLE, block, 60);
    hide Rounds, W;
  }

  const DIGEST := Words(0xB37A4F2C, 0xC0624F16, 0x90F64606, 0xCF385945, 0xB2BEC4EA)

  // ---------- the padded text ----------

  /** The bytes of a word are these characters. */
  predicate TextWord(w: bv32, a: char, b: char, c: char, d: char) {
    && Bytes.Num(((w >> 24) & 0xFF) as bv8) == a as nat && Bytes.Num(((w >> 16) & 0xFF) as bv8) == b as nat
    && Bytes.Num(((w >> 8) & 0xFF) as bv8) == c as nat && Bytes.Num((w & 0xFF) as bv8) == d as nat
  }

  lemma StoredIs(c: char, b: bv8)
    requires Bytes.Num(b) == c as nat
    ensures Bytes.ByteOf(c as nat) == b
  {
    hide Bytes.ByteOf, Bytes.Num;
    Bytes.ByteNum(c as nat);
    Bytes.NumInjective(Bytes.ByteOf(c as nat), b);
  }

  lemma WordBack(w: bv32)
    ensures BigEndian(((w >> 24) & 0xFF) as bv8, ((w >> 16) & 0xFF) as bv8, ((w >> 8) & 0xFF) as bv8,
                      (w & 0xFF) as bv8) == w
  {}

  lemma SpelledWord(w: bv32, a: char, b: char, c: char, d: char)
    requires TextWord(w, a, b, c, d)
    ensures BigEndian(Bytes.ByteOf(a as nat), Bytes.ByteOf(b as nat), Bytes.ByteOf(c as nat),
                      Bytes.ByteOf(d as nat)) == w
  {
    WordBack(w);
    hide BigEndian, Bytes.ByteOf, Bytes.Num;
    StoredIs(a, ((w >> 24) & 0xFF) as bv8);
    StoredIs(b, ((w >> 16) & 0xFF) as bv8);
    StoredIs(c, ((w >> 8) & 0xFF) as bv8);
    StoredIs(d, (w & 0xFF) as bv8);
  }

  /** A word of a block that holds the text from word `k` on. */
  lemma WordIs(block: Block, text: seq<char>, k: nat, t: nat, w: bv32)
    requires 4 * k + |text| <= 64 && block[4 * k..4 * k + |text|] == Stored(text)
    requires k <= t && 4 * (t - k) + 4 <= |text|
    requires var i := 4 * (t - k); TextWord(w, text[i], text[i + 1], text[i + 2], text[i + 3])
    ensures W(block, t) == w
  {
    var i := 4 * (t - k);
    SpelledWord(w, text[i], text[i + 1], text[i + 2], text[i + 3]);
    hide Bytes.ByteOf, Bytes.Num, BigEndian, TextWord;
    Sha1.FirstWord(block, t);
    forall j | 0 <= j < |text| ensures block[4 * k + j] == Bytes.ByteOf(text[j] as nat) {
      assert block[4 * k + j] == block[4 * k..4 * k + |text|][j];
    }
  }

  lemma KeyWords(block: Block)
    requires |KEY| == 24 && block[..24] == Stored(KEY)
    ensures Four(block, 0, 0x6447686C, 0x49484E68, 0x62584273, 0x5A534275)
    ensures W(block, 4) == 0x6232356A && W(block, 5) == 0x5A513D3D
  {
    hide W, Stored;
    WordIs(block, KEY, 0, 0, 0x6447686C);
    WordIs(block, KEY, 0, 1, 0x49484E68);
    WordIs(block, KEY, 0, 2, 0x62584273);
    WordIs(block, KEY, 0, 3, 0x5A534275);
    WordIs(block, KEY, 0, 4, 0x6232356A);
    WordIs(block, KEY, 0, 5, 0x5A513D3D);
  }

  lemma GuidFront(block: Block)
    requires |GUID| == 36 && block[24..60] == Stored(GUID)
    ensures W(block, 6) == 0x32353845 && W(block, 7) == 0x41464135
  {
    hide W, Stored;
    WordIs(block, GUID, 6, 6, 0x32353845);
    WordIs(block, GUID, 6, 7, 0x41464135);
  }

  lemma GuidMiddle(block: Block)
    requires |GUID| == 36 && block[24..60] == Stored(GUID)
    ensures W(block, 8) == 0x2D453931 && W(block, 9) == 0x342D3437
  {
    hide W, Stored;
    WordIs(block, GUID, 6, 8, 0x2D453931);
    WordIs(block, GUID, 6, 9, 0x342D3437);
  }

  lemma GuidBack(block: Block)
    requires |GUID| == 36 && block[24..60] == Stored(GUID)
    ensures W(block, 10) == 0x44412D39 && W(block, 11) == 0x3543412D
    ensures W(block, 12) == 0x43354142 && W(block, 13) == 0x30444338 && W(block, 14) == 0x35423131
  {
    hide W, Stored;
    WordIs(block, GUID, 6, 10, 0x44412D39);
    WordIs(block, GUID, 6, 11, 0x3543412D);
    WordIs(block, GUID, 6, 12, 0x43354142);
    WordIs(block, GUID, 6, 13, 0x30444338);
    WordIs(block, GUID, 6, 14, 0x35423131);
  }

  lemma Lengths()
    ensures |KEY| == 24 && |GUID| == 36
  {}

  lemma StoredBoth()
    ensures Stored(KEY + GUID) == Stored(KEY) + Stored(GUID)
  {
    hide Bytes.ByteOf;
  }

  lemma {:induction false} LargePowers(k: nat)
    requires k >= 2
    ensures Power256(k) > 480
  {
    if k == 2 { assert Power256(1) == 256 * Power256(0); } else { LargePowers(k - 1); }
  }

  lemma SmallOver(n: nat, p: nat)
    requires n < p
    ensures n / p % 256 == 0
  {}

  lemma LengthDigit(i: nat)
    requires i < 8
    ensures 480 / Power256(7 - i) % 256 == if i == 6 then 1 else if i == 7 then 224 else 0
  {
    assert Power256(0) == 1 && Power256(1) == 256;
    hide Power256;
    if i < 6 {
      LargePowers(7 - i);
      SmallOver(480, Power256(7 - i));
    }
  }

  lemma Cast(n: nat, m: nat)
    requires n == m < 256
    ensures n as bv8 == m as bv8
  {}

  lemma LengthByte(i: nat)
    requires i < 8
    ensures Bytes64(480)[i] == if i == 6 then 1 else if i == 7 then 0xE0 else 0
  {
    LengthDigit(i);
    hide Power256;
    Cast(480 / Power256(7 - i) % 256, if i == 6 then 1 else if i == 7 then 224 else 0);
  }

  /** The length of the text in bits. */
  lemma LengthBytes()
    ensures Bytes64(480) == [0, 0, 0, 0, 0, 0, 1, 0xE0]
  {
    hide Bytes64;
    forall i | 0 <= i < 8 ensures Bytes64(480)[i] == [0, 0, 0, 0, 0, 0, 1, 0xE0][i] { LengthByte(i); }
  }

  /** The padding takes two blocks. */
  lemma Padded(m: seq<bv8>) returns (first: Block, second: Block)
    requires |m| == 60
    ensures Pad(m) == first + second && first[..60] == m && first[60..] == [0x80, 0, 0, 0]
    ensures second == seq(56, _ => 0) + [0, 0, 0, 0, 0, 0, 1, 0xE0]
  {
    LengthBytes();
    hide Bytes64;
    assert ZeroBytes(60) == 59;
    var p := Pad(m);
    first, second := p[..64], p[64..];
    assert first[..60] == m && p == first + second;
  }

  lemma FirstIs(block: Block)
    requires block[..60] == Stored(KEY + GUID) && block[60..] == [0x80, 0, 0, 0]
    ensures FirstWords0(block)
  {
    hide W, Stored;
    Lengths();
    StoredBoth();
    assert block[..24] == block[..60][..24] && block[24..60] == block[..60][24..];
    KeyWords(block);
    GuidFront(block);
    GuidMiddle(block);
    GuidBack(block);
    Sha1.FirstWord(block, 15);
    assert block[60] == block[60..][0] && block[61] == block[60..][1];
    assert block[62] == block[60..][2] && block[63] == block[60..][3];
  }

  lemma SecondIs(block: Block)
    requires block == seq(56, _ => 0) + [0, 0, 0, 0, 0, 0, 1, 0xE0]
    ensures SecondWords0(block)
  {
    hide W;
    forall t | 0 <= t < 15 ensures W(block, t) == 0 { Sha1.FirstWord(block, t); }
    Sha1.FirstWord(block, 15);
  }

  lemma FirstCompressed(block: Block)
    requires FirstWords0(block)
    ensures Compress(IV, block) == MIDDLE
  {
    hide W, Rounds;
    FirstSchedule16(block);
    FirstSchedule32(block);
    FirstSchedule48(block);
    FirstSchedule64(block);
    FirstRounds20(block);
    FirstRounds40(block);
    FirstRounds60(block);
    FirstRounds80(block);
    hide FirstWords0, FirstWords16, FirstWords32, FirstWords48, FirstWords64;
  }

  lemma SecondCompressed(block: Block)
    requires SecondWords0(block)
    ensures Compress(MIDDLE, block) == DIGEST
  {
    hide W, Rounds;
    SecondSchedule16(block);
    SecondSchedule32(block);
    SecondSchedule48(block);
    SecondSchedule64(block);
    SecondRounds20(block);
    SecondRounds40(block);
    SecondRounds60(block);
    SecondRounds80(block);
    hide SecondWords0, SecondWords16, SecondWords32, SecondWords48, SecondWords64;
  }

  /** The hash of the text. */
  lemma TextHashed()
    ensures Blocks(IV, Pad(Stored(KEY + GUID))) == DIGEST
  {
    hide W, Stored, Pad, Compress, FirstWords0, SecondWords0;
    Lengths();
    var first, second := Padded(Stored(KEY + GUID));
    FirstIs(first);
    SecondIs(second);
    FirstCompressed(first);
    SecondCompressed(second);
    TwoBlocks(IV, first, second);
  }

  lemma TwoBlocks(h: Words, a: Block, b: Block)
    ensures Blocks(h, a + b) == Compress(Compress(h, a), b)
  {
    hide Compress;
    OneBlock(h, a, b);
    OneBlock(h, [], a);
    assert [] + a == a && Blocks(h, []) == h;
  }

  // ---------- the digest in Base64 ----------

  /** Three bytes as four characters, by the places of the characters in the alphabet. */
  lemma GroupIs(a: bv8, b: bv8, c: bv8, n: nat)
    requires n <= 4
    ensures Base64.Symbols(Base64.Group(a, b, c), n) ==
            [Base64.CharAt(Place(a, b, c, 0)), Base64.CharAt(Place(a, b, c, 1)), Base64.CharAt(Place(a, b, c, 2)),
             Base64.CharAt(Place(a, b, c, 3))][..n]
  {
    hide Base64.Group, Base64.SextetOf, Bytes.Num, Base64.CharAt;
    forall k | 0 <= k < 4 { Base64.AlphabetAt(Place(a, b, c, k)); }
  }

  function Place(a: bv8, b: bv8, c: bv8, k: nat): (n: nat)
    requires k < 4
    ensures n < 64
  {
    Base64.SextetIndex(Base64.SextetOf(Base64.Group(a, b, c), k));
    Bytes.Num(Base64.SextetOf(Base64.Group(a, b, c), k))
  }

  /** Three bytes at the front of a text, and what they give. */
  lemma Front(a: bv8, b: bv8, c: bv8, rest: seq<bv8>, four: seq<char>)
    requires four == [Base64.CharAt(Place(a, b, c, 0)), Base64.CharAt(Place(a, b, c, 1)),
                      Base64.CharAt(Place(a, b, c, 2)), Base64.CharAt(Place(a, b, c, 3))]
    ensures Base64.Encoding([a, b, c] + rest) == four + Base64.Encoding(rest)
  {
    GroupIs(a, b, c, 4);
    hide Base64.Group, Base64.Symbols, Bytes.Num, Base64.CharAt;
    assert ([a, b, c] + rest)[3..] == rest;
  }

  /** The bytes of the digest, by threes. */
  function Tail6(): seq<bv8> { [0xC4, 0xEA] }
  function Tail5(): seq<bv8> { [0x45, 0xB2, 0xBE] + Tail6() }
  function Tail4(): seq<bv8> { [0xCF, 0x38, 0x59] + Tail5() }
  function Tail3(): seq<bv8> { [0xF6, 0x46, 0x06] + Tail4() }
  function Tail2(): seq<bv8> { [0x4F, 0x16, 0x90] + Tail3() }
  function Tail1(): seq<bv8> { [0x2C, 0xC0, 0x62] + Tail2() }
  function Tail0(): seq<bv8> { [0xB3, 0x7A, 0x4F] + Tail1() }

  lemma DigestIs()
    ensures DigestBytes(DIGEST) == Tail0()
  {}

  lemma Encoded0()
    ensures Base64.Encoding(Tail0()) == "s3pP" + Base64.Encoding(Tail1())
  {
    Front(0xB3, 0x7A, 0x4F, Tail1(), "s3pP");
    hide Base64.Encoding;
  }

  lemma Encoded1()
    ensures Base64.Encoding(Tail1()) == "LMBi" + Base64.Encoding(Tail2())
  {
    Front(0x2C, 0xC0, 0x62, Tail2(), "LMBi");
    hide Base64.Encoding;
  }

  lemma Encoded2()
    ensures Base64.Encoding(Tail2()) == "TxaQ" + Base64.Encoding(Tail3())
  {
    Front(0x4F, 0x16, 0x90, Tail3(), "TxaQ");
    hide Base64.Encoding;
  }

  lemma Encoded3()
    ensures Base64.Encoding(Tail3()) == "9kYG" + Base64.Encoding(Tail4())
  {
    Front(0xF6, 0x46, 0x06, Tail4(), "9kYG");
    hide Base64.Encoding;
  }

  lemma Encoded4()
    ensures Base64.Encoding(Tail4()) == "zzhZ" + Base64.Encoding(Tail5())
  {
    Front(0xCF, 0x38, 0x59, Tail5(), "zzhZ");
    hide Base64.Encoding;
  }

  lemma Encoded5()
    ensures Base64.Encoding(Tail5()) == "RbK+" + Base64.Encoding(Tail6())
  {
    Front(0x45, 0xB2, 0xBE, Tail6(), "RbK+");
    hide Base64.Encoding;
  }

  lemma Encoded6()
    ensures Base64.Encoding(Tail6()) == "xOo="
  {
    GroupIs(0xC4, 0xEA, 0, 3);
  }

  lemma AcceptPieces()
    ensures ACCEPT == "s3pP" + ("LMBi" + ("TxaQ" + ("9kYG" + ("zzhZ" + ("RbK+" + "xOo=")))))
  {
    assert "RbK+" + "xOo=" == "RbK+xOo=" && "zzhZ" + "RbK+xOo=" == "zzhZRbK+xOo=";
    assert "9kYG" + "zzhZRbK+xOo=" == "9kYGzzhZRbK+xOo=";
    assert "s3pP" + "LMBi" == "s3pPLMBi" && "s3pPLMBi" + "TxaQ" == "s3pPLMBiTxaQ";
  }

  /** The accept value for the key is the one that the standard gives. */
  lemma AcceptOfSample()
    ensures Accept(KEY) == ACCEPT
  {
    hide Blocks, Pad, Base64.Encoding, DigestBytes, Stored;
    TextHashed();
    DigestIs();
    Encoded0();
    Encoded1();
    Encoded2();
    Encoded3();
    Encoded4();
    Encoded5();
    Encoded6();
    AcceptPieces();
  }
}
