/** WebSocket frames (section 5.2 of RFC 6455): `wsFrameBuild` and `wsFrameExtractBuffer`. */
module WebSocketFormat {
  import opened Options
  import opened Bytes

  /** A frame; a mask has four bytes. The opcodes are the low four bits of the first byte. */
  datatype Frame = Frame(fin: bool, opcode: bv8, mask: Option<seq<bv8>>, payload: seq<bv8>)

  const CONTINUATION_FRAME: bv8 := 0x00
  const ERROR_FRAME: bv8 := 0xff

  predicate IsFrame(f: Frame) { f.opcode <= 0x0F && (f.mask.Some? ==> |f.mask.value| == 4) }

  // ---------- the encoding ----------

  /** The seven-bit payload length. */
  function SizeCode(n: nat): (c: bv8)
    ensures c <= 127
  {
    if n <= 125 then
      SmallCode(n);
      ByteOf(n)
    else if n <= 0xFFFF then 126
    else 127
  }

  lemma SmallCode(n: nat)
    requires n <= 125
    ensures Num(ByteOf(n)) == n && ByteOf(n) & 0x80 == 0 && ByteOf(n) <= 127
  {
    ByteNum(n);
    HighBit(ByteOf(n));
    hide ByteOf, Num;
    SevenBits(ByteOf(n));
  }

  lemma SevenBits(b: bv8)
    ensures b & 0x80 == 0 <==> b <= 127
    ensures (b & 0x7F) & 0x80 == 0 && b & 0x7F <= 127
  {}

  /** The extended payload length; of a 64-bit length only the low four bytes are written. */
  function SizeExtension(n: nat): seq<bv8> {
    if n <= 125 then []
    else if n <= 0xFFFF then [ByteOf(n / 0x100), ByteOf(n)]
    else [0, 0, 0, 0, ByteOf(n / 0x100_0000), ByteOf(n / 0x1_0000), ByteOf(n / 0x100), ByteOf(n)]
  }

  /** A payload under a mask; masking again takes the mask off (section 5.3). */
  function Masked(payload: seq<bv8>, mask: Option<seq<bv8>>): (r: seq<bv8>)
    requires mask.Some? ==> |mask.value| == 4
    ensures |r| == |payload|
  {
    if mask.None? then payload
    else seq(|payload|, i requires 0 <= i < |payload| => payload[i] ^ mask.value[i % 4])
  }

  function FirstByte(f: Frame): bv8 { f.opcode | if f.fin then 0x80 else 0 }

  function SecondByte(f: Frame): bv8 { SizeCode(|f.payload|) | if f.mask.Some? then 0x80 else 0 }

  function MaskBytes(f: Frame): seq<bv8> { if f.mask.Some? then f.mask.value else [] }

  function Header(f: Frame): seq<bv8> {
    [FirstByte(f), SecondByte(f)] + SizeExtension(|f.payload|) + MaskBytes(f)
  }

  function Encode(f: Frame): seq<bv8>
    requires IsFrame(f)
  {
    Header(f) + Masked(f.payload, f.mask)
  }

  // ---------- the decoding ----------

  datatype Size = Size(length: nat, pos: nat)

  /** The payload length and the offset after it; None when bytes are missing or the length is 2^31 or more. */
  function PayloadSize(b: seq<bv8>): (r: Option<Size>)
    ensures r.Some? ==> r.value.length < 0x8000_0000 && r.value.pos <= |b|
  {
    if |b| < 2 then None
    else
      var code := b[1] & 0x7F;
      if code == 126 then
        if |b| < 4 then None else Some(Size(Num(b[2]) * 0x100 + Num(b[3]), 4))
      else if code == 127 then
        if |b| < 10 || b[2] != 0 || b[3] != 0 || b[4] != 0 || b[5] != 0 || b[6] & 0x80 != 0 then None
        else
          HighBit(b[6]);
          Some(Size(Num(b[6]) * 0x100_0000 + Num(b[7]) * 0x1_0000 + Num(b[8]) * 0x100 + Num(b[9]), 10))
      else
        LowBits(b[1]);
        Some(Size(Num(code), 2))
  }

  lemma LowBits(b: bv8)
    ensures Num(b & 0x7F) < 128
  {
    hide Num;
    SevenBits(b);
    HighBit(b & 0x7F);
  }

  datatype Extracted = Extracted(frame: Frame, size: nat)

  /** The frame at the start of a buffer and its size; None when it is incomplete or too long. */
  function Decode(b: seq<bv8>): (r: Option<Extracted>)
    ensures r.Some? ==> 2 <= r.value.size <= |b| && |r.value.frame.payload| < 0x8000_0000
    ensures r.Some? ==> (r.value.frame.mask.Some? ==> |r.value.frame.mask.value| == 4)
  {
    match PayloadSize(b)
    case None => None
    case Some(size) =>
      var masking := b[1] & 0x80 != 0;
      var start := size.pos + if masking then 4 else 0;
      if |b| < start + size.length then None
      else
        var mask := if masking then Some(b[size.pos..size.pos + 4]) else None;
        Some(Extracted(Frame(b[0] & 0x80 != 0, b[0] & 0x0F, mask, Masked(b[start..start + size.length], mask)),
                       start + size.length))
  }

  // ---------- laws ----------

  lemma SliceOfPrefix(b: seq<bv8>, more: seq<bv8>, i: nat, j: nat)
    requires i <= j <= |b|
    ensures (b + more)[i..j] == b[i..j]
  {
    forall k | 0 <= k < j - i ensures (b + more)[i..j][k] == b[i..j][k] {
      assert (b + more)[i..j][k] == (b + more)[i + k];
    }
  }

  /** A frame that is found is found again whatever follows. */
  lemma AppendStable(b: seq<bv8>, more: seq<bv8>)
    requires Decode(b).Some?
    ensures Decode(b + more) == Decode(b)
  {
    hide Num, Masked;
    var c := b + more;
    assert PayloadSize(c) == PayloadSize(b);
    var size := PayloadSize(b).value;
    var start := size.pos + if b[1] & 0x80 != 0 then 4 else 0;
    SliceOfPrefix(b, more, start, start + size.length);
    if b[1] & 0x80 != 0 { SliceOfPrefix(b, more, size.pos, size.pos + 4); }
  }

  lemma HeadBits(opcode: bv8, code: bv8)
    ensures opcode <= 0x0F ==>
              && (opcode | 0x80) & 0x80 != 0 && (opcode | 0x80) & 0x0F == opcode
              && (opcode | 0) & 0x80 == 0 && (opcode | 0) & 0x0F == opcode
    ensures code <= 127 ==>
              && (code | 0x80) & 0x80 != 0 && (code | 0x80) & 0x7F == code
              && (code | 0) & 0x80 == 0 && (code | 0) & 0x7F == code
  {}

  lemma LowDigits(n: nat)
    ensures var m := n % 0x1_0000_0000;
            && n / 0x100_0000 % 0x100 == m / 0x100_0000 % 0x100 && n / 0x1_0000 % 0x100 == m / 0x1_0000 % 0x100
            && n / 0x100 % 0x100 == m / 0x100 % 0x100 && n % 0x100 == m % 0x100
  {
    var q, m := n / 0x1_0000_0000, n % 0x1_0000_0000;
    Shift24(q * 0x100 + m / 0x100_0000, m % 0x100_0000);
    Shift16(q * 0x1_0000 + m / 0x1_0000, m % 0x1_0000);
    Shift8(q * 0x100_0000 + m / 0x100, m % 0x100);
    LowDigit(q, m / 0x100_0000);
    LowDigit(q * 0x100, m / 0x1_0000);
    LowDigit(q * 0x1_0000, m / 0x100);
    LowDigit(q * 0x100_0000, m);
  }

  lemma Shift24(x: nat, y: nat)
    requires y < 0x100_0000
    ensures (x * 0x100_0000 + y) / 0x100_0000 == x
  {}

  lemma Shift16(x: nat, y: nat)
    requires y < 0x1_0000
    ensures (x * 0x1_0000 + y) / 0x1_0000 == x
  {}

  lemma Shift8(x: nat, y: nat)
    requires y < 0x100
    ensures (x * 0x100 + y) / 0x100 == x
  {}

  /** The low four bytes of a length give its low 32 bits. */
  lemma SizeBytes(n: nat)
    ensures Num(ByteOf(n / 0x100_0000)) * 0x100_0000 + Num(ByteOf(n / 0x1_0000)) * 0x1_0000
            + Num(ByteOf(n / 0x100)) * 0x100 + Num(ByteOf(n)) == n % 0x1_0000_0000
    ensures n <= 0xFFFF ==> Num(ByteOf(n / 0x100)) * 0x100 + Num(ByteOf(n)) == n
    ensures Num(ByteOf(n / 0x100_0000)) < 128 <==> n % 0x1_0000_0000 < 0x8000_0000
  {
    hide ByteOf, Num;
    ByteNum(n / 0x100_0000);
    ByteNum(n / 0x1_0000);
    ByteNum(n / 0x100);
    ByteNum(n);
    LowDigits(n);
    Recombine(n % 0x1_0000_0000);
  }

  lemma Recombine(m: nat)
    requires m < 0x1_0000_0000
    ensures m / 0x100_0000 % 0x100 * 0x100_0000 + m / 0x1_0000 % 0x100 * 0x1_0000 + m / 0x100 % 0x100 * 0x100
            + m % 0x100 == m
    ensures m / 0x100_0000 % 0x100 < 128 <==> m < 0x8000_0000
    ensures m <= 0xFFFF ==> m / 0x100 % 0x100 * 0x100 + m % 0x100 == m
  {
    var x1 := m / 0x100;
    var x2 := x1 / 0x100;
    var x3 := x2 / 0x100;
    assert m / 0x1_0000 == x2;
    assert m / 0x100_0000 == x3;
    assert x3 < 0x100;
  }

  /** The first bytes of an encoded frame. */
  lemma FirstBytes(f: Frame, rest: seq<bv8>)
    requires IsFrame(f)
    ensures var b := Encode(f) + rest;
            var x := SizeExtension(|f.payload|);
            && |b| >= 2 + |x| && b[0] == FirstByte(f) && b[1] == SecondByte(f)
            && forall i :: 0 <= i < |x| ==> b[2 + i] == x[i]
  {
    hide FirstByte, SecondByte, SizeExtension, Masked;
  }

  lemma CodeNum(n: nat)
    ensures n <= 125 ==> Num(SizeCode(n)) == n && SizeCode(n) != 126 && SizeCode(n) != 127
  {
    if n <= 125 {
      SmallCode(n);
      CodeValue(ByteOf(n));
      hide Num, ByteOf;
    }
  }

  lemma CodeValue(c: bv8)
    ensures c == 126 <==> Num(c) == 126
    ensures c == 127 <==> Num(c) == 127
  {
    ByteNum(126);
    ByteNum(127);
    Codes();
    hide Num, ByteOf;
    if Num(c) == 126 { NumInjective(c, 126); }
    if Num(c) == 127 { NumInjective(c, 127); }
  }

  lemma Codes()
    ensures ByteOf(126) == 126 && ByteOf(127) == 127
  {
    assert 126 % 0x100 / 16 == 7 && 126 % 16 == 14 && 127 % 0x100 / 16 == 7 && 127 % 16 == 15;
  }

  /** What the reader makes of the length that the writer wrote: its low 32 bits, if bit 31 is clear. */
  lemma WrittenSize(f: Frame, rest: seq<bv8>)
    requires IsFrame(f)
    ensures var n := |f.payload|;
            PayloadSize(Encode(f) + rest) ==
            if n % 0x1_0000_0000 < 0x8000_0000
            then Some(Size(n % 0x1_0000_0000, 2 + |SizeExtension(n)|)) else None
  {
    hide Encode, ByteOf, Num;
    var b := Encode(f) + rest;
    var n := |f.payload|;
    HeadBits(f.opcode, SizeCode(n));
    CodeNum(n);
    FirstBytes(f, rest);
    assert b[1] & 0x7F == SizeCode(n);
    if n > 125 {
      var x := SizeExtension(n);
      SizeBytes(n);
      if n <= 0xFFFF {
        assert b[2] == x[0] && b[3] == x[1];
      } else {
        assert b[2] == x[0] && b[3] == x[1] && b[4] == x[2] && b[5] == x[3];
        assert b[6] == x[4] && b[7] == x[5] && b[8] == x[6] && b[9] == x[7];
        HighBit(b[6]);
      }
    }
  }

  lemma XorTwice(a: bv8, b: bv8)
    ensures (a ^ b) ^ b == a
  {}

  lemma MaskedTwice(payload: seq<bv8>, mask: Option<seq<bv8>>)
    requires mask.Some? ==> |mask.value| == 4
    ensures Masked(Masked(payload, mask), mask) == payload
  {
    if mask.Some? {
      forall i | 0 <= i < |payload| ensures Masked(Masked(payload, mask), mask)[i] == payload[i] {
        XorTwice(payload[i], mask.value[i % 4]);
      }
    }
  }

  /** Where the mask and the payload of an encoded frame are. */
  lemma Layout(f: Frame, rest: seq<bv8>)
    requires IsFrame(f)
    ensures var b := Encode(f) + rest;
            var pos := 2 + |SizeExtension(|f.payload|)|;
            var start := pos + |MaskBytes(f)|;
            && |b| >= start + |f.payload| && |Encode(f)| == start + |f.payload|
            && b[pos..start] == MaskBytes(f) && b[start..start + |f.payload|] == Masked(f.payload, f.mask)
  {
    hide FirstByte, SecondByte, SizeExtension, Masked;
  }

  lemma ShortDecoded(f: Frame, rest: seq<bv8>)
    requires IsFrame(f) && |f.payload| < 0x8000_0000
    ensures Decode(Encode(f) + rest) == Some(Extracted(f, |Encode(f)|))
  {
    hide Encode, SizeExtension, SizeCode, Masked, PayloadSize;
    WrittenSize(f, rest);
    Layout(f, rest);
    FirstBytes(f, rest);
    HeadBits(f.opcode, SizeCode(|f.payload|));
    MaskedTwice(f.payload, f.mask);
  }

  lemma LongNotDecoded(f: Frame, rest: seq<bv8>)
    requires IsFrame(f) && |f.payload| >= 0x8000_0000
    ensures Decode(Encode(f) + rest) != Some(Extracted(f, |Encode(f)|))
  {
    hide Encode, SizeExtension, Masked, PayloadSize;
    WrittenSize(f, rest);
  }

  /** Extracting from a built frame and any further bytes gives the frame and its size back exactly when the payload is
      below 2^31 bytes. */
  lemma FrameRoundTrip(f: Frame, rest: seq<bv8>)
    requires IsFrame(f)
    ensures Decode(Encode(f) + rest) == Some(Extracted(f, |Encode(f)|)) <==> |f.payload| < 0x8000_0000
  {
    hide Encode, Decode;
    if |f.payload| < 0x8000_0000 { ShortDecoded(f, rest); } else { LongNotDecoded(f, rest); }
  }

  /** No strict part of a frame is taken for a frame. */
  lemma PrefixRefused(f: Frame, k: nat)
    requires IsFrame(f) && |f.payload| < 0x8000_0000 && k < |Encode(f)|
    ensures Decode(Encode(f)[..k]) == None
  {
    hide Encode, Decode;
    var b := Encode(f);
    FrameRoundTrip(f, []);
    assert b + [] == b && b == b[..k] + b[k..];
    if Decode(b[..k]).Some? { AppendStable(b[..k], b[k..]); }
  }

  /** A payload length written in as few bytes as section 5.2 asks for. */
  predicate Minimal(b: seq<bv8>)
    requires PayloadSize(b).Some?
  {
    var n := PayloadSize(b).value.length;
    b[1] & 0x7F == SizeCode(n)
  }

  /** Digits to the base 256 are found again. */
  lemma SplitDigits(d3: nat, d2: nat, d1: nat, d0: nat)
    requires d3 < 0x100 && d2 < 0x100 && d1 < 0x100 && d0 < 0x100
    ensures var n := d3 * 0x100_0000 + d2 * 0x1_0000 + d1 * 0x100 + d0;
            n / 0x100_0000 % 0x100 == d3 && n / 0x1_0000 % 0x100 == d2 && n / 0x100 % 0x100 == d1 && n % 0x100 == d0
  {
    Shift24(d3, d2 * 0x1_0000 + d1 * 0x100 + d0);
    Shift16(d3 * 0x100 + d2, d1 * 0x100 + d0);
    Shift8(d3 * 0x1_0000 + d2 * 0x100 + d1, d0);
    LowDigit(d3, d2);
    LowDigit(d3 * 0x100 + d2, d1);
    LowDigit(d3 * 0x1_0000 + d2 * 0x100 + d1, d0);
  }

  lemma ReadBack(x3: bv8, x2: bv8, x1: bv8, x0: bv8)
    ensures var n := Num(x3) * 0x100_0000 + Num(x2) * 0x1_0000 + Num(x1) * 0x100 + Num(x0);
            ByteOf(n / 0x100_0000) == x3 && ByteOf(n / 0x1_0000) == x2 && ByteOf(n / 0x100) == x1 && ByteOf(n) == x0
  {
    hide ByteOf, Num;
    var n := Num(x3) * 0x100_0000 + Num(x2) * 0x1_0000 + Num(x1) * 0x100 + Num(x0);
    SplitDigits(Num(x3), Num(x2), Num(x1), Num(x0));
    NumByte(x3, n / 0x100_0000);
    NumByte(x2, n / 0x1_0000);
    NumByte(x1, n / 0x100);
    NumByte(x0, n);
  }

  /** A minimal length is written as it was read. */
  lemma SizeRead(b: seq<bv8>)
    requires PayloadSize(b).Some? && Minimal(b)
    ensures var size := PayloadSize(b).value; SizeExtension(size.length) == b[2..size.pos]
  {
    hide ByteOf, Num;
    var size := PayloadSize(b).value;
    CodeNum(size.length);
    if b[1] & 0x7F == 126 {
      ReadBack(0, 0, b[2], b[3]);
      ZeroByte();
      assert b[2..4] == [b[2], b[3]];
    } else if b[1] & 0x7F == 127 {
      ReadBack(b[6], b[7], b[8], b[9]);
      assert b[2..10] == [b[2], b[3], b[4], b[5], b[6], b[7], b[8], b[9]];
    } else {
      LowBits(b[1]);
      CodeValue(b[1] & 0x7F);
    }
  }

  lemma ZeroByte()
    ensures Num(0) == 0
  {}

  /** The reader is laxer than section 5.2: it takes longer length forms and ignores the reserved bits. The bytes of an
      extracted frame are what the writer would write exactly when neither is used. */
  lemma Reencoded(b: seq<bv8>)
    requires Decode(b).Some?
    ensures var x := Decode(b).value;
            && IsFrame(x.frame)
            && (Encode(x.frame) == b[..x.size] <==> b[0] & 0x70 == 0 && Minimal(b))
  {
    hide PayloadSize, SizeExtension, SizeCode, Masked, Minimal, Encode;
    var x := Decode(b).value;
    HeadRead(b);
    if FirstByte(x.frame) == b[0] && SecondByte(x.frame) == b[1] {
      BodyRead(b);
    } else {
      FirstBytes(x.frame, []);
      assert Encode(x.frame) + [] == Encode(x.frame);
      assert b[..x.size][0] == b[0] && b[..x.size][1] == b[1];
    }
  }

  lemma HeadRead(b: seq<bv8>)
    requires Decode(b).Some?
    ensures var f := Decode(b).value.frame;
            && IsFrame(f)
            && (FirstByte(f) == b[0] <==> b[0] & 0x70 == 0) && (SecondByte(f) == b[1] <==> Minimal(b))
  {
    hide Masked, SizeCode;
    var size := PayloadSize(b).value;
    OpcodeBits(b[0], b[1]);
    SizeBits(b[1], SizeCode(size.length));
  }

  lemma BodyRead(b: seq<bv8>)
    requires Decode(b).Some? && Minimal(b) && IsFrame(Decode(b).value.frame)
    requires var f := Decode(b).value.frame; FirstByte(f) == b[0] && SecondByte(f) == b[1]
    ensures var x := Decode(b).value; Encode(x.frame) == b[..x.size]
  {
    hide PayloadSize, SizeExtension, SizeCode, Masked, Minimal, FirstByte, SecondByte;
    var x := Decode(b).value;
    var size := PayloadSize(b).value;
    var start := size.pos + if b[1] & 0x80 != 0 then 4 else 0;
    SizeRead(b);
    MaskedTwice(b[start..start + size.length], x.frame.mask);
    SizeStarts(b);
    Cut(b, size.pos, start, x.size);
  }

  lemma SizeStarts(b: seq<bv8>)
    requires PayloadSize(b).Some?
    ensures PayloadSize(b).value.pos >= 2
  {}

  lemma Cut(b: seq<bv8>, i: nat, j: nat, k: nat)
    requires 2 <= i <= j <= k <= |b|
    ensures b[..k] == ([b[0], b[1]] + b[2..i] + b[i..j]) + b[j..k]
  {}

  lemma SizeBits(b: bv8, code: bv8)
    requires code <= 127
    ensures code | (if b & 0x80 != 0 then 0x80 else 0) == b <==> b & 0x7F == code
  {}

  lemma OpcodeBits(a: bv8, b: bv8)
    ensures a & 0x0F <= 0x0F
    ensures ((a & 0x0F) | (if a & 0x80 != 0 then 0x80 else 0)) == a <==> a & 0x70 == 0
  {}

  // ---------- the imperative code ----------

  /** The start of `wsFrameBuild`: the first byte and the payload length. */
  method BuildHead(payloadLen: nat, frameType: bv8, isFin: bool) returns (frame: seq<bv8>)
    ensures frame == [frameType | if isFin then 0x80 else 0, SizeCode(payloadLen)] + SizeExtension(payloadLen)
  {
    hide ByteOf;
    var head := frameType | if isFin then 0x80 else 0x00;
    frame := [head];
    if payloadLen <= 125 {
      frame := frame + [ByteOf(payloadLen)];
    } else if payloadLen <= 0xFFFF {
      frame := frame + [126];
      frame := frame + [ByteOf(payloadLen / 0x100)];
      frame := frame + [ByteOf(payloadLen)];
    } else {
      frame := frame + [127];
      frame := frame + [0x00];
      frame := frame + [0x00];
      frame := frame + [0x00];
      frame := frame + [0x00];
      frame := frame + [ByteOf(payloadLen / 0x100_0000)];
      frame := frame + [ByteOf(payloadLen / 0x1_0000)];
      frame := frame + [ByteOf(payloadLen / 0x100)];
      frame := frame + [ByteOf(payloadLen)];
    }
  }

  /** `wsFrameBuild`; `random` is the mask it draws when masking. */
  method BuildFrame(payload: seq<bv8>, frameType: bv8, isFin: bool, masking: bool, random: seq<bv8>)
    returns (frame: seq<bv8>)
    requires frameType <= 0x0F && |random| == 4
    ensures frame == Encode(Frame(isFin, frameType, if masking then Some(random) else None, payload))
  {
    hide SizeExtension, SizeCode, Masked;
    ghost var f := Frame(isFin, frameType, if masking then Some(random) else None, payload);
    frame := BuildHead(|payload|, frameType, isFin);
    NoMaskBit(SizeCode(|payload|));
    if masking {
      frame := frame[1 := frame[1] | 0x80];
      frame := AppendMask(frame, random);
      assert frame == Header(f);
      frame := AppendMasked(frame, payload, random);
    } else {
      assert frame == Header(f);
      EmptyMask(payload);
      frame := frame + payload;
    }
  }

  lemma NoMaskBit(c: bv8)
    ensures c | 0 == c
  {}

  lemma EmptyMask(payload: seq<bv8>)
    ensures Masked(payload, None) == payload
  {}

  method AppendMask(frame0: seq<bv8>, mask: seq<bv8>) returns (frame: seq<bv8>)
    requires |mask| == 4
    ensures frame == frame0 + mask
  {
    frame := frame0;
    for j := 0 to 4
      invariant frame == frame0 + mask[..j]
    {
      frame := frame + [mask[j]];
    }
  }

  method AppendMasked(frame0: seq<bv8>, payload: seq<bv8>, mask: seq<bv8>) returns (frame: seq<bv8>)
    requires |mask| == 4
    ensures frame == frame0 + Masked(payload, Some(mask))
  {
    frame := frame0;
    for i := 0 to |payload|
      invariant frame == frame0 + Masked(payload, Some(mask))[..i]
    {
      frame := frame + [payload[i] ^ mask[i % 4]];
    }
  }

  /** The start of `wsFrameExtractBuffer`: the payload length and the offset after it. */
  method ExtractSize(buffer: seq<bv8>) returns (ok: bool, payloadlen: nat, pos: nat)
    requires |buffer| >= 2
    ensures ok == PayloadSize(buffer).Some?
    ensures ok ==> PayloadSize(buffer) == Some(Size(payloadlen, pos)) && pos <= 10
  {
    hide Num;
    payloadlen, pos, ok := Num(buffer[1] & 0x7F), 2, true;
    CodeValue(buffer[1] & 0x7F);
    if payloadlen == 126 {
      if |buffer| < 4 { return false, payloadlen, pos; }
      payloadlen := Num(buffer[2]) * 0x100 + Num(buffer[3]);
      pos := 4;
    } else if payloadlen == 127 {
      if |buffer| < 10 { return false, payloadlen, pos; }
      if buffer[2] != 0 || buffer[3] != 0 || buffer[4] != 0 || buffer[5] != 0 { return false, payloadlen, pos; }
      if buffer[6] & 0x80 != 0 { return false, payloadlen, pos; }
      payloadlen := Num(buffer[6]) * 0x100_0000 + Num(buffer[7]) * 0x1_0000 + Num(buffer[8]) * 0x100 + Num(buffer[9]);
      pos := 10;
    }
  }

  /** `wsFrameExtractBuffer`, which appends to `payload0`. */
  method ExtractFrame(buffer: seq<bv8>, payload0: seq<bv8>)
    returns (ok: bool, payload: seq<bv8>, opcode: bv8, frameSize: nat, fin: bool)
    ensures ok == Decode(buffer).Some?
    ensures ok ==>
      var x := Decode(buffer).value;
      payload == payload0 + x.frame.payload && opcode == x.frame.opcode && frameSize == x.size && fin == x.frame.fin
  {
    hide PayloadSize, Masked;
    payload, opcode, frameSize, fin := payload0, ERROR_FRAME, 0, false;
    ShortBuffer(buffer);
    if |buffer| < 2 { return false, payload, opcode, frameSize, fin; }
    fin := buffer[0] & 0x80 != 0;
    opcode := buffer[0] & 0x0F;
    var isMasking := buffer[1] & 0x80 != 0;
    var payloadlen, pos;
    ok, payloadlen, pos := ExtractSize(buffer);
    if !ok { return; }
    var mask: seq<bv8> := [];
    if isMasking {
      if |buffer| < pos + 4 { return false, payload, opcode, frameSize, fin; }
      mask := [buffer[pos], buffer[pos + 1], buffer[pos + 2], buffer[pos + 3]];
      assert mask == buffer[pos..pos + 4];
      pos := pos + 4;
    }
    assert pos + payloadlen < 0x1_0000_0000; // neither the 32-bit offset nor the sum wraps
    if |buffer| < pos + payloadlen { return false, payload, opcode, frameSize, fin; }
    if isMasking {
      payload := AppendUnmasked(payload, buffer, pos, payloadlen, mask);
    } else {
      EmptyMask(buffer[pos..pos + payloadlen]);
      payload := payload + buffer[pos..pos + payloadlen];
    }
    frameSize := payloadlen + pos;
    ok := true;
  }

  lemma ShortBuffer(b: seq<bv8>)
    ensures |b| < 2 ==> PayloadSize(b) == None
  {}

  lemma MaskedAt(payload: seq<bv8>, mask: seq<bv8>, j: nat)
    requires |mask| == 4 && j < |payload|
    ensures Masked(payload, Some(mask))[j] == payload[j] ^ mask[j % 4]
  {}

  method AppendUnmasked(payload0: seq<bv8>, buffer: seq<bv8>, pos: nat, payloadlen: nat, mask: seq<bv8>)
    returns (payload: seq<bv8>)
    requires |mask| == 4 && pos + payloadlen <= |buffer|
    ensures payload == payload0 + Masked(buffer[pos..pos + payloadlen], Some(mask))
  {
    hide Masked;
    payload := payload0;
    ghost var body := buffer[pos..pos + payloadlen];
    ghost var masked := Masked(body, Some(mask));
    var i, j := pos, 0;
    while j < payloadlen
      invariant j <= payloadlen && i == pos + j
      invariant payload == payload0 + masked[..j]
    {
      MaskedAt(body, mask, j);
      assert body[j] == buffer[i];
      payload := payload + [buffer[i] ^ mask[j % 4]];
      i, j := i + 1, j + 1;
    }
  }

  // ---------- the examples of section 5.7 of RFC 6455 ----------

  const HELLO: seq<bv8> := [0x48, 0x65, 0x6C, 0x6C, 0x6F]

  /** The short numbers as bytes. */
  lemma ShortSizes()
    ensures ByteOf(2) == 2 && ByteOf(3) == 3 && ByteOf(5) == 5
  {
    NumByte(2, 2);
    NumByte(3, 3);
    NumByte(5, 5);
  }

  /** A text message, and the same in two fragments. */
  lemma HelloWritten()
    ensures Encode(Frame(true, 1, None, HELLO)) == [0x81, 0x05, 0x48, 0x65, 0x6C, 0x6C, 0x6F]
    ensures Encode(Frame(false, 1, None, HELLO[..3])) == [0x01, 0x03, 0x48, 0x65, 0x6C]
    ensures Encode(Frame(true, 0, None, HELLO[3..])) == [0x80, 0x02, 0x6C, 0x6F]
  {
    ShortSizes();
    hide ByteOf;
    assert HELLO[..3] == [0x48, 0x65, 0x6C] && HELLO[3..] == [0x6C, 0x6F];
  }

  /** The message under a mask. */
  lemma HelloMasked()
    ensures Encode(Frame(true, 1, Some([0x37, 0xFA, 0x21, 0x3D]), HELLO)) ==
            [0x81, 0x85, 0x37, 0xFA, 0x21, 0x3D, 0x7F, 0x9F, 0x4D, 0x51, 0x58]
  {
    ShortSizes();
    hide ByteOf;
    assert Masked(HELLO, Some([0x37, 0xFA, 0x21, 0x3D])) == [0x7F, 0x9F, 0x4D, 0x51, 0x58];
  }

  /** The heads of binary messages of 256 bytes and of 64 KiB. */
  lemma LongHeads(payload: seq<bv8>)
    ensures |payload| == 0x100 ==> Header(Frame(true, 2, None, payload)) == [0x82, 0x7E, 0x01, 0x00]
    ensures |payload| == 0x1_0000 ==>
              Header(Frame(true, 2, None, payload)) == [0x82, 0x7F, 0, 0, 0, 0, 0x00, 0x01, 0x00, 0x00]
  {
    NumByte(1, 1);
    NumByte(0, 0);
    NumByte(0, 0x100);
    NumByte(0, 0x1_0000);
    hide ByteOf;
  }
}
