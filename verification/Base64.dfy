/** `base64_encode` and `base64_decode` against section 4 of RFC 4648. */
module Base64 {
  import opened Bytes

  const UPPER := "ABCDEFGHIJKLMNOPQRSTUVWXYZ"
  const LOWER := "abcdefghijklmnopqrstuvwxyz"
  const REST := "0123456789+/"
  const ALPHABET := UPPER + LOWER + REST

  /** A six-bit group. */
  type Sextet = d: bv8 | d < 64 witness 0

  function Symbol(d: Sextet): char {
    SextetIndex(d);
    ALPHABET[Num(d)]
  }

  lemma SextetIndex(d: Sextet)
    ensures Num(d) < 64
  {
    SmallHigh(d);
    HighOf((d >> 4) as bv4);
    hide Nibble;
  }

  lemma SmallHigh(d: Sextet)
    ensures (d >> 4) as bv4 < 4
  {}

  lemma HighOf(x: bv4)
    ensures x < 4 ==> Nibble(x) < 4
  {}

  /** `is_base64`. */
  predicate IsBase64(c: char) { 'A' <= c <= 'Z' || 'a' <= c <= 'z' || '0' <= c <= '9' || c == '+' || c == '/' }

  /** The position of a character in the alphabet. */
  function Position(c: char): (n: nat)
    requires IsBase64(c)
    ensures n < 64
  {
    if 'A' <= c <= 'Z' then c as int - 'A' as int
    else if 'a' <= c <= 'z' then c as int - 'a' as int + 26
    else if '0' <= c <= '9' then c as int - '0' as int + 52
    else if c == '+' then 62 else 63
  }

  /** `base64_chars.find(c)` cut down to a byte: a character that is not found gives 0xFF. */
  function Find(c: char): bv8 { if IsBase64(c) then ByteOf(Position(c)) else 0xFF }

  /** The `k`th character of the alphabet, by arithmetic. */
  function CharAt(k: nat): char
    requires k < 64
  {
    if k < 26 then ('A' as int + k) as char
    else if k < 52 then ('a' as int + k - 26) as char
    else if k < 62 then ('0' as int + k - 52) as char
    else if k == 62 then '+' else '/'
  }

  lemma AlphabetAt(k: nat)
    requires k < 64
    ensures ALPHABET[k] == CharAt(k)
  {
    if k < 26 {
      UpperAt(k);
    } else if k < 52 {
      LowerAt(k - 26);
    } else {
      RestAt(k - 52);
    }
  }

  lemma FindChar(k: nat)
    requires k < 64
    ensures IsBase64(CharAt(k)) && Num(Find(CharAt(k))) == k
  {
    ByteNum(k);
    hide ByteOf, Num;
  }

  /** `Find` is the position in the alphabet. */
  lemma FindIsPosition(k: nat)
    requires k < 64
    ensures IsBase64(ALPHABET[k]) && Num(Find(ALPHABET[k])) == k
  {
    hide IsBase64, Find;
    AlphabetAt(k);
    FindChar(k);
  }

  lemma UpperAt(k: nat)
    requires k < 26
    ensures UPPER[k] == ('A' as int + k) as char
  {}

  lemma LowerAt(k: nat)
    requires k < 26
    ensures LOWER[k] == ('a' as int + k) as char
  {}

  lemma RestAt(k: nat)
    requires k < 12
    ensures REST[k] == if k < 10 then ('0' as int + k) as char else if k == 10 then '+' else '/'
  {}

  lemma FindSymbol(d: Sextet)
    ensures IsBase64(Symbol(d)) && Find(Symbol(d)) == d
  {
    SextetIndex(d);
    FindIsPosition(Num(d));
    hide Find, Num, IsBase64;
    NumInjective(Find(Symbol(d)), d);
  }

  // ---------- the definition in RFC 4648 ----------

  /** Three bytes as one 24-bit group. */
  function Group(a: bv8, b: bv8, c: bv8): bv24 { (a as bv24 << 16) | (b as bv24 << 8) | c as bv24 }

  /** The `k`th of the four sextets of a group, from the left. */
  function SextetOf(g: bv24, k: nat): Sextet
    requires k < 4
  {
    SextetSmall(g);
    if k == 0 then (g >> 18) as bv8
    else if k == 1 then ((g >> 12) & 63) as bv8
    else if k == 2 then ((g >> 6) & 63) as bv8
    else (g & 63) as bv8
  }

  lemma SextetSmall(g: bv24)
    ensures g >> 18 < 64 && (g >> 12) & 63 < 64 && (g >> 6) & 63 < 64 && g & 63 < 64
  {}

  function Symbols(g: bv24, n: nat): seq<char>
    requires n <= 4
  {
    seq(n, k requires 0 <= k < n => Symbol(SextetOf(g, k)))
  }

  /** The encoding of section 4: 24-bit groups, the last one padded. */
  function Encoding(b: seq<bv8>): seq<char> {
    if |b| == 0 then []
    else if |b| == 1 then Symbols(Group(b[0], 0, 0), 2) + "=="
    else if |b| == 2 then Symbols(Group(b[0], b[1], 0), 3) + "="
    else Symbols(Group(b[0], b[1], b[2]), 4) + Encoding(b[3..])
  }

  /** Four output characters for every three bytes begun. */
  lemma {:induction false} EncodingLength(b: seq<bv8>)
    ensures |Encoding(b)| == 4 * ((|b| + 2) / 3)
  {
    if |b| >= 3 { EncodingLength(b[3..]); }
  }

  /** Whole groups are encoded one after the other. */
  lemma {:induction false} EncodingAppend(a: seq<bv8>, b: seq<bv8>)
    requires |a| % 3 == 0
    ensures Encoding(a + b) == Encoding(a) + Encoding(b)
  {
    if a == [] {
      assert a + b == b;
    } else {
      assert (a + b)[3..] == a[3..] + b;
      EncodingAppend(a[3..], b);
    }
  }

  // ---------- decoding ----------

  /** The three bytes of four sextets. */
  function Byte0(p: bv8, q: bv8): bv8 { (p << 2) + ((q & 0x30) >> 4) }
  function Byte1(q: bv8, r: bv8): bv8 { ((q & 0xf) << 4) + ((r & 0x3c) >> 2) }
  function Byte2(r: bv8, s: bv8): bv8 { ((r & 0x3) << 6) + s }

  /** The bytes that characters of the alphabet stand for; an incomplete group gives one byte less than it has
      characters. */
  function Decoding(s: seq<char>): seq<bv8> {
    if |s| <= 1 then []
    else if |s| == 2 then [Byte0(Find(s[0]), Find(s[1]))]
    else if |s| == 3 then [Byte0(Find(s[0]), Find(s[1])), Byte1(Find(s[1]), Find(s[2]))]
    else [Byte0(Find(s[0]), Find(s[1])), Byte1(Find(s[1]), Find(s[2])),
          Byte2(Find(s[2]), Find(s[3]))] + Decoding(s[4..])
  }

  /** The characters up to the first that is not in the alphabet. */
  function Leading(s: seq<char>): (n: nat)
    ensures n <= |s| && (forall k :: 0 <= k < n ==> IsBase64(s[k])) && (n < |s| ==> !IsBase64(s[n]))
  {
    if s == [] || !IsBase64(s[0]) then 0 else 1 + Leading(s[1..])
  }

  lemma LeadingIs(s: seq<char>, n: nat)
    requires n <= |s| && (forall k :: 0 <= k < n ==> IsBase64(s[k])) && (n < |s| ==> !IsBase64(s[n]))
    ensures Leading(s) == n
  {}

  lemma {:induction false} DecodingAppend(a: seq<char>, b: seq<char>)
    requires |a| % 4 == 0
    ensures Decoding(a + b) == Decoding(a) + Decoding(b)
  {
    hide Find;
    if a == [] {
      assert a + b == b;
    } else {
      assert (a + b)[4..] == a[4..] + b;
      DecodingAppend(a[4..], b);
    }
  }

  lemma Ungroup(a: bv8, b: bv8, c: bv8)
    ensures var g := Group(a, b, c);
            && Byte0(SextetOf(g, 0), SextetOf(g, 1)) == a && Byte1(SextetOf(g, 1), SextetOf(g, 2)) == b
            && Byte2(SextetOf(g, 2), SextetOf(g, 3)) == c
  {}

  lemma SymbolsDecoded(g: bv24, n: nat)
    requires n <= 4
    ensures var s := Symbols(g, n);
            |s| == n && forall k :: 0 <= k < n ==> IsBase64(s[k]) && Find(s[k]) == SextetOf(g, k)
  {
    forall k | 0 <= k < n { FindSymbol(SextetOf(g, k)); }
  }

  /** The symbols of an encoding without the padding. */
  function Payload(b: seq<bv8>): seq<char> {
    if |b| == 0 then []
    else if |b| == 1 then Symbols(Group(b[0], 0, 0), 2)
    else if |b| == 2 then Symbols(Group(b[0], b[1], 0), 3)
    else Symbols(Group(b[0], b[1], b[2]), 4) + Payload(b[3..])
  }

  function Padding(n: nat): seq<char> { if n % 3 == 1 then "==" else if n % 3 == 2 then "=" else [] }

  lemma {:induction false} EncodingSplit(b: seq<bv8>)
    ensures Encoding(b) == Payload(b) + Padding(|b|)
  {
    hide Symbols, Group;
    if |b| >= 3 {
      var s := Symbols(Group(b[0], b[1], b[2]), 4);
      EncodingSplit(b[3..]);
      assert s + (Payload(b[3..]) + Padding(|b| - 3)) == (s + Payload(b[3..])) + Padding(|b|);
    }
  }

  lemma {:induction false} PayloadInAlphabet(b: seq<bv8>)
    ensures forall k :: 0 <= k < |Payload(b)| ==> IsBase64(Payload(b)[k])
  {
    hide Symbols, Group, SextetOf, IsBase64, Find;
    if |b| == 0 {
    } else if |b| == 1 {
      SymbolsDecoded(Group(b[0], 0, 0), 2);
    } else if |b| == 2 {
      SymbolsDecoded(Group(b[0], b[1], 0), 3);
    } else {
      SymbolsDecoded(Group(b[0], b[1], b[2]), 4);
      PayloadInAlphabet(b[3..]);
    }
  }

  lemma {:induction false} PayloadDecoded(b: seq<bv8>)
    ensures Decoding(Payload(b)) == b
  {
    hide Symbol, Group, SextetOf, IsBase64, Find, Byte0, Byte1, Byte2;
    if |b| == 0 {
    } else if |b| == 1 {
      SymbolsDecoded(Group(b[0], 0, 0), 2);
      Ungroup(b[0], 0, 0);
    } else if |b| == 2 {
      SymbolsDecoded(Group(b[0], b[1], 0), 3);
      Ungroup(b[0], b[1], 0);
    } else {
      var s := Symbols(Group(b[0], b[1], b[2]), 4);
      SymbolsDecoded(Group(b[0], b[1], b[2]), 4);
      Ungroup(b[0], b[1], b[2]);
      assert Payload(b)[4..] == Payload(b[3..]);
      PayloadDecoded(b[3..]);
      assert b == [b[0], b[1], b[2]] + b[3..];
    }
  }

  /** Decoding an encoding gives the bytes back. */
  lemma RoundTrip(b: seq<bv8>)
    ensures Decoding(Encoding(b)[..Leading(Encoding(b))]) == b
  {
    hide Encoding, Decoding, Payload, IsBase64;
    var s := Encoding(b);
    EncodingSplit(b);
    PayloadInAlphabet(b);
    PayloadDecoded(b);
    NoPad();
    LeadingIs(s, |Payload(b)|);
    assert s[..|Payload(b)|] == Payload(b);
  }

  lemma NoPad()
    ensures !IsBase64('=')
  {}

  // ---------- the imperative code ----------

  /** The shifts and masks cut a group into its sextets. */
  lemma Regroup(a: bv8, b: bv8, c: bv8)
    ensures var g := Group(a, b, c);
            && (a & 0xfc) >> 2 == SextetOf(g, 0) && ((a & 0x03) << 4) + ((b & 0xf0) >> 4) == SextetOf(g, 1)
            && ((b & 0x0f) << 2) + ((c & 0xc0) >> 6) == SextetOf(g, 2) && c & 0x3f == SextetOf(g, 3)
  {}

  /** Fills `char_array_4` from `char_array_3`. */
  method Split(three: array<bv8>, four: array<bv8>)
    requires three.Length == 3 && four.Length == 4 && three != four
    modifies four
    ensures forall k :: 0 <= k < 4 ==> four[k] == SextetOf(Group(three[0], three[1], three[2]), k)
  {
    hide Group, SextetOf;
    Regroup(three[0], three[1], three[2]);
    four[0] := (three[0] & 0xfc) >> 2;
    four[1] := ((three[0] & 0x03) << 4) + ((three[1] & 0xf0) >> 4);
    four[2] := ((three[1] & 0x0f) << 2) + ((three[2] & 0xc0) >> 6);
    four[3] := three[2] & 0x3f;
  }

  /** Appends the symbols of the first `n` sextets. */
  method AppendSymbols(ret0: seq<char>, four: array<bv8>, n: nat, ghost g: bv24) returns (ret: seq<char>)
    requires four.Length == 4 && n <= 4 && forall k :: 0 <= k < 4 ==> four[k] == SextetOf(g, k)
    ensures ret == ret0 + Symbols(g, n)
  {
    hide Symbol, SextetOf;
    ret := ret0;
    for i := 0 to n
      invariant ret == ret0 + Symbols(g, i)
    {
      ret := ret + [Symbol(four[i])];
      assert Symbols(g, i + 1) == Symbols(g, i) + [Symbol(four[i])];
    }
  }

  method Encode(bytes: seq<bv8>) returns (ret: seq<char>)
    ensures ret == Encoding(bytes)
  {
    hide Symbol, Group, SextetOf, Encoding, Symbols;
    ret := [];
    var three := new bv8[3];
    var four := new bv8[4];
    var i, p := 0, 0;
    EmptyEncoding();
    while p < |bytes|
      invariant p <= |bytes| && i < 3 && i <= p && (p - i) % 3 == 0
      invariant three[..i] == bytes[p - i..p]
      invariant ret == Encoding(bytes[..p - i])
    {
      three[i] := bytes[p];
      assert three[..i + 1] == three[..i] + [bytes[p]];
      i, p := i + 1, p + 1;
      assert three[..i] == bytes[p - i..p];
      if i == 3 {
        Split(three, four);
        ret := AppendSymbols(ret, four, 4, Group(three[0], three[1], three[2]));
        OneGroup(bytes[..p - 3], three[..]);
        assert bytes[..p - 3] + three[..] == bytes[..p];
        i := 0;
      }
    }
    assert bytes == bytes[..p - i] + three[..i];
    EncodingAppend(bytes[..p - i], three[..i]);
    assert three[..0] == [];
    if i != 0 { ret := EncodeTail(ret, three, four, i); }
  }

  /** The last one or two bytes, and the padding. */
  method EncodeTail(ret0: seq<char>, three: array<bv8>, four: array<bv8>, n: nat) returns (ret: seq<char>)
    requires three.Length == 3 && four.Length == 4 && 0 < n < 3 && three != four
    modifies three, four
    ensures ret == ret0 + Encoding(old(three[..n]))
  {
    hide Symbol, Group, SextetOf, Encoding, Symbols;
    ghost var rest := three[..n];
    FillZero(three, n);
    Split(three, four);
    ret := AppendSymbols(ret0, four, n + 1, Group(three[0], three[1], three[2]));
    LastGroup(rest);
    ret := AppendPads(ret, n);
  }

  /** The bytes from `n` on become zero. */
  method FillZero(three: array<bv8>, n: nat)
    requires n <= three.Length == 3
    modifies three
    ensures three[..n] == old(three[..n]) && forall k :: n <= k < 3 ==> three[k] == 0
  {
    for j := n to 3
      invariant three[..n] == old(three[..n]) && forall k :: n <= k < j ==> three[k] == 0
    {
      three[j] := 0;
    }
  }

  /** `=` for each byte that is missing. */
  method AppendPads(ret0: seq<char>, n: nat) returns (ret: seq<char>)
    requires n <= 3
    ensures ret == ret0 + Pads(3 - n)
  {
    ret := ret0;
    var i := n;
    while i < 3
      invariant n <= i <= 3 && ret == ret0 + Pads(i - n)
    {
      ret := ret + ['='];
      assert Pads(i + 1 - n) == Pads(i - n) + ['='];
      i := i + 1;
    }
  }

  function Pads(n: nat): seq<char> { seq(n, _ => '=') }

  lemma EmptyEncoding()
    ensures Encoding([]) == []
  {}

  lemma OneGroup(a: seq<bv8>, g: seq<bv8>)
    requires |a| % 3 == 0 && |g| == 3
    ensures Encoding(a + g) == Encoding(a) + Symbols(Group(g[0], g[1], g[2]), 4)
  {
    hide Symbols, Group;
    EncodingAppend(a, g);
    assert g[3..] == [];
  }

  lemma LastGroup(g: seq<bv8>)
    requires 0 < |g| < 3
    ensures Encoding(g) == Symbols(Group(g[0], if |g| > 1 then g[1] else 0, 0), |g| + 1) + Pads(3 - |g|)
  {
    hide Symbols, Group;
  }

  /** Replaces characters by their values and fills `char_array_3`. */
  method Combine(four: array<bv8>, three: array<bv8>)
    requires four.Length == 4 && three.Length == 3 && four != three
    modifies three
    ensures three[0] == Byte0(four[0], four[1]) && three[1] == Byte1(four[1], four[2])
            && three[2] == Byte2(four[2], four[3])
  {
    three[0] := (four[0] << 2) + ((four[1] & 0x30) >> 4);
    three[1] := ((four[1] & 0xf) << 4) + ((four[2] & 0x3c) >> 2);
    three[2] := ((four[2] & 0x3) << 6) + four[3];
  }

  method FindAll(chars: array<char>, four: array<bv8>)
    requires chars.Length == 4 && four.Length == 4 && chars as object != four as object
    modifies four
    ensures forall k :: 0 <= k < 4 ==> four[k] == Find(chars[k])
  {
    hide Find;
    for k := 0 to 4
      invariant forall j :: 0 <= j < k ==> four[j] == Find(chars[j])
    {
      four[k] := Find(chars[k]);
    }
  }

  /** Decodes the characters in `chars`, of which the last may stand for nothing. */
  method DecodeFour(chars: array<char>, four: array<bv8>, three: array<bv8>)
    requires chars.Length == 4 && four.Length == 4 && three.Length == 3 && four != three
    requires chars as object != four as object && chars as object != three as object
    modifies four, three
    ensures three[0] == Byte0(Find(chars[0]), Find(chars[1])) && three[1] == Byte1(Find(chars[1]), Find(chars[2]))
    ensures three[2] == Byte2(Find(chars[2]), Find(chars[3]))
  {
    hide Find, Byte0, Byte1, Byte2;
    FindAll(chars, four);
    Combine(four, three);
  }

  /** The bytes of a last group of `i` characters. */
  method DecodeTail(chars: array<char>, i: nat, four: array<bv8>, three: array<bv8>, ret0: seq<bv8>)
    returns (ret: seq<bv8>)
    requires chars.Length == 4 && four.Length == 4 && three.Length == 3 && four != three && 0 < i < 4
    requires chars as object != four as object && chars as object != three as object
    modifies chars, four, three
    ensures ret == ret0 + Decoding(old(chars[..i]))
  {
    hide Find, Byte0, Byte1, Byte2, Decoding;
    ghost var rest := chars[..i];
    ret := ret0;
    for j := i to 4
      modifies chars
      invariant chars[..i] == rest
    {
      chars[j] := '\0';
    }
    DecodeFour(chars, four, three);
    TailGroup(rest);
    assert forall k :: 0 <= k < i ==> rest[k] == chars[..i][k];
    for j := 0 to i - 1
      invariant ret == ret0 + Decoding(rest)[..j]
    {
      assert three[j] == Decoding(rest)[j];
      ret := ret + [three[j]];
    }
    assert Decoding(rest)[..i - 1] == Decoding(rest);
  }

  method Decode(s: seq<char>) returns (ret: seq<bv8>)
    ensures ret == Decoding(s[..Leading(s)])
  {
    hide IsBase64, Find, Byte0, Byte1, Byte2, Decoding;
    ret := [];
    var chars := new char[4];
    var four := new bv8[4];
    var three := new bv8[3];
    var i, p := 0, 0;
    NoDecoding([]);
    NoPad();
    while p < |s| && s[p] != '=' && IsBase64(s[p])
      invariant p <= |s| && i < 4 && i <= p && (p - i) % 4 == 0
      invariant forall k :: 0 <= k < p ==> IsBase64(s[k])
      invariant chars[..i] == s[p - i..p]
      invariant ret == Decoding(s[..p - i])
    {
      chars[i] := s[p];
      assert chars[..i + 1] == chars[..i] + [s[p]];
      i, p := i + 1, p + 1;
      assert chars[..i] == s[p - i..p];
      if i == 4 {
        DecodeFour(chars, four, three);
        FullGroup(s[..p - 4], chars[..]);
        assert s[..p - 4] + chars[..] == s[..p];
        ret := ret + [three[0], three[1], three[2]];
        i := 0;
      }
    }
    LeadingIs(s, p);
    ghost var rest := chars[..i];
    assert s[..p] == s[..p - i] + rest;
    DecodingAppend(s[..p - i], rest);
    if i != 0 {
      ret := DecodeTail(chars, i, four, three, ret);
    } else {
      NoDecoding(rest);
    }
  }

  lemma NoDecoding(s: seq<char>)
    requires |s| <= 1
    ensures Decoding(s) == []
  {}

  lemma FullGroup(a: seq<char>, g: seq<char>)
    requires |a| % 4 == 0 && |g| == 4
    ensures Decoding(a + g) == Decoding(a) + [Byte0(Find(g[0]), Find(g[1])), Byte1(Find(g[1]), Find(g[2])),
                                              Byte2(Find(g[2]), Find(g[3]))]
  {
    hide Find, Byte0, Byte1, Byte2;
    DecodingAppend(a, g);
    assert g[4..] == [];
  }

  lemma TailGroup(g: seq<char>)
    requires 0 < |g| < 4
    ensures |Decoding(g)| == |g| - 1
    ensures |g| >= 2 ==> Decoding(g)[0] == Byte0(Find(g[0]), Find(g[1]))
    ensures |g| == 3 ==> Decoding(g)[1] == Byte1(Find(g[1]), Find(g[2]))
  {
    hide Find, Byte0, Byte1, Byte2;
  }

  /** Encoding and decoding again. */
  method EncodeThenDecode(bytes: seq<bv8>) returns (encoded: seq<char>, decoded: seq<bv8>)
    ensures decoded == bytes && |encoded| == 4 * ((|bytes| + 2) / 3)
  {
    encoded := Encode(bytes);
    decoded := Decode(encoded);
    RoundTrip(bytes);
    EncodingLength(bytes);
  }
}
