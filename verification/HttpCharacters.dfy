/** The parser's character classes against the standards, by character codes. */
module HttpCharacters {
  import opened HttpTypes
  import opened HttpText

  /** ALPHA and DIGIT of RFC 5234. */
  predicate IsAlphaCode(x: int) { 0x41 <= x <= 0x5A || 0x61 <= x <= 0x7A }

  predicate IsDigitCode(x: int) { 0x30 <= x <= 0x39 }

  /** `tchar` of section 3.2.6 of RFC 7230: ! # $ % & ' * + - . ^ _ ` | ~, digits and letters. */
  predicate IsTcharCode(x: int) {
    IsAlphaCode(x) || IsDigitCode(x)
    || x in {0x21, 0x23, 0x24, 0x25, 0x26, 0x27, 0x2A, 0x2B, 0x2D, 0x2E, 0x5E, 0x5F, 0x60, 0x7C, 0x7E}
  }

  /** The characters of a field value in section 3.2 of RFC 7230: HTAB, SP, VCHAR and obs-text. */
  predicate IsFieldValueCode(x: int) { x == 0x09 || 0x20 <= x <= 0x7E || 0x80 <= x }

  /** `unreserved`, `sub-delims`, `:` and the percent sign of section 3.2.1 of RFC 3986. */
  predicate IsUserinfoCode(x: int) { IsUnreservedCode(x) || IsSubDelimCode(x) || x == 0x3A || x == 0x25 }

  predicate IsUnreservedCode(x: int) { IsAlphaCode(x) || IsDigitCode(x) || x in {0x2D, 0x2E, 0x5F, 0x7E} }

  predicate IsSubDelimCode(x: int) { x in {0x21, 0x24, 0x26, 0x27, 0x28, 0x29, 0x2A, 0x2B, 0x2C, 0x3B, 0x3D} }

  /** `pchar` and `/` of section 3.3 of RFC 3986, the percent sign of an escape included. */
  predicate IsPathCode(x: int) { IsUserinfoCode(x) || x == 0x40 || x == 0x2F }

  predicate IsHexCode(x: int) { IsDigitCode(x) || 0x41 <= x <= 0x46 || 0x61 <= x <= 0x66 }

  /** Header names are made of the token characters of the standard, and of nothing else; a small letter stands for its
      capital too. */
  lemma TokensExact(c: char)
    ensures IsToken(c) <==> IsTcharCode(c as int)
    ensures IsToken(c) ==> TokenOf(c) as int == c as int + if 0x41 <= c as int <= 0x5A then 32 else 0
    ensures !IsToken(c) ==> TokenOf(c) == '\0'
  {}

  /** Header values are made of the characters of the standard; CR and LF end them. */
  lemma HeaderCharsExact(c: char)
    ensures IsHeaderChar(c) && c != CR && c != LF <==> IsFieldValueCode(c as int)
    ensures CR as int == 0x0D && LF as int == 0x0A && TAB as int == 0x09
  {}

  /** Every character of the standard's paths is taken in a path, together with the other visible ones but `?` and
      `#`. */
  lemma UrlCharsExact(c: char)
    ensures IsUrlChar(c) <==> 0x21 <= c as int <= 0x7E && c as int != 0x23 && c as int != 0x3F
    ensures IsPathCode(c as int) ==> IsUrlChar(c)
  {}

  /** Userinfo is made of the characters of the standard, and host names of letters, digits, dots and hyphens. */
  lemma AuthorityCharsExact(c: char)
    ensures IsUserinfoChar(c) <==> IsUserinfoCode(c as int)
    ensures IsHostChar(c) <==> IsAlphaCode(c as int) || IsDigitCode(c as int) || c as int == 0x2E || c as int == 0x2D
    ensures IsAlpha(c) <==> IsAlphaCode(c as int)
    ensures IsAlphaNum(c) <==> IsAlphaCode(c as int) || IsDigitCode(c as int)
  {}

  /** Digits and what they are worth. */
  lemma DigitsExact(c: char)
    ensures IsNum(c) <==> IsDigitCode(c as int)
    ensures IsHex(c) <==> IsHexCode(c as int)
    ensures IsNum(c) ==> 0 <= Digit(c) <= 9 && Digit(c) == c as int - 0x30
  {}

  /** A hexadecimal digit is worth its distance from 0, or ten more than that from the letter A, small or capital. */
  lemma HexWorth(c: char)
    requires IsHexCode(c as int)
    ensures IsDigitCode(c as int) ==> Unhex(c) == c as int - 0x30
    ensures 0x41 <= c as int <= 0x46 ==> Unhex(c) == c as int - 0x41 + 10
    ensures 0x61 <= c as int <= 0x66 ==> Unhex(c) == c as int - 0x61 + 10
  {}

  /** The hexadecimal digits, in their two spellings, are worth their places. */
  lemma HexDigitsExact(k: nat)
    requires k < 16
    ensures Unhex("0123456789abcdef"[k]) == k && Unhex("0123456789ABCDEF"[k]) == k
  {}

  /** The lower-case table takes a letter for either of its spellings, and no other token for it. */
  lemma TokenLetter(c: char, w: char)
    requires IsWordChar(w)
    ensures TokenOf(c) == w <==> SameLetter(c, w)
  {}

  /** So does setting bit 5, on any byte but a CR, which becomes a hyphen. */
  lemma LowerLetter(c: char, w: char)
    requires IsWordChar(w) && c != CR
    ensures Lower(c) == w <==> SameLetter(c, w)
  {}
}
