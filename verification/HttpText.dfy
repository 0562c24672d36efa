/** ASCII text compared without regard to case, by the codes of its letters. */
module HttpText {

  /** `c` is the character `w` or, for a small letter `w`, its capital, whose code is 32 less. */
  predicate SameLetter(c: char, w: char) { c == w || ('a' <= w <= 'z' && c as int == w as int - 32) }

  /** `k` is the word, each letter small or capital. */
  predicate Spells(k: seq<char>, word: string) {
    |k| == |word| && forall i :: 0 <= i < |k| ==> SameLetter(k[i], word[i])
  }

  /** `k` is a beginning of the word, each letter small or capital. */
  predicate Begins(k: seq<char>, word: string) {
    |k| <= |word| && forall i :: 0 <= i < |k| ==> SameLetter(k[i], word[i])
  }

  /** One character more. */
  lemma BeginsNext(k: seq<char>, c: char, word: string)
    ensures Begins(k + [c], word) <==> Begins(k, word) && |k| < |word| && SameLetter(c, word[|k|])
  {
    if Begins(k + [c], word) {
      forall i | 0 <= i < |k| ensures SameLetter(k[i], word[i]) { assert (k + [c])[i] == k[i]; }
      assert (k + [c])[|k|] == c;
    }
  }

  /** A character that a word in small letters and hyphens may hold. */
  predicate IsWordChar(w: char) { 'a' <= w <= 'z' || w == '-' }
}
