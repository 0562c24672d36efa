/** The header-name matcher recognises exactly the framing names, in any mix of cases. */
module HttpNames {
  import opened HttpTypes
  import opened HttpAutomaton
  import opened HttpBulk
  import opened HttpText
  import opened HttpCharacters

  /** A header name in lower case. */
  function LowerName(k: seq<char>): seq<char> {
    if k == [] then [] else LowerName(k[..|k| - 1]) + [TokenOf(k[|k| - 1])]
  }

  /** What the matcher knows after a whole header name. */
  function NameState(k: seq<char>): (HeaderState, nat)
    requires k != []
  {
    FieldFold(FirstFieldByte(TokenOf(k[0])), 0, k[1..])
  }

  /** The matcher's state, as a function of the lower-case name read so far. */
  function Expected(w: seq<char>): HeaderState {
    if w <= CONNECTION then
      if |w| <= 1 then C else if |w| == 2 then CO else if |w| == 3 then CON
      else if |w| == |CONNECTION| then Connection else MatchingConnection
    else if w <= CONTENT_LENGTH then if |w| == |CONTENT_LENGTH| then ContentLength else MatchingContentLength
    else if w <= PROXY_CONNECTION then if |w| == |PROXY_CONNECTION| then Connection else MatchingProxyConnection
    else if w <= TRANSFER_ENCODING then if |w| == |TRANSFER_ENCODING| then TransferEncoding
      else MatchingTransferEncoding
    else if w <= UPGRADE then if |w| == |UPGRADE| then Upgrade else MatchingUpgrade
    else General
  }

  ghost predicate Tracks(h: HeaderState, i: nat, w: seq<char>) {
    w != [] && h == Expected(w) && (h != General ==> i == |w| - 1)
  }

  lemma FirstTracks(c: char)
    ensures Tracks(FirstFieldByte(c), 0, [c])
  {
    Extend([], c, CONNECTION);
    Extend([], c, CONTENT_LENGTH);
    Extend([], c, PROXY_CONNECTION);
    Extend([], c, TRANSFER_ENCODING);
    Extend([], c, UPGRADE);
    assert [] + [c] == [c];
  }

  /** Extending a prefix of a word by one character. */
  lemma Extend(w: seq<char>, c: char, word: string)
    ensures w + [c] <= word <==> w <= word && |w| < |word| && c == word[|w|]
  {
    if w + [c] <= word {
      assert w == word[..|w|] by { assert w == (w + [c])[..|w|]; }
      assert (w + [c])[|w|] == word[|w|];
    }
  }

  /** A word extends a prefix in one way only. */
  lemma Apart(w: seq<char>)
    requires w != []
    ensures w <= CONNECTION ==> w[0] == 'c' && (|w| > 3 ==> w[3] == 'n')
    ensures w <= CONTENT_LENGTH ==> w[0] == 'c' && (|w| > 3 ==> w[3] == 't')
    ensures w <= CONTENT_LENGTH && |w| <= 3 ==> w <= CONNECTION
    ensures w <= PROXY_CONNECTION ==> w[0] == 'p'
    ensures w <= TRANSFER_ENCODING ==> w[0] == 't'
    ensures w <= UPGRADE ==> w[0] == 'u'
  {
    if w <= CONTENT_LENGTH && |w| <= 3 { assert w == CONTENT_LENGTH[..|w|] == CONNECTION[..|w|]; }
  }

  lemma ByteTracks(h: HeaderState, i: nat, w: seq<char>, c: char)
    requires Tracks(h, i, w)
    ensures var (g, j) := FieldByte(h, i, c); Tracks(g, j, w + [c])
  {
    if Expected(w) == General { LostTracks(h, i, w, c); }
    else if w[0] == 'c' { CTracks(h, i, w, c); }
    else { WordTracks(h, i, w, c); }
  }

  /** Once no word matches, none will. */
  lemma LostTracks(h: HeaderState, i: nat, w: seq<char>, c: char)
    requires Tracks(h, i, w) && Expected(w) == General
    ensures var (g, j) := FieldByte(h, i, c); Tracks(g, j, w + [c])
  {
    Extend(w, c, CONNECTION);
    Extend(w, c, CONTENT_LENGTH);
    Extend(w, c, PROXY_CONNECTION);
    Extend(w, c, TRANSFER_ENCODING);
    Extend(w, c, UPGRADE);
  }

  /** `connection` and `content-length`. */
  lemma CTracks(h: HeaderState, i: nat, w: seq<char>, c: char)
    requires Tracks(h, i, w) && Expected(w) != General && w[0] == 'c'
    ensures var (g, j) := FieldByte(h, i, c); Tracks(g, j, w + [c])
  {
    Apart(w);
    Apart(w + [c]);
    Extend(w, c, CONNECTION);
    Extend(w, c, CONTENT_LENGTH);
    assert (w + [c])[0] == 'c';
  }

  lemma WordTracks(h: HeaderState, i: nat, w: seq<char>, c: char)
    requires Tracks(h, i, w) && Expected(w) != General && w[0] != 'c'
    ensures var (g, j) := FieldByte(h, i, c); Tracks(g, j, w + [c])
  {
    Apart(w);
    Apart(w + [c]);
    Extend(w, c, PROXY_CONNECTION);
    Extend(w, c, TRANSFER_ENCODING);
    Extend(w, c, UPGRADE);
    assert (w + [c])[0] == w[0];
  }

  lemma {:induction false} FoldTracks(k: seq<char>)
    requires k != []
    ensures var (h, i) := NameState(k); Tracks(h, i, LowerName(k))
  {
    hide FirstFieldByte, FieldByte, TokenOf, Expected;
    var last := |k| - 1;
    if last == 0 {
      assert k[1..] == [] && k[..0] == [];
      assert LowerName(k) == [TokenOf(k[0])];
      FirstTracks(TokenOf(k[0]));
    } else {
      FoldTracks(k[..last]);
      assert k[1..][..last - 1] == k[..last][1..];
      var (h, i) := NameState(k[..last]);
      ByteTracks(h, i, LowerName(k[..last]), TokenOf(k[last]));
    }
  }

  lemma {:induction false} LowerNameLength(k: seq<char>)
    ensures |LowerName(k)| == |k|
  {
    if k != [] { LowerNameLength(k[..|k| - 1]); }
  }

  /** Which framing header a name is, by plain comparison of the lower-case name. */
  function NameClass(w: seq<char>): HeaderState {
    if w == CONNECTION || w == PROXY_CONNECTION then Connection
    else if w == CONTENT_LENGTH then ContentLength
    else if w == TRANSFER_ENCODING then TransferEncoding
    else if w == UPGRADE then Upgrade
    else General
  }

  /** A complete match of a framing name; every other matcher state is a name of no meaning. */
  predicate Framing(h: HeaderState) {
    h == Connection || h == ContentLength || h == TransferEncoding || h == Upgrade
  }

  lemma SamePrefix(w: seq<char>, word: string)
    ensures w <= word && |w| == |word| <==> w == word
  {
    if w <= word && |w| == |word| { assert word == word[..|w|]; }
  }

  /** The matcher recognises the framing names exactly, whatever the case of their letters. */
  lemma NameMatchedExactly(k: seq<char>)
    requires k != []
    ensures var h := NameState(k).0; NameClass(LowerName(k)) == if Framing(h) then h else General
  {
    FoldTracks(k);
    LowerNameLength(k);
    var w := LowerName(k);
    Apart(w);
    SamePrefix(w, CONNECTION);
    SamePrefix(w, PROXY_CONNECTION);
    SamePrefix(w, CONTENT_LENGTH);
    SamePrefix(w, TRANSFER_ENCODING);
    SamePrefix(w, UPGRADE);
  }

  // ---------- the names as they are written ----------

  lemma {:induction false} LowerSpells(k: seq<char>, word: string)
    requires forall i :: 0 <= i < |word| ==> IsWordChar(word[i])
    ensures LowerName(k) == word <==> Spells(k, word)
  {
    hide TokenOf, SameLetter, IsWordChar;
    LowerNameLength(k);
    if k != [] && |k| == |word| {
      var last := |k| - 1;
      LowerSpells(k[..last], word[..last]);
      TokenLetter(k[last], word[last]);
      assert word == word[..last] + [word[last]];
      assert LowerName(k)[last] == TokenOf(k[last]) && LowerName(k)[..last] == LowerName(k[..last]);
    }
  }

  /** The matcher recognises each framing name in any spelling, letter by letter, and nothing else. */
  lemma NamesLiterally(k: seq<char>)
    requires k != []
    ensures var h := NameState(k).0;
            && (h == Connection <==> Spells(k, "connection") || Spells(k, "proxy-connection"))
            && (h == ContentLength <==> Spells(k, "content-length"))
            && (h == TransferEncoding <==> Spells(k, "transfer-encoding"))
            && (h == Upgrade <==> Spells(k, "upgrade"))
  {
    NameMatchedExactly(k);
    ClassesLiterally(k);
    hide NameState, LowerName, Spells;
  }

  /** The class of a name, by its spelling. */
  lemma ClassesLiterally(k: seq<char>)
    ensures var h := NameClass(LowerName(k));
            && (h == Connection <==> Spells(k, "connection") || Spells(k, "proxy-connection"))
            && (h == ContentLength <==> Spells(k, "content-length"))
            && (h == TransferEncoding <==> Spells(k, "transfer-encoding"))
            && (h == Upgrade <==> Spells(k, "upgrade"))
            && (h == General <==>
                  !Spells(k, "connection") && !Spells(k, "proxy-connection") && !Spells(k, "content-length")
                  && !Spells(k, "transfer-encoding") && !Spells(k, "upgrade"))
  {
    LowerSpells(k, "connection");
    LowerSpells(k, "proxy-connection");
    LowerSpells(k, "content-length");
    LowerSpells(k, "transfer-encoding");
    LowerSpells(k, "upgrade");
    hide LowerName, Spells;
  }
}
