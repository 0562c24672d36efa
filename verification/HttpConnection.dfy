/** Connection headers (section 6.1 of RFC 7230): which options of a list the parser finds. */
module HttpConnection {
  import opened Options
  import opened HttpTypes
  import opened HttpAutomaton
  import opened HttpBulk
  import opened HttpText
  import opened HttpCharacters
  import opened HttpNames
  import opened HttpFields

  // ---------- lists ----------

  /** An element of a comma-separated list with the blanks before and behind it. */
  datatype Element = Element(lead: seq<char>, token: seq<char>, trail: seq<char>)

  predicate IsBlank(c: char) { c as int == 0x20 || c as int == 0x09 }

  predicate AllBlank(bs: seq<char>) { forall i :: 0 <= i < |bs| ==> IsBlank(bs[i]) }

  predicate AllSpaces(bs: seq<char>) { forall i :: 0 <= i < |bs| ==> bs[i] == ' ' }

  predicate IsTokenText(token: seq<char>) {
    token != [] && forall i :: 0 <= i < |token| ==> IsTcharCode(token[i] as int)
  }

  predicate IsElement(e: Element) { AllBlank(e.lead) && IsTokenText(e.token) && AllBlank(e.trail) }

  /** A list of at least one element, without blanks at its front. */
  predicate IsList(es: seq<Element>) {
    es != [] && es[0].lead == [] && forall i :: 0 <= i < |es| ==> IsElement(es[i])
  }

  function ElementText(e: Element): seq<char> { e.lead + (e.token + e.trail) }

  function ListText(es: seq<Element>): seq<char> {
    if es == [] then []
    else if |es| == 1 then ElementText(es[0])
    else ListText(es[..|es| - 1]) + ([','] + ElementText(es[|es| - 1]))
  }

  // ---------- what the parser finds ----------

  /** The options the parser looks for. */
  datatype Choice = KeepAliveChoice | CloseChoice | UpgradeChoice

  function WordOf(o: Choice): string {
    match o case KeepAliveChoice => "keep-alive" case CloseChoice => "close" case UpgradeChoice => "upgrade"
  }

  /** The beginning of an option, directly before a comma: the matcher takes the comma for a wrong letter, and with it
      the next element for a part of this one. */
  predicate Stunted(e: Element) { e.trail == [] && exists o: Choice :: IsStub(e.token, o) }

  predicate IsStub(token: seq<char>, o: Choice) { Begins(token, WordOf(o)) && |token| < |WordOf(o)| }

  /** A tab before a token, or an underscore at its front, is taken for the end of the list. */
  predicate Breaks(e: Element)
    requires e.token != []
  {
    TAB in e.lead || e.token[0] == '_'
  }

  /** The element is taken for a part of the one before. */
  predicate Swallowed(es: seq<Element>, i: nat)
    requires i < |es|
  {
    i > 0 && !Swallowed(es, i - 1) && Stunted(es[i - 1])
  }

  /** The parser has stopped looking before the element, or at it. */
  predicate Broken(es: seq<Element>, i: nat)
    requires i < |es| && IsList(es)
  {
    i > 0 && (Broken(es, i - 1) || (!Swallowed(es, i) && Breaks(es[i])))
  }

  /** The element is the option, and the parser finds it. */
  predicate Found(es: seq<Element>, i: nat, o: Choice)
    requires i < |es| && IsList(es)
  {
    !Swallowed(es, i) && !Broken(es, i) && Spells(es[i].token, WordOf(o)) && AllSpaces(es[i].trail)
  }

  function SetFlag(f: Flags, es: seq<Element>, i: nat): Flags
    requires i < |es| && IsList(es)
  {
    f.(keepAlive := f.keepAlive || Found(es, i, KeepAliveChoice), close := f.close || Found(es, i, CloseChoice),
       connectionUpgrade := f.connectionUpgrade || Found(es, i, UpgradeChoice))
  }

  /** The flags with those of the first `n` elements. */
  function FlagsUpTo(f: Flags, es: seq<Element>, n: nat): Flags
    requires n <= |es| && IsList(es)
  {
    if n == 0 then f else SetFlag(FlagsUpTo(f, es, n - 1), es, n - 1)
  }

  predicate AnyFound(es: seq<Element>, n: nat, o: Choice)
    requires n <= |es| && IsList(es)
  {
    exists i :: 0 <= i < n && Found(es, i, o)
  }

  /** Each flag is set exactly when its option is found somewhere in the list; no other flag changes. */
  lemma {:induction false} FlagsExact(f: Flags, es: seq<Element>, n: nat)
    requires n <= |es| && IsList(es)
    ensures var g := FlagsUpTo(f, es, n);
            && (g.keepAlive <==> f.keepAlive || AnyFound(es, n, KeepAliveChoice))
            && (g.close <==> f.close || AnyFound(es, n, CloseChoice))
            && (g.connectionUpgrade <==> f.connectionUpgrade || AnyFound(es, n, UpgradeChoice))
            && g == f.(keepAlive := g.keepAlive, close := g.close, connectionUpgrade := g.connectionUpgrade)
  {
    hide Found, IsList;
    if n > 0 {
      FlagsExact(f, es, n - 1);
      AnyFoundNext(es, n, KeepAliveChoice);
      AnyFoundNext(es, n, CloseChoice);
      AnyFoundNext(es, n, UpgradeChoice);
    }
  }

  lemma AnyFoundNext(es: seq<Element>, n: nat, o: Choice)
    requires 0 < n <= |es| && IsList(es)
    ensures AnyFound(es, n, o) <==> AnyFound(es, n - 1, o) || Found(es, n - 1, o)
  {
    hide Found, IsList;
  }

  /** No element is a beginning of an option right before a comma, has a tab beside it, or begins with an underscore. */
  predicate IsOrdinary(es: seq<Element>)
    requires IsList(es)
  {
    forall i :: 0 <= i < |es| ==> AllSpaces(es[i].lead) && AllSpaces(es[i].trail) && es[i].token[0] != '_'
                                  && (i + 1 < |es| ==> !Stunted(es[i]))
  }

  /** In such a list an option is found exactly where it is written, in any spelling. */
  lemma {:induction false} OrdinaryFound(es: seq<Element>, i: nat, o: Choice)
    requires IsList(es) && IsOrdinary(es) && i < |es|
    ensures !Swallowed(es, i) && !Broken(es, i)
    ensures Found(es, i, o) <==> Spells(es[i].token, WordOf(o))
  {
    hide Spells, Stunted, WordOf;
    if i > 0 { OrdinaryFound(es, i - 1, o); }
  }

  /** In other lists options are missed: after a beginning of an option, after a tab, after an underscore, and before a
      tab. */
  lemma MissedOptions()
    ensures var k := Element([], "k", []);
            var close := Element([], "close", []);
            var es := [k, close];
            IsList(es) && ListText(es) == "k,close" && !AnyFound(es, 2, CloseChoice)
    ensures var es := [Element([], "a", []), Element("\t", "close", [])];
            IsList(es) && ListText(es) == "a,\tclose" && !AnyFound(es, 2, CloseChoice)
    ensures var es := [Element([], "_", []), Element([], "_", []), Element([], "close", [])];
            IsList(es) && ListText(es) == "_,_,close" && !AnyFound(es, 3, CloseChoice)
    ensures var es := [Element([], "close", "\t"), Element([], "a", [])];
            IsList(es) && ListText(es) == "close\t,a" && !AnyFound(es, 2, CloseChoice)
  {
    SwallowedClose();
    TabBeforeClose();
    UnderscoreBeforeClose();
    TabAfterClose();
  }

  lemma SwallowedClose()
    ensures var es := [Element([], "k", []), Element([], "close", [])];
            IsList(es) && ListText(es) == "k,close" && !AnyFound(es, 2, CloseChoice)
  {
    var a, b := Element([], "k", []), Element([], "close", []);
    var es := [a, b];
    Pair(a, b);
    assert IsStub("k", KeepAliveChoice);
    assert Swallowed(es, 1);
    assert !Found(es, 0, CloseChoice);
    hide Found, IsList, ListText;
  }

  lemma TabBeforeClose()
    ensures var es := [Element([], "a", []), Element("\t", "close", [])];
            IsList(es) && ListText(es) == "a,\tclose" && !AnyFound(es, 2, CloseChoice)
  {
    var a, b := Element([], "a", []), Element("\t", "close", []);
    var es := [a, b];
    Pair(a, b);
    assert !Stunted(a) by { NoStub("a"); }
    assert "\t"[0] == TAB;
    assert Broken(es, 1);
    assert !Found(es, 0, CloseChoice);
    hide Found, IsList, ListText;
  }

  lemma UnderscoreBeforeClose()
    ensures var es := [Element([], "_", []), Element([], "_", []), Element([], "close", [])];
            IsList(es) && ListText(es) == "_,_,close" && !AnyFound(es, 3, CloseChoice)
  {
    var a, c := Element([], "_", []), Element([], "close", []);
    var es := [a, a, c];
    Pair(a, a);
    assert es[..2] == [a, a];
    assert ListText(es) == ListText([a, a]) + ([','] + ElementText(c));
    assert !Stunted(a) by { NoStub("_"); }
    assert !Swallowed(es, 1);
    assert Broken(es, 1) && Broken(es, 2);
    assert !Found(es, 0, CloseChoice);
    hide Found, IsList, ListText;
  }

  lemma TabAfterClose()
    ensures var es := [Element([], "close", "\t"), Element([], "a", [])];
            IsList(es) && ListText(es) == "close\t,a" && !AnyFound(es, 2, CloseChoice)
  {
    var a, b := Element([], "close", "\t"), Element([], "a", []);
    var es := [a, b];
    Pair(a, b);
    assert "\t"[0] != ' ';
    assert !Found(es, 0, CloseChoice);
    assert !Found(es, 1, CloseChoice);
    hide Found, IsList, ListText;
  }

  lemma Pair(a: Element, b: Element)
    ensures ListText([a, b]) == ElementText(a) + ([','] + ElementText(b))
  {
    assert [a, b][..1] == [a];
    hide ElementText;
  }

  lemma NoStub(token: seq<char>)
    requires token == "a" || token == "_"
    ensures forall o: Choice :: !IsStub(token, o)
  {
    forall o: Choice ensures !IsStub(token, o) {
      assert WordOf(o)[0] == 'k' || WordOf(o)[0] == 'c' || WordOf(o)[0] == 'u';
    }
  }

  // ---------- the matcher over one token ----------

  /** The matcher's state after the characters `token` of an element. */
  function Matched(token: seq<char>): HeaderState {
    if Begins(token, "keep-alive") then
      if |token| == 10 then ConnectionKeepAlive else MatchingConnectionKeepAlive
    else if Begins(token, "close") then
      if |token| == 5 then ConnectionClose else MatchingConnectionClose
    else if Begins(token, "upgrade") then
      if |token| == 7 then ConnectionUpgrade else MatchingConnectionUpgrade
    else MatchingConnectionToken
  }

  predicate UnderMatch(h: HeaderState) {
    h == MatchingConnectionKeepAlive || h == MatchingConnectionClose || h == MatchingConnectionUpgrade
  }

  predicate IsOption(h: HeaderState) { h == ConnectionKeepAlive || h == ConnectionClose || h == ConnectionUpgrade }

  predicate Tracks(v: ValueState, token: seq<char>) {
    token != [] && v.headerState == Matched(token) && (UnderMatch(v.headerState) ==> v.index == |token| - 1)
  }

  /** The state after one more character. */
  predicate Follows(w: ValueState, v: ValueState, token: seq<char>) {
    Tracks(w, token) && w.flags == v.flags && w.contentLength == v.contentLength
  }

  lemma Disjoint(token: seq<char>)
    requires token != []
    ensures !(Begins(token, "keep-alive") && Begins(token, "close"))
    ensures !(Begins(token, "keep-alive") && Begins(token, "upgrade"))
    ensures !(Begins(token, "close") && Begins(token, "upgrade"))
  {
    assert Begins(token, "keep-alive") ==> SameLetter(token[0], 'k');
    assert Begins(token, "close") ==> SameLetter(token[0], 'c');
    assert Begins(token, "upgrade") ==> SameLetter(token[0], 'u');
  }

  lemma TcharLower(c: char)
    requires IsTcharCode(c as int)
    ensures IsToken(Lower(c)) <==> c != '_'
  {
    if c as int == 0x5F { assert Lower(c) as int == 0x7F; }
    TokensExact(Lower(c));
    if 0x41 <= c as int <= 0x5E { assert Lower(c) as int == c as int + 32; }
  }

  lemma TcharFacts(c: char)
    requires IsTcharCode(c as int)
    ensures c != ',' && c != ' ' && c != CR && c != LF && c != TAB && IsHeaderChar(c)
    ensures IsToken(Lower(c)) <==> c != '_'
    ensures Lower(c) != ' ' && Lower(c) != TAB
  {
    TcharLower(c);
  }

  /** A further byte of a token, or the blank behind it. */
  lemma TokenStep(v: ValueState, c: char)
    requires c != ','
    ensures v.headerState == MatchingConnectionKeepAlive ==>
              ValueByte(v, c) == Some(v.(index := v.index + 1, headerState := Compared(v, "keep-alive", c)))
    ensures v.headerState == MatchingConnectionClose ==>
              ValueByte(v, c) == Some(v.(index := v.index + 1, headerState := Compared(v, "close", c)))
    ensures v.headerState == MatchingConnectionUpgrade ==>
              ValueByte(v, c) == Some(v.(index := v.index + 1, headerState := Compared(v, "upgrade", c)))
    ensures v.headerState == MatchingConnectionToken ==> ValueByte(v, c) == Some(v)
    ensures IsOption(v.headerState) ==>
              ValueByte(v, c) == Some(if c != ' ' then v.(headerState := MatchingConnectionToken) else v)
  {
    WordSizes();
    LowerNotNul(c);
    hide Lower;
  }

  lemma LowerNotNul(c: char)
    ensures Lower(c) != '\0'
  {}

  /** One more letter of the word `word`. */
  function Compared(v: ValueState, word: string, c: char): HeaderState {
    var i := v.index + 1;
    if i >= |word| || Lower(c) != word[i] then MatchingConnectionToken
    else if i + 1 < |word| then v.headerState
    else match v.headerState
         case MatchingConnectionKeepAlive => ConnectionKeepAlive
         case MatchingConnectionClose => ConnectionClose
         case _ => ConnectionUpgrade
  }

  lemma TokenByte(v: ValueState, token: seq<char>, c: char)
    requires Tracks(v, token) && IsTcharCode(c as int)
    ensures ValueByte(v, c).Some? && Follows(ValueByte(v, c).value, v, token + [c])
  {
    MatchedNext(token, c);
    TcharFacts(c);
    WordSizes();
    TokenStep(v, c);
    hide Begins, Lower, IsToken, IsTcharCode, SameLetter, Matched, ValueByte;
  }

  lemma WordSizes()
    ensures |KEEP_ALIVE| == 10 && |CLOSE| == 5 && |UPGRADE| == 7
    ensures KEEP_ALIVE == "keep-alive" && CLOSE == "close" && UPGRADE == "upgrade"
  {}

  /** What one more character makes of a match. */
  lemma MatchedNext(token: seq<char>, c: char)
    requires token != [] && IsTcharCode(c as int)
    ensures var h, g := Matched(token), Matched(token + [c]);
            && (h == MatchingConnectionKeepAlive ==>
                  |token| < 10 && g == if Lower(c) != KEEP_ALIVE[|token|] then MatchingConnectionToken
                                       else if |token| == 9 then ConnectionKeepAlive else h)
            && (h == MatchingConnectionClose ==>
                  |token| < 5 && g == if Lower(c) != CLOSE[|token|] then MatchingConnectionToken
                                      else if |token| == 4 then ConnectionClose else h)
            && (h == MatchingConnectionUpgrade ==>
                  |token| < 7 && g == if Lower(c) != UPGRADE[|token|] then MatchingConnectionToken
                                      else if |token| == 6 then ConnectionUpgrade else h)
            && (h == MatchingConnectionToken || IsOption(h) ==> g == MatchingConnectionToken)
            && (UnderMatch(h) || h == MatchingConnectionToken || IsOption(h))
  {
    Disjoint(token);
    Disjoint(token + [c]);
    WordSizes();
    BeginsNext(token, c, "keep-alive");
    BeginsNext(token, c, "close");
    BeginsNext(token, c, "upgrade");
    TcharFacts(c);
    if |token| < 10 { LetterNext(c, "keep-alive", |token|); }
    if |token| < 5 { LetterNext(c, "close", |token|); }
    if |token| < 7 { LetterNext(c, "upgrade", |token|); }
    BeginsBounds(token);
    hide Begins, Lower, IsToken, IsTcharCode, SameLetter;
  }

  lemma LetterNext(c: char, word: string, i: nat)
    requires c != CR && i < |word| && (word == "keep-alive" || word == "close" || word == "upgrade")
    ensures Lower(c) == word[i] <==> SameLetter(c, word[i])
  {
    hide Lower, SameLetter;
    LowerLetter(c, word[i]);
  }

  lemma BeginsBounds(token: seq<char>)
    ensures Begins(token, "keep-alive") ==> |token| <= 10
    ensures Begins(token, "close") ==> |token| <= 5
    ensures Begins(token, "upgrade") ==> |token| <= 7
  {}

  lemma {:induction false} TokenRest(v: ValueState, token: seq<char>, n: nat)
    requires 1 <= n <= |token| && IsTokenText(token) && Tracks(v, token[..1])
    ensures ValueFold(v, token[1..n]).Some? && Follows(ValueFold(v, token[1..n]).value, v, token[..n])
  {
    hide Tracks, ValueByte, IsTcharCode, IsHeaderChar;
    if n == 1 {
      assert token[1..1] == [];
    } else {
      TokenRest(v, token, n - 1);
      var w := ValueFold(v, token[1..n - 1]).value;
      assert token[1..n][..n - 2] == token[1..n - 1];
      assert token[..n] == token[..n - 1] + [token[n - 1]];
      TcharFacts(token[n - 1]);
      TokenByte(w, token[..n - 1], token[n - 1]);
    }
  }

  /** The first character, at the front of the value or behind a comma. */
  lemma TokenFirst(c: char, other: HeaderState)
    requires IsTcharCode(c as int)
    ensures var h := ConnectionToken(Lower(c), other);
            if Matched([c]) == MatchingConnectionToken then h == other else h == Matched([c])
    ensures UnderMatch(Matched([c])) || Matched([c]) == MatchingConnectionToken
  {
    TcharFacts(c);
    LowerLetter(c, 'k');
    LowerLetter(c, 'c');
    LowerLetter(c, 'u');
    BeginsNext([], c, "keep-alive");
    BeginsNext([], c, "close");
    BeginsNext([], c, "upgrade");
    assert [] + [c] == [c];
    hide Lower, IsTcharCode;
  }

  // ---------- blanks and commas ----------

  lemma BlankFacts(c: char)
    requires IsBlank(c)
    ensures (c == ' ' || c == TAB) && c != ',' && IsHeaderChar(c)
    ensures c == ' ' ==> Lower(c) == ' ' && !IsToken(Lower(c))
    ensures c == TAB ==> Lower(c) == ')' && !IsToken(Lower(c))
  {}

  /** The state after a whole element, up to its comma or the end. */
  function Ended(e: Element): HeaderState {
    var h := Matched(e.token);
    if e.trail == [] || (IsOption(h) && AllSpaces(e.trail)) then h else MatchingConnectionToken
  }

  lemma WordLetters(token: seq<char>, c: char)
    requires IsBlank(c) && token != [] && UnderMatch(Matched(token))
    ensures Matched(token) == MatchingConnectionKeepAlive ==> |token| < 10 && Lower(c) != KEEP_ALIVE[|token|]
    ensures Matched(token) == MatchingConnectionClose ==> |token| < 5 && Lower(c) != CLOSE[|token|]
    ensures Matched(token) == MatchingConnectionUpgrade ==> |token| < 7 && Lower(c) != UPGRADE[|token|]
    ensures |KEEP_ALIVE| == 10 && |CLOSE| == 5 && |UPGRADE| == 7
  {
    BlankFacts(c);
    assert forall i :: 0 <= i < 10 ==> KEEP_ALIVE[i] != ' ' && KEEP_ALIVE[i] != ')';
    assert forall i :: 0 <= i < 5 ==> CLOSE[i] != ' ' && CLOSE[i] != ')';
    assert forall i :: 0 <= i < 7 ==> UPGRADE[i] != ' ' && UPGRADE[i] != ')';
    hide Begins, Lower;
  }

  /** The first blank behind a token: an option stays one behind a space only. */
  lemma TrailByte(v: ValueState, token: seq<char>, c: char)
    requires Tracks(v, token) && IsBlank(c)
    ensures ValueByte(v, c).Some?
    ensures var w := ValueByte(v, c).value;
            && w.flags == v.flags && w.contentLength == v.contentLength
            && w.headerState == if IsOption(Matched(token)) && c == ' ' then Matched(token) else MatchingConnectionToken
  {
    BlankFacts(c);
    WordSizes();
    if UnderMatch(Matched(token)) { WordLetters(token, c); }
    MatchedKind(token);
    TokenStep(v, c);
    hide Begins, Lower, IsToken, IsBlank, Matched, ValueByte;
  }

  lemma MatchedKind(token: seq<char>)
    ensures var h := Matched(token); UnderMatch(h) || IsOption(h) || h == MatchingConnectionToken
  {
    hide Begins;
  }

  lemma SettledBlank(v: ValueState, c: char)
    requires IsBlank(c) && (v.headerState == MatchingConnectionToken || IsOption(v.headerState))
    ensures ValueByte(v, c) ==
            Some(if v.headerState != MatchingConnectionToken && c != ' '
                 then v.(headerState := MatchingConnectionToken) else v)
  {
    BlankFacts(c);
    hide IsBlank, Lower;
  }

  lemma {:induction false} TrailFold(v: ValueState, e: Element, n: nat)
    requires Tracks(v, e.token) && AllBlank(e.trail) && n <= |e.trail|
    ensures ValueFold(v, e.trail[..n]).Some?
    ensures var w := ValueFold(v, e.trail[..n]).value;
            && w.flags == v.flags && w.contentLength == v.contentLength
            && w.headerState == Ended(e.(trail := e.trail[..n])) && (n == 0 ==> w == v)
  {
    hide Matched, ValueByte, IsHeaderChar, Lower;
    if n == 0 {
      assert e.trail[..0] == [];
    } else {
      TrailFold(v, e, n - 1);
      var w, c := ValueFold(v, e.trail[..n - 1]).value, e.trail[n - 1];
      assert e.trail[..n][..n - 1] == e.trail[..n - 1];
      BlankFacts(c);
      SpacesNext(e.trail, n);
      if n == 1 { TrailByte(v, e.token, c); } else { SettledBlank(w, c); }
    }
  }

  lemma SpacesNext(bs: seq<char>, n: nat)
    requires 0 < n <= |bs|
    ensures AllSpaces(bs[..n]) <==> AllSpaces(bs[..n - 1]) && bs[n - 1] == ' '
  {
    if AllSpaces(bs[..n]) {
      assert forall i :: 0 <= i < n - 1 ==> bs[..n - 1][i] == bs[..n][i];
      assert bs[..n][n - 1] == bs[n - 1];
    }
  }

  /** Bytes other than commas inside an element that has been given up. */
  lemma {:induction false} GivenUp(v: ValueState, bs: seq<char>)
    requires v.headerState == MatchingConnectionToken && AllHeaderChars(bs) && ',' !in bs
    ensures ValueFold(v, bs) == Some(v)
  {
    hide IsHeaderChar;
    if bs != [] {
      GivenUp(v, bs[..|bs| - 1]);
      assert bs[|bs| - 1] in bs;
    }
  }

  lemma ElementChars(e: Element)
    requires IsElement(e)
    ensures AllHeaderChars(ElementText(e)) && ',' !in ElementText(e) && NoLineEnd(ElementText(e))
  {
    hide IsHeaderChar, IsTcharCode, IsBlank;
    forall i | 0 <= i < |ElementText(e)|
      ensures IsHeaderChar(ElementText(e)[i]) && ElementText(e)[i] != ','
              && ElementText(e)[i] != CR && ElementText(e)[i] != LF
    {
      var c := ElementText(e)[i];
      assert c == if i < |e.lead| then e.lead[i]
                  else if i < |e.lead| + |e.token| then e.token[i - |e.lead|]
                  else e.trail[i - |e.lead| - |e.token|];
      if i < |e.lead| || i >= |e.lead| + |e.token| { BlankFacts(c); } else { TcharFacts(c); }
    }
  }

  /** Blanks behind a comma. */
  lemma {:induction false} LeadFold(v: ValueState, lead: seq<char>)
    requires v.headerState == MatchingConnectionTokenStart && AllBlank(lead)
    ensures ValueFold(v, lead) == Some(if TAB in lead then v.(headerState := General) else v)
  {
    hide IsHeaderChar, Lower, IsToken, IsBlank;
    if lead != [] {
      var init, c := lead[..|lead| - 1], lead[|lead| - 1];
      LeadFold(v, init);
      BlankFacts(c);
      assert TAB in lead <==> TAB in init || c == TAB by { assert lead == init + [c]; }
    }
  }

  // ---------- elements ----------

  /** The element that follows a comma. */
  lemma NextElement(v: ValueState, e: Element)
    requires IsElement(e) && v.headerState == MatchingConnectionTokenStart && v.index == 0
    ensures ValueFold(v, ElementText(e)).Some?
    ensures var w := ValueFold(v, ElementText(e)).value;
            && w.flags == v.flags && w.contentLength == v.contentLength
            && w.headerState == (if Breaks(e) then General else Ended(e))
            && (UnderMatch(w.headerState) ==> e.trail == [] && w.index == |e.token| - 1)
  {
    hide ValueFold, ValueByte, IsHeaderChar, AllHeaderChars, Lower, IsBlank, IsTcharCode, ConnectionToken, Matched;
    LeadFold(v, e.lead);
    ElementChars(e);
    ValueFoldAppend(v, e.lead, e.token + e.trail);
    var u := ValueFold(v, e.lead).value;
    RestChars(e);
    if TAB in e.lead {
      ValueFoldGeneral(u, e.token + e.trail);
    } else {
      FirstBehindComma(v, e);
      var rest := e.token[1..] + e.trail;
      assert e.token + e.trail == [e.token[0]] + rest;
      ValueFoldAppend(v, [e.token[0]], rest);
      var x := ValueFold(v, [e.token[0]]).value;
      if e.token[0] == '_' {
        ValueFoldGeneral(x, rest);
      } else {
        TokenAndTrail(x, e);
      }
    }
  }

  lemma RestChars(e: Element)
    requires AllHeaderChars(ElementText(e)) && e.token != []
    ensures AllHeaderChars(e.token + e.trail) && AllHeaderChars(e.token[1..] + e.trail)
  {
    hide IsHeaderChar;
    var k := |e.lead|;
    forall i | 0 <= i < |e.token + e.trail| ensures IsHeaderChar((e.token + e.trail)[i]) {
      assert ElementText(e)[k + i] == (e.token + e.trail)[i];
    }
    assert e.token[1..] + e.trail == (e.token + e.trail)[1..];
  }

  lemma FirstBehindComma(v: ValueState, e: Element)
    requires IsElement(e) && v.headerState == MatchingConnectionTokenStart && v.index == 0
    ensures ValueFold(v, [e.token[0]]).Some?
    ensures var x := ValueFold(v, [e.token[0]]).value;
            && x.flags == v.flags && x.contentLength == v.contentLength
            && if e.token[0] == '_' then x.headerState == General else Tracks(x, e.token[..1])
  {
    var c := e.token[0];
    TcharFacts(c);
    TokenFirst(c, if IsToken(Lower(c)) then MatchingConnectionToken else General);
    assert e.token[..1] == [c] && [c][..0] == [];
    assert '_' as int == 0x5F;
    if c == '_' { NoWord(c); }
    hide Lower, IsToken, IsHeaderChar, IsTcharCode, ConnectionToken, Matched;
  }

  lemma NoWord(c: char)
    requires c == '_'
    ensures Matched([c]) == MatchingConnectionToken
  {
    assert [c][0] == '_';
    assert !SameLetter('_', 'k') && !SameLetter('_', 'c') && !SameLetter('_', 'u');
  }

  /** The rest of an element's token, and what is behind it. */
  lemma TokenAndTrail(x: ValueState, e: Element)
    requires IsElement(e) && Tracks(x, e.token[..1])
    ensures ValueFold(x, e.token[1..] + e.trail).Some?
    ensures var w := ValueFold(x, e.token[1..] + e.trail).value;
            && w.flags == x.flags && w.contentLength == x.contentLength && w.headerState == Ended(e)
            && (UnderMatch(w.headerState) ==> e.trail == [] && w.index == |e.token| - 1)
  {
    hide ValueFold, ValueByte, IsHeaderChar, AllHeaderChars, Lower, IsBlank, IsTcharCode, Matched;
    TokenRest(x, e.token, |e.token|);
    assert e.token[1..|e.token|] == e.token[1..] && e.token[..|e.token|] == e.token;
    ValueFoldAppend(x, e.token[1..], e.trail);
    var w := ValueFold(x, e.token[1..]).value;
    TrailFold(w, e, |e.trail|);
    assert e.trail[..|e.trail|] == e.trail;
  }

  /** A comma: an option counts, the beginning of one takes it for a letter. */
  lemma CommaByte(v: ValueState, token: seq<char>)
    requires v.headerState == MatchingConnectionToken || IsOption(v.headerState) || v.headerState == General
             || (UnderMatch(v.headerState) && Tracks(v, token))
    ensures ValueByte(v, ',') ==
            Some(if v.headerState == General then v
                 else if UnderMatch(v.headerState) then v.(headerState := MatchingConnectionToken, index := v.index + 1)
                 else v.(headerState := MatchingConnectionTokenStart, index := 0,
                         flags := FinishValue(v.flags, v.headerState)))
  {
    if UnderMatch(v.headerState) { CommaIsNoLetter(token); }
    assert Lower(',') == ',';
    hide Begins;
  }

  lemma CommaIsNoLetter(token: seq<char>)
    requires token != [] && UnderMatch(Matched(token))
    ensures Matched(token) == MatchingConnectionKeepAlive ==> |token| < 10 && KEEP_ALIVE[|token|] != ','
    ensures Matched(token) == MatchingConnectionClose ==> |token| < 5 && CLOSE[|token|] != ','
    ensures Matched(token) == MatchingConnectionUpgrade ==> |token| < 7 && UPGRADE[|token|] != ','
    ensures |KEEP_ALIVE| == 10 && |CLOSE| == 5 && |UPGRADE| == 7
  {
    assert forall i :: 0 <= i < 10 ==> KEEP_ALIVE[i] != ',';
    assert forall i :: 0 <= i < 5 ==> CLOSE[i] != ',';
    assert forall i :: 0 <= i < 7 ==> UPGRADE[i] != ',';
    hide Begins;
  }

  // ---------- whole lists ----------

  /** The matcher's state after element `i`. */
  function StateAfter(es: seq<Element>, i: nat): HeaderState
    requires i < |es| && IsList(es)
  {
    if Broken(es, i) then General else if Swallowed(es, i) then MatchingConnectionToken else Ended(es[i])
  }

  /** The matcher has read elements up to `i`; the options before it are noted. */
  predicate ReadUpTo(w: ValueState, f: Flags, length: int, es: seq<Element>, i: nat)
    requires i < |es| && IsList(es)
  {
    && w.headerState == StateAfter(es, i) && w.flags == FlagsUpTo(f, es, i) && w.contentLength == length
    && (UnderMatch(w.headerState) ==> Tracks(w, es[i].token))
  }

  lemma EndedIs(e: Element)
    requires IsElement(e)
    ensures Ended(e) == ConnectionKeepAlive <==> Spells(e.token, "keep-alive") && AllSpaces(e.trail)
    ensures Ended(e) == ConnectionClose <==> Spells(e.token, "close") && AllSpaces(e.trail)
    ensures Ended(e) == ConnectionUpgrade <==> Spells(e.token, "upgrade") && AllSpaces(e.trail)
    ensures UnderMatch(Ended(e)) <==> Stunted(e)
    ensures Ended(e) == MatchingConnectionToken || IsOption(Ended(e)) || UnderMatch(Ended(e))
  {
    Disjoint(e.token);
    StubIs(e.token);
    hide IsTcharCode, IsBlank;
  }

  lemma StubIs(token: seq<char>)
    requires token != []
    ensures (exists o: Choice :: IsStub(token, o)) <==> UnderMatch(Matched(token))
  {
    Disjoint(token);
    if UnderMatch(Matched(token)) {
      var o := if Begins(token, "keep-alive") then KeepAliveChoice else if Begins(token, "close") then CloseChoice
               else UpgradeChoice;
      assert IsStub(token, o);
    }
    hide Begins;
  }

  /** What an element leaves counts when a comma or the end of the value follows. */
  lemma Counted(f: Flags, es: seq<Element>, i: nat)
    requires i < |es| && IsList(es)
    ensures FinishValue(f, StateAfter(es, i)) == SetFlag(f, es, i)
  {
    LeftOptions(es, i);
    hide StateAfter, Found, IsList;
  }

  /** The options that the matcher holds behind an element. */
  lemma LeftOptions(es: seq<Element>, i: nat)
    requires i < |es| && IsList(es)
    ensures var h := StateAfter(es, i);
            && (h == ConnectionKeepAlive <==> Found(es, i, KeepAliveChoice))
            && (h == ConnectionClose <==> Found(es, i, CloseChoice))
            && (h == ConnectionUpgrade <==> Found(es, i, UpgradeChoice))
            && h != TransferEncodingChunked
  {
    EndedIs(es[i]);
    hide Spells, Matched, Ended, Swallowed, Broken, IsElement, AllSpaces;
  }

  /** The element behind a comma, in whatever state the matcher is. */
  lemma ElementStep(w: ValueState, f: Flags, length: int, es: seq<Element>, i: nat)
    requires i + 1 < |es| && IsList(es) && ReadUpTo(w, f, length, es, i)
    ensures ValueFold(w, [','] + ElementText(es[i + 1])).Some?
    ensures ReadUpTo(ValueFold(w, [','] + ElementText(es[i + 1])).value, f, length, es, i + 1)
  {
    hide ValueFold, ValueByte, Matched, Ended, AllHeaderChars, IsElement, Breaks, Stunted, SetFlag, FinishValue;
    var e := es[i + 1];
    EndedIs(es[i]);
    Counted(FlagsUpTo(f, es, i), es, i);
    CommaByte(w, es[i].token);
    CommaFold(w);
    ValueFoldAppend(w, [','], ElementText(e));
    var u := ValueByte(w, ',').value;
    ElementChars(e);
    if u.headerState == General {
      ValueFoldGeneral(u, ElementText(e));
      assert Broken(es, i + 1);
    } else if u.headerState == MatchingConnectionToken {
      GivenUp(u, ElementText(e));
      assert Swallowed(es, i + 1);
    } else {
      NextElement(u, e);
      EndedTracks(e);
      assert !Swallowed(es, i + 1);
    }
    NothingFound(f, es, i);
  }

  lemma CommaFold(w: ValueState)
    ensures ValueFold(w, [',']) == ValueByte(w, ',')
  {
    assert [','][..0] == [];
    hide ValueByte;
  }

  /** An element that leaves no option changes no flag. */
  lemma NothingFound(f: Flags, es: seq<Element>, i: nat)
    requires i < |es| && IsList(es)
    ensures !IsOption(StateAfter(es, i)) ==> FlagsUpTo(f, es, i + 1) == FlagsUpTo(f, es, i)
  {
    Counted(FlagsUpTo(f, es, i), es, i);
    hide StateAfter, SetFlag, IsList;
  }

  /** The matcher at the first byte of a Connection value. */
  function AtFirst(f: Flags, length: int, c: char): ValueState {
    ValueState(ConnectionToken(Lower(c), MatchingConnectionToken), 0, f, length)
  }

  /** The matcher over a value, its first byte included. */
  function WholeFold(f: Flags, length: int, bs: seq<char>): Option<ValueState>
    requires bs != []
  {
    ValueFold(AtFirst(f, length, bs[0]), bs[1..])
  }

  lemma WholeAppend(f: Flags, length: int, a: seq<char>, b: seq<char>)
    requires a != []
    ensures WholeFold(f, length, a + b) ==
            match WholeFold(f, length, a) case None => None case Some(w) => ValueFold(w, b)
  {
    hide ValueFold;
    assert (a + b)[1..] == a[1..] + b;
    ValueFoldAppend(AtFirst(f, length, a[0]), a[1..], b);
  }

  lemma FirstElement(f: Flags, length: int, es: seq<Element>)
    requires IsList(es)
    ensures ElementText(es[0]) != [] && WholeFold(f, length, ElementText(es[0])).Some?
    ensures ReadUpTo(WholeFold(f, length, ElementText(es[0])).value, f, length, es, 0)
  {
    hide ValueFold, IsTcharCode, Matched, ConnectionToken, Lower;
    var e := es[0];
    var bs := ElementText(e);
    assert bs == e.token + e.trail && bs[1..] == e.token[1..] + e.trail;
    TokenFirst(e.token[0], MatchingConnectionToken);
    assert e.token[..1] == [e.token[0]];
    TokenAndTrail(AtFirst(f, length, bs[0]), e);
    EndedTracks(e);
  }

  lemma EndedTracks(e: Element)
    ensures e.trail == [] ==> Ended(e) == Matched(e.token)
  {}

  lemma {:induction false} ListFold(f: Flags, length: int, es: seq<Element>, n: nat)
    requires IsList(es) && 1 <= n <= |es|
    ensures ListText(es[..n]) != [] && WholeFold(f, length, ListText(es[..n])).Some?
    ensures ReadUpTo(WholeFold(f, length, ListText(es[..n])).value, f, length, es, n - 1)
  {
    hide WholeFold, ValueFold, ReadUpTo, ElementText, IsElement;
    if n == 1 {
      assert es[..1] == [es[0]];
      FirstElement(f, length, es);
    } else {
      ListFold(f, length, es, n - 1);
      assert es[..n][..n - 1] == es[..n - 1];
      var w := WholeFold(f, length, ListText(es[..n - 1])).value;
      ElementStep(w, f, length, es, n - 2);
      WholeAppend(f, length, ListText(es[..n - 1]), [','] + ElementText(es[n - 1]));
    }
  }

  lemma {:induction false} ListChars(es: seq<Element>, n: nat)
    requires IsList(es) && n <= |es|
    ensures AllHeaderChars(ListText(es[..n])) && NoLineEnd(ListText(es[..n]))
    ensures n > 0 ==> ListText(es[..n]) != [] && ListText(es[..n])[0] == es[0].token[0]
  {
    hide IsHeaderChar, IsElement;
    if n > 0 {
      assert es[..n][..n - 1] == es[..n - 1];
      ListChars(es, n - 1);
      ElementChars(es[n - 1]);
      CommaChar();
      if n == 1 {
        assert es[..1] == [es[0]];
        assert es[0].token != [] by { FirstToken(es); }
      }
    }
  }

  lemma FirstToken(es: seq<Element>)
    requires IsList(es)
    ensures es[0].token != [] && es[0].lead == []
  {}

  lemma CommaChar()
    ensures IsHeaderChar(',') && ',' != CR && ',' != LF
  {}

  lemma ListIsValue(es: seq<Element>)
    requires IsList(es)
    ensures ListText(es) != [] && IsValue(ListText(es))
  {
    hide ListText, IsHeaderChar;
    assert es[..|es|] == es;
    ListChars(es, |es|);
    TcharFacts(es[0].token[0]);
  }

  // ---------- header lines ----------

  predicate IsConnectionName(k: seq<char>) { IsName(k) && (Spells(k, "connection") || Spells(k, "proxy-connection")) }

  lemma ConnectionFirst(p: Parser, ch: char)
    requires p.headerState == Connection
    ensures FirstValueByte(p, ch) ==
            Consumed(p.(state := HeaderValue, index := 0,
                        headerState := ConnectionToken(Lower(ch), MatchingConnectionToken)),
                     Some(Data(ValueData, [ch])))
  {
    hide Lower, ConnectionToken;
  }

  lemma ConnectionValue(max: nat, a: Config, es: seq<Element>) returns (d: Config)
    requires a.p.state == HeaderValueDiscardWs && a.p.headerState == Connection
    requires IsList(es) && a.p.nread + |ListText(es)| + 3 <= max
    ensures RunOn(max, Going(a), [' '] + (ListText(es) + CRLF)) == Going(d) && AtLine(d)
    ensures d.n == a.n + |ListText(es)| + 3 && Settle(d).t == Push(a.t, Data(ValueData, ListText(es)))
    ensures SameBut(Settle(d).p, a.p.(state := HeaderFieldStart, flags := FlagsUpTo(a.p.flags, es, |es|)),
                    a.p.nread + |ListText(es)| + 3)
  {
    hide RunOn, Push, ValueFold, FirstValueByte, IsValue, IsElement, FinishValue, AfterValue, Settle, AtLine, ListText,
      ConnectionToken, Lower, StateAfter, SetFlag;
    var v := ListText(es);
    ListIsValue(es);
    var b := a.p.(nread := a.p.nread + 2);
    ConnectionFirst(b, v[0]);
    var q := FirstValueByte(b, v[0]).p;
    assert es[..|es|] == es;
    ListFold(a.p.flags, a.p.contentLength, es, |es|);
    var w := WholeFold(a.p.flags, a.p.contentLength, v).value;
    ValueLineRun(max, a, v, q, w);
    d := AfterValue(a, q, w, v);
    ValueSettled(a, q, w, v);
    Counted(w.flags, es, |es| - 1);
  }

  /** A Connection or Proxy-Connection line with a list sets exactly the flags of the options found in it. */
  lemma ConnectionLine(max: nat, c: Config, k: seq<char>, es: seq<Element>) returns (d: Config)
    requires AtLine(c) && IsConnectionName(k) && IsList(es) && c.p.nread + |FieldLine(k, ListText(es))| <= max
    ensures RunOn(max, Going(c), FieldLine(k, ListText(es))) == Going(d) && AtLine(d)
    ensures Settle(d).t == Push(Push(Settle(c).t, Data(FieldData, k)), Data(ValueData, ListText(es)))
    ensures SameBut(Settle(d).p, Settle(c).p.(flags := FlagsUpTo(Settle(c).p.flags, es, |es|)),
                    c.p.nread + |FieldLine(k, ListText(es))|)
    ensures d.n == c.n + |FieldLine(k, ListText(es))|
  {
    hide RunOn, Settle, AllTokens, NameState, Push, AtLine, ListText, IsList, FlagsUpTo, Spells;
    LineStarts(max, c, k, ListText(es));
    SettleKeeps(c);
    NamesLiterally(k);
    d := ConnectionValue(max, AfterName(Settle(c), k), es);
  }

  lemma UpgradeFirst(p: Parser, ch: char)
    requires p.headerState == Upgrade
    ensures FirstValueByte(p, ch) ==
            Consumed(p.(state := HeaderValue, index := 0, headerState := General,
                        flags := p.flags.(upgrade := true)),
                     Some(Data(ValueData, [ch])))
  {}

  lemma UpgradeValue(max: nat, a: Config, v: seq<char>) returns (d: Config)
    requires a.p.state == HeaderValueDiscardWs && a.p.headerState == Upgrade
    requires v != [] && IsValue(v) && a.p.nread + |v| + 3 <= max
    ensures RunOn(max, Going(a), [' '] + (v + CRLF)) == Going(d) && AtLine(d) && d.n == a.n + |v| + 3
    ensures Settle(d).t == Push(a.t, Data(ValueData, v))
    ensures SameBut(Settle(d).p, a.p.(state := HeaderFieldStart, flags := a.p.flags.(upgrade := true)),
                    a.p.nread + |v| + 3)
  {
    hide RunOn, Push, ValueFold, FirstValueByte, IsValue, FinishValue, AfterValue, Settle, AtLine;
    var b := a.p.(nread := a.p.nread + 2);
    UpgradeFirst(b, v[0]);
    var q := FirstValueByte(b, v[0]).p;
    GeneralRest(ValueOf(q), v);
    ValueLineRun(max, a, v, q, ValueOf(q));
    d := AfterValue(a, q, ValueOf(q), v);
    ValueSettled(a, q, ValueOf(q), v);
    PlainFlags(q.flags);
  }

  /** An Upgrade line with a value sets the upgrade flag. */
  lemma UpgradeLine(max: nat, c: Config, k: seq<char>, v: seq<char>) returns (d: Config)
    requires AtLine(c) && IsName(k) && Spells(k, "upgrade") && v != [] && IsValue(v)
    requires c.p.nread + |FieldLine(k, v)| <= max
    ensures RunOn(max, Going(c), FieldLine(k, v)) == Going(d) && AtLine(d)
    ensures Settle(d).t == Push(Push(Settle(c).t, Data(FieldData, k)), Data(ValueData, v))
    ensures SameBut(Settle(d).p, Settle(c).p.(flags := Settle(c).p.flags.(upgrade := true)),
                    c.p.nread + |FieldLine(k, v)|)
    ensures d.n == c.n + |FieldLine(k, v)|
  {
    hide RunOn, Settle, AllTokens, NameState, Push, AtLine, Spells, IsValue;
    LineStarts(max, c, k, v);
    SettleKeeps(c);
    NamesLiterally(k);
    d := UpgradeValue(max, AfterName(Settle(c), k), v);
  }
}
