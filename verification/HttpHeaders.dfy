/** Whole header sections: what a list of header lines tells the parser, and when it is refused. */
module HttpHeaders {
  import opened Options
  import opened HttpTypes
  import opened HttpAutomaton
  import opened HttpBulk
  import opened HttpText
  import opened HttpNames
  import opened HttpFields
  import opened HttpConnection
  import opened HttpFraming

  // ---------- lines ----------

  /** A header line by what it is about: nothing the parser looks at, Connection options, Upgrade, Content-Length or
      Transfer-Encoding. */
  datatype Line =
    | Plain(name: seq<char>, text: seq<char>)
    | Options(name: seq<char>, options: seq<Element>)
    | Protocol(name: seq<char>, text: seq<char>)
    | Length(name: seq<char>, digits: seq<char>)
    | Coding(name: seq<char>, text: seq<char>)

  predicate IsPlainName(k: seq<char>) {
    && IsName(k) && !Spells(k, "connection") && !Spells(k, "proxy-connection") && !Spells(k, "content-length")
    && !Spells(k, "transfer-encoding") && !Spells(k, "upgrade")
  }

  predicate IsLine(l: Line) {
    match l
    case Plain(k, v) => IsPlainName(k) && IsValue(v)
    case Options(k, es) => IsConnectionName(k) && IsList(es)
    case Protocol(k, v) => IsName(k) && Spells(k, "upgrade") && v != [] && IsValue(v)
    case Length(k, ds) => IsName(k) && Spells(k, "content-length") && ds != [] && AllDigits(ds)
    case Coding(k, v) => IsName(k) && Spells(k, "transfer-encoding") && IsValue(v)
  }

  function ValueText(l: Line): seq<char> {
    match l case Options(_, es) => ListText(es) case Length(_, ds) => ds case _ => l.text
  }

  function LineText(l: Line): seq<char> { FieldLine(l.name, ValueText(l)) }

  /** What a line tells the parser; None when it is refused: a second Content-Length, or one that is too large. */
  function Told(p: Parser, l: Line): Option<Parser> {
    match l
    case Plain(_, _) => Some(p)
    case Options(_, es) => if IsList(es) then Some(p.(flags := FlagsUpTo(p.flags, es, |es|))) else None
    case Protocol(_, _) => Some(p.(flags := p.flags.(upgrade := true)))
    case Length(_, ds) =>
      if p.flags.contentLength || DecValue(ds) > MAX_CONTENT_LENGTH then None
      else Some(p.(flags := p.flags.(contentLength := true), contentLength := DecValue(ds)))
    case Coding(_, v) => Some(Coded(p, v))
  }

  function LinesText(ls: seq<Line>): seq<char> {
    if ls == [] then [] else LinesText(ls[..|ls| - 1]) + LineText(ls[|ls| - 1])
  }

  function ToldAll(p: Parser, ls: seq<Line>): Option<Parser> {
    if ls == [] then Some(p)
    else
      match ToldAll(p, ls[..|ls| - 1])
      case None => None
      case Some(q) => Told(q, ls[|ls| - 1])
  }

  /** The callbacks of a list of lines. */
  function LinesTrace(t: seq<Event>, ls: seq<Line>): seq<Event> {
    if ls == [] then t
    else
      var l := ls[|ls| - 1];
      Push(Push(LinesTrace(t, ls[..|ls| - 1]), Data(FieldData, l.name)), Data(ValueData, ValueText(l)))
  }

  // ---------- refused lengths ----------

  /** A Content-Length that is not the first, or too large, is refused. */
  lemma LengthRefused(max: nat, c: Config, k: seq<char>, ds: seq<char>)
    requires AtLine(c) && IsName(k) && Spells(k, "content-length") && ds != [] && AllDigits(ds)
    requires Settle(c).p.flags.contentLength || DecValue(ds) > MAX_CONTENT_LENGTH
    requires c.p.nread + |FieldLine(k, ds)| <= max
    ensures RunOn(max, Going(c), FieldLine(k, ds)) == Failed
  {
    hide RunOn, Settle, AllTokens, NameState, Push, AtLine, Spells, DecValue, AllDigits;
    LineStarts(max, c, k, ds);
    SettleKeeps(c);
    NamesLiterally(k);
    ValueRefused(max, AfterName(Settle(c), k), ds);
  }

  lemma ValueRefused(max: nat, a: Config, ds: seq<char>)
    requires a.p.state == HeaderValueDiscardWs && a.p.headerState == ContentLength && a.p.nread + |ds| + 3 <= max
    requires ds != [] && AllDigits(ds) && (a.p.flags.contentLength || DecValue(ds) > MAX_CONTENT_LENGTH)
    ensures RunOn(max, Going(a), [' '] + (ds + CRLF)) == Failed
  {
    hide RunOn, Step, Push, DecValue, AllDigits, IsValue, FirstValueByte;
    DigitsAreValue(ds);
    var c1 := Config(a.p.(nread := a.p.nread + 1), a.t, a.n + 1);
    CountedStep(max, a, ' ');
    BlankSkipped(c1.p, a.t, a.n);
    Run2(max, a, c1, ' ', ds + CRLF);
    assert ds + CRLF == [ds[0]] + (ds[1..] + CRLF);
    CountedStep(max, c1, ds[0]);
    FirstDigitOf(ds);
    if a.p.flags.contentLength {
      SecondLength(c1.p.(nread := a.p.nread + 2), a.t, a.n + 1, ds[0]);
      RunAppend(max, Going(c1), [ds[0]], ds[1..] + CRLF);
      RunOne(max, c1, ds[0]);
      RunStopped(max, Failed, ds[1..] + CRLF);
    } else {
      LargeLength(max, c1, ds);
    }
  }

  lemma FirstDigitOf(ds: seq<char>)
    requires ds != [] && AllDigits(ds)
    ensures IsNum(ds[0]) && ds[0] != ' ' && ds[0] != TAB && ds[0] != CR && ds[0] != LF
  {}

  lemma SecondLength(p: Parser, t: seq<Event>, n: nat, ch: char)
    requires p.state == HeaderValueDiscardWs && p.headerState == ContentLength && p.flags.contentLength && IsNum(ch)
    ensures Finish(p, t, n, ch) == Failed
  {
    assert Pass(p, ch) == FirstValueByte(p, ch);
  }

  lemma LargeLength(max: nat, c: Config, ds: seq<char>)
    requires c.p.state == HeaderValueDiscardWs && c.p.headerState == ContentLength && !c.p.flags.contentLength
    requires ds != [] && AllDigits(ds) && DecValue(ds) > MAX_CONTENT_LENGTH && c.p.nread + |ds| + 2 <= max
    ensures RunOn(max, Going(c), [ds[0]] + (ds[1..] + CRLF)) == Failed
  {
    hide RunOn, Step, Push, DecValue, AllDigits, FirstValueByte, ValueFold, Finish;
    FirstDigitOf(ds);
    SeveralDigits(ds);
    var p := c.p.(nread := c.p.nread + 1);
    CountedStep(max, c, ds[0]);
    LengthFirst(p, ds[0]);
    ValueFirst(p, c.t, c.n, ds[0]);
    var q := FirstValueByte(p, ds[0]).p;
    var d := Config(q, Push(c.t, Data(ValueData, [ds[0]])), c.n + 1);
    Run2(max, c, d, ds[0], ds[1..] + CRLF);
    var bs := ds[1..];
    ContentLengthExact(ValueOf(q), ds);
    CountedStep(max, d, bs[0]);
    RunOne(max, d, bs[0]);
    assert bs == [bs[0]] + bs[1..];
    RunAppend(max, Going(d), [bs[0]], bs[1..]);
    DigitsAreValue(ds);
    assert NoLineEnd(bs);
    ValueRun(max, q.(nread := q.nread + 1), d.t, d.n, bs);
    RunAppend(max, Going(d), bs, CRLF);
    RunStopped(max, Failed, CRLF);
  }

  lemma SeveralDigits(ds: seq<char>)
    requires ds != [] && AllDigits(ds) && DecValue(ds) > MAX_CONTENT_LENGTH
    ensures |ds| > 1
  {
    OneDigit(ds);
    hide DecValue;
  }

  lemma OneDigit(ds: seq<char>)
    requires AllDigits(ds)
    ensures |ds| == 1 ==> DecValue(ds) <= 9
  {
    if |ds| == 1 { assert DecValue(ds) == DecValue(ds[..0]) * 10 + Digit(ds[0]) && ds[..0] == []; }
  }

  // ---------- runs ----------

  lemma PlainNameIs(k: seq<char>)
    requires IsPlainName(k)
    ensures IsName(k) && NameClass(LowerName(k)) == General
  {
    ClassesLiterally(k);
    hide Spells, LowerName;
  }

  lemma ClassIs(k: seq<char>)
    ensures Spells(k, "content-length") ==> NameClass(LowerName(k)) == ContentLength
    ensures Spells(k, "transfer-encoding") ==> NameClass(LowerName(k)) == TransferEncoding
  {
    ClassesLiterally(k);
    hide Spells, LowerName;
  }

  /** One line does what `Told` says, and is delivered as it stands. */
  lemma LineRun(max: nat, c: Config, l: Line) returns (d: Config)
    requires AtLine(c) && IsLine(l) && c.p.nread + |LineText(l)| <= max
    ensures Told(Settle(c).p, l) == None ==> RunOn(max, Going(c), LineText(l)) == Failed
    ensures Told(Settle(c).p, l).Some? ==>
              && RunOn(max, Going(c), LineText(l)) == Going(d) && AtLine(d) && d.n == c.n + |LineText(l)|
              && Settle(d).t == Push(Push(Settle(c).t, Data(FieldData, l.name)), Data(ValueData, ValueText(l)))
              && SameBut(Settle(d).p, Told(Settle(c).p, l).value, c.p.nread + |LineText(l)|)
  {
    hide RunOn, Settle, AtLine, Push, IsName, IsValue, IsList, Spells, DecValue, AllDigits, FieldLine, ListText,
      FlagsUpTo,
      IsChunkedCoding;
    match l
    case Plain(k, v) =>
      PlainNameIs(k);
      d := PlainLine(max, c, k, v);
    case Options(k, es) => d := ConnectionLine(max, c, k, es);
    case Protocol(k, v) => d := UpgradeLine(max, c, k, v);
    case Length(k, ds) =>
      ClassIs(k);
      if Told(Settle(c).p, l) == None {
        LengthRefused(max, c, k, ds);
        d := c;
      } else {
        d := LengthLine(max, c, k, ds);
      }
    case Coding(k, v) => d := TransferLine(max, c, k, v);
  }

  lemma SameButTold(p: Parser, q: Parser, l: Line, n: nat)
    requires SameBut(p, q, n)
    ensures Told(p, l).Some? <==> Told(q, l).Some?
    ensures Told(p, l).Some? ==>
              forall r, m :: SameBut(r, Told(p, l).value, m) ==> SameBut(r, Told(q, l).value, m)
  {
    hide DecValue, FlagsUpTo, IsList, IsChunkedCoding;
  }

  lemma CountIs(d: Config, q: Parser, nread: nat)
    requires AtLine(d) && SameBut(Settle(d).p, q, nread)
    ensures d.p.nread == nread
  {
    hide FinishValue, Push;
  }

  /** A list of header lines does exactly what `ToldAll` says: it is refused, or delivered as it stands. */
  lemma {:induction false} LinesRun(max: nat, c: Config, ls: seq<Line>) returns (d: Config)
    requires AtLine(c) && c.p.nread + |LinesText(ls)| <= max && forall i :: 0 <= i < |ls| ==> IsLine(ls[i])
    ensures ToldAll(Settle(c).p, ls) == None ==> RunOn(max, Going(c), LinesText(ls)) == Failed
    ensures ToldAll(Settle(c).p, ls).Some? ==>
              && RunOn(max, Going(c), LinesText(ls)) == Going(d) && AtLine(d) && d.n == c.n + |LinesText(ls)|
              && Settle(d).t == LinesTrace(Settle(c).t, ls) && d.p.nread == c.p.nread + |LinesText(ls)|
              && SameBut(Settle(d).p, ToldAll(Settle(c).p, ls).value, c.p.nread + |LinesText(ls)|)
  {
    hide RunOn, Settle, AtLine, Push, IsLine, LineText, Told, SameBut;
    if ls == [] {
      RunNone(max, Going(c));
      SettleKeeps(c);
      SameButSelf(Settle(c).p);
      d := c;
    } else {
      var init, l := ls[..|ls| - 1], ls[|ls| - 1];
      var e := LinesRun(max, c, init);
      RunAppend(max, Going(c), LinesText(init), LineText(l));
      d := e;
      if ToldAll(Settle(c).p, init) == None {
        RunStopped(max, Failed, LineText(l));
      } else {
        SameButTold(Settle(e).p, ToldAll(Settle(c).p, init).value, l, e.p.nread);
        d := LineRun(max, e, l);
        if ToldAll(Settle(c).p, ls).Some? { CountIs(d, ToldAll(Settle(c).p, ls).value, c.p.nread + |LinesText(ls)|); }
      }
    }
  }

  lemma SameButSelf(p: Parser)
    ensures SameBut(p, p, p.nread)
  {}

  // ---------- what the lines say ----------

  predicate HasLength(ls: seq<Line>) { exists i :: 0 <= i < |ls| && ls[i].Length? }

  predicate HasChunked(ls: seq<Line>) { exists i :: 0 <= i < |ls| && ls[i].Coding? && IsChunkedCoding(ls[i].text) }

  predicate HasProtocol(ls: seq<Line>) { exists i :: 0 <= i < |ls| && ls[i].Protocol? }

  /** Some Connection line holds the option where the parser finds it. */
  predicate HasOption(ls: seq<Line>, o: Choice) { exists i :: 0 <= i < |ls| && OffersOption(ls[i], o) }

  predicate OffersOption(l: Line, o: Choice) {
    l.Options? && IsList(l.options) && AnyFound(l.options, |l.options|, o)
  }

  /** An ordinary list offers exactly the options written in it, in any spelling. */
  lemma OrdinaryOffers(l: Line, o: Choice)
    requires IsLine(l) && l.Options? && IsOrdinary(l.options)
    ensures OffersOption(l, o) <==> exists i :: 0 <= i < |l.options| && Spells(l.options[i].token, WordOf(o))
  {
    hide Spells, Found, IsElement, IsConnectionName, IsOrdinary;
    forall i | 0 <= i < |l.options| ensures Found(l.options, i, o) <==> Spells(l.options[i].token, WordOf(o)) {
      OrdinaryFound(l.options, i, o);
    }
  }

  lemma HasLast(ls: seq<Line>)
    requires ls != []
    ensures var init, l := ls[..|ls| - 1], ls[|ls| - 1];
            && (HasLength(ls) <==> HasLength(init) || l.Length?)
            && (HasChunked(ls) <==> HasChunked(init) || (l.Coding? && IsChunkedCoding(l.text)))
            && (HasProtocol(ls) <==> HasProtocol(init) || l.Protocol?)
            && (forall o :: HasOption(ls, o) <==> HasOption(init, o) || OffersOption(l, o))
  {
    hide OffersOption, IsChunkedCoding;
    var init, l := ls[..|ls| - 1], ls[|ls| - 1];
    assert forall i :: 0 <= i < |init| ==> init[i] == ls[i];
    assert ls[|ls| - 1] == l;
  }

  /** Every flag is set exactly when a line says so. */
  predicate FlagsSay(f: Flags, g: Flags, ls: seq<Line>) {
    && (g.contentLength <==> f.contentLength || HasLength(ls))
    && (g.chunked <==> f.chunked || HasChunked(ls))
    && (g.upgrade <==> f.upgrade || HasProtocol(ls))
    && (g.keepAlive <==> f.keepAlive || HasOption(ls, KeepAliveChoice))
    && (g.close <==> f.close || HasOption(ls, CloseChoice))
    && (g.connectionUpgrade <==> f.connectionUpgrade || HasOption(ls, UpgradeChoice))
    && g.trailing == f.trailing && g.skipBody == f.skipBody
  }

  lemma {:induction false} SectionFlags(p: Parser, ls: seq<Line>)
    requires ToldAll(p, ls).Some? && forall i :: 0 <= i < |ls| ==> IsLine(ls[i])
    ensures FlagsSay(p.flags, ToldAll(p, ls).value.flags, ls)
  {
    hide IsLine, HasLength, HasChunked, HasProtocol, HasOption, OffersOption, FlagsUpTo, Told;
    if ls == [] {
      NothingSaid();
    } else {
      var init, l := ls[..|ls| - 1], ls[|ls| - 1];
      SectionFlags(p, init);
      HasLast(ls);
      LineFlags(ToldAll(p, init).value, l);
    }
  }

  lemma NothingSaid()
    ensures !HasLength([]) && !HasChunked([]) && !HasProtocol([]) && forall o :: !HasOption([], o)
  {}

  lemma LineFlags(p: Parser, l: Line)
    requires Told(p, l).Some? && IsLine(l)
    ensures var f, g := p.flags, Told(p, l).value.flags;
            && (g.contentLength <==> f.contentLength || l.Length?)
            && (g.chunked <==> f.chunked || (l.Coding? && IsChunkedCoding(l.text)))
            && (g.upgrade <==> f.upgrade || l.Protocol?)
            && (g.keepAlive <==> f.keepAlive || OffersOption(l, KeepAliveChoice))
            && (g.close <==> f.close || OffersOption(l, CloseChoice))
            && (g.connectionUpgrade <==> f.connectionUpgrade || OffersOption(l, UpgradeChoice))
            && g.trailing == f.trailing && g.skipBody == f.skipBody
  {
    hide IsChunkedCoding, DecValue, AnyFound, FlagsUpTo;
    if l.Options? { FlagsExact(p.flags, l.options, |l.options|); }
  }

  /** What makes a section unacceptable: a length that is too large, two lengths, or a length beside chunks. */
  predicate Unacceptable(ls: seq<Line>) {
    || (exists i :: 0 <= i < |ls| && ls[i].Length? && DecValue(ls[i].digits) > MAX_CONTENT_LENGTH)
    || (exists i, j :: 0 <= i < j < |ls| && ls[i].Length? && ls[j].Length?)
    || (HasLength(ls) && HasChunked(ls))
  }

  predicate LengthsFit(ls: seq<Line>) {
    && (forall i :: 0 <= i < |ls| && ls[i].Length? ==> DecValue(ls[i].digits) <= MAX_CONTENT_LENGTH)
    && (forall i, j :: 0 <= i < j < |ls| && ls[i].Length? ==> !ls[j].Length?)
  }

  lemma LengthsFitLast(ls: seq<Line>)
    requires ls != []
    ensures var init, l := ls[..|ls| - 1], ls[|ls| - 1];
            LengthsFit(ls) <==>
            LengthsFit(init) && (l.Length? ==> !HasLength(init) && DecValue(l.digits) <= MAX_CONTENT_LENGTH)
  {
    hide DecValue;
    var init, l := ls[..|ls| - 1], ls[|ls| - 1];
    assert forall i :: 0 <= i < |init| ==> init[i] == ls[i];
    if LengthsFit(ls) {
      assert ls[|ls| - 1] == l;
    }
  }

  lemma {:induction false} ToldFits(p: Parser, ls: seq<Line>)
    requires !p.flags.contentLength && forall i :: 0 <= i < |ls| ==> IsLine(ls[i])
    ensures ToldAll(p, ls).Some? <==> LengthsFit(ls)
  {
    hide IsLine, HasLength, LengthsFit, FlagsSay, DecValue, FlagsUpTo, IsList, IsChunkedCoding;
    if ls == [] {
      NothingFits();
    } else {
      var init, l := ls[..|ls| - 1], ls[|ls| - 1];
      ToldFits(p, init);
      LengthsFitLast(ls);
      if ToldAll(p, init).Some? {
        SectionFlags(p, init);
        LengthSaid(p, init);
        if l.Options? { OptionsLine(l); }
      }
    }
  }

  lemma NothingFits()
    ensures LengthsFit([])
  {}

  lemma OptionsLine(l: Line)
    requires IsLine(l) && l.Options?
    ensures IsList(l.options)
  {}

  lemma LengthSaid(p: Parser, ls: seq<Line>)
    requires ToldAll(p, ls).Some? && FlagsSay(p.flags, ToldAll(p, ls).value.flags, ls) && !p.flags.contentLength
    ensures ToldAll(p, ls).value.flags.contentLength <==> HasLength(ls)
  {}

  /** A section is refused exactly when it is unacceptable. */
  lemma RefusedExactly(p: Parser, ls: seq<Line>)
    requires Untold(p) && forall i :: 0 <= i < |ls| ==> IsLine(ls[i])
    ensures SectionRefused(p, ls) <==> Unacceptable(ls)
  {
    hide IsLine, HasLength, HasChunked, HasProtocol, HasOption, DecValue;
    ToldFits(p, ls);
    if ToldAll(p, ls).Some? { SectionFlags(p, ls); }
  }

  // ---------- the end of the section ----------

  /** A header section with its blank line. */
  function SectionText(ls: seq<Line>): seq<char> { LinesText(ls) + CRLF }

  /** Nothing has been said about this message yet. */
  predicate Untold(p: Parser) { p.flags == NO_FLAGS && p.contentLength == ULLONG_MAX }

  /** The section is refused: by a line, or because it announces both a length and chunks. */
  predicate SectionRefused(p: Parser, ls: seq<Line>) {
    match ToldAll(p, ls) case None => true case Some(q) => q.flags.chunked && q.flags.contentLength
  }

  lemma BothRefused(max: nat, c: Config)
    requires AtLine(c) && c.p.nread + 2 <= max
    requires var f := Settle(c).p.flags; !f.trailing && f.chunked && f.contentLength
    ensures RunOn(max, Going(c), CRLF) == Failed
  {
    hide RunOn, Settle, AtLine, Finish, Step, Push;
    HeadCr(max, c);
    SettleKeeps(c);
    var d := BeforeLf(c);
    RunOne(max, d, LF);
    EndStep(max, d, LF);
    BothPass(d.p.(nread := d.p.nread + 1), d.t, d.n);
  }

  lemma BothPass(p: Parser, t: seq<Event>, n: nat)
    requires p.state == HeadersAlmostDone && !p.flags.trailing && p.flags.chunked && p.flags.contentLength
    ensures Finish(p, t, n, LF) == Failed
  {
    assert Pass(p, LF) == Fail(UNEXPECTED_CONTENT_LENGTH);
  }

  lemma {:induction false} ToldKeeps(p: Parser, ls: seq<Line>)
    requires ToldAll(p, ls).Some? && 0 <= p.contentLength <= ULLONG_MAX && forall i :: 0 <= i < |ls| ==> IsLine(ls[i])
    ensures var q := ToldAll(p, ls).value;
            && q == p.(flags := q.flags, contentLength := q.contentLength) && 0 <= q.contentLength <= ULLONG_MAX
            && q.flags.trailing == p.flags.trailing && q.flags.skipBody == p.flags.skipBody
            && (p.flags.contentLength ==> q.flags.contentLength)
            && (!q.flags.contentLength ==> q.contentLength == p.contentLength)
  {
    hide IsLine;
    if ls != [] {
      var init, l := ls[..|ls| - 1], ls[|ls| - 1];
      ToldKeeps(p, init);
      ToldOne(ToldAll(p, init).value, l);
    }
  }

  lemma ToldOne(p: Parser, l: Line)
    requires Told(p, l).Some? && IsLine(l)
    ensures var q := Told(p, l).value;
            && q == p.(flags := q.flags, contentLength := q.contentLength)
            && q.flags.trailing == p.flags.trailing && q.flags.skipBody == p.flags.skipBody
            && (q.contentLength == p.contentLength || 0 <= q.contentLength <= MAX_CONTENT_LENGTH)
            && (p.flags.contentLength ==> q.flags.contentLength)
            && (!q.flags.contentLength ==> q.contentLength == p.contentLength)
  {
    hide IsChunkedCoding, DecValue, AllDigits, Found;
    if l.Options? { FlagsExact(p.flags, l.options, |l.options|); }
    if l.Length? { DecValueNonNegative(l.digits); }
  }

  /** A whole header section: refused exactly when `SectionRefused` says so, and otherwise it leads to what section
      3.3.3 of RFC 7230 makes of the lines. */
  lemma SectionRun(max: nat, c: Config, ls: seq<Line>) returns (q: Parser)
    requires AtLine(c) && Untold(Settle(c).p) && forall i :: 0 <= i < |ls| ==> IsLine(ls[i])
    requires c.p.nread + |SectionText(ls)| <= max
    ensures SectionRefused(Settle(c).p, ls) ==> RunOn(max, Going(c), SectionText(ls)) == Failed
    ensures !SectionRefused(Settle(c).p, ls) ==>
              && SameBut(q, ToldAll(Settle(c).p, ls).value, c.p.nread + |LinesText(ls)|)
              && RunOn(max, Going(c), SectionText(ls)) ==
                 AfterHead(q, LinesTrace(Settle(c).t, ls), c.n + |SectionText(ls)|)
              && RunOn(max, Going(c), LinesText(ls) + [CR]).Going?
              && RunOn(max, Going(c), LinesText(ls) + [CR]).c.t == LinesTrace(Settle(c).t, ls)
  {
    hide RunOn, Settle, AtLine, Push, IsLine, LinesText, LinesTrace, AfterHead, ToldAll;
    var d := LinesRun(max, c, ls);
    RunAppend(max, Going(c), LinesText(ls), CRLF);
    RunAppend(max, Going(c), LinesText(ls), [CR]);
    q := Settle(d).p;
    if ToldAll(Settle(c).p, ls) == None {
      RunStopped(max, Failed, CRLF);
    } else {
      ToldKeeps(Settle(c).p, ls);
      HeadCr(max, d);
      if SectionRefused(Settle(c).p, ls) { BothRefused(max, d); } else { HeadEnd(max, d); }
    }
  }
}
