/** Printing a request and parsing it gives the request back. */
module HttpRoundTrip {
  import opened Options
  import opened Sequences
  import opened HttpTypes
  import opened HttpAutomaton
  import opened HttpBulk
  import opened HttpNames
  import opened HttpCharacters
  import opened HttpFields
  import opened HttpMethods
  import opened HttpFraming
  import opened HttpUrl
  import opened HttpUrlLaws
  import opened HttpFormat
  import opened HttpWrapper
  import opened HttpReceive

  // ---------- the request line ----------

  /** The parser after a method name and its space. */
  function AfterMethod(p: Parser, nread: nat): Parser {
    p.(state := ReqSpacesBeforeUrl, index := |NameOf(p.verb)| + 1, nread := nread)
  }

  lemma MethodRun(max: nat, c: Config, m: Method)
    requires c.p.state == StartReq && m != MSEARCH && c.p.nread + |NameOf(m)| + 1 <= max
    ensures var k := |NameOf(m)| + 1;
            RunOn(max, Going(c), NameOf(m) + [' ']) ==
            Going(Config(AfterMethod(Begun(c.p, m), c.p.nread + k), Push(c.t, MessageBegin), c.n + k))
  {
    hide RunOn, Push, NameOf;
    NamesApart(m);
    NameStart(m);
    MethodExact(max, c, NameOf(m), m);
  }

  lemma NameStart(m: Method)
    ensures NameOf(m) != [] && NameOf(m)[0] != CR && NameOf(m)[0] != LF
  {}

  predicate TakesUrl(p: Parser) { InUrl(p.state) || (p.state == ReqSpacesBeforeUrl && p.verb != CONNECT) }

  lemma UrlStep(max: nat, c: Config, ch: char)
    requires TakesUrl(c.p) && ParseUrlChar(c.p.state, ch) != Dead && c.p.nread < max
    ensures var s := ParseUrlChar(c.p.state, ch);
            && InUrl(s)
            && Step(max, c, ch) ==
               Going(Config(c.p.(state := s, nread := c.p.nread + 1), Push(c.t, Data(UrlData, [ch])), c.n + 1))
  {
    hide Push;
    UrlStates(c.p.state, ch);
    UrlNoBlank(c.p.state, ch);
    hide ParseUrlChar;
    var p := c.p.(nread := c.p.nread + 1);
    assert Pass(p, ch) == UrlByte(p, ch);
  }

  lemma UrlNoBlank(s: State, ch: char)
    requires ParseUrlChar(s, ch) != Dead
    ensures ch != ' ' && ch != CR && ch != LF
  {}

  /** A URL is delivered as one run of data; the parser follows the states of the URL loop. */
  lemma {:induction false} UrlRun(max: nat, c: Config, bs: seq<char>)
    requires c.p.state == ReqSpacesBeforeUrl && c.p.verb != CONNECT && bs != []
    requires ScanFrom(ScanStart(false), 0, bs).s != Dead && c.p.nread + |bs| <= max
    ensures var s := ScanFrom(ScanStart(false), 0, bs).s;
            && InUrl(s)
            && RunOn(max, Going(c), bs) ==
               Going(Config(c.p.(state := s, nread := c.p.nread + |bs|), Push(c.t, Data(UrlData, bs)), c.n + |bs|))
  {
    hide RunOn, ScanFrom, Push, ParseUrlChar, InUrl;
    var init, ch := bs[..|bs| - 1], bs[|bs| - 1];
    var s0 := ScanFrom(ScanStart(false), 0, init).s;
    DeadStays(s0, ch);
    ScanState(init, ch);
    assert bs == init + [ch];
    if init == [] {
      EmptyScan(ScanStart(false), 0);
      UrlStep(max, c, ch);
      RunOne(max, c, ch);
    } else {
      UrlRun(max, c, init);
      UrlRunStep(max, c, init, ch, s0);
    }
  }

  /** What `UrlRun` says of the bytes `init` carries over to one byte more. */
  lemma UrlRunStep(max: nat, c: Config, init: seq<char>, ch: char, s0: State)
    requires InUrl(s0) && ParseUrlChar(s0, ch) != Dead && c.p.nread + |init| < max
    requires RunOn(max, Going(c), init) ==
             Going(Config(c.p.(state := s0, nread := c.p.nread + |init|), Push(c.t, Data(UrlData, init)), c.n + |init|))
    ensures var s := ParseUrlChar(s0, ch);
            && InUrl(s)
            && RunOn(max, Going(c), init + [ch]) ==
               Going(Config(c.p.(state := s, nread := c.p.nread + |init| + 1), Push(c.t, Data(UrlData, init + [ch])),
                            c.n + |init| + 1))
  {
    hide RunOn, Push, ParseUrlChar, Step, InUrl;
    var d := Config(c.p.(state := s0, nread := c.p.nread + |init|), Push(c.t, Data(UrlData, init)), c.n + |init|);
    UrlStep(max, d, ch);
    RunAppend(max, Going(c), init, [ch]);
    RunOne(max, d, ch);
    PushMerge(c.t, UrlData, init, [ch]);
  }

  lemma ScanState(init: seq<char>, ch: char)
    ensures ScanFrom(ScanStart(false), 0, init + [ch]).s == ParseUrlChar(ScanFrom(ScanStart(false), 0, init).s, ch)
  {
    hide ParseUrlChar;
    assert (init + [ch])[..|init|] == init;
  }

  /** The states in which a request target may end. */
  predicate TargetEnds(s: State) {
    s in {ReqServer, ReqServerWithAt, ReqPath, ReqQueryStringStart, ReqQueryString, ReqFragmentStart, ReqFragment}
  }

  /** The version of a request, digit by digit. */
  lemma VersionRun(max: nat, c: Config, a: char, b: char)
    requires TargetEnds(c.p.state) && c.p.nread + 11 <= max && IsDigitCode(a as int) && IsDigitCode(b as int)
    ensures RunOn(max, Going(c), " HTTP/" + (([a] + ("." + [b])) + "\r\n")) ==
            Going(Config(c.p.(state := HeaderFieldStart, major := a as int - 0x30, minor := b as int - 0x30,
                              nread := c.p.nread + 11), c.t, c.n + 11))
  {
    hide RunOn, Step, Pass, TargetEnds;
    var d := VersionName(max, c);
    var e := VersionNumber(max, d, a, b);
    LineCrlf(max, e);
    RunAppend(max, Going(c), " HTTP/", ([a] + ("." + [b])) + "\r\n");
    RunAppend(max, Going(d), [a] + ("." + [b]), "\r\n");
  }

  lemma VersionNumber(max: nat, c: Config, a: char, b: char) returns (d: Config)
    requires c.p.state == ReqHttpMajor && c.p.nread + 3 <= max && IsDigitCode(a as int) && IsDigitCode(b as int)
    ensures d == Config(c.p.(state := ReqHttpEnd, major := a as int - 0x30, minor := b as int - 0x30,
                             nread := c.p.nread + 3), c.t, c.n + 3)
    ensures RunOn(max, Going(c), [a] + ("." + [b])) == Going(d)
  {
    hide RunOn, Step, Pass;
    var c1 := Config(c.p.(state := ReqHttpDot, major := a as int - 0x30, nread := c.p.nread + 1), c.t, c.n + 1);
    NumberPass(c.p.(nread := c.p.nread + 1), a);
    Move(max, c, a, c1.p);
    var c2 := Moved(c1, ReqHttpMinor);
    VersionPass(c1.p.(nread := c1.p.nread + 1));
    Move(max, c1, '.', c2.p);
    d := Config(c2.p.(state := ReqHttpEnd, minor := b as int - 0x30, nread := c2.p.nread + 1), c2.t, c2.n + 1);
    NumberPass(c2.p.(nread := c2.p.nread + 1), b);
    Move(max, c2, b, d.p);
    assert "." + [b] == ['.'] + [b];
    Run2(max, c, c1, a, "." + [b]);
    Run2(max, c1, c2, '.', [b]);
    RunOne(max, c2, b);
  }

  lemma NumberPass(p: Parser, a: char)
    requires IsDigitCode(a as int)
    ensures p.state == ReqHttpMajor ==> Pass(p, a) == Consumed(p.(major := a as int - 0x30, state := ReqHttpDot), None)
    ensures p.state == ReqHttpMinor ==> Pass(p, a) == Consumed(p.(minor := a as int - 0x30, state := ReqHttpEnd), None)
  {}

  lemma LineCrlf(max: nat, c: Config)
    requires c.p.state == ReqHttpEnd && c.p.nread + 2 <= max
    ensures RunOn(max, Going(c), "\r\n") ==
            Going(Config(c.p.(state := HeaderFieldStart, nread := c.p.nread + 2), c.t, c.n + 2))
  {
    hide RunOn, Step, Pass;
    var d := Moved(c, ReqLineAlmostDone);
    VersionPass(c.p.(nread := c.p.nread + 1));
    NameMove(max, c, '\r', ReqLineAlmostDone);
    VersionPass(d.p.(nread := d.p.nread + 1));
    NameMove(max, d, '\n', HeaderFieldStart);
    assert "\r\n" == ['\r'] + "\n" && "\n" == ['\n'];
    Run2(max, c, d, '\r', "\n");
    RunOne(max, d, '\n');
  }

  lemma VersionPass(p: Parser)
    ensures p.state == ReqHttpDot ==> Pass(p, '.') == Consumed(p.(state := ReqHttpMinor), None)
    ensures p.state == ReqHttpEnd ==> Pass(p, '\r') == Consumed(p.(state := ReqLineAlmostDone), None)
    ensures p.state == ReqLineAlmostDone ==> Pass(p, '\n') == Consumed(p.(state := HeaderFieldStart), None)
  {}

  lemma NamePass(p: Parser)
    ensures TargetEnds(p.state) ==> Pass(p, ' ') == Consumed(p.(state := ReqHttpStart), None)
    ensures p.state == ReqHttpStart ==> Pass(p, 'H') == Consumed(p.(state := ReqHttpH), None)
    ensures p.state == ReqHttpH ==> Pass(p, 'T') == Consumed(p.(state := ReqHttpHT), None)
    ensures p.state == ReqHttpHT ==> Pass(p, 'T') == Consumed(p.(state := ReqHttpHTT), None)
    ensures p.state == ReqHttpHTT ==> Pass(p, 'P') == Consumed(p.(state := ReqHttpHTTP), None)
    ensures p.state == ReqHttpHTTP ==> Pass(p, '/') == Consumed(p.(state := ReqHttpMajor), None)
  {}

  lemma VersionName(max: nat, c: Config) returns (d: Config)
    requires TargetEnds(c.p.state) && c.p.nread + 6 <= max
    ensures d == Config(c.p.(state := ReqHttpMajor, nread := c.p.nread + 6), c.t, c.n + 6)
    ensures RunOn(max, Going(c), " HTTP/") == Going(d)
  {
    hide RunOn, Step, Pass;
    var c1 := Moved(c, ReqHttpStart);
    var c2 := Moved(c1, ReqHttpH);
    var c3 := Moved(c2, ReqHttpHT);
    var c4 := Moved(c3, ReqHttpHTT);
    var c5 := Moved(c4, ReqHttpHTTP);
    d := Moved(c5, ReqHttpMajor);
    NamePass(c.p.(nread := c.p.nread + 1));
    NameMove(max, c, ' ', ReqHttpStart);
    NamePass(c1.p.(nread := c1.p.nread + 1));
    NameMove(max, c1, 'H', ReqHttpH);
    NamePass(c2.p.(nread := c2.p.nread + 1));
    NameMove(max, c2, 'T', ReqHttpHT);
    NamePass(c3.p.(nread := c3.p.nread + 1));
    NameMove(max, c3, 'T', ReqHttpHTT);
    NamePass(c4.p.(nread := c4.p.nread + 1));
    NameMove(max, c4, 'P', ReqHttpHTTP);
    NamePass(c5.p.(nread := c5.p.nread + 1));
    NameMove(max, c5, '/', ReqHttpMajor);
    assert " HTTP/" == [' '] + "HTTP/" && "HTTP/" == ['H'] + "TTP/" && "TTP/" == ['T'] + "TP/";
    assert "TP/" == ['T'] + "P/" && "P/" == ['P'] + "/" && "/" == ['/'];
    Run2(max, c, c1, ' ', "HTTP/");
    Run2(max, c1, c2, 'H', "TTP/");
    Run2(max, c2, c3, 'T', "TP/");
    Run2(max, c3, c4, 'T', "P/");
    Run2(max, c4, c5, 'P', "/");
    RunOne(max, c5, '/');
  }

  /** A request line with any version. */
  function AnyLine(verb: Method, target: seq<char>, a: char, b: char): seq<char> {
    (NameOf(verb) + [' ']) + (target + (" HTTP/" + (([a] + ("." + [b])) + "\r\n")))
  }

  /** The parser after a request line. */
  function AfterAnyLine(c: Config, verb: Method, target: seq<char>, a: char, b: char): Config {
    var k := |AnyLine(verb, target, a, b)|;
    Config(Begun(c.p, verb).(state := HeaderFieldStart, index := |NameOf(verb)| + 1, major := a as int - 0x30,
                             minor := b as int - 0x30, nread := c.p.nread + k),
           Push(Push(c.t, MessageBegin), Data(UrlData, target)), c.n + k)
  }

  lemma AnyLineRun(max: nat, c: Config, verb: Method, target: seq<char>, a: char, b: char)
    requires c.p.state == StartReq && verb != MSEARCH && verb != CONNECT
             && c.p.nread + |AnyLine(verb, target, a, b)| <= max
    requires target != [] && TargetEnds(ScanFrom(ScanStart(false), 0, target).s)
    requires IsDigitCode(a as int) && IsDigitCode(b as int)
    ensures RunOn(max, Going(c), AnyLine(verb, target, a, b)) == Going(AfterAnyLine(c, verb, target, a, b))
  {
    hide RunOn, Push, NameOf, ScanFrom;
    var m := NameOf(verb) + [' '];
    var version := " HTTP/" + (([a] + ("." + [b])) + "\r\n");
    MethodRun(max, c, verb);
    RunAppend(max, Going(c), m, target + version);
    var d := Config(AfterMethod(Begun(c.p, verb), c.p.nread + |m|), Push(c.t, MessageBegin), c.n + |m|);
    UrlRun(max, d, target);
    RunAppend(max, Going(d), target, version);
    var e := Config(d.p.(state := ScanFrom(ScanStart(false), 0, target).s, nread := d.p.nread + |target|),
                    Push(d.t, Data(UrlData, target)), d.n + |target|);
    VersionRun(max, e, a, b);
  }

  /** The parser after the request line of `r`. */
  function AfterRequestLine(c: Config, r: RequestValue): Config {
    var k := |RequestLine(r)|;
    Config(Begun(c.p, r.verb).(state := HeaderFieldStart, index := |NameOf(r.verb)| + 1, major := 1, minor := 1,
                               nread := c.p.nread + k),
           Push(Push(c.t, MessageBegin), Data(UrlData, Target(r))), c.n + k)
  }

  lemma LineIsAny(r: RequestValue)
    requires Printable(r.verb)
    ensures RequestLine(r) == AnyLine(r.verb, Target(r), '1', '1')
  {
    NamesApart(r.verb);
    hide MethodString, NameOf, Target;
    assert " HTTP/1.1\r\n" == " HTTP/" + ((['1'] + ("." + ['1'])) + "\r\n");
  }

  lemma LineStartsWithWord(r: RequestValue)
    requires Printable(r.verb)
    ensures StartsWithWord(r.verb, RequestLine(r))
  {
    hide Target;
  }

  lemma RequestLineRun(max: nat, c: Config, r: RequestValue)
    requires c.p.state == StartReq && Printable(r.verb) && c.p.nread + |RequestLine(r)| <= max && Target(r) != []
    requires TargetEnds(ScanFrom(ScanStart(false), 0, Target(r)).s)
    ensures RunOn(max, Going(c), RequestLine(r)) == Going(AfterRequestLine(c, r))
    ensures StartsWithWord(r.verb, RequestLine(r))
  {
    LineStartsWithWord(r);
    hide RunOn, ScanFrom, Target, AnyLine, TargetEnds, Push, StartsWithWord, RequestLine, NameOf;
    LineIsAny(r);
    AnyLineRun(max, c, r.verb, Target(r), '1', '1');
  }

  // ---------- the header fields ----------

  /** The parser with the Content-Length of the fields noted. */
  function Noted(p: Parser, fs: seq<Field>, body: seq<char>): Parser {
    if LengthField(body) in fs then p.(flags := p.flags.(contentLength := true), contentLength := |body|) else p
  }

  lemma LengthName()
    ensures IsName("Content-Length") && LowerName("Content-Length") == CONTENT_LENGTH
    ensures NameClass(CONTENT_LENGTH) == ContentLength
  {
    LowerPart("Content-Length", 14);
  }

  function Lowered(k: seq<char>): seq<char> { seq(|k|, i requires 0 <= i < |k| => TokenOf(k[i])) }

  lemma {:induction false} LowerPart(k: seq<char>, n: nat)
    requires n == |k|
    ensures LowerName(k) == Lowered(k)
  {
    if n > 0 { LowerPart(k[..n - 1], n - 1); }
  }

  /** The last of the header lines, and the ones before it. */
  lemma FieldsSplit(t: seq<Event>, fs: seq<Field>)
    requires Sorted(fs)
    ensures fs == [] ==> FieldLines(fs) == [] && FieldTrace(t, fs) == t
    ensures fs != [] ==>
            var init, f := fs[..|fs| - 1], fs[|fs| - 1];
            && Sorted(init) && fs == init + [f] && f !in init
            && FieldLines(fs) == FieldLines(init) + FieldLine(f.name, f.value)
            && FieldTrace(t, fs) == Push(Push(FieldTrace(t, init), Data(FieldData, f.name)), Data(ValueData, f.value))
  {
    hide Push, FieldLine, Less;
    SortedDistinct(fs);
  }

  /** The header lines of a request are delivered as they are, and its Content-Length is noted. */
  lemma {:induction false} FieldsRun(max: nat, c: Config, fs: seq<Field>, body: seq<char>) returns (d: Config)
    requires AtLine(c) && c.p.state == HeaderFieldStart && !c.p.flags.contentLength
    requires Sorted(fs) && |body| <= MAX_CONTENT_LENGTH
    requires forall f :: f in fs ==> IsPlainField(f) || f == LengthField(body)
    requires c.p.nread + |FieldLines(fs)| <= max
    ensures RunOn(max, Going(c), FieldLines(fs)) == Going(d) && AtLine(d)
    ensures Settle(d).t == FieldTrace(c.t, fs) && d.n == c.n + |FieldLines(fs)|
    ensures SameBut(Settle(d).p, Noted(c.p, fs, body), c.p.nread + |FieldLines(fs)|)
  {
    hide RunOn, Push, FieldLine, FieldLines, FieldTrace, IsPlainField, LengthField, Sorted, Settle, SameBut, Noted,
      AtLine;
    FieldsSplit(c.t, fs);
    if fs == [] {
      RunNone(max, Going(c));
      NothingNoted(c, body);
      d := c;
    } else {
      var init := fs[..|fs| - 1];
      var f := fs[|fs| - 1];
      var e := FieldsRun(max, c, init, body);
      RunAppend(max, Going(c), FieldLines(init), FieldLine(f.name, f.value));
      NotedFlag(e, c, init, body, f);
      d := FieldRunOne(max, e, f, body);
      NotedNext(c.p, init, f, body, Settle(e).p, Settle(d).p, e.p.nread, d.p.nread);
    }
  }

  /** One line of a request's head. */
  lemma FieldRunOne(max: nat, e: Config, f: Field, body: seq<char>) returns (d: Config)
    requires AtLine(e) && (IsPlainField(f) || f == LengthField(body)) && |body| <= MAX_CONTENT_LENGTH
    requires f == LengthField(body) ==> !Settle(e).p.flags.contentLength
    requires e.p.nread + |FieldLine(f.name, f.value)| <= max
    ensures RunOn(max, Going(e), FieldLine(f.name, f.value)) == Going(d) && AtLine(d)
    ensures Settle(d).t == Push(Push(Settle(e).t, Data(FieldData, f.name)), Data(ValueData, f.value))
    ensures d.n == e.n + |FieldLine(f.name, f.value)| && d.p.nread == e.p.nread + |FieldLine(f.name, f.value)|
    ensures SameBut(Settle(d).p, if f == LengthField(body) then WithLength(Settle(e).p, |body|) else Settle(e).p,
                    d.p.nread)
  {
    hide RunOn, Push, IsName, IsValue, NameClass, LowerName, FieldLine, IsPlainField, Settle, SameBut, AtLine,
      ToDecimal;
    if f == LengthField(body) {
      d := LengthFieldRun(max, e, f, body);
    } else {
      PlainFieldLine(f);
      d := PlainLine(max, e, f.name, f.value);
    }
    SettleKeeps(d);
    SameButCount(Settle(d).p, if f == LengthField(body) then WithLength(Settle(e).p, |body|) else Settle(e).p,
                 e.p.nread + |FieldLine(f.name, f.value)|);
  }

  function WithLength(p: Parser, n: nat): Parser { p.(flags := p.flags.(contentLength := true), contentLength := n) }

  lemma SameButCount(p: Parser, q: Parser, nread: nat)
    requires SameBut(p, q, nread)
    ensures p.nread == nread
  {}

  lemma NothingNoted(c: Config, body: seq<char>)
    requires c.p.state == HeaderFieldStart
    ensures Settle(c) == c && SameBut(c.p, Noted(c.p, [], body), c.p.nread + |FieldLines([])|)
  {}

  /** The length flag is still clear where the Content-Length comes. */
  lemma NotedFlag(e: Config, c: Config, init: seq<Field>, body: seq<char>, f: Field)
    requires SameBut(Settle(e).p, Noted(c.p, init, body), c.p.nread + |FieldLines(init)|) && AtLine(e)
    requires !c.p.flags.contentLength && f !in init
    ensures f == LengthField(body) ==> !Settle(e).p.flags.contentLength
    ensures e.p.nread == c.p.nread + |FieldLines(init)|
  {
    hide FinishValue, Push, FieldLines, ToDecimal, LengthField;
    SettleKeeps(e);
  }

  lemma NotedNext(p: Parser, init: seq<Field>, f: Field, body: seq<char>, e: Parser, d: Parser, n1: nat, n2: nat)
    requires SameBut(e, Noted(p, init, body), n1) && f !in init && !p.flags.contentLength
    requires SameBut(d, if f == LengthField(body) then WithLength(e, |body|) else e, n2)
    ensures SameBut(d, Noted(p, init + [f], body), n2)
  {
    hide ToDecimal, LengthField;
    assert LengthField(body) in init + [f] <==> LengthField(body) in init || f == LengthField(body);
  }

  /** The line of the Content-Length. */
  lemma LengthFieldRun(max: nat, e: Config, f: Field, body: seq<char>) returns (d: Config)
    requires AtLine(e) && f == LengthField(body) && |body| <= MAX_CONTENT_LENGTH && !Settle(e).p.flags.contentLength
    requires e.p.nread + |FieldLine(f.name, f.value)| <= max
    ensures RunOn(max, Going(e), FieldLine(f.name, f.value)) == Going(d) && AtLine(d)
    ensures Settle(d).t == Push(Push(Settle(e).t, Data(FieldData, f.name)), Data(ValueData, f.value))
    ensures SameBut(Settle(d).p,
                    Settle(e).p.(flags := Settle(e).p.flags.(contentLength := true), contentLength := |body|),
                    e.p.nread + |FieldLine(f.name, f.value)|)
    ensures d.n == e.n + |FieldLine(f.name, f.value)|
  {
    hide RunOn, Push, IsName, NameClass, LowerName, FieldLine, Settle, ToDecimal, DecValue, AllDigits;
    LengthName();
    DecimalRoundTrip(|body|);
    d := LengthLine(max, e, f.name, f.value);
  }

  lemma PlainFieldLine(f: Field)
    requires IsPlainField(f)
    ensures IsName(f.name) && NameClass(LowerName(f.name)) == General && IsValue(f.value)
  {}

  // ---------- the end of the head ----------

  /** Only the Content-Length flag can be set: the headers ask for no other framing. */
  predicate PlainFraming(p: Parser) {
    && p.kind == Request && p.verb != CONNECT
    && (p.flags == NO_FLAGS || p.flags == NO_FLAGS.(contentLength := true))
  }

  /** What the head of a request with plain headers leads to. */
  function AtBody(c: Config, body: seq<char>): Config {
    var q := HeadOver(c.p);
    if body == [] then Config(q.(state := NewMessage(q)), Push(Push(c.t, HeadersComplete), MessageComplete), c.n + 1)
    else Config(q.(state := BodyIdentity), Push(c.t, HeadersComplete), c.n + 1)
  }

  lemma RequestHeadEnd(max: nat, c: Config, body: seq<char>)
    requires c.p.state == HeadersAlmostDone && PlainFraming(c.p) && c.p.nread < max
    requires c.p.contentLength == if c.p.flags.contentLength then |body| else ULLONG_MAX
    requires |body| <= MAX_CONTENT_LENGTH && (body != [] ==> c.p.flags.contentLength)
    ensures RunOn(max, Going(c), [LF]) == Going(AtBody(c, body))
    ensures !AtBody(c, body).p.upgrade
  {
    hide RunOn, Push, NewMessage;
    HeadLfRun(max, c);
  }

  // ---------- a whole request ----------

  /** A URL in origin form without a query of its own, and the query to go with it. */
  function PlainTail(r: RequestValue): Tail { Tail(r.url, if r.query == [] then None else Some(r.query), None) }

  lemma PlainUrl(r: RequestValue)
    requires All(r.url, IsUrlChar) && All(r.query, IsQueryChar)
    requires r.url != [] && (r.url[0] == '/' || r.url[0] == '*')
    ensures Target(r) == TailText(PlainTail(r)) && WellFormed(Origin(PlainTail(r)))
  {}

  /** A request that can be sent: its target is in origin form, with `tail` its path and query, its header fields are
      plain but for the Content-Length of the body, and its head is within the header limit. */
  ghost predicate Sendable(max: nat, r: RequestValue, tail: Tail) {
    && Printable(r.verb) && Sorted(r.fields) && Framed(r.fields, r.body)
    && |r.body| <= MAX_CONTENT_LENGTH && |Head(r)| <= max
    && Target(r) == TailText(tail) && WellFormed(Origin(tail)) && |Target(r)| <= 0xffff
  }

  const START := Config(InitialParser(Request), [], 0)

  /** The trace of a request up to the end of its header fields. */
  function HeadTrace(r: RequestValue): seq<Event> {
    FieldTrace(Push(Push([], MessageBegin), Data(UrlData, Target(r))), r.fields)
  }

  function RequestTrace(r: RequestValue): seq<Event> {
    var t := Push(HeadTrace(r), HeadersComplete);
    Push(if r.body == [] then t else Push(t, Data(BodyData, r.body)), MessageComplete)
  }

  /** The target of a request in origin form is a URL the parser accepts and ends in. */
  lemma OriginTarget(tail: Tail)
    requires WellFormed(Origin(tail)) && |TailText(tail)| <= 0xffff
    ensures TargetEnds(ScanFrom(ScanStart(false), 0, TailText(tail)).s)
  {
    hide ScanFrom, TailText, WellFormedTail, PutTail;
    var sc := ComposedScan(Origin(tail));
    StartGood(false);
    ShortFits(false, TailText(tail));
    ScanRunGood(false, TailText(tail));
    PathPut(tail);
    assert PATH in sc.fields;
    assert Order(PATH) <= Reach(sc.s);
  }

  lemma PathPut(tail: Tail)
    requires tail.path != []
    ensures PATH in PutTail(map[], 0, tail)
  {}

  lemma HeadPieces(max: nat, s: Config, a: Config, b: Config, line: seq<char>, fields: seq<char>)
    requires RunOn(max, Going(s), line) == Going(a) && RunOn(max, Going(a), fields) == Going(b)
    ensures RunOn(max, Going(s), line + fields + [CR]) == RunOn(max, Going(b), [CR])
    ensures RunOn(max, Going(s), line + (fields + CRLF)) == RunOn(max, Going(b), CRLF)
  {
    hide RunOn;
    RunAppend(max, Going(s), line, fields);
    RunAppend(max, Going(s), line + fields, [CR]);
    RunAppend(max, Going(s), line, fields + CRLF);
    RunAppend(max, Going(a), fields, CRLF);
  }

  /** The run over everything but the last byte of the head. */
  lemma HeadRun(max: nat, r: RequestValue, tail: Tail) returns (c: Config)
    requires Sendable(max, r, tail)
    ensures RunOn(max, Going(START), RequestLine(r) + FieldLines(r.fields) + [CR]) == Going(c)
    ensures RunOn(max, Going(START), Head(r)) == RunOn(max, Going(c), [LF])
    ensures c.p.state == HeadersAlmostDone && PlainFraming(c.p) && c.p.nread < max
    ensures c.p.flags.contentLength <==> LengthField(r.body) in r.fields
    ensures c.p.contentLength == if c.p.flags.contentLength then |r.body| else ULLONG_MAX
    ensures c.t == HeadTrace(r) && c.n == |Head(r)| - 1 && c.p.verb == r.verb
  {
    hide RunOn, Push, RequestLine, FieldLines, TailText, Target, FieldTrace, WellFormed, Framed, Sorted, ScanFrom,
      TargetEnds, Settle, SameBut, Noted, PlainFraming, LengthField;
    OriginTarget(tail);
    assert Target(r) != [] by { TailNonEmpty(tail); }
    RequestLineRun(max, START, r);
    var a := AfterRequestLine(START, r);
    FramedMember(r);
    var b := FieldsRun(max, a, r.fields, r.body);
    HeadFacts(a, b, r.fields, r.body, a.p.nread + |FieldLines(r.fields)|);
    HeadCr(max, b);
    c := BeforeLf(b);
    HeadPieces(max, START, a, b, RequestLine(r), FieldLines(r.fields));
  }

  /** What the header lines of a request leave in the parser. */
  lemma HeadFacts(a: Config, b: Config, fs: seq<Field>, body: seq<char>, nread: nat)
    requires AtLine(b) && a.p.state == HeaderFieldStart && SameBut(Settle(b).p, Noted(a.p, fs, body), nread)
    requires a.p.kind == Request && a.p.verb != CONNECT && a.p.flags == NO_FLAGS && a.p.contentLength == ULLONG_MAX
    ensures var c := BeforeLf(b);
            && c.p.state == HeadersAlmostDone && PlainFraming(c.p) && c.p.verb == a.p.verb
            && (c.p.flags.contentLength <==> LengthField(body) in fs)
            && c.p.contentLength == if c.p.flags.contentLength then |body| else ULLONG_MAX
    ensures b.p.nread == nread
  {
    hide LengthField, Settle;
    SettleKeeps(b);
  }

  lemma TailNonEmpty(tail: Tail)
    requires WellFormed(Origin(tail))
    ensures TailText(tail) != []
  {}

  lemma FramedMember(r: RequestValue)
    requires Framed(r.fields, r.body)
    ensures forall f :: f in r.fields ==> IsPlainField(f) || f == LengthField(r.body)
  {}

  /** Parsing a printed request completes exactly at its last byte, with the callbacks of `RequestTrace`. */
  lemma PrintedRun(max: nat, r: RequestValue, tail: Tail) returns (q: Parser)
    requires Sendable(max, r, tail)
    ensures RunOn(max, Going(START), Print(r)) == Going(Config(q, RequestTrace(r), |Print(r)|))
    ensures q.verb == r.verb && !q.upgrade
    ensures RunOn(max, Going(START), Print(r)[..|Print(r)| - 1]).Going?
    ensures Completions(RunOn(max, Going(START), Print(r)[..|Print(r)| - 1]).c.t) == 0
  {
    hide RunOn, Push, RequestLine, FieldLines, Sorted, Completions, NewMessage, HeadTrace, WellFormed, Target,
      TailText;
    var c := HeadRun(max, r, tail);
    RequestHeadEnd(max, c, r.body);
    HeadCompletions(r);
    var d := AtBody(c, r.body);
    if r.body == [] {
      assert Print(r) == Head(r);
      assert Print(r)[..|Print(r)| - 1] == RequestLine(r) + FieldLines(r.fields) + [CR];
      q := d.p;
    } else {
      RunAppend(max, Going(START), Head(r), r.body);
      IdentityBodyDelivered(max, d, r.body);
      q := BodyDone(d.p).(state := NewMessage(BodyDone(d.p)));
      PrintedBody(max, r, d);
    }
  }

  lemma PrintedBody(max: nat, r: RequestValue, d: Config)
    requires RunOn(max, Going(START), Head(r)) == Going(d) && r.body != []
    requires d.p.state == BodyIdentity && d.p.contentLength == |r.body| && Completions(d.t) == 0
    ensures RunOn(max, Going(START), Print(r)[..|Print(r)| - 1]).Going?
    ensures Completions(RunOn(max, Going(START), Print(r)[..|Print(r)| - 1]).c.t) == 0
  {
    hide RunOn, Push, Head, Completions;
    var init := r.body[..|r.body| - 1];
    assert Print(r)[..|Print(r)| - 1] == Head(r) + init;
    RunAppend(max, Going(START), Head(r), init);
    if init == [] {
      RunNone(max, Going(d));
    } else {
      IdentityBodyPending(max, d, init);
      PushReads(d.t, Data(BodyData, init));
    }
  }

  lemma HeadCompletions(r: RequestValue)
    ensures Completions(HeadTrace(r)) == 0 && Completions(Push(HeadTrace(r), HeadersComplete)) == 0
  {
    hide Push;
    PushReads([], MessageBegin);
    PushReads(Push([], MessageBegin), Data(UrlData, Target(r)));
    FieldTraceReads(Push(Push([], MessageBegin), Data(UrlData, Target(r))), r.fields);
    PushReads(HeadTrace(r), HeadersComplete);
  }

  // ---------- the message ----------

  lemma {:induction false} AbsentKey(fs: seq<Field>, k: seq<char>)
    requires forall f :: f in fs ==> f.name != k
    ensures k !in AsMap(fs)
  {
    if fs != [] { AbsentKey(fs[..|fs| - 1], k); }
  }

  /** No name comes twice. */
  ghost predicate Distinct(fs: seq<Field>) { forall i, j :: 0 <= i < j < |fs| ==> fs[i].name != fs[j].name }

  /** The header callbacks add their fields, of names not seen before, to the header map. */
  lemma {:induction false} FieldsReplayed(m: Message, t: seq<Event>, es: seq<Field>, fs: seq<Field>, n: Message)
    returns (o: Message)
    requires Replay(m, t) == Some(n) && n.lastWasValue && n.headValues == AsMap(es) && Distinct(es + fs)
    ensures Replay(m, FieldTrace(t, fs)) == Some(o) && o.lastWasValue
    ensures o == n.(headValues := AsMap(es + fs), currentField := o.currentField)
  {
    hide Push, Replay, Distinct, AsMap;
    if fs == [] {
      assert es + fs == es;
      o := n;
    } else {
      var init := fs[..|fs| - 1];
      var f := fs[|fs| - 1];
      LastDistinct(es, fs);
      var p := FieldsReplayed(m, t, es, init, n);
      var u := FieldTrace(t, init);
      ReplayPush(m, u, Data(FieldData, f.name));
      ReplayPush(m, Push(u, Data(FieldData, f.name)), Data(ValueData, f.value));
      var q := OnData(p, FieldData, f.name);
      assert [] + f.name == f.name && [] + f.value == f.value;
      o := OnData(q, ValueData, f.value);
    }
  }

  lemma LastDistinct(es: seq<Field>, fs: seq<Field>)
    requires Distinct(es + fs) && fs != []
    ensures var init, f := fs[..|fs| - 1], fs[|fs| - 1];
            && Distinct(es + init) && f.name !in AsMap(es + init)
            && AsMap(es + fs) == AsMap(es + init)[f.name := f.value]
  {
    hide AsMap;
    var init, f := fs[..|fs| - 1], fs[|fs| - 1];
    var gs := es + fs;
    assert gs[..|gs| - 1] == es + init && gs[|gs| - 1] == f;
    AbsentKey(es + init, f.name);
    LastEntry(gs);
  }

  lemma LastEntry(fs: seq<Field>)
    requires fs != []
    ensures AsMap(fs) == AsMap(fs[..|fs| - 1])[fs[|fs| - 1].name := fs[|fs| - 1].value]
  {}

  lemma RangeOfTail(tail: Tail)
    requires WellFormed(Origin(tail)) && |TailText(tail)| <= 0xffff
    ensures var m := ParseResult(TailText(tail), false);
            && m.Some? && PATH in m.value.fields
            && RangeOf(TailText(tail), m.value.fields[PATH]) == tail.path
            && (if QUERY in m.value.fields then RangeOf(TailText(tail), m.value.fields[QUERY]) else []) ==
               (if tail.query.Some? then tail.query.value else [])
  {
    hide ParseResult, WellFormedTail;
    ComposedUrl(Origin(tail));
    EmptyValue();
    var text := TailText(tail);
    assert text[..|tail.path|] == tail.path;
    if tail.query.Some? {
      var k := |tail.path| + 1;
      assert text[k..k + |tail.query.value|] == tail.query.value;
    }
  }

  /** The path and query come out of the URL. */
  lemma UrlReplayed(n: Message, tail: Tail)
    requires WellFormed(Origin(tail)) && |TailText(tail)| <= 0xffff && n.url == TailText(tail) && n.query == []
    ensures OnHeadComplete(n) ==
            Some(n.(path := tail.path, query := if tail.query.Some? then tail.query.value else []))
  {
    hide ParseResult, TailText, WellFormed;
    TailNonEmpty(tail);
    RangeOfTail(tail);
  }

  /** The message that a request builds. */
  predicate Received(m: Message, r: RequestValue, tail: Tail) {
    && m.completed && m.url == Target(r) && m.path == tail.path
    && m.query == (if tail.query.Some? then tail.query.value else [])
    && m.headValues == AsMap(r.fields) && m.body == r.body
  }

  lemma RequestReplayed(m: Message, max: nat, r: RequestValue, tail: Tail) returns (o: Message)
    requires Sendable(max, r, tail)
    ensures Replay(m, RequestTrace(r)) == Some(o) && Received(o, r, tail)
  {
    HeadStarts(m, Target(r));
    SortedDistinct(r.fields);
    hide Push, OnHeadComplete, TailText, Target, Sorted, FieldTrace, WellFormed, Replay;
    var t1 := Push(Push([], MessageBegin), Data(UrlData, Target(r)));
    assert [] + r.fields == r.fields;
    var n1 := FieldsReplayed(m, t1, [], r.fields, CLEARED.(url := Target(r)));
    UrlReplayed(n1, tail);
    ReplayPush(m, HeadTrace(r), HeadersComplete);
    o := BodyReplayed(m, Push(HeadTrace(r), HeadersComplete), OnHeadComplete(n1).value, r.body);
  }

  /** The callbacks of a message up to its URL. */
  lemma HeadStarts(m: Message, url: seq<char>)
    ensures Replay(m, Push(Push([], MessageBegin), Data(UrlData, url))) == Some(CLEARED.(url := url))
  {
    hide Push;
    ReplayPush(m, [], MessageBegin);
    ReplayPush(m, Push([], MessageBegin), Data(UrlData, url));
    assert [] + url == url;
  }

  /** The callbacks for the body and the end of a message. */
  lemma BodyReplayed(m: Message, t: seq<Event>, n: Message, body: seq<char>) returns (o: Message)
    requires Replay(m, t) == Some(n) && n.body == []
    ensures o == n.(body := body, completed := true)
    ensures Replay(m, Push(if body == [] then t else Push(t, Data(BodyData, body)), MessageComplete)) == Some(o)
  {
    hide Push, Replay;
    o := n.(body := body, completed := true);
    assert [] + body == body;
    if body == [] {
      ReplayPush(m, t, MessageComplete);
    } else {
      ReplayPush(m, t, Data(BodyData, body));
      ReplayPush(m, Push(t, Data(BodyData, body)), MessageComplete);
    }
  }

  /** On a strict part of a printed request the parser is under way: no error, no callback has failed, and the
      message is not complete. */
  lemma PartialRequest(m: Message, max: nat, r: RequestValue, tail: Tail, k: nat)
    requires Sendable(max, r, tail) && k < |Print(r)| && !m.completed
    ensures var a := RunOn(max, Going(START), Print(r)[..k]);
            a.Going? && Replay(m, a.c.t).Some? && !Replay(m, a.c.t).value.completed
  {
    hide RunOn, Print, Sendable, Replay, Received, Whole;
    var end, o := PrintedWhole(m, max, r, tail);
    PartUnderWay(max, Request, m, Print(r), end, o, k);
  }

  /** A printed request is a whole message. */
  lemma PrintedWhole(m: Message, max: nat, r: RequestValue, tail: Tail) returns (end: Run, o: Message)
    requires Sendable(max, r, tail)
    ensures Whole(max, Request, m, Print(r), end, o) && Received(o, r, tail)
    ensures end.c.p.verb == r.verb && !end.c.p.upgrade
  {
    hide RunOn, Print, Sendable, Replay, Completions, RequestTrace;
    var q := PrintedRun(max, r, tail);
    o := RequestReplayed(m, max, r, tail);
    PrintSome(r);
    end := Going(Config(q, RequestTrace(r), |Print(r)|));
  }

  lemma PrintSome(r: RequestValue)
    ensures Print(r) != []
  {
    assert |RequestLine(r)| > 0;
  }

  /** Feeds the bytes of a request, in any pieces, to an idle parser. The parser reports no error, completes exactly
      at the last byte, and holds the request's method, path, query, header map and body. */
  method Receive(parser: HTTPParser, pieces: seq<seq<char>>, ghost r: RequestValue, ghost tail: Tail)
    returns (total: nat, failed: bool)
    requires parser.Idle() && !parser.mISCompleted && parser.mParserType == Request
    requires Sendable(parser.maxHeaderSize, r, tail) && Flatten(pieces) == Print(r)
    requires forall i :: 0 <= i < |pieces| ==> pieces[i] != [] && |pieces[i]| + parser.maxHeaderSize < TWO_32
    modifies parser, parser.mParser
    ensures !failed && total == |Print(r)|
    ensures Received(parser.Value(), r, tail) && parser.mMethod == Some(r.verb) && !parser.mIsUpgrade
  {
    hide RunOn, Print, Sendable, Received, Whole;
    ghost var end, o := PrintedWhole(parser.base, parser.maxHeaderSize, r, tail);
    total, failed := ReceiveWhole(parser, pieces, Print(r), end, o);
  }
}
