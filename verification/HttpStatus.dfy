/** The status line of a response (section 3.1.2 of RFC 7230). */
module HttpStatus {
  import opened Options
  import opened HttpTypes
  import opened HttpAutomaton
  import opened HttpBulk
  import opened HttpCharacters
  import opened HttpFields

  // ---------- the version ----------

  /** The parser of a response that has begun. */
  function Begins(p: Parser): Parser { p.(flags := NO_FLAGS, contentLength := ULLONG_MAX) }

  lemma ProtocolPass(p: Parser)
    ensures p.state == StartRes ==> Pass(p, 'H') == Consumed(Begins(p).(state := ResH), Some(MessageBegin))
    ensures p.state == ResH ==> Pass(p, 'T') == Consumed(p.(state := ResHT), None)
    ensures p.state == ResHT ==> Pass(p, 'T') == Consumed(p.(state := ResHTT), None)
    ensures p.state == ResHTT ==> Pass(p, 'P') == Consumed(p.(state := ResHTTP), None)
    ensures p.state == ResHTTP ==> Pass(p, '/') == Consumed(p.(state := ResHttpMajor), None)
    ensures p.state == ResHttpDot ==> Pass(p, '.') == Consumed(p.(state := ResHttpMinor), None)
    ensures p.state == ResHttpEnd ==> Pass(p, ' ') == Consumed(p.(state := ResFirstStatusCode), None)
  {}

  lemma NumberPass(p: Parser, a: char)
    requires IsDigitCode(a as int)
    ensures p.state == ResHttpMajor ==> Pass(p, a) == Consumed(p.(major := a as int - 0x30, state := ResHttpDot), None)
    ensures p.state == ResHttpMinor ==> Pass(p, a) == Consumed(p.(minor := a as int - 0x30, state := ResHttpEnd), None)
  {}

  lemma FirstLetter(max: nat, c: Config)
    requires c.p.state == StartRes && c.p.nread < max
    ensures Step(max, c, 'H') ==
            Going(Config(Begins(c.p).(state := ResH, nread := c.p.nread + 1), Push(c.t, MessageBegin), c.n + 1))
  {
    CountedStep(max, c, 'H');
    ProtocolPass(c.p.(nread := c.p.nread + 1));
    hide Pass, Push, Step;
  }

  lemma ProtocolRun(max: nat, c: Config) returns (d: Config)
    requires c.p.state == StartRes && c.p.nread + 5 <= max
    ensures d == Config(Begins(c.p).(state := ResHttpMajor, nread := c.p.nread + 5), Push(c.t, MessageBegin), c.n + 5)
    ensures RunOn(max, Going(c), "HTTP/") == Going(d)
  {
    hide RunOn, Step, Pass, Push;
    FirstLetter(max, c);
    var c1 := Config(Begins(c.p).(state := ResH, nread := c.p.nread + 1), Push(c.t, MessageBegin), c.n + 1);
    var c2 := Moved(c1, ResHT);
    var c3 := Moved(c2, ResHTT);
    var c4 := Moved(c3, ResHTTP);
    d := Moved(c4, ResHttpMajor);
    ProtocolPass(c1.p.(nread := c1.p.nread + 1));
    NameMove(max, c1, 'T', ResHT);
    ProtocolPass(c2.p.(nread := c2.p.nread + 1));
    NameMove(max, c2, 'T', ResHTT);
    ProtocolPass(c3.p.(nread := c3.p.nread + 1));
    NameMove(max, c3, 'P', ResHTTP);
    ProtocolPass(c4.p.(nread := c4.p.nread + 1));
    NameMove(max, c4, '/', ResHttpMajor);
    assert "HTTP/" == ['H'] + "TTP/" && "TTP/" == ['T'] + "TP/" && "TP/" == ['T'] + "P/";
    assert "P/" == ['P'] + "/" && "/" == ['/'];
    Run2(max, c, c1, 'H', "TTP/");
    Run2(max, c1, c2, 'T', "TP/");
    Run2(max, c2, c3, 'T', "P/");
    Run2(max, c3, c4, 'P', "/");
    RunOne(max, c4, '/');
  }

  lemma VersionRun(max: nat, c: Config, a: char, b: char) returns (d: Config)
    requires c.p.state == ResHttpMajor && c.p.nread + 4 <= max && IsDigitCode(a as int) && IsDigitCode(b as int)
    ensures d == Config(c.p.(state := ResFirstStatusCode, major := a as int - 0x30, minor := b as int - 0x30,
                             nread := c.p.nread + 4), c.t, c.n + 4)
    ensures RunOn(max, Going(c), [a] + (['.'] + ([b] + [' ']))) == Going(d)
  {
    hide RunOn, Step, Pass;
    var c1 := Config(c.p.(state := ResHttpDot, major := a as int - 0x30, nread := c.p.nread + 1), c.t, c.n + 1);
    NumberPass(c.p.(nread := c.p.nread + 1), a);
    Move(max, c, a, c1.p);
    var c2 := Moved(c1, ResHttpMinor);
    ProtocolPass(c1.p.(nread := c1.p.nread + 1));
    Move(max, c1, '.', c2.p);
    var c3 := Config(c2.p.(state := ResHttpEnd, minor := b as int - 0x30, nread := c2.p.nread + 1), c2.t, c2.n + 1);
    NumberPass(c2.p.(nread := c2.p.nread + 1), b);
    Move(max, c2, b, c3.p);
    d := Moved(c3, ResFirstStatusCode);
    ProtocolPass(c3.p.(nread := c3.p.nread + 1));
    NameMove(max, c3, ' ', ResFirstStatusCode);
    Run2(max, c, c1, a, ['.'] + ([b] + [' ']));
    Run2(max, c1, c2, '.', [b] + [' ']);
    Run2(max, c2, c3, b, [' ']);
    RunOne(max, c3, ' ');
  }

  // ---------- the status code ----------

  lemma CodePass(p: Parser, ch: char)
    requires IsNum(ch)
    ensures p.state == ResFirstStatusCode ==>
              Pass(p, ch) == Consumed(p.(statusCode := Digit(ch), state := ResStatusCode), None)
    ensures p.state == ResStatusCode ==>
              Pass(p, ch) == if p.statusCode * 10 + Digit(ch) > 999 then Fail(INVALID_STATUS)
                             else Consumed(p.(statusCode := p.statusCode * 10 + Digit(ch)), None)
  {}

  lemma FailedPass(max: nat, c: Config, ch: char)
    requires ParsingHeader(c.p.state) && c.p.nread < max && Pass(c.p.(nread := c.p.nread + 1), ch).Fail?
    ensures Step(max, c, ch) == Failed
  {
    hide Pass, ParsingHeader;
  }

  /** The digits of a status code are accepted exactly when their value is at most 999, and it is then the value read.
      */
  lemma {:induction false} StatusCodeExact(max: nat, c: Config, ds: seq<char>)
    requires c.p.state == ResFirstStatusCode && ds != [] && AllDigits(ds) && c.p.nread + |ds| <= max
    ensures RunOn(max, Going(c), ds) ==
            if DecValue(ds) <= 999
            then Going(Config(c.p.(state := ResStatusCode, statusCode := DecValue(ds), nread := c.p.nread + |ds|), c.t,
                              c.n + |ds|))
            else Failed
  {
    hide Step, Pass, IsNum;
    var last := |ds| - 1;
    var init, ch := ds[..last], ds[last];
    assert DecValue(ds) == DecValue(init) * 10 + Digit(ch);
    DigitRange(ch);
    if last == 0 {
      assert ds == [ch] && init == [];
      CodePass(c.p.(nread := c.p.nread + 1), ch);
      Move(max, c, ch, c.p.(nread := c.p.nread + 1, statusCode := Digit(ch), state := ResStatusCode));
      RunOne(max, c, ch);
    } else {
      StatusCodeExact(max, c, init);
      DecValueNonNegative(init);
      var code := DecValue(init);
      if code <= 999 {
        var d := Config(c.p.(state := ResStatusCode, statusCode := code, nread := c.p.nread + last), c.t, c.n + last);
        var q := d.p.(nread := d.p.nread + 1);
        CodePass(q, ch);
        if code * 10 + Digit(ch) > 999 {
          FailedPass(max, d, ch);
        } else {
          Move(max, d, ch, q.(statusCode := code * 10 + Digit(ch)));
        }
      }
    }
  }

  lemma DigitRange(ch: char)
    requires IsNum(ch)
    ensures 0 <= Digit(ch) <= 9
  {}

  // ---------- the reason phrase ----------

  lemma ReasonPass(p: Parser, ch: char)
    ensures p.state == ResStatusCode && ch == ' ' ==> Pass(p, ch) == Consumed(p.(state := ResStatusStart), None)
    ensures p.state == ResStatusStart && ch != CR && ch != LF ==>
              Pass(p, ch) == Consumed(p.(state := ResStatus, index := 0), Some(Data(StatusData, [ch])))
    ensures p.state == ResStatusStart && ch == CR ==>
              Pass(p, ch) == Again(p.(state := ResStatus, index := 0), Some(Data(StatusData, [])))
    ensures p.state == ResStatus && ch != CR && ch != LF ==>
              Pass(p, ch) == Consumed(p, Some(Data(StatusData, [ch])))
    ensures p.state == ResStatus && ch == CR ==> Pass(p, ch) == Consumed(p.(state := ResLineAlmostDone), None)
    ensures p.state == ResLineAlmostDone && ch == LF ==> Pass(p, ch) == Consumed(p.(state := HeaderFieldStart), None)
  {}

  lemma DataMove(max: nat, c: Config, ch: char, q: Parser, e: Event)
    requires ParsingHeader(c.p.state) && c.p.nread < max
    requires Pass(c.p.(nread := c.p.nread + 1), ch) == Consumed(q, Some(e))
    ensures Step(max, c, ch) == Going(Config(q, Push(c.t, e), c.n + 1))
  {
    hide Pass, ParsingHeader, Push;
  }

  /** The reason phrase is delivered as it stands. */
  lemma {:induction false} ReasonRun(max: nat, c: Config, reason: seq<char>)
    requires c.p.state == ResStatusStart && reason != [] && NoLineEnd(reason) && c.p.nread + |reason| <= max
    ensures RunOn(max, Going(c), reason) ==
            Going(Config(c.p.(state := ResStatus, index := 0, nread := c.p.nread + |reason|),
                         Push(c.t, Data(StatusData, reason)), c.n + |reason|))
  {
    hide Step, Pass, Push;
    var last := |reason| - 1;
    var init, ch := reason[..last], reason[last];
    if last == 0 {
      assert reason == [ch];
      ReasonPass(c.p.(nread := c.p.nread + 1), ch);
      DataMove(max, c, ch, c.p.(nread := c.p.nread + 1, state := ResStatus, index := 0), Data(StatusData, [ch]));
      RunOne(max, c, ch);
    } else {
      ReasonRun(max, c, init);
      var d := Config(c.p.(state := ResStatus, index := 0, nread := c.p.nread + last),
                      Push(c.t, Data(StatusData, init)),
                      c.n + last);
      ReasonPass(d.p.(nread := d.p.nread + 1), ch);
      DataMove(max, d, ch, d.p.(nread := d.p.nread + 1), Data(StatusData, [ch]));
      PushMerge(c.t, StatusData, init, [ch]);
      assert reason == init + [ch];
    }
  }

  /** The end of the line. */
  lemma LineEnds(max: nat, c: Config)
    requires (c.p.state == ResStatusStart || c.p.state == ResStatus) && c.p.nread + 2 <= max
    ensures RunOn(max, Going(c), CRLF) ==
            Going(Config(c.p.(state := HeaderFieldStart, nread := c.p.nread + 2,
                              index := if c.p.state == ResStatusStart then 0 else c.p.index),
                         if c.p.state == ResStatusStart then Push(c.t, Data(StatusData, [])) else c.t, c.n + 2))
  {
    hide RunOn, Step, Pass, Push;
    var t := if c.p.state == ResStatusStart then Push(c.t, Data(StatusData, [])) else c.t;
    var d := Config(c.p.(state := ResLineAlmostDone, nread := c.p.nread + 1,
                         index := if c.p.state == ResStatusStart then 0 else c.p.index), t, c.n + 1);
    FirstEnd(max, c, d);
    ReasonPass(d.p.(nread := d.p.nread + 1), LF);
    Move(max, d, LF, d.p.(nread := d.p.nread + 1, state := HeaderFieldStart));
    assert CRLF == [CR] + [LF];
    Run2(max, c, d, CR, [LF]);
    RunOne(max, d, LF);
  }

  lemma FirstEnd(max: nat, c: Config, d: Config)
    requires (c.p.state == ResStatusStart || c.p.state == ResStatus) && c.p.nread < max
    requires d == Config(c.p.(state := ResLineAlmostDone, nread := c.p.nread + 1,
                              index := if c.p.state == ResStatusStart then 0 else c.p.index),
                         if c.p.state == ResStatusStart then Push(c.t, Data(StatusData, [])) else c.t, c.n + 1)
    ensures Step(max, c, CR) == Going(d)
  {
    hide Pass, Push, Step, Finish;
    var p := c.p.(nread := c.p.nread + 1);
    CountedStep(max, c, CR);
    ReasonPass(p, CR);
    if c.p.state == ResStatusStart {
      var q := p.(state := ResStatus, index := 0);
      FinishAgain(p, c.t, c.n, CR, q, Some(Data(StatusData, [])));
      ReasonPass(q, CR);
      FinishMoves(q, Push(c.t, Data(StatusData, [])), c.n, CR, q.(state := ResLineAlmostDone));
    } else {
      FinishMoves(p, c.t, c.n, CR, p.(state := ResLineAlmostDone));
    }
  }

  lemma FinishMoves(p: Parser, t: seq<Event>, n: nat, ch: char, q: Parser)
    requires Pass(p, ch) == Consumed(q, None)
    ensures Finish(p, t, n, ch) == Going(Config(q, t, n + 1))
  {
    hide Pass;
  }

  // ---------- the whole line ----------

  /** A status line: version digits, status code and reason phrase. */
  datatype Status = Status(major: char, minor: char, code: seq<char>, reason: seq<char>)

  predicate IsStatus(s: Status) {
    && IsDigitCode(s.major as int) && IsDigitCode(s.minor as int)
    && s.code != [] && AllDigits(s.code) && DecValue(s.code) <= 999 && NoLineEnd(s.reason)
  }

  function StatusLine(s: Status): seq<char> {
    "HTTP/" + (([s.major] + (['.'] + ([s.minor] + [' ']))) + (s.code + ([' '] + (s.reason + CRLF))))
  }

  /** The parser after a status line. */
  function AfterStatus(p: Parser, s: Status): Parser {
    Begins(p).(state := HeaderFieldStart, index := 0, major := s.major as int - 0x30, minor := s.minor as int - 0x30,
               statusCode := DecValue(s.code), nread := p.nread + |StatusLine(s)|)
  }

  lemma CodeAndReason(max: nat, c: Config, code: seq<char>, reason: seq<char>)
    requires c.p.state == ResFirstStatusCode && code != [] && AllDigits(code) && DecValue(code) <= 999
    requires NoLineEnd(reason) && c.p.nread + |code| + |reason| + 3 <= max
    ensures RunOn(max, Going(c), code + ([' '] + (reason + CRLF))) ==
            Going(Config(c.p.(state := HeaderFieldStart, index := 0, statusCode := DecValue(code),
                              nread := c.p.nread + |code| + |reason| + 3),
                         Push(c.t, Data(StatusData, reason)), c.n + |code| + |reason| + 3))
  {
    hide RunOn, Step, Pass, Push, DecValue, AllDigits;
    StatusCodeExact(max, c, code);
    RunAppend(max, Going(c), code, [' '] + (reason + CRLF));
    var d := Config(c.p.(state := ResStatusCode, statusCode := DecValue(code), nread := c.p.nread + |code|), c.t,
                    c.n + |code|);
    var e := Moved(d, ResStatusStart);
    ReasonPass(d.p.(nread := d.p.nread + 1), ' ');
    NameMove(max, d, ' ', ResStatusStart);
    Run2(max, d, e, ' ', reason + CRLF);
    if reason == [] {
      assert reason + CRLF == CRLF;
      LineEnds(max, e);
    } else {
      ReasonRun(max, e, reason);
      RunAppend(max, Going(e), reason, CRLF);
      var f := Config(e.p.(state := ResStatus, index := 0, nread := e.p.nread + |reason|),
                      Push(e.t, Data(StatusData, reason)), e.n + |reason|);
      LineEnds(max, f);
    }
  }

  /** A status line is taken for what it says: the two digits of the version, the decimal status code, and the reason
      phrase as status data behind the start of the message. */
  lemma StatusLineRun(max: nat, c: Config, s: Status)
    requires c.p.state == StartRes && IsStatus(s) && c.p.nread + |StatusLine(s)| <= max
    ensures RunOn(max, Going(c), StatusLine(s)) ==
            Going(Config(AfterStatus(c.p, s), Push(Push(c.t, MessageBegin), Data(StatusData, s.reason)),
                         c.n + |StatusLine(s)|))
  {
    hide RunOn, Push, DecValue, AllDigits;
    var version := [s.major] + (['.'] + ([s.minor] + [' ']));
    var rest := s.code + ([' '] + (s.reason + CRLF));
    var d := ProtocolRun(max, c);
    var e := VersionRun(max, d, s.major, s.minor);
    CodeAndReason(max, e, s.code, s.reason);
    RunAppend(max, Going(c), "HTTP/", version + rest);
    RunAppend(max, Going(d), version, rest);
  }
}
