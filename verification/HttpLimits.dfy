/** The limit on the size of a head. */
module HttpLimits {
  import opened Options
  import opened HttpTypes
  import opened HttpAutomaton
  import opened HttpFields
  import opened HttpFraming
  import opened HttpHeaders
  import opened HttpStatus
  import opened HttpReceive
  import opened HttpExchange

  // ---------- counting ----------

  /** A pass counts no byte. */
  predicate NoneCounted(p: Parser, o: Outcome) { o.Fail? || o.p.nread == p.nread || o.p.nread == 0 }

  lemma FirstLineCounts(p: Parser, ch: char)
    ensures NoneCounted(p, PassStatusLine(p, ch)) && NoneCounted(p, PassVersion(p, ch))
  {}

  lemma TargetCounts(p: Parser, ch: char)
    ensures NoneCounted(p, PassRequestTarget(p, ch))
  {
    hide ParseUrlChar, MethodString, Correct, FirstGuess;
  }

  lemma HeaderCounts(p: Parser, ch: char)
    ensures NoneCounted(p, PassFieldName(p, ch)) && NoneCounted(p, PassFieldValue(p, ch))
  {
    hide FieldByte, FirstFieldByte, ValueByte, FinishValue, NeedsEof, NewMessage, ConnectionToken, Lower, IsHeaderChar;
  }

  lemma BodyCounts(p: Parser, ch: char)
    ensures NoneCounted(p, PassChunk(p, ch)) && NoneCounted(p, PassBody(p, ch))
  {
    hide Unhex, NewMessage;
  }

  lemma PassCounts(p: Parser, ch: char)
    ensures NoneCounted(p, Pass(p, ch))
  {
    FirstLineCounts(p, ch);
    TargetCounts(p, ch);
    HeaderCounts(p, ch);
    BodyCounts(p, ch);
    hide PassStatusLine, PassVersion, PassRequestTarget, PassFieldName, PassFieldValue, PassChunk, PassBody;
  }

  lemma {:induction false} FinishCounts(p: Parser, t: seq<Event>, n: nat, ch: char)
    requires Finish(p, t, n, ch).Going?
    ensures var d := Finish(p, t, n, ch).c; d.p.nread == p.nread || d.p.nread == 0
    decreases Rank(p.state)
  {
    hide Pass, Push;
    PassCounts(p, ch);
    var o := Pass(p, ch);
    if o.Again? { FinishCounts(o.p, PushOpt(t, o.out), n, ch); }
  }

  /** A byte is counted once, and only in a head or a chunk's lines. */
  lemma StepCounts(max: nat, c: Config, ch: char)
    requires Step(max, c, ch).Going?
    ensures var d := Step(max, c, ch).c;
            d.p.nread <= c.p.nread + 1 && (d.p.nread == c.p.nread + 1 ==> ParsingHeader(c.p.state))
  {
    hide Finish, ParsingHeader;
    if ParsingHeader(c.p.state) {
      FinishCounts(c.p.(nread := c.p.nread + 1), c.t, c.n, ch);
    } else {
      FinishCounts(c.p, c.t, c.n, ch);
    }
  }

  lemma {:induction false} RunCounts(max: nat, c: Config, bs: seq<char>)
    requires RunOn(max, Going(c), bs).Going?
    ensures RunOn(max, Going(c), bs).c.p.nread <= c.p.nread + |bs|
  {
    hide Step;
    if bs != [] {
      RunCounts(max, c, bs[..|bs| - 1]);
      StepCounts(max, RunOn(max, Going(c), bs[..|bs| - 1]).c, bs[|bs| - 1]);
    }
  }

  // ---------- a smaller limit ----------

  lemma SmallerStep(max: nat, big: nat, c: Config, ch: char)
    requires max <= big
    ensures Step(max, c, ch) == if ParsingHeader(c.p.state) && c.p.nread + 1 > max then Failed else Step(big, c, ch)
  {
    hide Finish, ParsingHeader;
  }

  /** What a larger limit refuses, a smaller one does. */
  lemma {:induction false} SmallerRefuses(max: nat, big: nat, c: Config, bs: seq<char>)
    requires max <= big
    ensures RunOn(max, Going(c), bs) == Failed || RunOn(max, Going(c), bs) == RunOn(big, Going(c), bs)
  {
    hide Step, ParsingHeader;
    if bs != [] {
      var init, ch := bs[..|bs| - 1], bs[|bs| - 1];
      SmallerRefuses(max, big, c, init);
      if RunOn(max, Going(c), init).Going? { SmallerStep(max, big, RunOn(max, Going(c), init).c, ch); }
    }
  }

  /** When every byte has been counted, the run is possible exactly within the limit. */
  lemma {:induction false} LimitExact(max: nat, big: nat, c: Config, bs: seq<char>)
    requires max <= big && c.p.nread <= max && RunOn(big, Going(c), bs).Going?
    requires RunOn(big, Going(c), bs).c.p.nread == c.p.nread + |bs|
    ensures RunOn(max, Going(c), bs) == if c.p.nread + |bs| <= max then RunOn(big, Going(c), bs) else Failed
  {
    hide Step, ParsingHeader;
    if bs != [] {
      var init, ch := bs[..|bs| - 1], bs[|bs| - 1];
      assert RunOn(big, Going(c), init).Going?;
      var d := RunOn(big, Going(c), init).c;
      RunCounts(big, c, init);
      StepCounts(big, d, ch);
      LimitExact(max, big, c, init);
      SmallerStep(max, big, d, ch);
    }
  }

  // ---------- heads ----------

  /** A head that is longer than the limit is refused, whatever its lines are. */
  lemma HeadTooLong(max: nat, big: nat, kind: MessageType, c: Config, line: seq<char>, ls: seq<Line>)
    requires max < big && big == |line| + |SectionText(ls)| && AllLines(ls)
    requires RunOn(big, Going(Start(kind)), line) == Going(c) && FirstLineTaken(kind, c, line)
    ensures RunOn(max, Going(Start(kind)), line + SectionText(ls)) == Failed
  {
    hide RunOn, LinesText, LinesTrace, IsLine, Settle, AtLine, ToldAll, Completions, Step;
    FirstLineIsLine(kind, c, line);
    SmallerRefuses(max, big, Start(kind), line + SectionText(ls));
    RunAppend(big, Going(Start(kind)), line, LinesText(ls));
    var d := LinesRun(big, c, ls);
    var text := line + LinesText(ls);
    assert line + SectionText(ls) == text + CRLF;
    RunAppend(big, Going(Start(kind)), text, CRLF);
    if ToldAll(Settle(c).p, ls) == None {
      RunStopped(big, Failed, CRLF);
    } else {
      HeadCr(big, d);
      RunAppend(big, Going(Start(kind)), text, [CR]);
      LastByteRefused(max, big, kind, text, BeforeLf(d));
    }
  }

  lemma LastByteRefused(max: nat, big: nat, kind: MessageType, text: seq<char>, e: Config)
    requires max < big && RunOn(big, Going(Start(kind)), text + [CR]) == Going(e)
    requires e.p.nread == |text| + 1 == big - 1 && e.p.state == HeadersAlmostDone
    ensures RunOn(max, Going(Start(kind)), text + CRLF) == Failed
  {
    hide RunOn, Step;
    assert text + CRLF == (text + [CR]) + [LF];
    RunAppend(max, Going(Start(kind)), text + [CR], [LF]);
    LimitExact(max, big, Start(kind), text + [CR]);
    if big - 1 <= max {
      RunOne(max, e, LF);
      SmallerStep(max, big, e, LF);
    } else {
      RunStopped(max, Failed, [LF]);
    }
  }

  /** So is the head of a request. */
  lemma RequestTooLong(max: nat, a: Asked, ls: seq<Line>)
    requires IsAsked(a) && AllLines(ls) && |AskedLine(a)| + |SectionText(ls)| > max
    ensures RunOn(max, Going(Start(Request)), AskedLine(a) + SectionText(ls)) == Failed
  {
    hide RunOn, AskedLine, SectionText, IsLine, IsAsked;
    var big := |AskedLine(a)| + |SectionText(ls)|;
    var c := RequestStarts(big, a);
    HeadTooLong(max, big, Request, c, AskedLine(a), ls);
  }

  /** And the head of a response. */
  lemma ResponseTooLong(max: nat, s: Status, ls: seq<Line>)
    requires IsStatus(s) && AllLines(ls) && |StatusLine(s)| + |SectionText(ls)| > max
    ensures RunOn(max, Going(Start(Response)), StatusLine(s) + SectionText(ls)) == Failed
  {
    hide RunOn, StatusLine, SectionText, IsLine, IsStatus;
    var big := |StatusLine(s)| + |SectionText(ls)|;
    var c := ResponseStarts(big, s);
    HeadTooLong(max, big, Response, c, StatusLine(s), ls);
  }
}
