/** What the parser tolerates: line ends without a CR, further blanks, and folded header values (sections 3.2.4, 3.5 and
    appendix A of RFC 7230). */
module HttpLineEnds {
  import opened Options
  import opened HttpTypes
  import opened HttpAutomaton
  import opened HttpBulk
  import opened HttpFields

  // ---------- line ends ----------

  /** A state in which a line may end. */
  predicate LineMayEnd(s: State) {
    s == Dead || s == StartReq || s == StartRes
    || s == ResStatusCode || s == ResStatusStart || s == ResStatus
    || s == ReqServer || s == ReqServerWithAt || s == ReqPath || s == ReqQueryStringStart || s == ReqQueryString
    || s == ReqFragmentStart || s == ReqFragment || s == ReqHttpEnd
    || s == HeaderFieldStart || s == HeaderValueDiscardWs || s == HeaderValue
  }

  /** Two runs with the same outcome, but for one byte more in the second. */
  predicate OneLess(r: Run, s: Run) {
    match r
    case Failed => s == Failed
    case Going(c) => s.Going? && s.c == Config(c.p.(nread := s.c.p.nread), c.t, c.n + 1)
    case Exited(c) => s.Exited? && s.c == Config(c.p.(nread := s.c.p.nread), c.t, c.n + 1)
  }

  /** The two line ends, byte by byte. */
  lemma CrThenLf(max: nat, c: Config, d: Config)
    requires ParsingHeader(c.p.state) && ParsingHeader(d.p.state) && c.p.nread + 2 <= max
    requires Finish(c.p.(nread := c.p.nread + 1), c.t, c.n, CR) == Going(d) && d.p.nread == c.p.nread + 1
    ensures RunOn(max, Going(c), CRLF) == Finish(d.p.(nread := c.p.nread + 2), d.t, d.n, LF)
    ensures RunOn(max, Going(c), [LF]) == Finish(c.p.(nread := c.p.nread + 1), c.t, c.n, LF)
  {
    hide RunOn, Finish;
    assert CRLF == [CR] + [LF];
    RunAppend(max, Going(c), [CR], [LF]);
    RunOne(max, c, CR);
    RunOne(max, c, LF);
    RunOne(max, d, LF);
  }

  lemma StatusPasses(p: Parser)
    ensures p.state == ResStatusCode ==>
              var q := p.(state := ResStatusStart); Pass(p, CR) == Again(q, None) && Pass(p, LF) == Again(q, None)
    ensures p.state == ResStatusStart ==>
              var q := Again(p.(state := ResStatus, index := 0), Some(Data(StatusData, [])));
              Pass(p, CR) == q && Pass(p, LF) == q
    ensures p.state == ResStatus ==>
              && Pass(p, CR) == Consumed(p.(state := ResLineAlmostDone), None)
              && Pass(p, LF) == Consumed(p.(state := HeaderFieldStart), None)
  {}

  lemma HeaderPasses(p: Parser)
    ensures p.state == HeaderFieldStart ==>
              && Pass(p, CR) == Consumed(p.(state := HeadersAlmostDone), None)
              && Pass(p, LF) == Again(p.(state := HeadersAlmostDone), None)
    ensures p.state == HeaderValue ==>
              && Pass(p, CR) == Consumed(p.(state := HeaderAlmostDone), None)
              && Pass(p, LF) == Again(p.(state := HeaderAlmostDone), None)
    ensures p.state == HeaderAlmostDone ==> Pass(p, LF) == Consumed(p.(state := HeaderValueLws), None)
    ensures p.state == HeaderValueDiscardWs ==>
              && Pass(p, CR) == Consumed(p.(state := HeaderValueDiscardWsAlmostDone), None)
              && Pass(p, LF) == Consumed(p.(state := HeaderValueDiscardLws), None)
    ensures p.state == HeaderValueDiscardWsAlmostDone ==>
              Pass(p, LF) == Consumed(p.(state := HeaderValueDiscardLws), None)
  {}

  /** The passes over the end of a line, with a CR and without. */
  lemma EndPasses(p: Parser)
    ensures p.state == Dead || p.state == StartReq || p.state == StartRes ==>
              Pass(p, CR) == Consumed(p, None) && Pass(p, LF) == Consumed(p, None)
    ensures p.state == ResStatusCode ==>
              var q := p.(state := ResStatusStart); Pass(p, CR) == Again(q, None) && Pass(p, LF) == Again(q, None)
    ensures p.state == ResStatusStart ==>
              var q := Again(p.(state := ResStatus, index := 0), Some(Data(StatusData, [])));
              Pass(p, CR) == q && Pass(p, LF) == q
    ensures p.state == ResStatus ==>
              && Pass(p, CR) == Consumed(p.(state := ResLineAlmostDone), None)
              && Pass(p, LF) == Consumed(p.(state := HeaderFieldStart), None)
    ensures p.state == ResLineAlmostDone || p.state == ReqLineAlmostDone ==>
              Pass(p, LF) == Consumed(p.(state := HeaderFieldStart), None)
    ensures p.state == ReqHttpEnd ==>
              && Pass(p, CR) == Consumed(p.(state := ReqLineAlmostDone), None)
              && Pass(p, LF) == Consumed(p.(state := HeaderFieldStart), None)
    ensures p.state == HeaderFieldStart ==>
              && Pass(p, CR) == Consumed(p.(state := HeadersAlmostDone), None)
              && Pass(p, LF) == Again(p.(state := HeadersAlmostDone), None)
    ensures p.state == HeaderValue ==>
              && Pass(p, CR) == Consumed(p.(state := HeaderAlmostDone), None)
              && Pass(p, LF) == Again(p.(state := HeaderAlmostDone), None)
    ensures p.state == HeaderAlmostDone ==> Pass(p, LF) == Consumed(p.(state := HeaderValueLws), None)
    ensures p.state == HeaderValueDiscardWs ==>
              && Pass(p, CR) == Consumed(p.(state := HeaderValueDiscardWsAlmostDone), None)
              && Pass(p, LF) == Consumed(p.(state := HeaderValueDiscardLws), None)
    ensures p.state == HeaderValueDiscardWsAlmostDone ==>
              Pass(p, LF) == Consumed(p.(state := HeaderValueDiscardLws), None)
  {
    StatusPasses(p);
    HeaderPasses(p);
    OtherPasses(p);
    hide Pass;
  }

  lemma OtherPasses(p: Parser)
    ensures p.state == Dead || p.state == StartReq || p.state == StartRes ==>
              Pass(p, CR) == Consumed(p, None) && Pass(p, LF) == Consumed(p, None)
    ensures p.state == ResLineAlmostDone || p.state == ReqLineAlmostDone ==>
              Pass(p, LF) == Consumed(p.(state := HeaderFieldStart), None)
    ensures p.state == ReqHttpEnd ==>
              && Pass(p, CR) == Consumed(p.(state := ReqLineAlmostDone), None)
              && Pass(p, LF) == Consumed(p.(state := HeaderFieldStart), None)
  {}

  predicate InTarget(s: State) {
    s == ReqServer || s == ReqServerWithAt || s == ReqPath || s == ReqQueryStringStart || s == ReqQueryString
    || s == ReqFragmentStart || s == ReqFragment
  }

  /** A request line without a version is one of HTTP/0.9. */
  lemma TargetPasses(p: Parser)
    requires InTarget(p.state)
    ensures Pass(p, CR) == Consumed(p.(state := ReqLineAlmostDone, major := 0, minor := 9), None)
    ensures Pass(p, LF) == Consumed(p.(state := HeaderFieldStart, major := 0, minor := 9), None)
  {}

  lemma FinishMoves(p: Parser, t: seq<Event>, n: nat, ch: char)
    requires Pass(p, ch).Consumed?
    ensures Finish(p, t, n, ch) == Going(Config(Pass(p, ch).p, PushOpt(t, Pass(p, ch).out), n + 1))
  {
    hide Pass, Push;
  }

  lemma AfterHeadersCount(p: Parser, k: nat)
    requires p.state == HeadersDone
    ensures Pass(p.(nread := k), LF) == Pass(p, LF) == AfterHeaders(p)
    ensures AfterHeaders(p).Consumed? || AfterHeaders(p).Exit?
  {
    hide Push, NewMessage, NeedsEof;
    SameNeedsEof(p.(nread := 0), p);
  }

  lemma SameNeedsEof(p: Parser, q: Parser)
    requires p == q.(nread := p.nread)
    ensures NeedsEof(p) == NeedsEof(q)
  {}

  lemma EndOfHeadersPass(p: Parser, k: nat)
    requires p.state == HeadersAlmostDone
    ensures Pass(p, LF) == EndOfHeaders(p)
    ensures match EndOfHeaders(p)
            case Again(q, out) =>
              && EndOfHeaders(p.(nread := k)) == Again(q.(nread := k), out)
              && (q.state == HeadersDone || (q.state == MessageDone && out == Some(ChunkComplete)))
            case o => o.Fail? && EndOfHeaders(p.(nread := k)).Fail?
  {}

  lemma DonePass(p: Parser, k: nat)
    requires p.state == MessageDone
    ensures var o := Pass(p, LF);
            && Pass(p.(nread := k), LF) == (if o.Exit? then Exit(o.p.(nread := k), o.out)
                                            else Consumed(o.p.(nread := k), o.out))
            && (o.Exit? || o.Consumed?)
  {}

  lemma FinishFails(p: Parser, t: seq<Event>, n: nat, ch: char)
    requires Pass(p, ch).Fail?
    ensures Finish(p, t, n, ch) == Failed
  {
    hide Pass;
  }

  lemma FinishExits(p: Parser, t: seq<Event>, n: nat, ch: char)
    requires Pass(p, ch).Exit?
    ensures Finish(p, t, n, ch) == Exited(Config(Pass(p, ch).p, PushOpt(t, Pass(p, ch).out), n + 1))
  {
    hide Pass, Push;
  }

  /** The last pass over a byte that ends a message or a head. */
  lemma LastPass(p: Parser, t: seq<Event>, n: nat, k: nat)
    requires p.state == HeadersDone || p.state == MessageDone
    ensures OneLess(Finish(p, t, n, LF), Finish(p.(nread := k), t, n + 1, LF))
  {
    hide Pass, Push, Finish, AfterHeaders;
    var q := p.(nread := k);
    if p.state == HeadersDone { AfterHeadersCount(p, k); } else { DonePass(p, k); }
    if Pass(p, LF).Consumed? {
      FinishMoves(p, t, n, LF);
      FinishMoves(q, t, n + 1, LF);
    } else {
      FinishExits(p, t, n, LF);
      FinishExits(q, t, n + 1, LF);
    }
  }

  /** The end of the header section does not depend on the byte count. */
  lemma SectionEnd(p: Parser, t: seq<Event>, n: nat, k: nat)
    requires p.state == HeadersAlmostDone
    ensures OneLess(Finish(p, t, n, LF), Finish(p.(nread := k), t, n + 1, LF))
  {
    hide Pass, Push, Finish, EndOfHeaders, OneLess;
    var q := p.(nread := k);
    EndOfHeadersPass(p, k);
    EndOfHeadersPass(q, k);
    if EndOfHeaders(p).Again? {
      var r, out := EndOfHeaders(p).p, EndOfHeaders(p).out;
      FinishAgain(p, t, n, LF, r, out);
      FinishAgain(q, t, n + 1, LF, r.(nread := k), out);
      LastPass(r, PushOpt(t, out), n, k);
    } else {
      FinishFails(p, t, n, LF);
      FinishFails(q, t, n + 1, LF);
      BothFailed();
    }
  }

  lemma BothFailed()
    ensures OneLess(Failed, Failed)
  {}

  lemma OneByteLess(c: Config, n: nat, k: nat)
    requires c.n == n + 1
    ensures OneLess(Going(c), Going(Config(c.p.(nread := k), c.t, n + 2)))
  {}

  /** Lines that end at a CR. */
  lemma AtCr(max: nat, c: Config)
    requires InTarget(c.p.state) || c.p.state in {ResStatus, ReqHttpEnd, HeaderValueDiscardWs, Dead, StartReq, StartRes}
    requires c.p.nread + 2 <= max
    ensures OneLess(RunOn(max, Going(c), [LF]), RunOn(max, Going(c), CRLF))
  {
    hide RunOn, Pass, Push, Finish, OneLess;
    var p := c.p.(nread := c.p.nread + 1);
    EndPasses(p);
    if InTarget(p.state) { TargetPasses(p); }
    FinishMoves(p, c.t, c.n, CR);
    FinishMoves(p, c.t, c.n, LF);
    var d := Config(Pass(p, CR).p, c.t, c.n + 1);
    CrThenLf(max, c, d);
    var q := d.p.(nread := c.p.nread + 2);
    EndPasses(q);
    FinishMoves(q, d.t, d.n, LF);
    OneByteLess(Config(Pass(p, LF).p, c.t, c.n + 1), c.n, c.p.nread + 2);
  }

  /** A header value, and the blank line. */
  lemma AtHeader(max: nat, c: Config)
    requires c.p.state == HeaderValue || c.p.state == HeaderFieldStart
    requires c.p.nread + 2 <= max
    ensures OneLess(RunOn(max, Going(c), [LF]), RunOn(max, Going(c), CRLF))
  {
    hide RunOn, Pass, Push, Finish, OneLess;
    var p := c.p.(nread := c.p.nread + 1);
    EndPasses(p);
    FinishMoves(p, c.t, c.n, CR);
    var d := Config(Pass(p, CR).p, c.t, c.n + 1);
    CrThenLf(max, c, d);
    FinishAgain(p, c.t, c.n, LF, d.p, None);
    if c.p.state == HeaderFieldStart {
      SectionEnd(d.p, c.t, c.n, c.p.nread + 2);
    } else {
      var q := d.p.(nread := c.p.nread + 2);
      EndPasses(d.p);
      EndPasses(q);
      FinishMoves(d.p, c.t, c.n, LF);
      FinishMoves(q, c.t, d.n, LF);
      OneByteLess(Config(Pass(d.p, LF).p, c.t, c.n + 1), c.n, c.p.nread + 2);
    }
  }

  /** A status line without a reason phrase. */
  lemma AtStatusStart(p: Parser, t: seq<Event>, n: nat, ch: char)
    requires p.state == ResStatusCode || p.state == ResStatusStart
    requires ch == CR || ch == LF
    ensures Finish(p, t, n, ch) ==
            Going(Config(p.(state := if ch == CR then ResLineAlmostDone else HeaderFieldStart, index := 0),
                         Push(t, Data(StatusData, [])), n + 1))
  {
    hide Pass, Push, Finish;
    EndPasses(p);
    var q := p.(state := ResStatusStart);
    if p.state == ResStatusCode { FinishAgain(p, t, n, ch, q, None); }
    EndPasses(q);
    var r := q.(state := ResStatus, index := 0);
    FinishAgain(q, t, n, ch, r, Some(Data(StatusData, [])));
    EndPasses(r);
    FinishMoves(r, Push(t, Data(StatusData, [])), n, ch);
  }

  lemma AtStatus(max: nat, c: Config)
    requires c.p.state == ResStatusCode || c.p.state == ResStatusStart
    requires c.p.nread + 2 <= max
    ensures OneLess(RunOn(max, Going(c), [LF]), RunOn(max, Going(c), CRLF))
  {
    hide RunOn, Pass, Push, Finish, OneLess;
    var p := c.p.(nread := c.p.nread + 1);
    AtStatusStart(p, c.t, c.n, CR);
    AtStatusStart(p, c.t, c.n, LF);
    var t := Push(c.t, Data(StatusData, []));
    var d := Config(p.(state := ResLineAlmostDone, index := 0), t, c.n + 1);
    CrThenLf(max, c, d);
    var q := d.p.(nread := c.p.nread + 2);
    EndPasses(q);
    FinishMoves(q, t, d.n, LF);
    OneByteLess(Config(p.(state := HeaderFieldStart, index := 0), t, c.n + 1), c.n, c.p.nread + 2);
  }

  /** Wherever a line may end, a LF alone does what CR and LF do. */
  lemma LineFeedAlone(max: nat, c: Config)
    requires LineMayEnd(c.p.state) && c.p.nread + 2 <= max
    ensures OneLess(RunOn(max, Going(c), [LF]), RunOn(max, Going(c), CRLF))
  {
    hide RunOn, OneLess;
    if c.p.state == HeaderValue || c.p.state == HeaderFieldStart {
      AtHeader(max, c);
    } else if c.p.state == ResStatusCode || c.p.state == ResStatusStart {
      AtStatus(max, c);
    } else {
      AtCr(max, c);
    }
  }

  /** The lines of a chunked body want both. */
  lemma ChunksWantCr(max: nat, c: Config)
    requires c.p.state == ChunkSize || c.p.state == ChunkDataAlmostDone
    ensures Step(max, c, LF) == Failed
  {}

  // ---------- blanks and empty lines ----------

  /** A byte that the parser passes over in a state. */
  predicate Ignorable(s: State, ch: char) {
    match s
    case ReqSpacesBeforeUrl | ReqHttpStart | ResFirstStatusCode => ch == ' '
    case HeaderValueDiscardWs => ch == ' ' || ch == TAB
    case StartReq | StartRes | Dead => ch == CR || ch == LF
    case _ => false
  }

  /** Empty lines before a message, further spaces in its first line and blanks before a header value have no effect but
      on the byte count. */
  lemma {:induction false} IgnoredRun(max: nat, c: Config, bs: seq<char>)
    requires c.p.nread + |bs| <= max && forall i :: 0 <= i < |bs| ==> Ignorable(c.p.state, bs[i])
    ensures RunOn(max, Going(c), bs) == Going(Config(c.p.(nread := c.p.nread + |bs|), c.t, c.n + |bs|))
  {
    hide Step, Ignorable;
    if bs != [] {
      var last := |bs| - 1;
      IgnoredRun(max, c, bs[..last]);
      IgnoredByte(max, Config(c.p.(nread := c.p.nread + last), c.t, c.n + last), bs[last]);
    }
  }

  lemma IgnoredByte(max: nat, c: Config, ch: char)
    requires c.p.nread < max && Ignorable(c.p.state, ch)
    ensures Step(max, c, ch) == Going(Config(c.p.(nread := c.p.nread + 1), c.t, c.n + 1))
  {}

  // ---------- folded values ----------

  lemma FoldPasses(p: Parser, ch: char)
    requires p.headerState == General && (ch == ' ' || ch == TAB)
    ensures p.state == HeaderValueLws ==> Pass(p, ch) == Again(p.(state := HeaderValueStart), None)
    ensures p.state == HeaderValueStart ==>
              Pass(p, ch) == Consumed(p.(state := HeaderValue, index := 0), Some(Data(ValueData, [ch])))
  {}

  lemma FoldStarts(max: nat, c: Config, ch: char)
    requires c.p.state == HeaderValueLws && c.p.headerState == General && (ch == ' ' || ch == TAB) && c.p.nread < max
    ensures Step(max, c, ch) ==
            Going(Config(c.p.(state := HeaderValue, index := 0, nread := c.p.nread + 1),
                         Push(c.t, Data(ValueData, [ch])), c.n + 1))
  {
    hide Push, Pass, Finish, Step;
    var p := c.p.(nread := c.p.nread + 1);
    CountedStep(max, c, ch);
    FoldPasses(p, ch);
    FinishAgain(p, c.t, c.n, ch, p.(state := HeaderValueStart), None);
    FoldPasses(p.(state := HeaderValueStart), ch);
    FinishMoves(p.(state := HeaderValueStart), c.t, c.n, ch);
  }

  /** A line that begins with a blank goes on with the value of the line before: the blank and the rest of the line are
      appended to it, the line end between them is not. */
  lemma FoldedLine(max: nat, c: Config, ch: char, v: seq<char>)
    requires c.p.state == HeaderValueLws && c.p.headerState == General && (ch == ' ' || ch == TAB)
    requires AllHeaderChars(v) && NoLineEnd(v) && c.p.nread + |v| + 3 <= max
    ensures RunOn(max, Going(c), [ch] + (v + CRLF)) ==
            Going(Config(c.p.(index := 0, nread := c.p.nread + |v| + 3), Push(c.t, Data(ValueData, [ch] + v)),
                         c.n + |v| + 3))
  {
    hide RunOn, Push, Step, ValueFold, IsHeaderChar;
    FoldStarts(max, c, ch);
    var d := Config(c.p.(state := HeaderValue, index := 0, nread := c.p.nread + 1), Push(c.t, Data(ValueData, [ch])),
                    c.n + 1);
    var w := [ch] + v;
    assert w[1..] == v && NoLineEnd(w);
    Run2(max, c, d, ch, v + CRLF);
    ValueFoldGeneral(ValueOf(d.p), v);
    ValueRest(max, d, w, c.t, ValueOf(d.p));
    RunAppend(max, Going(d), v, CRLF);
    ValueCrlf(max, Config(d.p.(nread := d.p.nread + |v|), Push(c.t, Data(ValueData, w)), d.n + |v|));
  }
}
