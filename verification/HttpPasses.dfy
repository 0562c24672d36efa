/** What the code of one state has to do to agree with one pass of the automaton, and how to conclude that it has. */
module HttpPasses {
  import opened Options
  import opened HttpTypes
  import opened HttpAutomaton
  import opened HttpInvariants
  import opened HttpMarks

  /** How the processing of one state ends. */
  datatype Action = Next | Reexecute | Leave | Error

  function Listed(out: Option<Event>): seq<Event> {
    match out case None => [] case Some(e) => [e]
  }

  /** The action that goes with an outcome. */
  function ActionOf(o: Outcome): Action {
    match o
    case Consumed(_, _) => Next
    case Again(_, _) => Reexecute
    case Exit(_, _) => Leave
    case Fail(_) => Error
  }

  /** A state without data did what one pass of the automaton does. */
  ghost predicate Mirrors(o: Outcome, act: Action, v: Parser, before: seq<Event>, after: seq<Event>, e: Errno) {
    && act == ActionOf(o)
    && if o.Fail? then e == o.e else v == o.p && after == before + Listed(o.out) && e == OK
  }

  /** A state with data did what one pass does, the pending bytes counted as delivered. */
  ghost predicate MirrorsData(o: Outcome, act: Action, v: Parser, before: seq<Event>, calls: seq<Event>, m: Marks,
                              data: seq<char>, p: nat, e: Errno)
    requires p < |data|
  {
    && act == ActionOf(o)
    && if o.Fail? then e == o.e
       else
         var end := if o.Consumed? then p + 1 else p;
         v == o.p && e == OK && MarksFit(v.state, m, end) && Joined(calls, m, data, end) == PushOpt(before, o.out)
  }

  /** Processing from byte `p0` on, where the automaton would be at `f`, ended as the automaton does. */
  ghost predicate Sound(max: nat, f: Run, act: Action, v: Parser, calls: seq<Event>, m: Marks, data: seq<char>,
                        p0: nat, p: nat, e: Errno)
    requires p0 < |data|
  {
    match act
    case Next =>
      && e == OK && p0 <= p < |data| && MarksFit(v.state, m, p + 1)
      && RunOn(max, f, data[p0 + 1..p + 1]) == Going(Config(v, Joined(calls, m, data, p + 1), p + 1))
    case Reexecute =>
      && e == OK && p0 <= p < |data| && MarksFit(v.state, m, p) && Good(max, v, 1)
      && RunOn(max, f, data[p0 + 1..p + 1]) == Finish(v, Joined(calls, m, data, p), p, data[p])
    case Leave => e == OK && p == p0 && f == Exited(Config(v, Join(calls), p + 1))
    case Error => e != OK && p0 <= p < |data| && RunOn(max, f, data[p0 + 1..p + 1]) == Failed
  }

  lemma TokenNul(c: char)
    ensures TokenOf(c) == '\0' <==> !IsToken(c)
  {}

  /** A pass without data is a pass with data. */
  lemma MirrorsSound(max: nat, v: Parser, t: seq<Event>, calls: seq<Event>, o: Outcome, act: Action, w: Parser,
                     after: seq<Event>, data: seq<char>, p: nat, e: Errno)
    requires p < |data| && Good(max, v, 1) && o == Pass(v, data[p]) && o != Fail(OK)
    requires t == Join(calls)
    requires !o.Fail? && o.out.Some? ==> !o.out.value.Data?
    requires Mirrors(o, act, w, calls, after, e)
    ensures Sound(max, Finish(v, t, p, data[p]), act, w, after, NO_MARKS, data, p, p, e)
  {
    hide Pass, Good, Join, Push, Resumed;
    PassGood(max, v, data[p]);
    assert data[p + 1..p + 1] == [];
    match o
    case Fail(_) => RunStopped(max, Failed, data[p + 1..p + 1]);
    case _ =>
      if o.out.Some? { JoinSnoc(calls, o.out.value); }
      assert calls + [] == calls;
      JoinedNone(after, data, p);
      JoinedNone(after, data, p + 1);
  }

  lemma MirrorsDataSound(max: nat, v: Parser, t: seq<Event>, o: Outcome, act: Action, w: Parser, calls: seq<Event>,
                         m: Marks, data: seq<char>, p: nat, e: Errno)
    requires p < |data| && Good(max, v, 1) && o == Pass(v, data[p]) && o != Fail(OK) && !o.Exit?
    requires MirrorsData(o, act, w, t, calls, m, data, p, e)
    ensures Sound(max, Finish(v, t, p, data[p]), act, w, calls, m, data, p, p, e)
  {
    hide Pass, Good, Join, Push, Resumed, Joined;
    PassGood(max, v, data[p]);
    assert data[p + 1..p + 1] == [];
    if o.Fail? { RunStopped(max, Failed, data[p + 1..p + 1]); }
  }

  lemma NoBlankInUrl(s: State, ch: char)
    requires ch == ' ' || ch == CR || ch == LF
    ensures ParseUrlChar(s, ch) == Dead
  {}

  /** A run that has failed stays so. */
  lemma FailedLater(max: nat, f: Run, data: seq<char>, p0: nat, q: nat, p: nat)
    requires p0 < q <= p <= |data| && RunOn(max, f, data[p0 + 1..q]) == Failed
    ensures RunOn(max, f, data[p0 + 1..p]) == Failed
  {
    hide RunOn;
    assert data[p0 + 1..p] == data[p0 + 1..q] + data[q..p];
    RunAppend(max, f, data[p0 + 1..q], data[q..p]);
    RunStopped(max, Failed, data[q..p]);
  }

  lemma TokenNoBlank(c: char)
    ensures TokenOf(c) != ' '
  {}

  lemma SoundNext(max: nat, f: Run, v: Parser, calls: seq<Event>, m: Marks, data: seq<char>, p0: nat, p: nat)
    requires p0 <= p < |data| && MarksFit(v.state, m, p + 1)
    requires RunOn(max, f, data[p0 + 1..p + 1]) == Going(Config(v, Joined(calls, m, data, p + 1), p + 1))
    ensures Sound(max, f, Next, v, calls, m, data, p0, p, OK)
  {}

  lemma SoundError(max: nat, f: Run, v: Parser, calls: seq<Event>, m: Marks, data: seq<char>, p0: nat, p: nat, q: nat,
                   e: Errno)
    requires p0 < q <= p + 1 <= |data| && RunOn(max, f, data[p0 + 1..q]) == Failed && e != OK
    ensures Sound(max, f, Error, v, calls, m, data, p0, p, e)
  {
    hide RunOn;
    FailedLater(max, f, data, p0, q, p + 1);
  }

  lemma SoundAgain(max: nat, f: Run, v: Parser, t: seq<Event>, calls: seq<Event>, m: Marks, data: seq<char>, p0: nat,
                   p: nat)
    requires p0 <= p < |data| && MarksFit(v.state, m, p) && Good(max, v, 1)
    requires RunOn(max, f, data[p0 + 1..p + 1]) == Finish(v, t, p, data[p])
    requires t == Joined(calls, m, data, p)
    ensures Sound(max, f, Reexecute, v, calls, m, data, p0, p, OK)
  {
    hide Finish, RunOn, Good;
  }

  predicate InFirstLine(s: State) {
    || s == StartRes || s == ResH || s == ResHT || s == ResHTT || s == ResHTTP || s == ResHttpMajor || s == ResHttpDot
    || s == ResHttpMinor || s == ResHttpEnd || s == ResFirstStatusCode || s == ResStatusCode || s == ResLineAlmostDone
    || s == StartReq || s == ReqMethod || s == ReqHttpStart || s == ReqHttpI || s == ReqHttpIC || s == ReqHttpH
    || s == ReqHttpHT || s == ReqHttpHTT || s == ReqHttpHTTP || s == ReqHttpMajor || s == ReqHttpMinor
    || s == ReqHttpDot || s == ReqHttpEnd || s == ReqLineAlmostDone
  }

  predicate IsBulk(s: State) {
    s == HeaderField || s == HeaderValue || s == BodyIdentity || s == ChunkData || s == BodyIdentityEof
  }

  predicate InStatusLine(s: State) {
    || s == StartRes || s == ResH || s == ResHT || s == ResHTT || s == ResHTTP || s == ResHttpMajor || s == ResHttpDot
    || s == ResHttpMinor || s == ResHttpEnd || s == ResFirstStatusCode || s == ResStatusCode || s == ResLineAlmostDone
  }

  lemma RouteFirstLine(p: Parser, ch: char)
    requires IsPlain(p.state) && InFirstLine(p.state)
    ensures InStatusLine(p.state) ==> Pass(p, ch) == PassStatusLine(p, ch)
    ensures p.state == StartReq || p.state == ReqMethod ==> Pass(p, ch) == PassRequestTarget(p, ch)
    ensures !InStatusLine(p.state) && p.state != StartReq && p.state != ReqMethod ==> Pass(p, ch) == PassVersion(p, ch)
  {
    hide PassStatusLine, PassRequestTarget, PassVersion, PassFieldName, PassFieldValue, PassChunk, PassBody, Expect;
  }

  lemma RouteValue(p: Parser, ch: char)
    ensures p.state == HeaderValueDiscardWsAlmostDone || p.state == HeaderAlmostDone || p.state == HeaderValueLws
            ==> Pass(p, ch) == PassFieldValue(p, ch)
  {
    hide PassStatusLine, PassRequestTarget, PassVersion, PassFieldName, PassFieldValue, PassChunk, PassBody, Expect;
  }

  lemma RouteHeadEnd(p: Parser, ch: char)
    ensures p.state == HeadersAlmostDone || p.state == HeadersDone ==> Pass(p, ch) == PassFieldName(p, ch)
  {
    hide PassStatusLine, PassRequestTarget, PassVersion, PassFieldName, PassFieldValue, PassChunk, PassBody, Expect;
  }

  lemma RouteChunk(p: Parser, ch: char)
    ensures InChunk(p.state) ==> Pass(p, ch) == PassChunk(p, ch)
  {
    hide PassStatusLine, PassRequestTarget, PassVersion, PassFieldName, PassFieldValue, PassChunk, PassBody, Expect;
  }

  lemma RouteDone(p: Parser, ch: char)
    ensures p.state == MessageDone ==> Pass(p, ch) == PassBody(p, ch)
  {
    hide PassStatusLine, PassRequestTarget, PassVersion, PassFieldName, PassFieldValue, PassChunk, PassBody, Expect;
  }

  lemma RouteDead(p: Parser, ch: char)
    ensures p.state == Dead ==> Pass(p, ch) == Expect(p, ch == CR || ch == LF, Dead, CLOSED_CONNECTION)
  {
    hide PassStatusLine, PassRequestTarget, PassVersion, PassFieldName, PassFieldValue, PassChunk, PassBody, Expect;
  }

  lemma RouteRest(p: Parser, ch: char)
    ensures p.state == HeaderValueDiscardWsAlmostDone || p.state == HeaderAlmostDone || p.state == HeaderValueLws
            ==> Pass(p, ch) == PassFieldValue(p, ch)
    ensures p.state == HeadersAlmostDone || p.state == HeadersDone ==> Pass(p, ch) == PassFieldName(p, ch)
    ensures InChunk(p.state) ==> Pass(p, ch) == PassChunk(p, ch)
    ensures p.state == MessageDone ==> Pass(p, ch) == PassBody(p, ch)
    ensures p.state == Dead ==> Pass(p, ch) == Expect(p, ch == CR || ch == LF, Dead, CLOSED_CONNECTION)
  {
    hide Pass, PassFieldName, PassFieldValue, PassChunk, PassBody, Expect, InChunk;
    RouteValue(p, ch);
    RouteHeadEnd(p, ch);
    RouteChunk(p, ch);
    RouteDone(p, ch);
    RouteDead(p, ch);
  }

  lemma RouteData(p: Parser, ch: char)
    ensures p.state == ReqSpacesBeforeUrl || InUrl(p.state) ==> Pass(p, ch) == PassRequestTarget(p, ch)
    ensures p.state == ResStatusStart || p.state == ResStatus ==> Pass(p, ch) == PassStatusLine(p, ch)
    ensures p.state == HeaderFieldStart ==> Pass(p, ch) == PassFieldName(p, ch)
    ensures p.state == HeaderValueDiscardWs || p.state == HeaderValueStart || p.state == HeaderValueDiscardLws
            ==> Pass(p, ch) == PassFieldValue(p, ch)
    ensures p.state == ChunkDataAlmostDone ==> Pass(p, ch) == PassChunk(p, ch)
  {
    hide PassStatusLine, PassRequestTarget, PassVersion, PassFieldName, PassFieldValue, PassChunk, PassBody, Expect;
  }

  lemma PlainSound(max: nat, v: Parser, before: seq<Event>, act: Action, w: Parser, after: seq<Event>, m: Marks,
                   data: seq<char>, p: nat, e: Errno)
    requires p < |data| && Good(max, v, 1) && m == NO_MARKS
    requires NoData(Pass(v, data[p]))
    requires Mirrors(Pass(v, data[p]), act, w, before, after, e)
    ensures Sound(max, Finish(v, Joined(before, m, data, p), p, data[p]), act, w, after, m, data, p, p, e)
    ensures act == Reexecute ==> Rank(w.state) < Rank(v.state)
  {
    hide Pass, Good, Joined, Sound, Finish, Rank;
    JoinedNone(before, data, p);
    MirrorsSound(max, v, Joined(before, m, data, p), before, Pass(v, data[p]), act, w, after, data, p, e);
  }

  lemma DataSound(max: nat, v: Parser, t: seq<Event>, act: Action, w: Parser, calls: seq<Event>, m: Marks,
                  data: seq<char>, p: nat, e: Errno)
    requires p < |data| && Good(max, v, 1)
    requires var o := Pass(v, data[p]); !o.Exit? && o != Fail(OK)
    requires MirrorsData(Pass(v, data[p]), act, w, t, calls, m, data, p, e)
    ensures Sound(max, Finish(v, t, p, data[p]), act, w, calls, m, data, p, p, e)
    ensures act == Reexecute ==> Rank(w.state) < Rank(v.state)
  {
    hide Pass, Good, Joined, Sound, Finish, Rank, MarksFit;
    MirrorsDataSound(max, v, t, Pass(v, data[p]), act, w, calls, m, data, p, e);
  }

  lemma PlainMarks(s: State, m: Marks, p: nat)
    requires IsPlain(s) && MarksFit(s, m, p)
    ensures m == NO_MARKS
  {}

  /** The outcome delivers no data and does not fail without a reason. */
  predicate NoData(o: Outcome) { o != Fail(OK) && (!o.Fail? && o.out.Some? ==> !o.out.value.Data?) }

  lemma PlainStatusLine(p: Parser, ch: char)
    requires InStatusLine(p.state)
    ensures NoData(PassStatusLine(p, ch))
  {}

  lemma PlainTarget(p: Parser, ch: char)
    requires p.state == StartReq || p.state == ReqMethod
    ensures NoData(PassRequestTarget(p, ch))
  {
    hide FirstGuess, Correct, MethodString;
  }

  lemma PlainVersion(p: Parser, ch: char)
    requires IsPlain(p.state) && InFirstLine(p.state) && !InStatusLine(p.state) && p.state != StartReq
             && p.state != ReqMethod
    ensures NoData(PassVersion(p, ch))
  {}

  lemma PlainLater(p: Parser, ch: char)
    ensures p.state == HeaderValueDiscardWsAlmostDone || p.state == HeaderAlmostDone || p.state == HeaderValueLws
            ==> NoData(PassFieldValue(p, ch))
    ensures p.state == HeadersAlmostDone || p.state == HeadersDone ==> NoData(PassFieldName(p, ch))
    ensures p.state == MessageDone ==> NoData(PassBody(p, ch))
  {
    hide NewMessage, FinishValue;
  }

  lemma PlainChunk(p: Parser, ch: char)
    requires IsPlain(p.state) && InChunk(p.state)
    ensures NoData(PassChunk(p, ch))
  {
    hide Unhex;
  }

  /** A plain state delivers no data. */
  lemma PlainPass(p: Parser, ch: char)
    requires IsPlain(p.state)
    ensures NoData(Pass(p, ch))
  {
    hide Pass, PassStatusLine, PassRequestTarget, PassVersion, PassFieldName, PassFieldValue, PassChunk, PassBody,
      NoData;
    if InFirstLine(p.state) {
      RouteFirstLine(p, ch);
      if InStatusLine(p.state) {
        PlainStatusLine(p, ch);
      } else if p.state == StartReq || p.state == ReqMethod {
        PlainTarget(p, ch);
      } else {
        PlainVersion(p, ch);
      }
    } else if p.state == Dead {
      RouteRest(p, ch);
      PlainDead(p, ch);
    } else {
      RouteRest(p, ch);
      PlainLater(p, ch);
      if InChunk(p.state) { PlainChunk(p, ch); }
    }
  }

  lemma PlainDead(p: Parser, ch: char)
    ensures NoData(Expect(p, ch == CR || ch == LF, Dead, CLOSED_CONNECTION))
  {}

  /** A data state neither leaves the parser nor fails without a reason. */
  predicate Proper(o: Outcome) { !o.Exit? && o != Fail(OK) }

  lemma TargetProper(p: Parser, ch: char)
    requires p.state == ReqSpacesBeforeUrl || InUrl(p.state)
    ensures Proper(PassRequestTarget(p, ch))
  {
    hide ParseUrlChar, MethodString, Correct, FirstGuess;
  }

  lemma StatusProper(p: Parser, ch: char)
    requires p.state == ResStatusStart || p.state == ResStatus
    ensures Proper(PassStatusLine(p, ch))
  {}

  lemma LineProper(p: Parser, ch: char)
    ensures p.state == HeaderFieldStart ==> Proper(PassFieldName(p, ch))
    ensures p.state == HeaderValueDiscardWs || p.state == HeaderValueStart || p.state == HeaderValueDiscardLws ==>
              Proper(PassFieldValue(p, ch))
    ensures p.state == ChunkDataAlmostDone ==> Proper(PassChunk(p, ch))
  {
    hide FinishValue, Lower, TokenOf, IsToken, Unhex;
  }

  lemma DataPass(p: Parser, ch: char)
    requires !IsPlain(p.state) && !IsBulk(p.state)
    ensures var o := Pass(p, ch); !o.Exit? && o != Fail(OK)
  {
    RouteData(p, ch);
    hide Pass, PassStatusLine, PassRequestTarget, PassFieldName, PassFieldValue, PassChunk, InUrl;
    LineProper(p, ch);
    if p.state == ReqSpacesBeforeUrl || InUrl(p.state) { TargetProper(p, ch); }
    if p.state == ResStatusStart || p.state == ResStatus { StatusProper(p, ch); }
  }

  predicate IsPlain(s: State) {
    && s != ResStatusStart && s != ResStatus && s != ReqSpacesBeforeUrl && !InUrl(s)
    && s != HeaderFieldStart && s != HeaderField
    && s != HeaderValueDiscardWs && s != HeaderValueDiscardLws && s != HeaderValueStart && s != HeaderValue
    && s != ChunkData && s != ChunkDataAlmostDone && s != BodyIdentity && s != BodyIdentityEof
  }

  lemma Strict(v: Parser, calls: seq<Event>)
    ensures Mirrors(Outcome.Fail(STRICT), Error, v, calls, calls, STRICT)
  {}

  lemma MirrorsFail(o: Outcome, v: Parser, before: seq<Event>, calls: seq<Event>, m: Marks, data: seq<char>, p: nat,
                    e: Errno)
    requires p < |data| && o == Outcome.Fail(e)
    ensures MirrorsData(o, Error, v, before, calls, m, data, p, e)
  {}

  lemma MirrorsNext(o: Outcome, v: Parser, out: Option<Event>, before: seq<Event>, calls: seq<Event>, m: Marks,
                    data: seq<char>, p: nat)
    requires p < |data| && o == Consumed(v, out) && MarksFit(v.state, m, p + 1)
    requires Joined(calls, m, data, p + 1) == PushOpt(before, out)
    ensures MirrorsData(o, Next, v, before, calls, m, data, p, OK)
  {}

  /** Everything pending has been delivered, and no data is in progress. */
  lemma MirrorsFlushed(o: Outcome, v: Parser, before: seq<Event>, calls: seq<Event>, data: seq<char>, p: nat)
    requires p < |data| && o == Consumed(v, None) && Resumed(v.state) == None && Join(calls) == before
    ensures MirrorsData(o, Next, v, before, calls, NO_MARKS, data, p, OK)
  {
    hide Join, Joined;
    JoinedNone(calls, data, p + 1);
  }

  /** Data starts with the byte at `p`. */
  lemma MirrorsStarted(o: Outcome, v: Parser, kind: DataKind, calls: seq<Event>, data: seq<char>, p: nat)
    requires p < |data| && o == Consumed(v, Some(Data(kind, [data[p]]))) && Resumed(v.state) == Some(kind)
    ensures MirrorsData(o, Next, v, Joined(calls, NO_MARKS, data, p), calls, MarkOf(kind, p), data, p, OK)
  {
    hide Join, Joined, Push;
    OneByte(data, p);
    JoinedNone(calls, data, p);
    JoinedMark(calls, kind, p, data, p + 1);
  }

  /** Data starts before the byte at `p`, and none of it is there yet. */
  lemma MirrorsStartedAgain(o: Outcome, v: Parser, kind: DataKind, calls: seq<Event>, data: seq<char>, p: nat)
    requires p < |data| && o == Again(v, Some(Data(kind, []))) && Resumed(v.state) == Some(kind)
    ensures MirrorsData(o, Reexecute, v, Joined(calls, NO_MARKS, data, p), calls, MarkOf(kind, p), data, p, OK)
  {
    hide Join, Joined, Push;
    assert data[p..p] == [];
    JoinedNone(calls, data, p);
    JoinedMark(calls, kind, p, data, p);
  }

  /** Data goes on with the byte at `p`. */
  lemma MirrorsExtended(o: Outcome, v: Parser, kind: DataKind, k: nat, calls: seq<Event>, data: seq<char>, p: nat)
    requires k <= p < |data| && o == Consumed(v, Some(Data(kind, [data[p]]))) && Resumed(v.state) == Some(kind)
    ensures MirrorsData(o, Next, v, Joined(calls, MarkOf(kind, k), data, p), calls, MarkOf(kind, k), data, p, OK)
  {
    hide Join, Joined, Push;
    OneByte(data, p);
    JoinedExtend(calls, kind, k, data, p, p + 1);
  }

  /** No data before and after the byte at `p`. */
  lemma MirrorsPlain(o: Outcome, v: Parser, calls: seq<Event>, data: seq<char>, p: nat)
    requires p < |data| && (o == Consumed(v, None) || o == Again(v, None)) && Resumed(v.state) == None
    ensures MirrorsData(o, ActionOf(o), v, Joined(calls, NO_MARKS, data, p), calls, NO_MARKS, data, p, OK)
  {
    hide Join, Joined, Push;
    JoinedNone(calls, data, p);
    JoinedNone(calls, data, p + 1);
  }

  /** Empty data has been delivered before the byte at `p`. */
  lemma EmptyDelivered(o: Outcome, v: Parser, before: seq<Event>, calls: seq<Event>, data: seq<char>, p: nat)
    requires p < |data| && o == Again(v, Some(Data(ValueData, []))) && Resumed(v.state) == None
    requires Join(calls) == Joined(before, MarkOf(ValueData, p), data, p)
    ensures MirrorsData(o, Reexecute, v, Joined(before, NO_MARKS, data, p), calls, NO_MARKS, data, p, OK)
  {
    hide Join, Joined, Push;
    assert data[p..p] == [];
    JoinedNone(before, data, p);
    JoinedNone(calls, data, p);
    JoinedMark(before, ValueData, p, data, p);
  }

  /** A pass after the line of an empty value. */
  lemma EmptyPass(v: Parser, ch: char)
    requires v.state == HeaderValueDiscardLws
    ensures var blank := ch == ' ' || ch == TAB;
            var o := PassFieldValue(v, ch);
            && (blank ==> o == Consumed(v.(state := HeaderValueDiscardWs), None))
            && (!blank && v.headerState == ContentLength ==> o == Outcome.Fail(INVALID_CONTENT_LENGTH))
            && (!blank && v.headerState != ContentLength ==>
                  o == Again(v.(flags := FinishValue(v.flags, v.headerState), state := HeaderFieldStart),
                             Some(Data(ValueData, []))))
  {
    hide FinishValue;
  }

  /** The value matcher for the first byte of a value after a name other than Content-Length. */
  function FirstMatcher(h: HeaderState, c: char): HeaderState {
    match h
    case TransferEncoding => if c == 'c' then MatchingTransferEncodingChunked else General
    case Connection => ConnectionToken(c, MatchingConnectionToken)
    case ContentLengthWs | MatchingConnectionTokenStart => h
    case _ => General
  }

  lemma FirstValueIs(v: Parser, ch: char)
    ensures var q := v.(state := HeaderValue, index := 0);
            var o := FirstValueByte(v, ch);
            if v.headerState != ContentLength then
              o == Consumed(q.(headerState := FirstMatcher(v.headerState, Lower(ch)),
                               flags := if v.headerState == Upgrade then q.flags.(upgrade := true) else q.flags),
                            Some(Data(ValueData, [ch])))
            else if !IsNum(ch) then o == Fail(INVALID_CONTENT_LENGTH)
            else if v.flags.contentLength then o == Fail(UNEXPECTED_CONTENT_LENGTH)
            else o == Consumed(q.(flags := q.flags.(contentLength := true), contentLength := Digit(ch),
                                  headerState := ContentLengthNum), Some(Data(ValueData, [ch])))
  {
    hide Lower, ConnectionToken;
  }

  lemma FieldStartPass(v: Parser, ch: char)
    requires v.state == HeaderFieldStart
    ensures PassFieldName(v, ch) ==
            if ch == CR then Consumed(v.(state := HeadersAlmostDone), None)
            else if ch == LF then Again(v.(state := HeadersAlmostDone), None)
            else if !IsToken(ch) then Fail(INVALID_HEADER_TOKEN)
            else Consumed(v.(state := HeaderField, index := 0, headerState := FirstFieldByte(TokenOf(ch))),
                          Some(Data(FieldData, [ch])))
  {
    hide IsToken, TokenOf, FirstFieldByte;
  }

  lemma HeadersAlmostPass(v: Parser, ch: char)
    requires v.state == HeadersAlmostDone
    ensures PassFieldName(v, ch) == if ch != LF then Fail(STRICT) else EndOfHeaders(v)
  {
    hide EndOfHeaders;
  }

  lemma HeadersDonePass(v: Parser, ch: char)
    requires v.state == HeadersDone
    ensures PassFieldName(v, ch) == if ch != LF then Fail(STRICT) else AfterHeaders(v)
  {
    hide AfterHeaders;
  }

  lemma ChunkLinePass(v: Parser, ch: char)
    requires v.state == ChunkParameters || v.state == ChunkSizeAlmostDone
    ensures v.state == ChunkParameters ==>
              PassChunk(v, ch) == Consumed(if ch == CR then v.(state := ChunkSizeAlmostDone) else v, None)
    ensures v.state == ChunkSizeAlmostDone ==>
              PassChunk(v, ch) ==
              if ch != LF then Fail(STRICT)
              else if v.contentLength == 0
              then Consumed(v.(nread := 0, flags := v.flags.(trailing := true), state := HeaderFieldStart),
                            Some(ChunkHeader(v.contentLength)))
              else Consumed(v.(nread := 0, state := ChunkData), Some(ChunkHeader(v.contentLength)))
  {
    hide Unhex;
  }

  lemma UrlByteMirrors(v: Parser, calls: seq<Event>, m: Marks, data: seq<char>, p: nat)
    requires p < |data| && m.url.Some? && m.url.value <= p && m == MarkOf(UrlData, m.url.value)
    ensures var w := v.(state := ParseUrlChar(v.state, data[p]));
            MirrorsData(UrlByte(v, data[p]), if w.state == Dead then Error else Next, w, Joined(calls, m, data, p),
                        calls, m,
                        data, p, if w.state == Dead then INVALID_URL else OK)
  {
    hide ParseUrlChar, MirrorsData, Joined, MarksFit, MarkOf, Push;
    var w := v.(state := ParseUrlChar(v.state, data[p]));
    if w.state == Dead {
      MirrorsFail(UrlByte(v, data[p]), w, Joined(calls, m, data, p), calls, m, data, p, INVALID_URL);
    } else {
      OneByte(data, p);
      JoinedExtend(calls, UrlData, m.url.value, data, p, p + 1);
      UrlStays(v.state, data[p]);
      UrlMarkFits(w.state, m.url.value, p + 1);
      MirrorsNext(UrlByte(v, data[p]), w, Some(Data(UrlData, [data[p]])), Joined(calls, m, data, p), calls, m, data, p);
    }
  }

  predicate InScheme(s: State) { s.ReqSchema? || s.ReqSchemaSlash? || s.ReqSchemaSlashSlash? || s.ReqServerStart? }

  lemma UrlEnds()
    ensures Resumed(ReqHttpStart) == None == Resumed(ReqLineAlmostDone) == Resumed(HeaderFieldStart)
  {}

  /** A pass in a URL state. */
  lemma UrlPass(v: Parser, ch: char)
    requires InUrl(v.state)
    ensures var o := PassRequestTarget(v, ch);
            if InScheme(v.state) && (ch == ' ' || ch == CR || ch == LF) then o == Fail(INVALID_URL)
            else if !InScheme(v.state) && ch == ' ' then o == Consumed(v.(state := ReqHttpStart), None)
            else if !InScheme(v.state) && ch == CR then
              o == Consumed(v.(major := 0, minor := 9, state := ReqLineAlmostDone), None)
            else if !InScheme(v.state) && ch == LF then
              o == Consumed(v.(major := 0, minor := 9, state := HeaderFieldStart), None)
            else o == UrlByte(v, ch)
  {
    hide ParseUrlChar, MethodString, Correct, FirstGuess;
    if ch == ' ' || ch == CR || ch == LF { NoBlankInUrl(v.state, ch); }
  }
}
