/** The byte-at-a-time automaton that `http_parser_execute` is meant to behave as: no bulk loops,
    no marks, no jumps; every byte is counted and delivered on its own. */
module HttpAutomaton {
  import opened Options
  import opened HttpTypes

  /** What one pass of the automaton over the current byte does: take the byte, look at it again in
      another state, leave because the rest is another protocol, or fail. */
  datatype Outcome =
    | Consumed(p: Parser, out: Option<Event>)
    | Again(p: Parser, out: Option<Event>)
    | Exit(p: Parser, out: Option<Event>)
    | Fail(e: Errno)

  /** Bounds the passes over one byte. */
  function Rank(s: State): nat {
    match s
    case ResStatusCode | HeaderField | HeaderValueDiscardLws | HeaderValueLws | HeaderValue | BodyIdentity => 4
    case HeaderFieldStart | ResStatusStart => 3
    case HeadersAlmostDone => 2
    case _ => 1
  }

  /** The header-name matcher on one token byte. */
  function FieldByte(h: HeaderState, index: nat, c: char): (HeaderState, nat) {
    match h
    case C => (if c == 'o' then CO else General, index + 1)
    case CO => (if c == 'n' then CON else General, index + 1)
    case CON =>
      (if c == 'n' then MatchingConnection else if c == 't' then MatchingContentLength else General, index + 1)
    case MatchingConnection => (MatchNext(CONNECTION, index + 1, c, h, Connection, General), index + 1)
    case MatchingProxyConnection => (MatchNext(PROXY_CONNECTION, index + 1, c, h, Connection, General), index + 1)
    case MatchingContentLength => (MatchNext(CONTENT_LENGTH, index + 1, c, h, ContentLength, General), index + 1)
    case MatchingTransferEncoding =>
      (MatchNext(TRANSFER_ENCODING, index + 1, c, h, TransferEncoding, General), index + 1)
    case MatchingUpgrade => (MatchNext(UPGRADE, index + 1, c, h, Upgrade, General), index + 1)
    case _ => (General, index)
  }

  /** One step of a constant-string matcher: on to `done` at the last character, to `other` on a mismatch. */
  function MatchNext(word: string, i: nat, c: char, same: HeaderState, done: HeaderState, other: HeaderState)
    : (r: HeaderState)
    ensures r == other || r == done || (r == same && (i < |word| ==> i + 1 < |word|))
  {
    if i > |word| || c != At(word, i) then other else if i == |word| - 1 then done else same
  }

  function FirstFieldByte(c: char): HeaderState {
    match c
    case 'c' => C
    case 'p' => MatchingProxyConnection
    case 't' => MatchingTransferEncoding
    case 'u' => MatchingUpgrade
    case _ => General
  }

  /** Which token of a Connection header starts with `c`. */
  function ConnectionToken(c: char, other: HeaderState): HeaderState {
    match c
    case 'k' => MatchingConnectionKeepAlive
    case 'c' => MatchingConnectionClose
    case 'u' => MatchingConnectionUpgrade
    case _ => other
  }

  /** The flags a finished header value or Connection token sets. */
  function FinishValue(f: Flags, h: HeaderState): Flags {
    match h
    case ConnectionKeepAlive => f.(keepAlive := true)
    case ConnectionClose => f.(close := true)
    case ConnectionUpgrade => f.(connectionUpgrade := true)
    case TransferEncodingChunked => f.(chunked := true)
    case _ => f
  }

  /** The first byte of a header value, or the blank that continues a folded one. */
  function FirstValueByte(p: Parser, ch: char): Outcome {
    var c := Lower(ch);
    var q := p.(state := HeaderValue, index := 0);
    var out := Some(Data(ValueData, [ch]));
    match p.headerState
    case Upgrade => Consumed(q.(flags := q.flags.(upgrade := true), headerState := General), out)
    case TransferEncoding =>
      Consumed(q.(headerState := if c == 'c' then MatchingTransferEncodingChunked else General), out)
    case ContentLength =>
      if !IsNum(ch) then Fail(INVALID_CONTENT_LENGTH)
      else if p.flags.contentLength then Fail(UNEXPECTED_CONTENT_LENGTH)
      else Consumed(q.(flags := q.flags.(contentLength := true), contentLength := Digit(ch),
                       headerState := ContentLengthNum), out)
    case ContentLengthWs => Consumed(q, out)
    case Connection => Consumed(q.(headerState := ConnectionToken(c, MatchingConnectionToken)), out)
    case MatchingConnectionTokenStart => Consumed(q, out)
    case _ => Consumed(q.(headerState := General), out)
  }

  /** The part of the parser that the bytes of a header value act on. */
  datatype ValueState = ValueState(headerState: HeaderState, index: nat, flags: Flags, contentLength: int)

  function ValueOf(p: Parser): ValueState {
    ValueState(p.headerState, p.index, p.flags, p.contentLength)
  }

  function SetValue(p: Parser, v: ValueState): Parser {
    p.(headerState := v.headerState, index := v.index, flags := v.flags, contentLength := v.contentLength)
  }

  /** A further byte of a header value, not CR or LF. None when a content length is malformed or too big. */
  function ValueByte(v: ValueState, ch: char): Option<ValueState> {
    var c := Lower(ch);
    var i := v.index + 1;
    match v.headerState
    case ContentLength | ContentLengthNum =>
      if ch == ' ' then
        Some(v.(headerState := if v.headerState == ContentLength then ContentLength else ContentLengthWs))
      else if !IsNum(ch) || v.contentLength > (ULLONG_MAX - 10) / 10 then None
      else Some(v.(headerState := ContentLengthNum, contentLength := v.contentLength * 10 + Digit(ch)))
    case ContentLengthWs => if ch == ' ' then Some(v) else None
    case MatchingTransferEncodingChunked =>
      Some(v.(index := i, headerState := MatchNext(CHUNKED, i, c, v.headerState, TransferEncodingChunked, General)))
    case MatchingConnectionTokenStart =>
      Some(v.(headerState := ConnectionToken(c, if IsToken(c) then MatchingConnectionToken
                                                else if c == ' ' || c == TAB then MatchingConnectionTokenStart
                                                else General)))
    case MatchingConnectionKeepAlive =>
      Some(v.(index := i, headerState :=
                MatchNext(KEEP_ALIVE, i, c, v.headerState, ConnectionKeepAlive, MatchingConnectionToken)))
    case MatchingConnectionClose =>
      Some(v.(index := i, headerState :=
                MatchNext(CLOSE, i, c, v.headerState, ConnectionClose, MatchingConnectionToken)))
    case MatchingConnectionUpgrade =>
      Some(v.(index := i, headerState :=
                MatchNext(UPGRADE, i, c, v.headerState, ConnectionUpgrade, MatchingConnectionToken)))
    case MatchingConnectionToken =>
      if ch == ',' then Some(v.(headerState := MatchingConnectionTokenStart, index := 0)) else Some(v)
    case TransferEncodingChunked => if ch != ' ' then Some(v.(headerState := General)) else Some(v)
    case ConnectionKeepAlive | ConnectionClose | ConnectionUpgrade =>
      if ch == ',' then
        Some(v.(flags := FinishValue(v.flags, v.headerState), headerState := MatchingConnectionTokenStart, index := 0))
      else if ch != ' ' then Some(v.(headerState := MatchingConnectionToken))
      else Some(v)
    case Connection | TransferEncoding => Some(v)
    case _ => Some(v.(headerState := General))
  }

  function Complete(p: Parser): Outcome {
    Consumed(p.(state := NewMessage(p)), Some(MessageComplete))
  }

  /** The blank line after the headers has been seen. */
  function AfterHeaders(p: Parser): Outcome {
    var q := p.(nread := 0);
    var hasBody := p.flags.chunked || (p.contentLength > 0 && p.contentLength != ULLONG_MAX);
    if p.upgrade && (p.verb == CONNECT || p.flags.skipBody || !hasBody) then
      Exit(q.(state := NewMessage(q)), Some(MessageComplete))
    else if p.flags.skipBody then Complete(q)
    else if p.flags.chunked then Consumed(q.(state := ChunkSizeStart), None)
    else if p.contentLength == 0 then Complete(q)
    else if p.contentLength != ULLONG_MAX then Consumed(q.(state := BodyIdentity), None)
    else if !NeedsEof(q) then Complete(q)
    else Consumed(q.(state := BodyIdentityEof), None)
  }

  /** CR or LF at the end of the header section. */
  function EndOfHeaders(p: Parser): Outcome {
    if p.flags.trailing then Again(p.(state := MessageDone), Some(ChunkComplete))
    else if p.flags.chunked && p.flags.contentLength then Fail(UNEXPECTED_CONTENT_LENGTH)
    else
      var up := if p.flags.upgrade && p.flags.connectionUpgrade
                then p.kind == Request || p.statusCode == 101
                else p.verb == CONNECT;
      Again(p.(state := HeadersDone, upgrade := up), Some(HeadersComplete))
  }

  function Expect(p: Parser, good: bool, next: State, e: Errno): Outcome {
    if good then Consumed(p.(state := next), None) else Fail(e)
  }

  function UrlByte(p: Parser, ch: char): Outcome {
    var s := ParseUrlChar(p.state, ch);
    if s == Dead then Fail(INVALID_URL) else Consumed(p.(state := s), Some(Data(UrlData, [ch])))
  }

  /** The status line of a response. */
  function PassStatusLine(p: Parser, ch: char): (o: Outcome)
    ensures o.Again? ==> Rank(o.p.state) < Rank(p.state)
  {
    match p.state
    case StartRes =>
      if ch == CR || ch == LF then Consumed(p, None)
      else if ch != 'H' then Fail(INVALID_CONSTANT)
      else Consumed(p.(flags := NO_FLAGS, contentLength := ULLONG_MAX, state := ResH), Some(MessageBegin))
    case ResH => Expect(p, ch == 'T', ResHT, STRICT)
    case ResHT => Expect(p, ch == 'T', ResHTT, STRICT)
    case ResHTT => Expect(p, ch == 'P', ResHTTP, STRICT)
    case ResHTTP => Expect(p, ch == '/', ResHttpMajor, STRICT)
    case ResHttpMajor => Expect(p.(major := Digit(ch)), IsNum(ch), ResHttpDot, INVALID_VERSION)
    case ResHttpDot => Expect(p, ch == '.', ResHttpMinor, INVALID_VERSION)
    case ResHttpMinor => Expect(p.(minor := Digit(ch)), IsNum(ch), ResHttpEnd, INVALID_VERSION)
    case ResHttpEnd => Expect(p, ch == ' ', ResFirstStatusCode, INVALID_VERSION)
    case ResFirstStatusCode =>
      if IsNum(ch) then Consumed(p.(statusCode := Digit(ch), state := ResStatusCode), None)
      else if ch == ' ' then Consumed(p, None) else Fail(INVALID_STATUS)
    case ResStatusCode =>
      if IsNum(ch) then
        var code := p.statusCode * 10 + Digit(ch);
        if code > 999 then Fail(INVALID_STATUS) else Consumed(p.(statusCode := code), None)
      else if ch == ' ' then Consumed(p.(state := ResStatusStart), None)
      else if ch == CR || ch == LF then Again(p.(state := ResStatusStart), None)
      else Fail(INVALID_STATUS)
    case ResStatusStart =>
      var q := p.(state := ResStatus, index := 0);
      if ch == CR || ch == LF then Again(q, Some(Data(StatusData, [])))
      else Consumed(q, Some(Data(StatusData, [ch])))
    case ResStatus =>
      if ch == CR then Consumed(p.(state := ResLineAlmostDone), None)
      else if ch == LF then Consumed(p.(state := HeaderFieldStart), None)
      else Consumed(p, Some(Data(StatusData, [ch])))
    case ResLineAlmostDone => Expect(p, ch == LF, HeaderFieldStart, STRICT)
    case _ => Fail(OK)
  }

  /** Method and URL of a request. */
  function PassRequestTarget(p: Parser, ch: char): (o: Outcome)
    ensures o.Again? ==> Rank(o.p.state) < Rank(p.state)
  {
    match p.state
    case StartReq =>
      if ch == CR || ch == LF then Consumed(p, None)
      else if !IsAlpha(ch) || FirstGuess(ch).None? then Fail(INVALID_METHOD)
      else Consumed(p.(flags := NO_FLAGS, contentLength := ULLONG_MAX, verb := FirstGuess(ch).value, index := 1,
                       state := ReqMethod), Some(MessageBegin))
    case ReqMethod =>
      var next := At(MethodString(p.verb), p.index);
      var q := p.(index := p.index + 1);
      if ch == '\0' then Fail(INVALID_METHOD)
      else if ch == ' ' && next == '\0' then Consumed(q.(state := ReqSpacesBeforeUrl), None)
      else if ch == next then Consumed(q, None)
      else if ('A' <= ch <= 'Z' || ch == '-') && Correct(p.verb, p.index, ch).Some?
      then Consumed(q.(verb := Correct(p.verb, p.index, ch).value), None)
      else Fail(INVALID_METHOD)
    case ReqSpacesBeforeUrl =>
      if ch == ' ' then Consumed(p, None)
      else UrlByte(if p.verb == CONNECT then p.(state := ReqServerStart) else p, ch)
    case ReqSchema | ReqSchemaSlash | ReqSchemaSlashSlash | ReqServerStart => UrlByte(p, ch)
    case ReqServer | ReqServerWithAt | ReqPath | ReqQueryStringStart | ReqQueryString | ReqFragmentStart
      | ReqFragment =>
      if ch == ' ' then Consumed(p.(state := ReqHttpStart), None)
      else if ch == CR then Consumed(p.(major := 0, minor := 9, state := ReqLineAlmostDone), None)
      else if ch == LF then Consumed(p.(major := 0, minor := 9, state := HeaderFieldStart), None)
      else UrlByte(p, ch)
    case _ => Fail(OK)
  }

  /** The version of a request line. */
  function PassVersion(p: Parser, ch: char): (o: Outcome)
    ensures o.Again? ==> Rank(o.p.state) < Rank(p.state)
  {
    match p.state
    case ReqHttpStart =>
      if ch == ' ' then Consumed(p, None)
      else if ch == 'H' then Consumed(p.(state := ReqHttpH), None)
      else Expect(p, ch == 'I' && p.verb == SOURCE, ReqHttpI, INVALID_CONSTANT)
    case ReqHttpH => Expect(p, ch == 'T', ReqHttpHT, STRICT)
    case ReqHttpHT => Expect(p, ch == 'T', ReqHttpHTT, STRICT)
    case ReqHttpHTT => Expect(p, ch == 'P', ReqHttpHTTP, STRICT)
    case ReqHttpI => Expect(p, ch == 'C', ReqHttpIC, STRICT)
    case ReqHttpIC => Expect(p, ch == 'E', ReqHttpHTTP, STRICT)
    case ReqHttpHTTP => Expect(p, ch == '/', ReqHttpMajor, STRICT)
    case ReqHttpMajor => Expect(p.(major := Digit(ch)), IsNum(ch), ReqHttpDot, INVALID_VERSION)
    case ReqHttpDot => Expect(p, ch == '.', ReqHttpMinor, INVALID_VERSION)
    case ReqHttpMinor => Expect(p.(minor := Digit(ch)), IsNum(ch), ReqHttpEnd, INVALID_VERSION)
    case ReqHttpEnd =>
      if ch == CR then Consumed(p.(state := ReqLineAlmostDone), None)
      else Expect(p, ch == LF, HeaderFieldStart, INVALID_VERSION)
    case ReqLineAlmostDone => Expect(p, ch == LF, HeaderFieldStart, LF_EXPECTED)
    case _ => Fail(OK)
  }

  /** Header names and the end of the header section. */
  function PassFieldName(p: Parser, ch: char): (o: Outcome)
    ensures o.Again? ==> Rank(o.p.state) < Rank(p.state)
  {
    match p.state
    case HeaderFieldStart =>
      if ch == CR then Consumed(p.(state := HeadersAlmostDone), None)
      else if ch == LF then Again(p.(state := HeadersAlmostDone), None)
      else if !IsToken(ch) then Fail(INVALID_HEADER_TOKEN)
      else Consumed(p.(state := HeaderField, index := 0, headerState := FirstFieldByte(TokenOf(ch))),
                    Some(Data(FieldData, [ch])))
    case HeaderField =>
      if IsToken(ch) then
        var (h, i) := FieldByte(p.headerState, p.index, TokenOf(ch));
        Consumed(p.(headerState := h, index := i), Some(Data(FieldData, [ch])))
      else Expect(p, ch == ':', HeaderValueDiscardWs, INVALID_HEADER_TOKEN)
    case HeadersAlmostDone => if ch != LF then Fail(STRICT) else EndOfHeaders(p)
    case HeadersDone => if ch != LF then Fail(STRICT) else AfterHeaders(p)
    case _ => Fail(OK)
  }

  /** Header values, folded lines included. */
  function PassFieldValue(p: Parser, ch: char): (o: Outcome)
    ensures o.Again? ==> Rank(o.p.state) < Rank(p.state)
  {
    match p.state
    case HeaderValueDiscardWs =>
      if ch == ' ' || ch == TAB then Consumed(p, None)
      else if ch == CR then Consumed(p.(state := HeaderValueDiscardWsAlmostDone), None)
      else if ch == LF then Consumed(p.(state := HeaderValueDiscardLws), None)
      else FirstValueByte(p, ch)
    case HeaderValueDiscardWsAlmostDone => Expect(p, ch == LF, HeaderValueDiscardLws, STRICT)
    case HeaderValueDiscardLws =>
      if ch == ' ' || ch == TAB then Consumed(p.(state := HeaderValueDiscardWs), None)
      else if p.headerState == ContentLength then Fail(INVALID_CONTENT_LENGTH)
      else Again(p.(flags := FinishValue(p.flags, p.headerState), state := HeaderFieldStart), Some(Data(ValueData, [])))
    case HeaderValueStart => FirstValueByte(p, ch)
    case HeaderValue =>
      if ch == CR then Consumed(p.(state := HeaderAlmostDone), None)
      else if ch == LF then Again(p.(state := HeaderAlmostDone), None)
      else if !IsHeaderChar(ch) then Fail(INVALID_HEADER_TOKEN)
      else (match ValueByte(ValueOf(p), ch)
            case None => Fail(INVALID_CONTENT_LENGTH)
            case Some(v) => Consumed(SetValue(p, v), Some(Data(ValueData, [ch]))))
    case HeaderAlmostDone => Expect(p, ch == LF, HeaderValueLws, LF_EXPECTED)
    case HeaderValueLws =>
      if ch == ' ' || ch == TAB then
        Again(p.(headerState := if p.headerState == ContentLengthNum then ContentLengthWs else p.headerState,
                 state := HeaderValueStart), None)
      else Again(p.(flags := FinishValue(p.flags, p.headerState), state := HeaderFieldStart), None)
    case _ => Fail(OK)
  }

  /** The chunked transfer coding. */
  function PassChunk(p: Parser, ch: char): (o: Outcome)
    ensures o.Again? ==> Rank(o.p.state) < Rank(p.state)
  {
    match p.state
    case ChunkSizeStart =>
      Expect(p.(contentLength := Unhex(ch)), Unhex(ch) != -1, ChunkSize, INVALID_CHUNK_SIZE)
    case ChunkSize =>
      if ch == CR then Consumed(p.(state := ChunkSizeAlmostDone), None)
      else if Unhex(ch) == -1 then Expect(p, ch == ';' || ch == ' ', ChunkParameters, INVALID_CHUNK_SIZE)
      else if p.contentLength > (ULLONG_MAX - 16) / 16 then Fail(INVALID_CONTENT_LENGTH)
      else Consumed(p.(contentLength := p.contentLength * 16 + Unhex(ch)), None)
    case ChunkParameters => Consumed(if ch == CR then p.(state := ChunkSizeAlmostDone) else p, None)
    case ChunkSizeAlmostDone =>
      if ch != LF then Fail(STRICT)
      else
        var q := p.(nread := 0);
        Consumed(if p.contentLength == 0
                 then q.(flags := q.flags.(trailing := true), state := HeaderFieldStart)
                 else q.(state := ChunkData),
                 Some(ChunkHeader(p.contentLength)))
    case ChunkData =>
      var left := p.contentLength - 1;
      Consumed(p.(contentLength := left, state := if left == 0 then ChunkDataAlmostDone else ChunkData),
               Some(Data(BodyData, [ch])))
    case ChunkDataAlmostDone => Expect(p, ch == CR, ChunkDataDone, STRICT)
    case ChunkDataDone =>
      if ch != LF then Fail(STRICT) else Consumed(p.(nread := 0, state := ChunkSizeStart), Some(ChunkComplete))
    case _ => Fail(OK)
  }

  /** Identity bodies and the end of a message. */
  function PassBody(p: Parser, ch: char): (o: Outcome)
    ensures o.Again? ==> Rank(o.p.state) < Rank(p.state)
  {
    match p.state
    case BodyIdentity =>
      var left := p.contentLength - 1;
      var out := Some(Data(BodyData, [ch]));
      if left == 0 then Again(p.(contentLength := left, state := MessageDone), out)
      else Consumed(p.(contentLength := left), out)
    case BodyIdentityEof => Consumed(p, Some(Data(BodyData, [ch])))
    case MessageDone =>
      var q := p.(state := NewMessage(p));
      if p.upgrade then Exit(q, Some(MessageComplete)) else Consumed(q, Some(MessageComplete))
    case _ => Fail(OK)
  }

  /** One pass over byte `ch`. */
  function Pass(p: Parser, ch: char): (o: Outcome)
    ensures o.Again? ==> Rank(o.p.state) < Rank(p.state)
  {
    match p.state
    case Dead => Expect(p, ch == CR || ch == LF, Dead, CLOSED_CONNECTION)
    case StartRes | ResH | ResHT | ResHTT | ResHTTP | ResHttpMajor | ResHttpDot | ResHttpMinor | ResHttpEnd |
      ResFirstStatusCode | ResStatusCode | ResStatusStart | ResStatus | ResLineAlmostDone =>
      PassStatusLine(p, ch)
    case StartReq | ReqMethod | ReqSpacesBeforeUrl | ReqSchema | ReqSchemaSlash | ReqSchemaSlashSlash |
      ReqServerStart | ReqServer | ReqServerWithAt | ReqPath | ReqQueryStringStart | ReqQueryString |
      ReqFragmentStart | ReqFragment =>
      PassRequestTarget(p, ch)
    case ReqHttpStart | ReqHttpH | ReqHttpHT | ReqHttpHTT | ReqHttpI | ReqHttpIC | ReqHttpHTTP | ReqHttpMajor
      | ReqHttpDot | ReqHttpMinor | ReqHttpEnd | ReqLineAlmostDone =>
      PassVersion(p, ch)
    case HeaderFieldStart | HeaderField | HeadersAlmostDone | HeadersDone =>
      PassFieldName(p, ch)
    case HeaderValueDiscardWs | HeaderValueDiscardWsAlmostDone | HeaderValueDiscardLws | HeaderValueStart |
      HeaderValue | HeaderAlmostDone | HeaderValueLws =>
      PassFieldValue(p, ch)
    case ChunkSizeStart | ChunkSize | ChunkParameters | ChunkSizeAlmostDone | ChunkData | ChunkDataAlmostDone
      | ChunkDataDone =>
      PassChunk(p, ch)
    case BodyIdentity | BodyIdentityEof | MessageDone =>
      PassBody(p, ch)
  }

  // ---------- runs ----------

  /** A parser, the joined callback trace so far and the number of bytes consumed. */
  datatype Config = Config(p: Parser, t: seq<Event>, n: nat)

  datatype Run = Going(c: Config) | Exited(c: Config) | Failed

  /** Passes over byte `ch` until it is consumed. */
  function Finish(p: Parser, t: seq<Event>, n: nat, ch: char): Run
    decreases Rank(p.state)
  {
    match Pass(p, ch)
    case Consumed(q, out) => Going(Config(q, PushOpt(t, out), n + 1))
    case Again(q, out) => Finish(q, PushOpt(t, out), n, ch)
    case Exit(q, out) => Exited(Config(q, PushOpt(t, out), n + 1))
    case Fail(_) => Failed
  }

  /** Counts a header byte against `max`, then processes it. */
  function Step(max: nat, c: Config, ch: char): Run {
    if ParsingHeader(c.p.state) then
      if c.p.nread + 1 > max then Failed
      else Finish(c.p.(nread := c.p.nread + 1), c.t, c.n, ch)
    else Finish(c.p, c.t, c.n, ch)
  }

  /** The automaton run over `bs`. */
  function RunOn(max: nat, r: Run, bs: seq<char>): Run {
    if bs == [] then r
    else
      match RunOn(max, r, bs[..|bs| - 1])
      case Going(c) => Step(max, c, bs[|bs| - 1])
      case stopped => stopped
  }

  lemma {:induction false} RunAppend(max: nat, r: Run, a: seq<char>, b: seq<char>)
    ensures RunOn(max, r, a + b) == RunOn(max, RunOn(max, r, a), b)
  {
    if b == [] {
      assert a + b == a;
    } else {
      RunAppend(max, r, a, b[..|b| - 1]);
      assert (a + b)[..|a + b| - 1] == a + b[..|b| - 1];
    }
  }

  lemma RunOne(max: nat, c: Config, ch: char)
    ensures RunOn(max, Going(c), [ch]) == Step(max, c, ch)
  {
    assert [ch][..0] == [];
  }

  /** A run that has stopped stays stopped. */
  lemma {:induction false} RunStopped(max: nat, r: Run, bs: seq<char>)
    requires !r.Going?
    ensures RunOn(max, r, bs) == r
  {
    if bs != [] { RunStopped(max, r, bs[..|bs| - 1]); }
  }
}
