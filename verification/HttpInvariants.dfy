/** What every run of the automaton keeps: the facts the source asserts while parsing. */
module HttpInvariants {
  import opened Options
  import opened HttpTypes
  import opened HttpAutomaton

  /** The word a matching state compares against. */
  function Word(h: HeaderState): string {
    match h
    case MatchingConnection => CONNECTION
    case MatchingProxyConnection => PROXY_CONNECTION
    case MatchingContentLength => CONTENT_LENGTH
    case MatchingTransferEncoding => TRANSFER_ENCODING
    case MatchingUpgrade => UPGRADE
    case MatchingTransferEncodingChunked => CHUNKED
    case MatchingConnectionKeepAlive => KEEP_ALIVE
    case MatchingConnectionClose => CLOSE
    case MatchingConnectionUpgrade => UPGRADE
    case _ => ""
  }

  /** The header states a header name can be in, with the matcher inside its word. */
  predicate FieldStateOk(h: HeaderState, index: nat) {
    && index <= 16
    && match h
       case General => true
       case C => index == 0
       case CO => index == 1
       case CON => index == 2
       case MatchingConnection | MatchingProxyConnection | MatchingContentLength
         | MatchingTransferEncoding | MatchingUpgrade => index + 1 < |Word(h)|
       case Connection | ContentLength | TransferEncoding | Upgrade => true
       case _ => false
  }

  /** The header states a header value can be in. Connection and TransferEncoding are not among them. */
  predicate ValueStateOk(h: HeaderState, index: nat) {
    && index <= 16
    && match h
       case General | ContentLengthNum | ContentLengthWs | MatchingConnectionToken | TransferEncodingChunked
         | ConnectionKeepAlive | ConnectionClose | ConnectionUpgrade => true
       case MatchingConnectionTokenStart => index == 0
       case MatchingTransferEncodingChunked | MatchingConnectionKeepAlive | MatchingConnectionClose
         | MatchingConnectionUpgrade => index + 1 < |Word(h)|
       case _ => false
  }

  /** The parser invariant; `counted` is 1 once the current byte has been counted, and 0 between bytes. */
  predicate Good(max: nat, p: Parser, counted: nat) {
    && p.nread <= max
    && 0 <= p.contentLength <= ULLONG_MAX
    && 0 <= p.statusCode <= 999
    && p.index <= 16
    && (p.state == ReqMethod ==> p.index <= MethodLength(p.verb))
    && (p.state == HeaderField ==> FieldStateOk(p.headerState, p.index))
    && (p.state == HeaderValue ==> ValueStateOk(p.headerState, p.index))
    && (InChunk(p.state) ==> p.flags.chunked)
    && (p.state == ChunkSizeStart ==> p.nread == counted)
    && (p.state == ChunkSize || p.state == ChunkParameters || p.state == ChunkSizeAlmostDone
        ==> p.contentLength <= ULLONG_MAX - 16)
    && (p.state == ChunkData || p.state == BodyIdentity ==> 0 < p.contentLength < ULLONG_MAX)
    && (p.state == ChunkDataAlmostDone ==> p.contentLength == 0)
  }

  predicate InChunk(s: State) {
    s == ChunkSizeStart || s == ChunkSize || s == ChunkParameters || s == ChunkSizeAlmostDone || s == ChunkData
    || s == ChunkDataAlmostDone || s == ChunkDataDone
  }

  /** The data a call of the parser resumes in the middle of. */
  function Resumed(s: State): Option<DataKind> {
    if s == HeaderField then Some(FieldData)
    else if s == HeaderValue then Some(ValueData)
    else if InUrl(s) then Some(UrlData)
    else if s == ResStatus then Some(StatusData)
    else None
  }

  /** A trace ends with the data that the parser is in the middle of. */
  predicate TailFits(s: State, t: seq<Event>) {
    Resumed(s).Some? ==> EndsWith(t, Resumed(s).value)
  }

  lemma InitialGood(kind: MessageType, max: nat)
    ensures Good(max, InitialParser(kind), 0) && TailFits(InitialParser(kind).state, [])
  {}

  /** The length of each method's string. */
  function MethodLength(m: Method): (n: nat)
    ensures 3 <= n <= 11
  {
    match m
    case GET | PUT | ACL => 3
    case HEAD | POST | COPY | LOCK | MOVE | BIND | LINK => 4
    case TRACE | MKCOL | MERGE | PATCH | PURGE => 5
    case DELETE | SEARCH | UNLOCK | REBIND | UNBIND | REPORT | NOTIFY | UNLINK | SOURCE => 6
    case CONNECT | OPTIONS => 7
    case PROPFIND | CHECKOUT => 8
    case PROPPATCH | SUBSCRIBE => 9
    case MKACTIVITY | MSEARCH | MKCALENDAR => 10
    case UNSUBSCRIBE => 11
  }

  lemma MethodLengthFits(m: Method)
    ensures |MethodString(m)| == MethodLength(m)
  {}

  lemma CorrectIndex(m: Method, index: nat, c: char)
    requires Correct(m, index, c).Some?
    ensures index < MethodLength(Correct(m, index, c).value)
  {}

  lemma NextIndex(m: Method, index: nat, ch: char)
    requires ch == At(MethodString(m), index) && ch != '\0'
    ensures index < MethodLength(m)
  {
    MethodLengthFits(m);
  }

  lemma FirstValueByteGood(max: nat, p: Parser, ch: char)
    requires Good(max, p, 1)
    ensures var o := FirstValueByte(p, ch);
            o.Fail? || (o.Consumed? && o.p.state == HeaderValue && Good(max, o.p, 0)
                        && o.out == Some(Data(ValueData, [ch])))
  {}

  predicate Matching(h: HeaderState) {
    h == MatchingTransferEncodingChunked || h == MatchingConnectionKeepAlive || h == MatchingConnectionClose
    || h == MatchingConnectionUpgrade
  }

  predicate InLength(h: HeaderState) { h == ContentLengthNum || h == ContentLengthWs }

  predicate ValueGood(v: ValueState) {
    ValueStateOk(v.headerState, v.index) && 0 <= v.contentLength <= ULLONG_MAX
  }

  lemma MatchingByteGood(v: ValueState, ch: char)
    requires ValueGood(v) && Matching(v.headerState)
    ensures var o := ValueByte(v, ch); o.Some? && ValueGood(o.value)
  {}

  lemma LengthByteGood(v: ValueState, ch: char)
    requires ValueGood(v) && InLength(v.headerState)
    ensures var o := ValueByte(v, ch); o.Some? ==> ValueGood(o.value)
  {}

  lemma TokenByteGood(v: ValueState, ch: char)
    requires ValueGood(v) && !Matching(v.headerState) && !InLength(v.headerState)
    ensures var o := ValueByte(v, ch); o.Some? && ValueGood(o.value)
  {}

  lemma ValueByteGood(v: ValueState, ch: char)
    requires ValueGood(v)
    ensures var o := ValueByte(v, ch); o.Some? ==> ValueGood(o.value)
  {
    if Matching(v.headerState) { MatchingByteGood(v, ch); }
    else if InLength(v.headerState) { LengthByteGood(v, ch); }
    else { TokenByteGood(v, ch); }
  }

  /** One pass keeps the invariant, and data in progress has just been delivered. */
  ghost predicate PassKeeps(max: nat, o: Outcome) {
    o.Fail? || (Good(max, o.p, if o.Again? then 1 else 0) && Delivered(o.p.state, o.out))
  }

  ghost predicate Delivered(s: State, out: Option<Event>) {
    Resumed(s).Some? ==> out.Some? && out.value.Data? && out.value.kind == Resumed(s).value
  }

  /** The states the invariant says nothing about, and that are not in the middle of data. */
  predicate Quiet(s: State) {
    s != ReqMethod && s != BodyIdentity && !InChunk(s) && Resumed(s) == None
  }

  /** The part of the invariant that holds in every state. */
  predicate InRange(max: nat, p: Parser) {
    p.nread <= max && 0 <= p.contentLength <= ULLONG_MAX && 0 <= p.statusCode <= 999 && p.index <= 16
  }

  lemma GoodInRange(max: nat, p: Parser, counted: nat)
    requires Good(max, p, counted)
    ensures InRange(max, p)
  {}

  lemma FailKeeps(max: nat, o: Outcome)
    requires o.Fail?
    ensures PassKeeps(max, o)
  {}

  /** Moving to a quiet state keeps the invariant. */
  lemma QuietKeeps(max: nat, o: Outcome)
    requires !o.Fail? && InRange(max, o.p) && Quiet(o.p.state)
    ensures PassKeeps(max, o)
  {}

  predicate InStatus(s: State) {
    s == ResFirstStatusCode || s == ResStatusCode || s == ResStatusStart || s == ResStatus
  }

  lemma PassGoodStatus(max: nat, p: Parser, ch: char)
    requires Good(max, p, 1) && InStatus(p.state)
    ensures PassKeeps(max, PassStatusLine(p, ch))
  {}

  predicate InProtocolName(s: State) {
    s == StartRes || s == ResH || s == ResHT || s == ResHTT || s == ResHTTP || s == ResLineAlmostDone
  }

  lemma PassGoodProtocolName(max: nat, p: Parser, ch: char)
    requires Good(max, p, 1) && InProtocolName(p.state)
    ensures PassKeeps(max, PassStatusLine(p, ch))
  {
    GoodInRange(max, p, 1);
    hide PassKeeps, Good, Digit, IsNum;
    var o := PassStatusLine(p, ch);
    if o.Fail? { FailKeeps(max, o); } else { QuietKeeps(max, o); }
  }

  predicate InResponseVersion(s: State) { s == ResHttpMajor || s == ResHttpDot || s == ResHttpMinor || s == ResHttpEnd }

  lemma PassGoodResponse(max: nat, p: Parser, ch: char)
    requires Good(max, p, 1) && InResponseVersion(p.state)
    ensures PassKeeps(max, PassStatusLine(p, ch))
  {
    GoodInRange(max, p, 1);
    hide PassKeeps, Good, Digit, IsNum;
    var o := PassStatusLine(p, ch);
    if o.Fail? { FailKeeps(max, o); } else { QuietKeeps(max, o); }
  }

  lemma PassGoodElsewhere(max: nat, p: Parser, ch: char)
    requires !InStatus(p.state) && !InProtocolName(p.state) && !InResponseVersion(p.state)
    ensures PassKeeps(max, PassStatusLine(p, ch))
  {
    hide PassKeeps;
    FailKeeps(max, PassStatusLine(p, ch));
  }

  lemma PassGoodStatusLine(max: nat, p: Parser, ch: char)
    requires Good(max, p, 1)
    ensures PassKeeps(max, PassStatusLine(p, ch))
  {
    if InStatus(p.state) { PassGoodStatus(max, p, ch); }
    else if InProtocolName(p.state) { PassGoodProtocolName(max, p, ch); }
    else if InResponseVersion(p.state) { PassGoodResponse(max, p, ch); }
    else { PassGoodElsewhere(max, p, ch); }
  }

  predicate InHttpName(s: State) {
    s == ReqHttpStart || s == ReqHttpH || s == ReqHttpHT || s == ReqHttpHTT || s == ReqHttpI || s == ReqHttpIC
    || s == ReqHttpHTTP
  }

  lemma PassGoodHttpName(max: nat, p: Parser, ch: char)
    requires Good(max, p, 1) && InHttpName(p.state)
    ensures PassKeeps(max, PassVersion(p, ch))
  {
    GoodInRange(max, p, 1);
    hide PassKeeps, Good, Digit, IsNum;
    var o := PassVersion(p, ch);
    if o.Fail? { FailKeeps(max, o); } else { QuietKeeps(max, o); }
  }

  predicate InHttpVersion(s: State) {
    s == ReqHttpMajor || s == ReqHttpDot || s == ReqHttpMinor || s == ReqHttpEnd || s == ReqLineAlmostDone
  }

  lemma PassGoodNumbers(max: nat, p: Parser, ch: char)
    requires Good(max, p, 1) && InHttpVersion(p.state)
    ensures PassKeeps(max, PassVersion(p, ch))
  {
    GoodInRange(max, p, 1);
    hide PassKeeps, Good, Digit, IsNum;
    var o := PassVersion(p, ch);
    if o.Fail? { FailKeeps(max, o); } else { QuietKeeps(max, o); }
  }

  lemma PassGoodNoVersion(max: nat, p: Parser, ch: char)
    requires !InHttpName(p.state) && !InHttpVersion(p.state)
    ensures PassKeeps(max, PassVersion(p, ch))
  {
    hide PassKeeps;
    FailKeeps(max, PassVersion(p, ch));
  }

  lemma PassGoodVersion(max: nat, p: Parser, ch: char)
    requires Good(max, p, 1)
    ensures PassKeeps(max, PassVersion(p, ch))
  {
    hide PassVersion, PassKeeps;
    if InHttpName(p.state) { PassGoodHttpName(max, p, ch); }
    else if InHttpVersion(p.state) { PassGoodNumbers(max, p, ch); }
    else { PassGoodNoVersion(max, p, ch); }
  }

  lemma UrlStays(s: State, c: char)
    ensures ParseUrlChar(s, c) == Dead || InUrl(ParseUrlChar(s, c))
  {}

  lemma PassGoodMethod(max: nat, p: Parser, ch: char)
    requires Good(max, p, 1) && p.state == ReqMethod
    ensures PassKeeps(max, PassRequestTarget(p, ch))
  {
    if Correct(p.verb, p.index, ch).Some? { CorrectIndex(p.verb, p.index, ch); }
    if ch != '\0' && ch == At(MethodString(p.verb), p.index) { NextIndex(p.verb, p.index, ch); }
  }

  lemma UrlKeeps(max: nat, o: Outcome)
    requires o.Consumed? && InRange(max, o.p) && InUrl(o.p.state)
    requires o.out.Some? && o.out.value.Data? && o.out.value.kind == UrlData
    ensures PassKeeps(max, o)
  {}

  lemma UrlByteGood(max: nat, p: Parser, ch: char)
    requires InRange(max, p)
    ensures PassKeeps(max, UrlByte(p, ch))
  {
    UrlStays(p.state, ch);
    hide ParseUrlChar, PassKeeps, InUrl;
    var o := UrlByte(p, ch);
    if o.Fail? { FailKeeps(max, o); } else { UrlKeeps(max, o); }
  }

  lemma UrlQuiet(max: nat, p: Parser, ch: char)
    requires InRange(max, p) && InUrl(p.state)
    ensures var o := PassRequestTarget(p, ch);
            o == UrlByte(p, ch) || (o.Consumed? && InRange(max, o.p) && Quiet(o.p.state))
  {
    hide UrlByte;
  }

  lemma PassGoodInUrl(max: nat, p: Parser, ch: char)
    requires InRange(max, p) && InUrl(p.state)
    ensures PassKeeps(max, PassRequestTarget(p, ch))
  {
    UrlQuiet(max, p, ch);
    hide UrlByte, PassRequestTarget, PassKeeps, InRange, InUrl, Quiet;
    UrlByteGood(max, p, ch);
    if PassRequestTarget(p, ch) != UrlByte(p, ch) { QuietKeeps(max, PassRequestTarget(p, ch)); }
  }

  lemma PassGoodBeforeUrl(max: nat, p: Parser, ch: char)
    requires InRange(max, p) && p.state == ReqSpacesBeforeUrl
    ensures PassKeeps(max, PassRequestTarget(p, ch))
  {
    hide UrlByte, PassKeeps;
    UrlByteGood(max, p, ch);
    UrlByteGood(max, p.(state := ReqServerStart), ch);
    if ch == ' ' { QuietKeeps(max, PassRequestTarget(p, ch)); }
  }

  lemma PassGoodNoTarget(max: nat, p: Parser, ch: char)
    requires p.state != StartReq && p.state != ReqMethod && p.state != ReqSpacesBeforeUrl && !InUrl(p.state)
    ensures PassKeeps(max, PassRequestTarget(p, ch))
  {
    hide PassKeeps;
    FailKeeps(max, PassRequestTarget(p, ch));
  }

  lemma PassGoodStart(max: nat, p: Parser, ch: char)
    requires Good(max, p, 1) && p.state == StartReq
    ensures PassKeeps(max, PassRequestTarget(p, ch))
  {}

  lemma PassGoodTarget(max: nat, p: Parser, ch: char)
    requires Good(max, p, 1)
    ensures PassKeeps(max, PassRequestTarget(p, ch))
  {
    GoodInRange(max, p, 1);
    hide PassRequestTarget, PassKeeps, InRange, Good;
    if p.state == ReqMethod { PassGoodMethod(max, p, ch); }
    else if p.state == StartReq { PassGoodStart(max, p, ch); }
    else if p.state == ReqSpacesBeforeUrl { PassGoodBeforeUrl(max, p, ch); }
    else if InUrl(p.state) { PassGoodInUrl(max, p, ch); }
    else { PassGoodNoTarget(max, p, ch); }
  }

  lemma FieldByteGood(h: HeaderState, index: nat, c: char)
    requires FieldStateOk(h, index)
    ensures var (g, i) := FieldByte(h, index, c); FieldStateOk(g, i)
  {}

  lemma FinishedGood(max: nat, p: Parser)
    requires Good(max, p, 1)
    ensures PassKeeps(max, Complete(p))
    ensures PassKeeps(max, Exit(p.(state := NewMessage(p)), Some(MessageComplete)))
  {}

  lemma BodyStartGood(max: nat, p: Parser, q: Parser)
    requires Good(max, p, 1) && p.state == HeadersDone
    requires q == p.(nread := 0, state := q.state)
    requires q.state == ChunkSizeStart || q.state == BodyIdentity || q.state == BodyIdentityEof
    requires q.state == ChunkSizeStart ==> q.flags.chunked
    requires q.state == BodyIdentity ==> 0 < q.contentLength < ULLONG_MAX
    ensures PassKeeps(max, Consumed(q, None))
  {}

  lemma AfterHeadersGood(max: nat, p: Parser)
    requires Good(max, p, 1) && p.state == HeadersDone
    ensures PassKeeps(max, AfterHeaders(p))
  {
    var q := p.(nread := 0);
    match AfterHeaders(p)
    case Exit(_, _) => FinishedGood(max, q);
    case Consumed(r, _) =>
      if r.state == ChunkSizeStart || r.state == BodyIdentity || r.state == BodyIdentityEof {
        BodyStartGood(max, p, r);
      } else {
        FinishedGood(max, q);
      }
  }

  lemma EndOfHeadersQuiet(p: Parser)
    ensures var o := EndOfHeaders(p);
            o.Fail? || (o.Again? && Quiet(o.p.state) && o.p.nread == p.nread && o.p.contentLength == p.contentLength
                        && o.p.statusCode == p.statusCode && o.p.index == p.index)
  {}

  lemma EndOfHeadersGood(max: nat, p: Parser)
    requires Good(max, p, 1)
    ensures PassKeeps(max, EndOfHeaders(p))
  {
    GoodInRange(max, p, 1);
    EndOfHeadersQuiet(p);
    hide PassKeeps, Good, EndOfHeaders, Quiet;
    var o := EndOfHeaders(p);
    if o.Fail? { FailKeeps(max, o); } else { QuietKeeps(max, o); }
  }

  lemma PassGoodHeadersEnd(max: nat, p: Parser, ch: char)
    requires Good(max, p, 1) && (p.state == HeadersAlmostDone || p.state == HeadersDone)
    ensures PassKeeps(max, PassFieldName(p, ch))
  {
    if p.state == HeadersDone { AfterHeadersGood(max, p); } else { EndOfHeadersGood(max, p); }
  }

  lemma PassGoodFieldStart(max: nat, p: Parser, ch: char)
    requires Good(max, p, 1) && p.state == HeaderFieldStart
    ensures PassKeeps(max, PassFieldName(p, ch))
  {}

  lemma PassGoodInField(max: nat, p: Parser, ch: char)
    requires Good(max, p, 1) && p.state == HeaderField
    ensures PassKeeps(max, PassFieldName(p, ch))
  {
    FieldByteGood(p.headerState, p.index, TokenOf(ch));
  }

  /** A pass before a header value. */
  lemma ValueStartPass(v: Parser, ch: char)
    requires v.state == HeaderValueDiscardWs || v.state == HeaderValueStart
    ensures var o := PassFieldValue(v, ch);
            if v.state == HeaderValueDiscardWs && (ch == ' ' || ch == TAB) then o == Consumed(v, None)
            else if v.state == HeaderValueDiscardWs && ch == CR then
              o == Consumed(v.(state := HeaderValueDiscardWsAlmostDone), None)
            else if v.state == HeaderValueDiscardWs && ch == LF then
              o == Consumed(v.(state := HeaderValueDiscardLws), None)
            else o == FirstValueByte(v, ch)
  {
    hide FirstValueByte;
  }

  lemma PassGoodValueBlank(max: nat, p: Parser, ch: char)
    requires InRange(max, p) && p.state == HeaderValueDiscardWs && (ch == ' ' || ch == TAB || ch == CR || ch == LF)
    ensures PassKeeps(max, PassFieldValue(p, ch))
  {
    ValueStartPass(p, ch);
    hide PassFieldValue, FirstValueByte, PassKeeps;
    QuietKeeps(max, PassFieldValue(p, ch));
  }

  lemma PassGoodFirstByte(max: nat, p: Parser, ch: char)
    requires Good(max, p, 1)
    ensures PassKeeps(max, FirstValueByte(p, ch))
  {
    FirstValueByteGood(max, p, ch);
    hide FirstValueByte, Good, PassKeeps;
    var o := FirstValueByte(p, ch);
    if o.Fail? { FailKeeps(max, o); } else { ValueKeeps(max, o); }
  }

  lemma PassGoodBeforeValue(max: nat, p: Parser, ch: char)
    requires Good(max, p, 1) && (p.state == HeaderValueDiscardWs || p.state == HeaderValueStart)
    ensures PassKeeps(max, PassFieldValue(p, ch))
  {
    hide FirstValueByte, Good, PassKeeps, InRange;
    GoodInRange(max, p, 1);
    ValueStartPass(p, ch);
    if p.state == HeaderValueDiscardWs && (ch == ' ' || ch == TAB || ch == CR || ch == LF) {
      PassGoodValueBlank(max, p, ch);
    } else {
      PassGoodFirstByte(max, p, ch);
    }
  }

  lemma ValueKeeps(max: nat, o: Outcome)
    requires o.Consumed? && o.p.state == HeaderValue && Good(max, o.p, 0)
    requires o.out.Some? && o.out.value.Data? && o.out.value.kind == ValueData
    ensures PassKeeps(max, o)
  {
    hide Good;
  }

  lemma PassGoodInValue(max: nat, p: Parser, ch: char)
    requires Good(max, p, 1) && p.state == HeaderValue
    ensures PassKeeps(max, PassFieldValue(p, ch))
  {
    ValueByteGood(ValueOf(p), ch);
  }

  lemma PassGoodLws(max: nat, p: Parser, ch: char)
    requires Good(max, p, 1) && (p.state == HeaderValueLws || p.state == HeaderValueDiscardLws)
    ensures PassKeeps(max, PassFieldValue(p, ch))
  {}

  lemma PassGoodAlmost(max: nat, p: Parser, ch: char)
    requires Good(max, p, 1) && (p.state == HeaderAlmostDone || p.state == HeaderValueDiscardWsAlmostDone)
    ensures PassKeeps(max, PassFieldValue(p, ch))
  {}

  lemma PassGoodValue(max: nat, p: Parser, ch: char)
    requires Good(max, p, 1)
    ensures PassKeeps(max, PassFieldValue(p, ch))
  {
    if p.state == HeaderValueDiscardWs || p.state == HeaderValueStart { PassGoodBeforeValue(max, p, ch); }
    else if p.state == HeaderValue { PassGoodInValue(max, p, ch); }
    else if p.state == HeaderValueLws || p.state == HeaderValueDiscardLws { PassGoodLws(max, p, ch); }
    else if p.state == HeaderAlmostDone || p.state == HeaderValueDiscardWsAlmostDone { PassGoodAlmost(max, p, ch); }
  }

  predicate InChunkData(s: State) { s == ChunkData || s == ChunkDataAlmostDone || s == ChunkDataDone }

  lemma PassGoodChunkData(max: nat, p: Parser, ch: char)
    requires Good(max, p, 1) && InChunkData(p.state)
    ensures PassKeeps(max, PassChunk(p, ch))
  {
    hide Unhex;
  }

  /** Moving within the chunk states keeps the invariant. */
  lemma ChunkKeeps(max: nat, o: Outcome)
    requires o.Consumed? && InRange(max, o.p) && o.p.flags.chunked && o.p.contentLength <= ULLONG_MAX - 16
    requires o.p.state == ChunkSize || o.p.state == ChunkParameters || o.p.state == ChunkSizeAlmostDone
    ensures PassKeeps(max, o)
  {}

  lemma ChunkSizeFacts(max: nat, p: Parser)
    requires Good(max, p, 1) && (p.state == ChunkSizeStart || InChunkSize(p.state))
    ensures InRange(max, p) && p.flags.chunked && (InChunkSize(p.state) ==> p.contentLength <= ULLONG_MAX - 16)
  {}

  predicate InChunkSize(s: State) { s == ChunkSize || s == ChunkParameters || s == ChunkSizeAlmostDone }

  lemma PassGoodSizeLine(max: nat, p: Parser, ch: char)
    requires Good(max, p, 1) && (p.state == ChunkSizeStart || p.state == ChunkSize || p.state == ChunkParameters)
    ensures PassKeeps(max, PassChunk(p, ch))
  {
    ChunkSizeFacts(max, p);
    UnhexRange(ch);
    hide Unhex, Good, PassKeeps;
    var o := PassChunk(p, ch);
    if o.Fail? { FailKeeps(max, o); } else { ChunkKeeps(max, o); }
  }

  lemma PassGoodSizeEnd(max: nat, p: Parser, ch: char)
    requires Good(max, p, 1) && p.state == ChunkSizeAlmostDone
    ensures PassKeeps(max, PassChunk(p, ch))
  {
    hide Unhex;
  }

  lemma PassGoodNoChunk(max: nat, p: Parser, ch: char)
    requires !InChunk(p.state)
    ensures PassKeeps(max, PassChunk(p, ch))
  {
    hide PassKeeps, Unhex;
    FailKeeps(max, PassChunk(p, ch));
  }

  lemma UnhexRange(ch: char)
    ensures -1 <= Unhex(ch) <= 15
  {}

  lemma PassGoodChunk(max: nat, p: Parser, ch: char)
    requires Good(max, p, 1)
    ensures PassKeeps(max, PassChunk(p, ch))
  {
    hide PassChunk, PassKeeps, Good;
    if InChunkData(p.state) { PassGoodChunkData(max, p, ch); }
    else if !InChunk(p.state) { PassGoodNoChunk(max, p, ch); }
    else if p.state == ChunkSizeAlmostDone { PassGoodSizeEnd(max, p, ch); }
    else { PassGoodSizeLine(max, p, ch); }
  }

  lemma PassGoodMessageDone(max: nat, p: Parser, ch: char)
    requires Good(max, p, 1) && p.state == MessageDone
    ensures PassKeeps(max, PassBody(p, ch))
  {
    FinishedGood(max, p);
  }

  lemma PassGoodBodyBytes(max: nat, p: Parser, ch: char)
    requires Good(max, p, 1) && (p.state == BodyIdentity || p.state == BodyIdentityEof)
    ensures PassKeeps(max, PassBody(p, ch))
  {}

  lemma PassGoodNoBody(max: nat, p: Parser, ch: char)
    requires p.state != BodyIdentity && p.state != BodyIdentityEof && p.state != MessageDone
    ensures PassKeeps(max, PassBody(p, ch))
  {
    hide PassKeeps;
    FailKeeps(max, PassBody(p, ch));
  }

  lemma PassGoodBody(max: nat, p: Parser, ch: char)
    requires Good(max, p, 1)
    ensures PassKeeps(max, PassBody(p, ch))
  {
    hide PassBody, PassKeeps;
    if p.state == MessageDone { PassGoodMessageDone(max, p, ch); }
    else if p.state == BodyIdentity || p.state == BodyIdentityEof { PassGoodBodyBytes(max, p, ch); }
    else { PassGoodNoBody(max, p, ch); }
  }

  /** Every pass of the automaton keeps the parser invariant. */
  lemma PassGood(max: nat, p: Parser, ch: char)
    requires Good(max, p, 1)
    ensures PassKeeps(max, Pass(p, ch))
  {
    PassGoodStatusLine(max, p, ch);
    PassGoodVersion(max, p, ch);
    PassGoodTarget(max, p, ch);
    if p.state == HeadersAlmostDone || p.state == HeadersDone {
      PassGoodHeadersEnd(max, p, ch);
    } else if p.state == HeaderFieldStart {
      PassGoodFieldStart(max, p, ch);
    } else if p.state == HeaderField {
      PassGoodInField(max, p, ch);
    }
    PassGoodValue(max, p, ch);
    PassGoodChunk(max, p, ch);
    PassGoodBody(max, p, ch);
  }

  ghost predicate GoodConfig(max: nat, c: Config) {
    Good(max, c.p, 0) && TailFits(c.p.state, c.t)
  }

  lemma {:induction false} FinishGood(max: nat, p: Parser, t: seq<Event>, n: nat, ch: char)
    requires Good(max, p, 1)
    ensures var r := Finish(p, t, n, ch); r.Failed? || (GoodConfig(max, r.c) && r.c.n == n + 1)
    decreases Rank(p.state)
  {
    PassGood(max, p, ch);
    match Pass(p, ch)
    case Again(q, out) => FinishGood(max, q, PushOpt(t, out), n, ch);
    case Consumed(q, out) => if out.Some? && out.value.Data? { PushMerge(t, out.value.kind, out.value.bytes, []); }
    case Exit(q, out) => if out.Some? && out.value.Data? { PushMerge(t, out.value.kind, out.value.bytes, []); }
    case Fail(_) =>
  }

  lemma StepGood(max: nat, c: Config, ch: char)
    requires GoodConfig(max, c)
    ensures var r := Step(max, c, ch); r.Failed? || (GoodConfig(max, r.c) && r.c.n == c.n + 1)
  {
    if ParsingHeader(c.p.state) {
      if c.p.nread < max { FinishGood(max, c.p.(nread := c.p.nread + 1), c.t, c.n, ch); }
    } else {
      FinishGood(max, c.p, c.t, c.n, ch);
    }
  }

  /** The invariant holds after every run, and a run consumes at most what it is given. */
  lemma {:induction false} RunGood(max: nat, c: Config, bs: seq<char>)
    requires GoodConfig(max, c)
    ensures var r := RunOn(max, Going(c), bs);
            match r
            case Going(d) => GoodConfig(max, d) && d.n == c.n + |bs|
            case Exited(d) => GoodConfig(max, d) && c.n < d.n <= c.n + |bs|
            case Failed => true
  {
    if bs != [] {
      RunGood(max, c, bs[..|bs| - 1]);
      match RunOn(max, Going(c), bs[..|bs| - 1])
      case Going(d) => StepGood(max, d, bs[|bs| - 1]);
      case Exited(_) =>
      case Failed =>
    }
  }

  // ---------- a run extends its trace ----------

  /** Whatever a further callback cannot undo holds after a run as it did before. */
  ghost predicate Stable(bad: seq<Event> -> bool) { forall t, e :: bad(t) ==> bad(Push(t, e)) }

  lemma {:induction false} FinishStable(bad: seq<Event> -> bool, p: Parser, t: seq<Event>, n: nat, ch: char)
    requires Stable(bad) && bad(t)
    ensures var r := Finish(p, t, n, ch); !r.Failed? ==> bad(r.c.t)
    decreases Rank(p.state)
  {
    hide Pass, Rank, Push;
    match Pass(p, ch)
    case Again(q, out) => FinishStable(bad, q, PushOpt(t, out), n, ch);
    case _ =>
  }

  lemma {:induction false} RunStable(bad: seq<Event> -> bool, max: nat, c: Config, bs: seq<char>)
    requires Stable(bad) && bad(c.t)
    ensures var r := RunOn(max, Going(c), bs); !r.Failed? ==> bad(r.c.t)
  {
    hide Finish, Stable, ParsingHeader;
    if bs != [] {
      RunStable(bad, max, c, bs[..|bs| - 1]);
      var r := RunOn(max, Going(c), bs[..|bs| - 1]);
      if r.Going? {
        FinishStable(bad, r.c.p, r.c.t, r.c.n, bs[|bs| - 1]);
        FinishStable(bad, r.c.p.(nread := r.c.p.nread + 1), r.c.t, r.c.n, bs[|bs| - 1]);
      }
    }
  }
}
