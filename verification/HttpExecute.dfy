/** `http_parser_execute`: bulk loops, data marks, jumps over body runs and re-examined bytes,
    proved to behave as the byte-at-a-time automaton. */
module HttpExecute {
  import opened Options
  import opened HttpTypes
  import opened HttpAutomaton
  import opened HttpInvariants
  import opened HttpBulk
  import opened HttpMarks
  import opened HttpPasses
  import opened HttpSweeps
  import opened HttpCalls

  /** `t = x; t *= base; t += d` on 64 bits. */
  function MulAdd64(x: int, base: int, d: int): int {
    ((x * base) % TWO_64 + d) % TWO_64
  }

  /** The overflow test is made on the old value, and keeps the new one exact and below the sentinel. */
  lemma HexNoWrap(x: int, d: int)
    requires 0 <= x <= (ULLONG_MAX - 16) / 16 && 0 <= d < 16
    ensures MulAdd64(x, 16, d) == x * 16 + d <= ULLONG_MAX - 16
  {}

  lemma DecimalNoWrap(x: int, d: int)
    requires 0 <= x <= (ULLONG_MAX - 10) / 10 && 0 <= d < 10
    ensures MulAdd64(x, 10, d) == x * 10 + d <= ULLONG_MAX - 6
  {}

  class HttpParser {
    const maxHeaderSize: nat
    var kind: MessageType
    var flags: Flags
    var state: State
    var headerState: HeaderState
    var index: nat
    var nread: nat
    var contentLength: int
    var major: int
    var minor: int
    var statusCode: int
    var verb: Method
    var errno: Errno
    var upgrade: bool
    /** The callbacks made so far; every callback returns 0. */
    var calls: seq<Event>

    function View(): Parser
      reads this
    {
      Parser(kind, flags, state, headerState, index, nread, contentLength, major, minor, statusCode, verb, upgrade)
    }

    /** Between calls: the parser is in error, or its fields keep the invariant and the trace ends
        with the data in progress. */
    ghost predicate Valid()
      reads this
    {
      errno == OK ==> Good(maxHeaderSize, View(), 0) && TailFits(state, Join(calls))
    }

    /** The automaton's configuration for this parser at the start of a call. */
    ghost function Start(): Config
      reads this
    {
      Config(View(), Join(calls), 0)
    }

    /** The automaton, about to look at byte `p`, which is already counted. */
    ghost function Here(data: seq<char>, m: Marks, p: nat): Run
      reads this
      requires p < |data|
    {
      Finish(View(), Joined(calls, m, data, p), p, data[p])
    }

    ghost predicate Busy()
      reads this
    {
      errno == OK && Good(maxHeaderSize, View(), 1)
    }

    /** `http_parser_init` on a new object. */
    constructor (kind: MessageType, maxHeaderSize: nat)
      ensures Valid() && errno == OK && calls == [] && this.maxHeaderSize == maxHeaderSize
      ensures View() == InitialParser(kind)
    {
      this.maxHeaderSize := maxHeaderSize;
      this.kind := kind;
      flags, headerState, index, nread, contentLength := NO_FLAGS, General, 0, 0, 0;
      major, minor, statusCode, verb, upgrade := 0, 0, 0, DELETE, false;
      errno, calls := OK, [];
      state := if kind == Request then StartReq else StartRes;
      new;
      InitialGood(kind, maxHeaderSize);
    }

    // ---------- the macros ----------

    /** SET_ERRNO followed by `goto error`. */
    method Fail(e: Errno) returns (act: Action)
      modifies this`errno
      ensures errno == e && act == Error && View() == old(View())
    {
      errno := e;
      act := Error;
    }

    /** STRICT_CHECK and the tests like it: move on to `next` or fail. */
    method Check(good: bool, next: State, e: Errno) returns (act: Action)
      requires errno == OK
      modifies this`errno, this`state
      ensures good ==> act == Next && errno == OK && View() == old(View()).(state := next)
      ensures !good ==> act == Error && errno == e
    {
      if !good {
        act := Fail(e);
        return;
      }
      state := next;
      act := Next;
    }

    /** CALLBACK_NOTIFY. */
    method Notify(e: Event)
      modifies this`calls
      ensures old(calls) <= calls
      ensures calls == old(calls) + [e] && View() == old(View())
    {
      calls := calls + [e];
    }

    /** CALLBACK_DATA: delivers the bytes from the mark up to `end`, if there is a mark. */
    method Deliver(data: seq<char>, kind: DataKind, mark: Option<nat>, end: nat)
      requires end <= |data| && (mark.Some? ==> mark.value <= end)
      modifies this`calls
      ensures old(calls) <= calls
      ensures Join(calls) == PushOpt(old(Join(calls)), Slice(kind, mark, data, end))
      ensures View() == old(View())
    {
      if mark.Some? {
        JoinSnoc(calls, Data(kind, data[mark.value..end]));
        calls := calls + [Data(kind, data[mark.value..end])];
      }
    }

    /** CALLBACK_DATA for the one live mark. */
    method Flush(data: seq<char>, kind: DataKind, mark: Option<nat>, end: nat, ghost m: Marks)
      requires mark.Some? && mark.value <= end <= |data| && m == MarkOf(kind, mark.value)
      modifies this`calls
      ensures old(calls) <= calls
      ensures Join(calls) == old(Joined(calls, m, data, end)) && View() == old(View())
    {
      hide Join, Joined, Push;
      JoinedMark(calls, kind, mark.value, data, end);
      Deliver(data, kind, mark, end);
    }

    /** COUNT_HEADER_SIZE, on a 32-bit counter. */
    method Count(n: nat) returns (ok: bool)
      requires errno == OK
      modifies this`nread, this`errno
      ensures nread == (old(nread) + n) % TWO_32
      ensures ok == (nread <= maxHeaderSize) && View() == old(View()).(nread := nread)
      ensures errno == if ok then OK else HEADER_OVERFLOW
    {
      nread := (nread + n) % TWO_32;
      ok := nread <= maxHeaderSize;
      if !ok { errno := HEADER_OVERFLOW; }
    }

    // ---------- states without data ----------

    /** UPDATE_STATE(NEW_MESSAGE()) and the message-complete callback. */
    method FinishMessage()
      modifies this`state, this`calls
      ensures old(calls) <= calls
      ensures View() == old(View()).(state := NewMessage(old(View()))) && calls == old(calls) + [MessageComplete]
    {
      state := NewMessage(View());
      Notify(MessageComplete);
    }

    method StatusLineStart(ch: char) returns (act: Action)
      requires Busy() && (state.StartRes? || state.ResH? || state.ResHT? || state.ResHTT? || state.ResHTTP?)
      modifies this
      ensures old(calls) <= calls
      ensures Mirrors(PassStatusLine(old(View()), ch), act, View(), old(calls), calls, errno)
    {
      hide Good;
      if state == StartRes {
        if ch == CR || ch == LF { return Next; }
        flags := NO_FLAGS;
        contentLength := ULLONG_MAX;
        act := Check(ch == 'H', ResH, INVALID_CONSTANT);
        if act == Error { return; }
        Notify(MessageBegin);
      } else if state == ResH {
        act := Check(ch == 'T', ResHT, STRICT);
      } else if state == ResHT {
        act := Check(ch == 'T', ResHTT, STRICT);
      } else if state == ResHTT {
        act := Check(ch == 'P', ResHTTP, STRICT);
      } else {
        act := Check(ch == '/', ResHttpMajor, STRICT);
      }
    }

    method StatusLine(ch: char) returns (act: Action)
      requires Busy()
      requires state.ResHttpMajor? || state.ResHttpDot? || state.ResHttpMinor? || state.ResHttpEnd?
               || state.ResFirstStatusCode? || state.ResStatusCode? || state.ResLineAlmostDone?
      modifies this
      ensures old(calls) <= calls
      ensures Mirrors(PassStatusLine(old(View()), ch), act, View(), old(calls), calls, errno)
    {
      hide Good;
      if state == ResHttpMajor {
        act := Check(IsNum(ch), ResHttpDot, INVALID_VERSION);
        if act == Next { major := Digit(ch); }
      } else if state == ResHttpDot {
        act := Check(ch == '.', ResHttpMinor, INVALID_VERSION);
      } else if state == ResHttpMinor {
        act := Check(IsNum(ch), ResHttpEnd, INVALID_VERSION);
        if act == Next { minor := Digit(ch); }
      } else if state == ResHttpEnd {
        act := Check(ch == ' ', ResFirstStatusCode, INVALID_VERSION);
      } else if state == ResFirstStatusCode {
        if !IsNum(ch) {
          if ch == ' ' { return Next; }
          act := Fail(INVALID_STATUS);
          return;
        }
        statusCode := Digit(ch);
        state := ResStatusCode;
        return Next;
      } else if state == ResStatusCode {
        if !IsNum(ch) {
          match ch {
            case ' ' =>
              state := ResStatusStart;
              return Next;
            case '\r' | '\n' =>
              state := ResStatusStart;
              return Reexecute;
            case _ =>
              act := Fail(INVALID_STATUS);
              return;
          }
        }
        statusCode := statusCode * 10;
        statusCode := statusCode + Digit(ch);
        if statusCode > 999 {
          act := Fail(INVALID_STATUS);
          return;
        }
        return Next;
      } else {
        act := Check(ch == LF, HeaderFieldStart, STRICT);
      }
    }

    method RequestStart(ch: char) returns (act: Action)
      requires Busy() && (state.StartReq? || state.ReqMethod?)
      modifies this
      ensures old(calls) <= calls
      ensures Mirrors(PassRequestTarget(old(View()), ch), act, View(), old(calls), calls, errno)
    {
      hide Good, Mirrors, PassRequestTarget;
      if state.StartReq? { act := RequestBegin(ch); } else { act := MethodByte(ch); }
    }

    method RequestBegin(ch: char) returns (act: Action)
      requires errno == OK && state.StartReq?
      modifies this
      ensures old(calls) <= calls
      ensures Mirrors(PassRequestTarget(old(View()), ch), act, View(), old(calls), calls, errno)
    {
      hide IsAlpha;
      if ch == CR || ch == LF { return Next; }
      flags := NO_FLAGS;
      contentLength := ULLONG_MAX;
      if !IsAlpha(ch) {
        act := Fail(INVALID_METHOD);
        return;
      }
      verb := DELETE;
      index := 1;
      match FirstGuess(ch) {
        case Some(guess) => verb := guess;
        case None =>
          act := Fail(INVALID_METHOD);
          return;
      }
      state := ReqMethod;
      Notify(MessageBegin);
      return Next;
    }

    method MethodByte(ch: char) returns (act: Action)
      requires Busy() && state.ReqMethod?
      modifies this
      ensures calls == old(calls)
      ensures Mirrors(PassRequestTarget(old(View()), ch), act, View(), old(calls), calls, errno)
    {
      hide Correct, MethodString, FirstGuess;
      if ch == '\0' {
        act := Fail(INVALID_METHOD);
        return;
      }
      var matcher := MethodString(verb);
      // reading the matcher's terminating NUL is the furthest it goes
      assert index <= |matcher| by { MethodLengthFits(verb); }
      if ch == ' ' && At(matcher, index) == '\0' {
        state := ReqSpacesBeforeUrl;
      } else if ch == At(matcher, index) {
      } else if 'A' <= ch <= 'Z' || ch == '-' {
        match Correct(verb, index, ch) {
          case Some(better) => verb := better;
          case None =>
            act := Fail(INVALID_METHOD);
            return;
        }
      } else {
        act := Fail(INVALID_METHOD);
        return;
      }
      index := index + 1;
      return Next;
    }

    method VersionStart(ch: char) returns (act: Action)
      requires Busy() && (state.ReqHttpStart? || state.ReqHttpI? || state.ReqHttpIC?)
      modifies this
      ensures old(calls) <= calls
      ensures Mirrors(PassVersion(old(View()), ch), act, View(), old(calls), calls, errno)
    {
      hide Good;
      if state == ReqHttpStart {
        if ch == ' ' { return Next; }
        if ch == 'H' {
          state := ReqHttpH;
          return Next;
        }
        act := Check(ch == 'I' && verb == SOURCE, ReqHttpI, INVALID_CONSTANT);
      } else if state == ReqHttpI {
        act := Check(ch == 'C', ReqHttpIC, STRICT);
      } else {
        act := Check(ch == 'E', ReqHttpHTTP, STRICT);
      }
    }

    method VersionName(ch: char) returns (act: Action)
      requires Busy() && (state.ReqHttpH? || state.ReqHttpHT? || state.ReqHttpHTT? || state.ReqHttpHTTP?)
      modifies this
      ensures old(calls) <= calls
      ensures Mirrors(PassVersion(old(View()), ch), act, View(), old(calls), calls, errno)
    {
      hide Good;
      if state == ReqHttpH {
        act := Check(ch == 'T', ReqHttpHT, STRICT);
      } else if state == ReqHttpHT {
        act := Check(ch == 'T', ReqHttpHTT, STRICT);
      } else if state == ReqHttpHTT {
        act := Check(ch == 'P', ReqHttpHTTP, STRICT);
      } else {
        act := Check(ch == '/', ReqHttpMajor, STRICT);
      }
    }

    method VersionNumber(ch: char) returns (act: Action)
      requires Busy() && (state.ReqHttpMajor? || state.ReqHttpMinor?)
      modifies this
      ensures old(calls) <= calls
      ensures Mirrors(PassVersion(old(View()), ch), act, View(), old(calls), calls, errno)
    {
      hide Good;
      if state == ReqHttpMajor {
        act := Check(IsNum(ch), ReqHttpDot, INVALID_VERSION);
        if act == Next { major := Digit(ch); }
      } else {
        act := Check(IsNum(ch), ReqHttpEnd, INVALID_VERSION);
        if act == Next { minor := Digit(ch); }
      }
    }

    method RequestLineEnd(ch: char) returns (act: Action)
      requires Busy() && (state.ReqHttpDot? || state.ReqHttpEnd? || state.ReqLineAlmostDone?)
      modifies this
      ensures old(calls) <= calls
      ensures Mirrors(PassVersion(old(View()), ch), act, View(), old(calls), calls, errno)
    {
      hide Good;
      if state == ReqHttpDot {
        act := Check(ch == '.', ReqHttpMinor, INVALID_VERSION);
      } else if state == ReqHttpEnd {
        if ch == CR {
          state := ReqLineAlmostDone;
          return Next;
        }
        act := Check(ch == LF, HeaderFieldStart, INVALID_VERSION);
      } else {
        act := Check(ch == LF, HeaderFieldStart, LF_EXPECTED);
      }
    }

    method ValueLineEnd(ch: char) returns (act: Action)
      requires Busy() && (state.HeaderValueDiscardWsAlmostDone? || state.HeaderAlmostDone?)
      modifies this
      ensures old(calls) <= calls
      ensures Mirrors(PassFieldValue(old(View()), ch), act, View(), old(calls), calls, errno)
    {
      hide Good, FinishValue, FirstValueByte, ValueByte;
      if state == HeaderValueDiscardWsAlmostDone {
        act := Check(ch == LF, HeaderValueDiscardLws, STRICT);
      } else {
        act := Check(ch == LF, HeaderValueLws, LF_EXPECTED);
      }
    }

    method AfterValueLine(ch: char) returns (act: Action)
      requires Busy() && state.HeaderValueLws?
      modifies this
      ensures old(calls) <= calls
      ensures Mirrors(PassFieldValue(old(View()), ch), act, View(), old(calls), calls, errno)
    {
      hide Good, FinishValue, FirstValueByte, ValueByte;
      if ch == ' ' || ch == TAB {
        if headerState == ContentLengthNum { headerState := ContentLengthWs; }
        state := HeaderValueStart;
        return Reexecute;
      }
      SetValueFlags();
      state := HeaderFieldStart;
      return Reexecute;
    }

    /** The flags a header value sets when its line is over. */
    method SetValueFlags()
      modifies this`flags
      ensures View() == old(View()).(flags := FinishValue(old(flags), headerState))
    {
      match headerState
      case ConnectionKeepAlive => flags := flags.(keepAlive := true);
      case ConnectionClose => flags := flags.(close := true);
      case TransferEncodingChunked => flags := flags.(chunked := true);
      case ConnectionUpgrade => flags := flags.(connectionUpgrade := true);
      case _ =>
    }

    method HeadersAlmostOver(ch: char) returns (act: Action)
      requires Busy() && state.HeadersAlmostDone?
      modifies this
      ensures old(calls) <= calls
      ensures Mirrors(PassFieldName(old(View()), ch), act, View(), old(calls), calls, errno)
    {
      HeadersAlmostPass(View(), ch);
      hide Good, PassFieldName;
      if ch != LF {
        act := Fail(STRICT);
        return;
      }
      if flags.trailing {
        state := MessageDone;
        Notify(ChunkComplete);
        return Reexecute;
      }
      if flags.chunked && flags.contentLength {
        act := Fail(UNEXPECTED_CONTENT_LENGTH);
        return;
      }
      state := HeadersDone;
      if flags.upgrade && flags.connectionUpgrade {
        upgrade := kind == Request || statusCode == 101;
      } else {
        upgrade := verb == CONNECT;
      }
      Notify(HeadersComplete);
      return Reexecute;
    }

    method HeadersOver(ch: char) returns (act: Action)
      requires Busy() && state.HeadersDone?
      modifies this
      ensures old(calls) <= calls
      ensures Mirrors(PassFieldName(old(View()), ch), act, View(), old(calls), calls, errno)
    {
      HeadersDonePass(View(), ch);
      hide Good, PassFieldName, AfterHeaders, Mirrors;
      if ch != LF {
        act := Fail(STRICT);
        Strict(View(), old(calls));
        return;
      }
      act := TurnToBody();
    }

    /** The head is over: on to the body, to the next message or out of the parser. */
    method TurnToBody() returns (act: Action)
      requires errno == OK
      modifies this`state, this`nread, this`calls
      ensures old(calls) <= calls
      ensures Mirrors(AfterHeaders(old(View())), act, View(), old(calls), calls, errno)
    {
      hide NewMessage, NeedsEof;
      nread := 0;
      var hasBody := flags.chunked || (contentLength > 0 && contentLength != ULLONG_MAX);
      if upgrade && (verb == CONNECT || flags.skipBody || !hasBody) {
        FinishMessage();
        return Leave;
      }
      if flags.skipBody {
        FinishMessage();
      } else {
        StartBody();
      }
      return Next;
    }

    /** The body by its framing, when there may be one. */
    method StartBody()
      modifies this`state, this`calls
      ensures old(calls) <= calls
      ensures var v := old(View());
              if v.flags.chunked then View() == v.(state := ChunkSizeStart) && calls == old(calls)
              else if v.contentLength == 0 || (v.contentLength == ULLONG_MAX && !NeedsEof(v))
              then View() == v.(state := NewMessage(v)) && calls == old(calls) + [MessageComplete]
              else View() == v.(state := if v.contentLength == ULLONG_MAX then BodyIdentityEof else BodyIdentity)
                   && calls == old(calls)
    {
      hide NewMessage, NeedsEof;
      if flags.chunked {
        state := ChunkSizeStart;
      } else if contentLength == 0 {
        FinishMessage();
      } else if contentLength != ULLONG_MAX {
        state := BodyIdentity;
      } else if !NeedsEof(View()) {
        FinishMessage();
      } else {
        state := BodyIdentityEof;
      }
    }

    method ChunkFirstDigit(ch: char) returns (act: Action)
      requires Busy() && state.ChunkSizeStart?
      modifies this
      ensures old(calls) <= calls
      ensures Mirrors(PassChunk(old(View()), ch), act, View(), old(calls), calls, errno)
    {
      hide Good, Unhex;
      ChunkFacts(maxHeaderSize, View());
      assert flags.chunked;
      assert nread == 1;
      var value := Unhex(ch);
      if value == -1 {
        act := Fail(INVALID_CHUNK_SIZE);
        return;
      }
      contentLength := value;
      state := ChunkSize;
      return Next;
    }

    method ChunkSizeByte(ch: char) returns (act: Action)
      requires Busy() && state.ChunkSize?
      modifies this
      ensures old(calls) <= calls
      ensures Mirrors(PassChunk(old(View()), ch), act, View(), old(calls), calls, errno)
    {
      hide Good, Unhex, MulAdd64;
      ChunkFacts(maxHeaderSize, View());
      assert flags.chunked;
      if ch == CR {
        state := ChunkSizeAlmostDone;
        return Next;
      }
      var value := Unhex(ch);
      if value == -1 {
        act := Check(ch == ';' || ch == ' ', ChunkParameters, INVALID_CHUNK_SIZE);
        return;
      }
      var t := MulAdd64(contentLength, 16, value);
      if (ULLONG_MAX - 16) / 16 < contentLength {
        act := Fail(INVALID_CONTENT_LENGTH);
        return;
      }
      HexNoWrap(contentLength, value);
      contentLength := t;
      return Next;
    }

    method ChunkLineEnd(ch: char) returns (act: Action)
      requires Busy() && (state.ChunkParameters? || state.ChunkSizeAlmostDone?)
      modifies this
      ensures old(calls) <= calls
      ensures Mirrors(PassChunk(old(View()), ch), act, View(), old(calls), calls, errno)
    {
      ChunkLinePass(View(), ch);
      hide Good, Unhex, PassChunk;
      ChunkFacts(maxHeaderSize, View());
      assert flags.chunked;
      if state == ChunkParameters {
        if ch == CR { state := ChunkSizeAlmostDone; }
        return Next;
      } else {
        if ch != LF {
          act := Fail(STRICT);
          return;
        }
        nread := 0;
        if contentLength == 0 {
          flags := flags.(trailing := true);
          state := HeaderFieldStart;
        } else {
          state := ChunkData;
        }
        Notify(ChunkHeader(contentLength));
        return Next;
      }
    }

    method ChunkOver(ch: char) returns (act: Action)
      requires Busy() && state.ChunkDataDone?
      modifies this
      ensures old(calls) <= calls
      ensures Mirrors(PassChunk(old(View()), ch), act, View(), old(calls), calls, errno)
    {
      hide Good, Unhex;
      ChunkFacts(maxHeaderSize, View());
      assert flags.chunked;
      if ch != LF {
        act := Fail(STRICT);
        return;
      }
      nread := 0;
      state := ChunkSizeStart;
      Notify(ChunkComplete);
      return Next;
    }

    method EndOfMessage(ch: char) returns (act: Action)
      requires Busy() && (state.MessageDone? || state.Dead?)
      modifies this
      ensures old(calls) <= calls
      ensures old(state).MessageDone? ==>
                Mirrors(PassBody(old(View()), ch), act, View(), old(calls), calls, errno)
      ensures old(state).Dead? ==>
                Mirrors(Expect(old(View()), ch == CR || ch == LF, Dead, CLOSED_CONNECTION),
                        act, View(), old(calls), calls, errno)
    {
      hide Good, NewMessage;
      if state.Dead? {
        act := Check(ch == CR || ch == LF, Dead, CLOSED_CONNECTION);
        return;
      }
      FinishMessage();
      return if upgrade then Leave else Next;
    }

    // ---------- states with data ----------

    method UrlStart(data: seq<char>, p: nat, m0: Marks) returns (act: Action, m: Marks)
      requires p < |data| && Busy() && state.ReqSpacesBeforeUrl? && m0 == NO_MARKS
      modifies this
      ensures old(calls) <= calls
      ensures MirrorsData(PassRequestTarget(old(View()), data[p]), act, View(),
                          old(Joined(calls, m0, data, p)), calls, m, data, p, errno)
    {
      hide Good, Slice, Joined, Push, Join, ParseUrlChar, MethodString, Correct, FirstGuess;
      m := m0;
      var ch := data[p];
      JoinedNone(calls, data, p);
      JoinedNone(calls, data, p + 1);
      if ch == ' ' { return Next, m; }
      if m.url.None? { m := m.(url := Some(p)); }
      OneByte(data, p);
      JoinedMark(calls, UrlData, p, data, p + 1);
      if verb == CONNECT { state := ReqServerStart; }
      act := UrlChar(ch);
    }

    method UrlState(data: seq<char>, p: nat, m0: Marks) returns (act: Action, m: Marks)
      requires p < |data| && Busy() && InUrl(state) && MarksFit(state, m0, p)
      modifies this
      ensures old(calls) <= calls
      ensures MirrorsData(PassRequestTarget(old(View()), data[p]), act, View(),
                          old(Joined(calls, m0, data, p)), calls, m, data, p, errno)
    {
      hide Good, Joined, PassRequestTarget, MirrorsData, MarksFit, MarkOf, UrlByte;
      m := m0;
      var ch := data[p];
      UrlPass(View(), ch);
      UrlMark(state, m, p);
      if ch != ' ' && ch != CR && ch != LF {
        act := UrlByteOn(data, p, m);
      } else if InScheme(state) {
        ghost var o := PassRequestTarget(View(), ch);
        act := Fail(INVALID_URL);
        MirrorsFail(o, View(), Joined(calls, m0, data, p), calls, m, data, p, errno);
      } else {
        act, m := UrlBlank(data, p, m0);
      }
    }

    /** A blank or line end after a URL. */
    method UrlBlank(data: seq<char>, p: nat, m0: Marks) returns (act: Action, m: Marks)
      requires p < |data| && errno == OK && InUrl(state) && !InScheme(state)
      requires m0.url.Some? && m0.url.value <= p && m0 == MarkOf(UrlData, m0.url.value)
      requires data[p] == ' ' || data[p] == CR || data[p] == LF
      modifies this
      ensures old(calls) <= calls
      ensures MirrorsData(PassRequestTarget(old(View()), data[p]), act, View(),
                          old(Joined(calls, m0, data, p)), calls, m, data, p, errno)
    {
      hide Joined, PassRequestTarget, MirrorsData, MarkOf, UrlByte, InUrl, InScheme, Resumed;
      UrlPass(View(), data[p]);
      ghost var o := PassRequestTarget(View(), data[p]);
      UrlEnds();
      if data[p] == ' ' {
        state := ReqHttpStart;
      } else {
        major := 0;
        minor := 9;
        state := if data[p] == CR then ReqLineAlmostDone else HeaderFieldStart;
      }
      act, m := EndOfUrl(data, p, m0, o);
    }

    /** The URL is delivered; the new state is set already. */
    method EndOfUrl(data: seq<char>, p: nat, m0: Marks, ghost o: Outcome) returns (act: Action, m: Marks)
      requires p < |data| && errno == OK && m0.url.Some? && m0.url.value <= p && m0 == MarkOf(UrlData, m0.url.value)
      requires o == Consumed(View(), None) && Resumed(state) == None
      modifies this`calls
      ensures old(calls) <= calls
      ensures MirrorsData(o, act, View(), old(Joined(calls, m0, data, p)), calls, m, data, p, errno)
    {
      hide MirrorsData, Joined, Join, MarkOf, Resumed, Push;
      m := m0;
      Flush(data, UrlData, m.url, p, m);
      MarkCleared(m.url.value);
      m := m.(url := None);
      act := Next;
      MirrorsFlushed(o, View(), old(Joined(calls, m0, data, p)), calls, data, p);
    }

    /** The next byte of a URL under way. */
    method UrlByteOn(data: seq<char>, p: nat, m: Marks) returns (act: Action)
      requires p < |data| && errno == OK && InUrl(state) && m.url.Some? && m.url.value <= p
               && m == MarkOf(UrlData, m.url.value)
      modifies this`state, this`errno
      ensures MirrorsData(UrlByte(old(View()), data[p]), act, View(), Joined(calls, m, data, p), calls, m, data, p,
                          errno)
    {
      hide ParseUrlChar, MirrorsData, Joined, MarksFit, MarkOf, UrlByte;
      UrlByteMirrors(View(), calls, m, data, p);
      act := UrlChar(data[p]);
    }

    method UrlChar(ch: char) returns (act: Action)
      requires errno == OK
      modifies this`state, this`errno
      ensures View() == old(View()).(state := ParseUrlChar(old(state), ch))
      ensures state == Dead ==> act == Error && errno == INVALID_URL
      ensures state != Dead ==> act == Next && errno == OK && InUrl(state)
    {
      UrlStays(state, ch);
      state := ParseUrlChar(state, ch);
      if state == Dead { act := Fail(INVALID_URL); } else { act := Next; }
    }

    method StatusState(data: seq<char>, p: nat, m0: Marks) returns (act: Action, m: Marks)
      requires p < |data| && Busy() && (state.ResStatusStart? || state.ResStatus?) && MarksFit(state, m0, p)
      modifies this
      ensures old(calls) <= calls
      ensures MirrorsData(PassStatusLine(old(View()), data[p]), act, View(),
                          old(Joined(calls, m0, data, p)), calls, m, data, p, errno)
    {
      hide Good, Joined, MirrorsData, MarkOf;
      if state.ResStatusStart? {
        act, m := StatusStart(data, p, m0);
      } else {
        hide MarksFit;
        StatusMark(m0, p);
        act, m := StatusByte(data, p, m0);
      }
    }

    method StatusStart(data: seq<char>, p: nat, m0: Marks) returns (act: Action, m: Marks)
      requires p < |data| && errno == OK && state.ResStatusStart? && m0 == NO_MARKS
      modifies this`state, this`index
      ensures MirrorsData(PassStatusLine(old(View()), data[p]), act, View(),
                          Joined(calls, m0, data, p), calls, m, data, p, errno)
    {
      hide Joined, MirrorsData, MarkOf;
      m := m0;
      var ch := data[p];
      ghost var o := PassStatusLine(View(), ch);
      StartMark(p);
      if m.status.None? { m := m.(status := Some(p)); }
      state := ResStatus;
      index := 0;
      if ch == CR || ch == LF {
        MirrorsStartedAgain(o, View(), StatusData, calls, data, p);
        return Reexecute, m;
      }
      MirrorsStarted(o, View(), StatusData, calls, data, p);
      act := Next;
    }

    method StatusByte(data: seq<char>, p: nat, m0: Marks) returns (act: Action, m: Marks)
      requires p < |data| && errno == OK && state.ResStatus?
      requires m0.status.Some? && m0.status.value <= p && m0 == MarkOf(StatusData, m0.status.value)
      modifies this
      ensures old(calls) <= calls
      ensures MirrorsData(PassStatusLine(old(View()), data[p]), act, View(),
                          old(Joined(calls, m0, data, p)), calls, m, data, p, errno)
    {
      hide Joined, MirrorsData, MarkOf, Join, Push;
      m := m0;
      var ch := data[p];
      ghost var o := PassStatusLine(View(), ch);
      if ch == CR || ch == LF {
        state := if ch == CR then ResLineAlmostDone else HeaderFieldStart;
        Flush(data, StatusData, m.status, p, m);
        MarkCleared(m.status.value);
        m := m.(status := None);
        MirrorsFlushed(o, View(), old(Joined(calls, m0, data, p)), calls, data, p);
        return Next, m;
      }
      MirrorsExtended(o, View(), StatusData, m.status.value, calls, data, p);
      act := Next;
    }

    /** The first byte of a header name, `c` in lower case. */
    method FieldBegins(c: char)
      modifies this`headerState, this`index, this`state
      ensures View() == old(View()).(state := HeaderField, index := 0, headerState := FirstFieldByte(c))
    {
      index := 0;
      state := HeaderField;
      match c
      case 'c' => headerState := C;
      case 'p' => headerState := MatchingProxyConnection;
      case 't' => headerState := MatchingTransferEncoding;
      case 'u' => headerState := MatchingUpgrade;
      case _ => headerState := General;
    }

    method FieldStart(data: seq<char>, p: nat, m0: Marks) returns (act: Action, m: Marks)
      requires p < |data| && Busy() && state.HeaderFieldStart? && m0 == NO_MARKS
      modifies this
      ensures old(calls) <= calls
      ensures MirrorsData(PassFieldName(old(View()), data[p]), act, View(),
                          old(Joined(calls, m0, data, p)), calls, m, data, p, errno)
    {
      FieldStartPass(View(), data[p]);
      hide Good, Joined, MirrorsData, MarkOf, TokenOf, IsToken, PassFieldName, FirstFieldByte;
      m := m0;
      var ch := data[p];
      ghost var v := View();
      ghost var o := PassFieldName(v, ch);
      if ch == CR {
        state := HeadersAlmostDone;
        MirrorsPlain(o, View(), calls, data, p);
        return Next, m;
      }
      if ch == LF {
        state := HeadersAlmostDone;
        MirrorsPlain(o, View(), calls, data, p);
        return Reexecute, m;
      }
      var c := TokenOf(ch);
      TokenNul(ch);
      if c == '\0' {
        act := Fail(INVALID_HEADER_TOKEN);
        MirrorsFail(o, View(), Joined(calls, m0, data, p), calls, m, data, p, errno);
        return;
      }
      FieldBegins(c);
      StartMark(p);
      if m.field.None? { m := m.(field := Some(p)); }
      MirrorsStarted(o, View(), FieldData, calls, data, p);
      act := Next;
    }

    method ValueStart(data: seq<char>, p: nat, m0: Marks) returns (act: Action, m: Marks)
      requires p < |data| && Busy() && (state.HeaderValueDiscardWs? || state.HeaderValueStart?) && m0 == NO_MARKS
      modifies this
      ensures old(calls) <= calls
      ensures MirrorsData(PassFieldValue(old(View()), data[p]), act, View(),
                          old(Joined(calls, m0, data, p)), calls, m, data, p, errno)
    {
      hide Good, Joined, MirrorsData, PassFieldValue, FirstValueByte;
      m := m0;
      var ch := data[p];
      ghost var o := PassFieldValue(View(), ch);
      ValueStartPass(View(), ch);
      if state.HeaderValueDiscardWs? {
        if ch == ' ' || ch == TAB {
          MirrorsPlain(o, View(), calls, data, p);
          return Next, m;
        }
        if ch == CR || ch == LF {
          state := if ch == CR then HeaderValueDiscardWsAlmostDone else HeaderValueDiscardLws;
          MirrorsPlain(o, View(), calls, data, p);
          return Next, m;
        }
      }
      act, m := FirstValue(data, p, m);
    }

    /** The code shared by the states before a value and at a fold: the value's first byte. */
    method FirstValue(data: seq<char>, p: nat, m0: Marks) returns (act: Action, m: Marks)
      requires p < |data| && Busy() && m0 == NO_MARKS
      modifies this
      ensures old(calls) <= calls
      ensures MirrorsData(FirstValueByte(old(View()), data[p]), act, View(),
                          old(Joined(calls, m0, data, p)), calls, m, data, p, errno)
    {
      hide Good, Joined, MirrorsData, MarkOf, FirstValueByte;
      m := m0;
      ghost var o := FirstValueByte(View(), data[p]);
      StartMark(p);
      if m.value.None? { m := m.(value := Some(p)); }
      act := FirstOfValue(data[p]);
      if act == Error {
        MirrorsFail(o, View(), Joined(calls, m0, data, p), calls, m, data, p, errno);
      } else {
        MirrorsStarted(o, View(), ValueData, calls, data, p);
      }
    }

    /** The first digit of a Content-Length. */
    method FirstDigit(ch: char) returns (act: Action)
      requires errno == OK
      modifies this`flags, this`headerState, this`contentLength, this`errno
      ensures !IsNum(ch) ==> act == Error && errno == INVALID_CONTENT_LENGTH
      ensures IsNum(ch) && old(flags).contentLength ==> act == Error && errno == UNEXPECTED_CONTENT_LENGTH
      ensures IsNum(ch) && !old(flags).contentLength ==>
                && act == Next && errno == OK
                && View() == old(View()).(flags := old(flags).(contentLength := true), contentLength := Digit(ch),
                                          headerState := ContentLengthNum)
    {
      if !IsNum(ch) {
        act := Fail(INVALID_CONTENT_LENGTH);
        return;
      }
      if flags.contentLength {
        act := Fail(UNEXPECTED_CONTENT_LENGTH);
        return;
      }
      flags := flags.(contentLength := true);
      contentLength := Digit(ch);
      headerState := ContentLengthNum;
      act := Next;
    }

    /** What the first byte of a header value is to the matchers. */
    method FirstOfValue(ch: char) returns (act: Action)
      requires errno == OK
      modifies this`state, this`index, this`flags, this`headerState, this`contentLength, this`errno
      ensures act == Error ==> FirstValueByte(old(View()), ch) == Outcome.Fail(errno)
      ensures act != Error ==> act == Next && errno == OK && state == HeaderValue
      ensures act != Error ==> FirstValueByte(old(View()), ch) == Consumed(View(), Some(Data(ValueData, [ch])))
    {
      FirstValueIs(View(), ch);
      hide Lower, FirstValueByte, ConnectionToken;
      state := HeaderValue;
      index := 0;
      if headerState == ContentLength {
        act := FirstDigit(ch);
      } else {
        ValueMatcher(Lower(ch));
        act := Next;
      }
    }

    /** The value matcher that goes with the name matched, `c` being the value's first byte in lower case. */
    method ValueMatcher(c: char)
      modifies this`flags, this`headerState
      ensures View() == old(View()).(headerState := FirstMatcher(old(headerState), c),
                                     flags := if old(headerState) != Upgrade then old(flags)
                                              else old(flags).(upgrade := true))
    {
      match headerState
      case Upgrade =>
        flags := flags.(upgrade := true);
        headerState := General;
      case TransferEncoding =>
        headerState := if c == 'c' then MatchingTransferEncodingChunked else General;
      case ContentLengthWs =>
      case Connection =>
        if c == 'k' { headerState := MatchingConnectionKeepAlive; }
        else if c == 'c' { headerState := MatchingConnectionClose; }
        else if c == 'u' { headerState := MatchingConnectionUpgrade; }
        else { headerState := MatchingConnectionToken; }
      case MatchingConnectionTokenStart =>
      case _ => headerState := General;
    }

    /** After the line of an empty header value. */
    method EmptyValue(data: seq<char>, p: nat, m0: Marks) returns (act: Action, m: Marks)
      requires p < |data| && Busy() && state.HeaderValueDiscardLws? && m0 == NO_MARKS
      modifies this
      ensures old(calls) <= calls
      ensures MirrorsData(PassFieldValue(old(View()), data[p]), act, View(),
                          old(Joined(calls, m0, data, p)), calls, m, data, p, errno)
    {
      hide Good, Slice, Joined, MirrorsData, MarkOf, Push, Join, FinishValue, PassFieldValue;
      m := m0;
      var ch := data[p];
      ghost var o := PassFieldValue(View(), ch);
      EmptyPass(View(), ch);
      if ch == ' ' || ch == TAB {
        state := HeaderValueDiscardWs;
        MirrorsPlain(o, View(), calls, data, p);
        return Next, m;
      }
      if headerState == ContentLength {
        act := Fail(INVALID_CONTENT_LENGTH);
        MirrorsFail(o, View(), Joined(calls, m0, data, p), calls, m, data, p, errno);
        return;
      }
      act, m := EmptyValueOver(data, p, m, o);
    }

    /** The callback and the flags of an empty value. */
    method EmptyValueOver(data: seq<char>, p: nat, m0: Marks, ghost o: Outcome) returns (act: Action, m: Marks)
      requires p < |data| && errno == OK && m0 == NO_MARKS
      requires o == Again(View().(flags := FinishValue(flags, headerState), state := HeaderFieldStart),
                          Some(Data(ValueData, [])))
      modifies this
      ensures old(calls) <= calls
      ensures MirrorsData(o, act, View(), old(Joined(calls, m0, data, p)), calls, m, data, p, errno)
    {
      hide Joined, MirrorsData, MarkOf, Join, FinishValue;
      m := m0;
      SetValueFlags();
      StartMark(p);
      if m.value.None? { m := m.(value := Some(p)); }
      state := HeaderFieldStart;
      Flush(data, ValueData, m.value, p, m);
      MarkCleared(p);
      m := m.(value := None);
      EmptyDelivered(o, View(), old(calls), calls, data, p);
      act := Reexecute;
    }

    method ChunkDataEnd(data: seq<char>, p: nat, m0: Marks) returns (act: Action, m: Marks)
      requires p < |data| && Busy() && state.ChunkDataAlmostDone? && MarksFit(state, m0, p)
      modifies this
      ensures old(calls) <= calls
      ensures MirrorsData(PassChunk(old(View()), data[p]), act, View(),
                          old(Joined(calls, m0, data, p)), calls, m, data, p, errno)
    {
      hide Good, Joined, MirrorsData, MarksFit, MarkOf, Push, Join, Unhex;
      ghost var o := PassChunk(View(), data[p]);
      ChunkFacts(maxHeaderSize, View());
      assert flags.chunked && contentLength == 0;
      m := m0;
      act := Check(data[p] == CR, ChunkDataDone, STRICT);
      if act == Error {
        MirrorsFail(o, View(), Joined(calls, m0, data, p), calls, m, data, p, errno);
        return;
      }
      BodyMark(ChunkDataAlmostDone, m, p);
      JoinedNone(calls, data, p);
      if m.body.Some? { Flush(data, BodyData, m.body, p, m); }
      m := NO_MARKS;
      MirrorsFlushed(o, View(), old(Joined(calls, m0, data, p)), calls, data, p);
    }

    // ---------- bulk states ----------

    /** The name matcher on token byte `c`. */
    method MatchField(c: char)
      requires FieldStateOk(headerState, index) && c != ' '
      modifies this`headerState, this`index
      ensures (headerState, index) == FieldByte(old(headerState), old(index), c)
      ensures FieldStateOk(headerState, index)
    {
      FieldByteGood(headerState, index, c);
      match headerState
      case General =>
      case C =>
        index := index + 1;
        headerState := if c == 'o' then CO else General;
      case CO =>
        index := index + 1;
        headerState := if c == 'n' then CON else General;
      case CON =>
        index := index + 1;
        headerState := if c == 'n' then MatchingConnection else if c == 't' then MatchingContentLength else General;
      case MatchingConnection => MatchFieldWord(CONNECTION, c, Connection);
      case MatchingProxyConnection => MatchFieldWord(PROXY_CONNECTION, c, Connection);
      case MatchingContentLength => MatchFieldWord(CONTENT_LENGTH, c, ContentLength);
      case MatchingTransferEncoding => MatchFieldWord(TRANSFER_ENCODING, c, TransferEncoding);
      case MatchingUpgrade => MatchFieldWord(UPGRADE, c, Upgrade);
      case Connection | ContentLength | TransferEncoding | Upgrade => if c != ' ' { headerState := General; }
    }

    method MatchFieldWord(word: string, c: char, done: HeaderState)
      requires index + 1 < |word|
      modifies this`headerState, this`index
      ensures index == old(index) + 1
      ensures headerState == MatchNext(word, index, c, old(headerState), done, General)
    {
      hide At;
      index := index + 1;
      if index > |word| || c != At(word, index) {
        headerState := General;
      } else if index == |word| - 1 {
        headerState := done;
      }
    }

    /** The inner loop of `h_general`: skips token bytes after `p0`, at most a header's worth of them. */
    method SkipTokens(data: seq<char>, p0: nat) returns (p: nat)
      requires p0 < |data| && IsToken(data[p0])
      ensures p0 <= p < |data| && forall k :: p0 <= k <= p ==> IsToken(data[k])
    {
      hide TokenOf, IsToken;
      p := p0;
      var left := |data| - p;
      var pe := p + if left < maxHeaderSize then left else maxHeaderSize;
      while p + 1 < pe && TokenOf(data[p + 1]) != '\0'
        invariant p0 <= p < |data| && forall k :: p0 <= k <= p ==> IsToken(data[k])
      {
        p := p + 1;
        TokenNul(data[p]);
      }
    }

    /** The loop of `s_header_field` over token bytes. */
    method SweepField(data: seq<char>, p0: nat) returns (p: nat, ch: char)
      requires p0 < |data| && FieldStateOk(headerState, index)
      modifies this`headerState, this`index
      ensures p0 <= p <= |data| && AllTokens(data[p0..p])
      ensures (headerState, index) == FieldFold(old(headerState), old(index), data[p0..p])
      ensures p < |data| ==> ch == data[p] && !IsToken(ch)
    {
      hide FieldByte, TokenOf, IsToken, FieldStateOk, FieldFold;
      p := p0;
      ch := data[p];
      assert data[p0..p] == [];
      FieldFoldEmpty(headerState, index);
      while p < |data|
        invariant p0 <= p <= |data|
        invariant forall k :: p0 <= k < p ==> IsToken(data[k])
        invariant FieldStateOk(headerState, index)
        invariant (headerState, index) == FieldFold(old(headerState), old(index), data[p0..p])
      {
        ch := data[p];
        var c := TokenOf(ch);
        TokenNul(ch);
        if c == '\0' { break; }
        ghost var q := p;
        ghost var h, i := headerState, index;
        if headerState == General {
          p := SkipTokens(data, p);
          FieldFoldGeneral(index, data[q..p + 1]);
        } else {
          TokenNoBlank(ch);
          OneByte(data, p);
          FieldFoldOne(headerState, index, ch);
          MatchField(c);
        }
        p := p + 1;
        assert data[p0..p] == data[p0..q] + data[q..p];
        FieldFoldAppend(old(headerState), old(index), data[p0..q], data[q..p]);
      }
    }

    /** `s_header_field`: sweeps over token bytes, counting them at the end. */
    method FieldBytes(data: seq<char>, p0: nat, m0: Marks) returns (act: Action, p: nat, m: Marks)
      requires p0 < |data| && Busy() && state.HeaderField? && MarksFit(state, m0, p0)
      requires |data| + maxHeaderSize < TWO_32
      modifies this
      ensures old(calls) <= calls
      ensures Sound(maxHeaderSize, old(Here(data, m0, p0)), act, View(), calls, m, data, p0, p, errno)
      ensures act != Reexecute
    {
      hide RunOn, Finish, Joined, Good, FieldFold, Sound, MarksFit, FieldStateOk, AfterField, MarkOf, AllTokens;
      ghost var v0 := View();
      ghost var k := FieldMark(m0, p0);
      FieldFacts(maxHeaderSize, v0);
      m := m0;
      var ch;
      p, ch := SweepField(data, p0);
      if p < |data| {
        act, m := FieldOver(data, p0, p, m0, v0, k);
        return;
      }
      FieldOut(maxHeaderSize, v0, calls, k, data, p0, headerState, index);
      p := p - 1;
      ghost var f := Finish(v0, Joined(calls, m, data, p0), p0, data[p0]);
      act := CountLine(data, p0, p, m, f, AfterField(v0, data[p0..]), p + 1);
    }

    /** `s_header_field` at the byte that is no token. */
    method FieldOver(data: seq<char>, start: nat, p: nat, m0: Marks, ghost v0: Parser, ghost k: nat)
      returns (act: Action, m: Marks)
      requires k <= start <= p < |data| && AllTokens(data[start..p]) && !IsToken(data[p])
      requires errno == OK && v0.state == HeaderField && v0.nread <= maxHeaderSize && m0 == MarkOf(FieldData, k)
      requires |data| + maxHeaderSize < TWO_32
      requires var (h, i) := FieldFold(v0.headerState, v0.index, data[start..p]);
               View() == v0.(headerState := h, index := i)
      modifies this
      ensures old(calls) <= calls
      ensures Sound(maxHeaderSize, Finish(v0, old(Joined(calls, m0, data, start)), start, data[start]),
                    act, View(), calls, m, data, start, p, errno)
      ensures act != Reexecute
    {
      hide RunOn, Finish, Joined, FieldFold, Sound, MarksFit, IsToken, Join, MarkOf, AllTokens;
      ghost var f := Finish(v0, Joined(calls, m0, data, start), start, data[start]);
      ghost var v1 := View();
      ghost var after := FieldEnd(maxHeaderSize, v0, calls, k, data, start, p);
      m := m0;
      var ok := Count(p - start);
      CountExact(v0.nread, p - start, maxHeaderSize, |data|);
      if !ok {
        act := Error;
        SoundError(maxHeaderSize, f, View(), calls, m, data, start, p, p + 1, errno);
        return;
      }
      assert View() == v1.(nread := v0.nread + (p - start));
      act, m := FieldStops(data, start, p, m, k, f, after);
    }

    /** The byte that ends a header name. */
    method FieldStops(data: seq<char>, start: nat, p: nat, m0: Marks, ghost k: nat, ghost f: Run, ghost after: Run)
      returns (act: Action, m: Marks)
      requires start <= p < |data| && k <= p && m0 == MarkOf(FieldData, k) && errno == OK
      requires after == RunOn(maxHeaderSize, f, data[start + 1..p + 1])
      requires after == if data[p] != ':' then Failed
                        else Going(Config(View().(state := HeaderValueDiscardWs), Joined(calls, m0, data, p), p + 1))
      modifies this`state, this`errno, this`calls
      ensures old(calls) <= calls
      ensures act != Reexecute && Sound(maxHeaderSize, f, act, View(), calls, m, data, start, p, errno)
    {
      hide RunOn, Joined, Sound, MarkOf;
      MarkCleared(k);
      m := m0;
      if data[p] == ':' {
        state := HeaderValueDiscardWs;
        act, m := FieldDelivered(data, start, p, m, k, f, after);
        return;
      }
      act := Fail(INVALID_HEADER_TOKEN);
      SoundError(maxHeaderSize, f, View(), calls, m, data, start, p, p + 1, errno);
    }

    /** The name is delivered; the new state is set already. */
    method FieldDelivered(data: seq<char>, start: nat, p: nat, m0: Marks, ghost k: nat, ghost f: Run, ghost after: Run)
      returns (act: Action, m: Marks)
      requires start <= p < |data| && k <= p && m0 == MarkOf(FieldData, k) && m0.field == Some(k)
      requires errno == OK && state == HeaderValueDiscardWs
      requires after == RunOn(maxHeaderSize, f, data[start + 1..p + 1])
      requires after == Going(Config(View(), Joined(calls, m0, data, p), p + 1))
      modifies this`calls
      ensures old(calls) <= calls
      ensures act == Next && Sound(maxHeaderSize, f, act, View(), calls, m, data, start, p, errno)
    {
      hide RunOn, Joined, Sound, MarksFit, Join, MarkOf;
      MarkCleared(k);
      m := m0;
      Flush(data, FieldData, m.field, p, m);
      m := m.(field := None);
      JoinedNone(calls, data, p + 1);
      NoMarkFits(state, p + 1);
      SoundNext(maxHeaderSize, f, View(), calls, m, data, start, p);
      act := Next;
    }

    /** The fields that the bytes of a header value act on, with the loop's own header state. */
    function Value(h: HeaderState): ValueState
      reads this
    {
      ValueState(h, index, flags, contentLength)
    }

    /** The digits of a content length. */
    method MatchLength(ch: char, h: HeaderState) returns (ok: bool, h1: HeaderState)
      requires ValueGood(Value(h)) && InLength(h)
      modifies this`contentLength
      ensures var o := ValueByte(old(Value(h)), ch); ok == o.Some? && (ok ==> o.value == Value(h1))
    {
      hide MulAdd64, ValueStateOk;
      h1 := h;
      if ch == ' ' { return true, ContentLengthWs; }
      if h == ContentLengthWs || !IsNum(ch) { return false, h1; }
      var t := MulAdd64(contentLength, 10, Digit(ch));
      if (ULLONG_MAX - 10) / 10 < contentLength { return false, h1; }
      DecimalNoWrap(contentLength, Digit(ch));
      contentLength := t;
      return true, h1;
    }

    /** A comma after a Connection token. */
    method TokenOver(h: HeaderState)
      requires h == ConnectionKeepAlive || h == ConnectionClose || h == ConnectionUpgrade
      modifies this`flags
      ensures flags == FinishValue(old(flags), h)
    {
      if h == ConnectionKeepAlive { flags := flags.(keepAlive := true); }
      else if h == ConnectionClose { flags := flags.(close := true); }
      else if h == ConnectionUpgrade { flags := flags.(connectionUpgrade := true); }
    }

    /** The tokens of a Connection header, outside a matcher. */
    method MatchTokens(ch: char, h: HeaderState) returns (h1: HeaderState)
      requires ValueGood(Value(h)) && !InLength(h) && !Matching(h) && h != General
      modifies this`index, this`flags
      ensures ValueByte(old(Value(h)), ch) == Some(Value(h1))
    {
      hide IsToken, Lower, FinishValue;
      h1 := h;
      var c := Lower(ch);
      if h == MatchingConnectionTokenStart {
        if c == 'k' { h1 := MatchingConnectionKeepAlive; }
        else if c == 'c' { h1 := MatchingConnectionClose; }
        else if c == 'u' { h1 := MatchingConnectionUpgrade; }
        else if IsToken(c) { h1 := MatchingConnectionToken; }
        else if c == ' ' || c == TAB { }
        else { h1 := General; }
      } else if h == MatchingConnectionToken {
        if ch == ',' {
          h1 := MatchingConnectionTokenStart;
          index := 0;
        }
      } else if h == TransferEncodingChunked {
        if ch != ' ' { h1 := General; }
      } else if ch == ',' {
        TokenOver(h);
        h1 := MatchingConnectionTokenStart;
        index := 0;
      } else if ch != ' ' {
        h1 := MatchingConnectionToken;
      }
    }

    /** The switch of `s_header_value` on its own header state, outside `h_general`. */
    method MatchValue(ch: char, h: HeaderState) returns (ok: bool, h1: HeaderState)
      requires ValueGood(Value(h)) && h != General
      modifies this`index, this`flags, this`contentLength
      ensures var o := ValueByte(old(Value(h)), ch); ok == o.Some? && (ok ==> o.value == Value(h1))
      ensures ok ==> ValueGood(Value(h1))
    {
      hide MatchNext, Lower, ValueByte;
      ValueByteGood(Value(h), ch);
      // the source's "Shouldn't get here"
      assert h != Connection && h != TransferEncoding;
      var c := Lower(ch);
      if InLength(h) {
        ok, h1 := MatchLength(ch, h);
        return;
      }
      if Matching(h) {
        MatcherByte(Value(h), ch);
        index := index + 1;
        if h == MatchingTransferEncodingChunked {
          h1 := MatchNext(CHUNKED, index, c, h, TransferEncodingChunked, General);
        } else if h == MatchingConnectionKeepAlive {
          h1 := MatchNext(KEEP_ALIVE, index, c, h, ConnectionKeepAlive, MatchingConnectionToken);
        } else if h == MatchingConnectionClose {
          h1 := MatchNext(CLOSE, index, c, h, ConnectionClose, MatchingConnectionToken);
        } else {
          h1 := MatchNext(UPGRADE, index, c, h, ConnectionUpgrade, MatchingConnectionToken);
        }
        return true, h1;
      }
      h1 := MatchTokens(ch, h);
      ok := true;
    }

    /** The inner loop of `h_general`. It looks at no more than a header's worth of bytes; when it runs
        that far, the byte after them is skipped unseen. */
    method SkipValue(data: seq<char>, p0: nat) returns (p: nat, refused: bool, ghost overran: bool)
      requires p0 < |data| && data[p0] != CR && data[p0] != LF
      ensures p0 <= p < |data|
      ensures AllHeaderChars(data[p0..p]) && NoLineEnd(data[p0..p])
      ensures refused ==> !overran && !IsHeaderChar(data[p])
      ensures overran ==> p == p0 + maxHeaderSize
      ensures !overran && !refused ==> AllHeaderChars(data[p0..p + 1]) && NoLineEnd(data[p0..p + 1])
    {
      hide IsHeaderChar;
      p := p0;
      var left := |data| - p;
      var pe := p + if left < maxHeaderSize then left else maxHeaderSize;
      while p < pe
        invariant p0 <= p <= pe && forall k :: p0 <= k < p ==> IsHeaderChar(data[k]) && data[k] != CR && data[k] != LF
      {
        var ch := data[p];
        if ch == CR || ch == LF {
          return p - 1, false, false;
        }
        if !IsHeaderChar(ch) {
          return p, true, false;
        }
        p := p + 1;
      }
      if p == |data| {
        return p - 1, false, false;
      }
      return p, false, true;
    }

    /** The loop of `s_header_value`: up to CR or LF, the end of the data, or a refused byte.
        `lost` says that a general value overran a header's worth of bytes at `q`. */
    method SweepValue(data: seq<char>, p0: nat) returns (p: nat, refused: bool, ghost lost: bool, ghost q: nat)
      requires p0 < |data| && errno == OK && ValueGood(Value(headerState))
      modifies this`headerState, this`index, this`flags, this`contentLength, this`errno
      ensures refused <==> errno != OK
      ensures if refused then Refused(maxHeaderSize, old(Value(headerState)), data, p0, p, lost, q)
              else Sweeping(maxHeaderSize, old(Value(headerState)), data, p0, p, lost, q, Value(headerState))
                   && (p < |data| ==> data[p] == CR || data[p] == LF)
    {
      hide Sweeping, Refused, ValueByte, IsHeaderChar, ValueGood;
      var hState := headerState;
      ghost var w0 := Value(headerState);
      p, refused, lost, q := p0, false, false, p0;
      SweepStarts(maxHeaderSize, w0, data, p0);
      while p < |data|
        invariant p0 <= p <= |data| && errno == OK && !refused
        invariant Sweeping(maxHeaderSize, w0, data, p0, p, lost, q, Value(hState))
      {
        var ch := data[p];
        if ch == CR || ch == LF { break; }
        if !IsHeaderChar(ch) {
          errno := INVALID_HEADER_TOKEN;
          refused := true;
          SweepRefused(maxHeaderSize, w0, data, p0, p, p, lost, q, Value(hState));
          break;
        }
        if hState == General {
          ghost var here := p;
          ghost var overran;
          p, refused, overran := SkipValue(data, p);
          if refused {
            errno := INVALID_HEADER_TOKEN;
            SweepRefused(maxHeaderSize, w0, data, p0, here, p, lost, q, Value(hState));
            break;
          }
          SweepSkips(maxHeaderSize, w0, data, p0, here, p, lost, q, Value(hState), overran);
          if overran && !lost { lost, q := true, p; }
        } else {
          SweepGood(maxHeaderSize, w0, data, p0, p, lost, q, Value(hState));
          SweepTakes(maxHeaderSize, w0, data, p0, p, lost, q, Value(hState));
          var ok, h1 := MatchValue(ch, hState);
          if !ok {
            errno := INVALID_CONTENT_LENGTH;
            refused := true;
            break;
          }
          hState := h1;
        }
        p := p + 1;
      }
      headerState := hState;
    }

    /** `s_header_value`: sweeps over a value, counting its bytes at the end. */
    method ValueBytes(data: seq<char>, p0: nat, m0: Marks) returns (act: Action, p: nat, m: Marks)
      requires p0 < |data| && Busy() && state.HeaderValue? && MarksFit(state, m0, p0)
      requires 1 <= nread && |data| + maxHeaderSize < TWO_32
      modifies this
      ensures old(calls) <= calls
      ensures Sound(maxHeaderSize, old(Here(data, m0, p0)), act, View(), calls, m, data, p0, p, errno)
      ensures act == Reexecute ==> state == HeaderAlmostDone
    {
      hide RunOn, Finish, Joined, Good, ValueFold, Sound, MarksFit, ValueStateOk, Sweeping, Refused, MarkOf,
        ValueGood;
      ghost var v0 := View();
      ghost var k := ValueMark(m0, p0);
      ValueStarts(maxHeaderSize, v0);
      m := m0;
      var refused;
      ghost var lost, q;
      ghost var f := Here(data, m0, p0);
      p, refused, lost, q := SweepValue(data, p0);
      if refused {
        act := Error;
        ghost var fails := ValueFails(maxHeaderSize, v0, calls, k, data, p0, p, f, lost, q);
        SoundError(maxHeaderSize, f, View(), calls, m, data, p0, p, fails, errno);
        return;
      }
      ghost var w := Value(headerState);
      ValueRuns(maxHeaderSize, v0, calls, k, data, p0, p, w, f, lost, q);
      if p < |data| {
        if data[p] == LF {
          act, m := ValueLineFeed(data, p0, p, m0, v0, k, lost, q);
        } else {
          act, m := ValueReturn(data, p0, p, m0, v0, k, lost, q);
        }
        return;
      }
      p := p - 1;
      ghost var q1 := SetValue(v0, w).(nread := v0.nread + (p - p0));
      act := CountLine(data, p0, p, m, f, q1, if lost then q + 1 else p + 1);
    }

    /** A value has been swept from `start` up to the line end at `p`, nothing counted or delivered yet. */
    ghost predicate ValueSweptTo(data: seq<char>, start: nat, p: nat, m: Marks, v0: Parser, k: nat, lost: bool, q: nat)
      reads this
    {
      && start <= p < |data| && errno == OK && View() == SetValue(v0, Value(headerState))
      && SweptTo(maxHeaderSize, v0, calls, data, start, p, m, Value(headerState), k, lost, q)
    }

    /** `s_header_value` at LF: counted, delivered and looked at again. */
    method ValueLineFeed(data: seq<char>, start: nat, p: nat, m0: Marks, ghost v0: Parser, ghost k: nat,
                         ghost lost: bool, ghost q: nat)
      returns (act: Action, m: Marks)
      requires ValueSweptTo(data, start, p, m0, v0, k, lost, q) && data[p] == LF
      modifies this
      ensures old(calls) <= calls
      ensures Sound(maxHeaderSize, Finish(v0, old(Joined(calls, m0, data, start)), start, data[start]),
                    act, View(), calls, m, data, start, p, errno)
      ensures act == Reexecute ==> state == HeaderAlmostDone
    {
      hide RunOn, Finish, Joined, SweptTo, Sound, MarksFit, Good, Join, MarkOf;
      ghost var f := Finish(v0, Joined(calls, m0, data, start), start, data[start]);
      ghost var q1 := SetValue(v0, Value(headerState)).(nread := v0.nread + (p - start), state := HeaderAlmostDone);
      ValueEnds(maxHeaderSize, v0, calls, data, start, p, m0, Value(headerState), k, lost, q, f, q1);
      m := m0;
      state := HeaderAlmostDone;
      var ok := Count(p - start);
      assert View() == q1;
      if !ok {
        act := Error;
        SoundError(maxHeaderSize, f, View(), calls, m, data, start, p, if lost then q + 1 else p + 1, errno);
        return;
      }
      act, m := ValueDelivered(data, start, p, m, k, f);
    }

    /** The value is delivered, and the line feed is looked at again. */
    method ValueDelivered(data: seq<char>, start: nat, p: nat, m0: Marks, ghost k: nat, ghost f: Run)
      returns (act: Action, m: Marks)
      requires start <= p < |data| && k <= p && m0 == MarkOf(ValueData, k) && m0.value == Some(k)
      requires errno == OK && state == HeaderAlmostDone && Good(maxHeaderSize, View(), 1)
      requires RunOn(maxHeaderSize, f, data[start + 1..p + 1]) == Finish(View(), Joined(calls, m0, data, p), p, data[p])
      modifies this`calls
      ensures old(calls) <= calls
      ensures act == Reexecute && Sound(maxHeaderSize, f, act, View(), calls, m, data, start, p, errno)
    {
      hide RunOn, Finish, Joined, Sound, MarksFit, Good, Join, MarkOf;
      ghost var t := Joined(calls, m0, data, p);
      MarkCleared(k);
      m := m0;
      Flush(data, ValueData, m.value, p, m);
      m := m.(value := None);
      JoinedNone(calls, data, p);
      NoMarkFits(state, p);
      SoundAgain(maxHeaderSize, f, View(), t, calls, m, data, start, p);
      act := Reexecute;
    }

    /** `s_header_value` at CR: delivered, counted and consumed. */
    method ValueReturn(data: seq<char>, start: nat, p: nat, m0: Marks, ghost v0: Parser, ghost k: nat,
                       ghost lost: bool, ghost q: nat)
      returns (act: Action, m: Marks)
      requires ValueSweptTo(data, start, p, m0, v0, k, lost, q) && data[p] == CR
      modifies this
      ensures old(calls) <= calls
      ensures Sound(maxHeaderSize, Finish(v0, old(Joined(calls, m0, data, start)), start, data[start]),
                    act, View(), calls, m, data, start, p, errno)
      ensures act != Reexecute
    {
      hide RunOn, Finish, Joined, ValueFold, Sound, MarksFit, Good, ValueGood, Join, MarkOf;
      ghost var f := Finish(v0, Joined(calls, m0, data, start), start, data[start]);
      ghost var w := Value(headerState);
      ghost var q1 := SetValue(v0, w).(nread := v0.nread + (p - start), state := HeaderAlmostDone);
      MarkCleared(k);
      m := m0;
      state := HeaderAlmostDone;
      Flush(data, ValueData, m.value, p, m);
      m := m.(value := None);
      ValueCounted(maxHeaderSize, v0, old(calls), calls, k, data, start, p, w, f, q1, lost, q);
      assert View() == q1.(nread := v0.nread);
      act := CountLine(data, start, p, m, f, q1, if lost then q + 1 else p + 1);
    }

    /** Counts the bytes up to `p`; `fails` is where the automaton fails if they are too many. */
    method CountLine(data: seq<char>, start: nat, p: nat, m: Marks, ghost f: Run, ghost q1: Parser, ghost fails: nat)
      returns (act: Action)
      requires start <= p < |data| && start < fails <= p + 1 && errno == OK
      requires p - start <= q1.nread < TWO_32 && View() == q1.(nread := q1.nread - (p - start))
      requires MarksFit(q1.state, m, p + 1)
      requires q1.nread > maxHeaderSize ==> RunOn(maxHeaderSize, f, data[start + 1..fails]) == Failed
      requires q1.nread <= maxHeaderSize ==>
        RunOn(maxHeaderSize, f, data[start + 1..p + 1]) == Going(Config(q1, Joined(calls, m, data, p + 1), p + 1))
      modifies this`nread, this`errno
      ensures act != Reexecute && Sound(maxHeaderSize, f, act, View(), calls, m, data, start, p, errno)
    {
      hide RunOn, Joined, Sound, MarksFit, Join;
      var ok := Count(p - start);
      assert View() == q1;
      if ok {
        act := Next;
        SoundNext(maxHeaderSize, f, q1, calls, m, data, start, p);
      } else {
        act := Error;
        SoundError(maxHeaderSize, f, View(), calls, m, data, start, p, fails, errno);
      }
    }

    // ---------- bodies ----------

    /** `s_body_identity`: jumps over the body bytes at hand. */
    method IdentityBytes(data: seq<char>, p0: nat, m0: Marks) returns (act: Action, p: nat, m: Marks)
      requires p0 < |data| && Busy() && state.BodyIdentity? && MarksFit(state, m0, p0)
      modifies this
      ensures old(calls) <= calls
      ensures Sound(maxHeaderSize, old(Here(data, m0, p0)), act, View(), calls, m, data, p0, p, errno)
      ensures act == Reexecute ==> state == MessageDone
    {
      hide RunOn, Finish, Joined, Good, Sound, MarksFit, Push, Slice, BodyMarked, Join, PushOpt, ParsingHeader;
      ChunkFacts(maxHeaderSize, View());
      var left := |data| - p0;
      var toRead := if contentLength < left then contentLength else left;
      assert contentLength != 0 && contentLength != ULLONG_MAX;
      p := p0 + toRead - 1;
      if toRead == contentLength {
        act, m := IdentityEnd(data, p0, p, m0);
        return;
      }
      ghost var v0 := View();
      ghost var f := Here(data, m0, p0);
      m := BodyMarked(m0, p0);
      BodyJoined(state, calls, m0, data, p0, p + 1);
      PartSwept(maxHeaderSize, v0, Joined(calls, m0, data, p0), data, p0, p + 1);
      contentLength := contentLength - toRead;
      SoundNext(maxHeaderSize, f, View(), calls, m, data, p0, p);
      act := Next;
    }

    /** `s_body_identity` when the whole rest of the body, from `p0` to `p`, is at hand. */
    method IdentityEnd(data: seq<char>, p0: nat, p: nat, m0: Marks) returns (act: Action, m: Marks)
      requires p0 <= p < |data| && Busy() && state.BodyIdentity? && MarksFit(state, m0, p0)
      requires contentLength == p + 1 - p0
      modifies this
      ensures old(calls) <= calls
      ensures Sound(maxHeaderSize, old(Here(data, m0, p0)), act, View(), calls, m, data, p0, p, errno)
      ensures act == Reexecute && state == MessageDone
    {
      hide RunOn, Finish, Joined, Good, Sound, MarksFit, Push, Slice, BodyMarked, Join, PushOpt, ParsingHeader;
      ghost var v0 := View();
      BodyMarkedFits(state, m0, p0, p + 1);
      m := BodyMarked(m0, p0);
      contentLength := 0;
      state := MessageDone;
      assert View() == BodyDone(v0) && calls == old(calls);
      m := DeliverBody(data, p + 1, m);
      IdentitySound(maxHeaderSize, v0, old(calls), m0, calls, data, p0, p);
      act := Reexecute;
    }

    /** CALLBACK_DATA for the body. */
    method DeliverBody(data: seq<char>, end: nat, m0: Marks) returns (m: Marks)
      requires end <= |data| && m0 == NO_MARKS.(body := m0.body) && MarkIn(m0.body, end)
      modifies this`calls
      ensures old(calls) <= calls
      ensures m == NO_MARKS && View() == old(View())
      ensures Join(calls) == old(Joined(calls, m0, data, end))
    {
      hide Join, Joined, Push;
      JoinedMark(calls, BodyData, m0.body.value, data, end);
      Deliver(data, BodyData, m0.body, end);
      m := m0.(body := None);
    }

    /** `s_chunk_data`: jumps over the chunk bytes at hand; their mark outlives the state. */
    method ChunkBytes(data: seq<char>, p0: nat, m0: Marks) returns (act: Action, p: nat, m: Marks)
      requires p0 < |data| && Busy() && state.ChunkData? && MarksFit(state, m0, p0)
      modifies this
      ensures old(calls) <= calls
      ensures Sound(maxHeaderSize, old(Here(data, m0, p0)), act, View(), calls, m, data, p0, p, errno)
      ensures act == Next
    {
      hide RunOn, Finish, Joined, Good, Sound, MarksFit, BodyMarked;
      ChunkFacts(maxHeaderSize, View());
      ghost var v0 := View();
      ghost var f := Here(data, m0, p0);
      var left := |data| - p0;
      var toRead := if contentLength < left then contentLength else left;
      assert flags.chunked && contentLength != 0 && contentLength != ULLONG_MAX;
      m := BodyMarked(m0, p0);
      p := p0 + toRead - 1;
      ChunkSound(maxHeaderSize, v0, calls, m0, data, p0, p, f);
      contentLength := contentLength - toRead;
      if contentLength == 0 { state := ChunkDataAlmostDone; }
      SoundNext(maxHeaderSize, f, View(), calls, m, data, p0, p);
      act := Next;
    }

    /** `s_body_identity_eof`: takes everything. */
    method EofBytes(data: seq<char>, p0: nat, m0: Marks) returns (act: Action, p: nat, m: Marks)
      requires p0 < |data| && Busy() && state.BodyIdentityEof? && MarksFit(state, m0, p0)
      modifies this
      ensures old(calls) <= calls
      ensures Sound(maxHeaderSize, old(Here(data, m0, p0)), act, View(), calls, m, data, p0, p, errno)
      ensures act == Next
    {
      hide RunOn, Finish, Joined, Good, Sound, MarksFit, Push, Slice, BodyMarked;
      ghost var f := Here(data, m0, p0);
      m := BodyMarked(m0, p0);
      p := |data| - 1;
      EofSwept(maxHeaderSize, View(), Joined(calls, m0, data, p0), data, p0, p + 1);
      BodyJoined(state, calls, m0, data, p0, p + 1);
      SoundNext(maxHeaderSize, f, View(), calls, m, data, p0, p);
      act := Next;
    }

    // ---------- the loop ----------

    /** The plain states up to the end of the first line. */
    method ProcessFirstLine(ch: char) returns (act: Action)
      requires Busy() && IsPlain(state) && InFirstLine(state)
      modifies this
      ensures old(calls) <= calls
      ensures Mirrors(Pass(old(View()), ch), act, View(), old(calls), calls, errno)
    {
      hide Good, Mirrors, Pass, PassStatusLine, PassRequestTarget, PassVersion, Rank;
      RouteFirstLine(View(), ch);
      match state
      case StartRes | ResH | ResHT | ResHTT | ResHTTP => act := StatusLineStart(ch);
      case ResHttpMajor | ResHttpDot | ResHttpMinor | ResHttpEnd | ResFirstStatusCode | ResStatusCode
        | ResLineAlmostDone => act := StatusLine(ch);
      case StartReq | ReqMethod => act := RequestStart(ch);
      case ReqHttpStart | ReqHttpI | ReqHttpIC => act := VersionStart(ch);
      case ReqHttpH | ReqHttpHT | ReqHttpHTT | ReqHttpHTTP => act := VersionName(ch);
      case ReqHttpMajor | ReqHttpMinor => act := VersionNumber(ch);
      case ReqHttpDot | ReqHttpEnd | ReqLineAlmostDone => act := RequestLineEnd(ch);
    }

    /** The plain states after the first line. */
    method ProcessRest(ch: char) returns (act: Action)
      requires Busy() && IsPlain(state) && !InFirstLine(state)
      modifies this
      ensures old(calls) <= calls
      ensures Mirrors(Pass(old(View()), ch), act, View(), old(calls), calls, errno)
    {
      hide Good, Mirrors, Pass, PassFieldName, PassFieldValue, PassChunk, PassBody, Expect, Rank;
      RouteRest(View(), ch);
      match state
      case HeaderValueDiscardWsAlmostDone | HeaderAlmostDone => act := ValueLineEnd(ch);
      case HeaderValueLws => act := AfterValueLine(ch);
      case HeadersAlmostDone => act := HeadersAlmostOver(ch);
      case HeadersDone => act := HeadersOver(ch);
      case ChunkSizeStart => act := ChunkFirstDigit(ch);
      case ChunkSize => act := ChunkSizeByte(ch);
      case ChunkParameters | ChunkSizeAlmostDone => act := ChunkLineEnd(ch);
      case ChunkDataDone => act := ChunkOver(ch);
      case MessageDone | Dead => act := EndOfMessage(ch);
    }

    /** The switch on the state. */
    method Process(data: seq<char>, p0: nat, m0: Marks) returns (act: Action, p: nat, m: Marks)
      requires p0 < |data| && Busy() && MarksFit(state, m0, p0) && |data| + maxHeaderSize < TWO_32
      requires state == HeaderField || state == HeaderValue ==> 1 <= nread
      modifies this
      ensures old(calls) <= calls
      ensures Sound(maxHeaderSize, old(Here(data, m0, p0)), act, View(), calls, m, data, p0, p, errno)
      ensures act == Reexecute ==> Rank(state) < old(Rank(state))
    {
      hide Good, Joined, Sound, Finish, MarksFit, IsPlain;
      if IsBulk(state) {
        act, p, m := ProcessBulk(data, p0, m0);
      } else if IsPlain(state) {
        p := p0;
        act, m := ProcessPlain(data, p0, m0);
      } else {
        p := p0;
        act, m := ProcessData(data, p0, m0);
      }
    }

    /** The states that sweep over many bytes. */
    method ProcessBulk(data: seq<char>, p0: nat, m0: Marks) returns (act: Action, p: nat, m: Marks)
      requires p0 < |data| && Busy() && MarksFit(state, m0, p0) && |data| + maxHeaderSize < TWO_32
      requires state == HeaderField || state == HeaderValue ==> 1 <= nread
      requires IsBulk(state)
      modifies this
      ensures old(calls) <= calls
      ensures Sound(maxHeaderSize, old(Here(data, m0, p0)), act, View(), calls, m, data, p0, p, errno)
      ensures act == Reexecute ==> Rank(state) < old(Rank(state))
    {
      hide Good, Joined, Sound, Finish, MarksFit;
      if state == HeaderField {
        act, p, m := FieldBytes(data, p0, m0);
      } else if state == HeaderValue {
        act, p, m := ValueBytes(data, p0, m0);
      } else if state == BodyIdentity {
        act, p, m := IdentityBytes(data, p0, m0);
      } else if state == ChunkData {
        act, p, m := ChunkBytes(data, p0, m0);
      } else {
        act, p, m := EofBytes(data, p0, m0);
      }
    }

    method ProcessPlain(data: seq<char>, p: nat, m0: Marks) returns (act: Action, m: Marks)
      requires p < |data| && Busy() && MarksFit(state, m0, p) && IsPlain(state)
      modifies this
      ensures old(calls) <= calls
      ensures Sound(maxHeaderSize, old(Here(data, m0, p)), act, View(), calls, m, data, p, p, errno)
      ensures act == Reexecute ==> Rank(state) < old(Rank(state))
    {
      hide Good, Mirrors, Joined, Pass, Sound, Finish, MarksFit, Rank, IsPlain;
      ghost var v0 := View();
      PlainPass(v0, data[p]);
      PlainMarks(state, m0, p);
      m := m0;
      if InFirstLine(state) { act := ProcessFirstLine(data[p]); } else { act := ProcessRest(data[p]); }
      PlainSound(maxHeaderSize, v0, old(calls), act, View(), calls, m, data, p, errno);
    }

    method ProcessData(data: seq<char>, p: nat, m0: Marks) returns (act: Action, m: Marks)
      requires p < |data| && Busy() && MarksFit(state, m0, p) && !IsPlain(state) && !IsBulk(state)
      modifies this
      ensures old(calls) <= calls
      ensures Sound(maxHeaderSize, old(Here(data, m0, p)), act, View(), calls, m, data, p, p, errno)
      ensures act == Reexecute ==> Rank(state) < old(Rank(state))
    {
      hide Good, MirrorsData, Joined, Pass, Sound, Finish, MarksFit, Rank, IsPlain;
      ghost var v0 := View();
      DataPass(v0, data[p]);
      act, m := ProcessDataByte(data, p, m0);
      DataSound(maxHeaderSize, v0, old(Joined(calls, m0, data, p)), act, View(), calls, m, data, p, errno);
    }

    /** The states that set or deliver a mark at one byte. */
    method ProcessDataByte(data: seq<char>, p: nat, m0: Marks) returns (act: Action, m: Marks)
      requires p < |data| && Busy() && MarksFit(state, m0, p) && !IsPlain(state) && !IsBulk(state)
      modifies this
      ensures old(calls) <= calls
      ensures MirrorsData(Pass(old(View()), data[p]), act, View(), old(Joined(calls, m0, data, p)),
                          calls, m, data, p, errno)
    {
      hide Good, MirrorsData, Joined, Pass, PassStatusLine, PassRequestTarget, PassFieldName, PassFieldValue,
        PassChunk, Rank;
      RouteData(View(), data[p]);
      if state == ReqSpacesBeforeUrl {
        act, m := UrlStart(data, p, m0);
      } else if InUrl(state) {
        act, m := UrlState(data, p, m0);
      } else if state == ResStatusStart || state == ResStatus {
        act, m := StatusState(data, p, m0);
      } else if state == HeaderFieldStart {
        act, m := FieldStart(data, p, m0);
      } else if state == HeaderValueDiscardWs || state == HeaderValueStart {
        act, m := ValueStart(data, p, m0);
      } else if state == HeaderValueDiscardLws {
        act, m := EmptyValue(data, p, m0);
      } else {
        act, m := ChunkDataEnd(data, p, m0);
      }
    }

    /** Passes over the byte at `p0` until it is consumed. */
    method Passes(data: seq<char>, p0: nat, m0: Marks, ghost c0: Config) returns (act: Action, p: nat, m: Marks)
      requires p0 < |data| && |data| + maxHeaderSize < TWO_32
      requires Arrived(maxHeaderSize, c0, Reexecute, View(), calls, m0, data, p0, errno)
      requires state == HeaderField || state == HeaderValue ==> 1 <= nread
      modifies this
      ensures old(calls) <= calls
      ensures act != Reexecute && (act == Next ==> p0 <= p)
      ensures Arrived(maxHeaderSize, c0, act, View(), calls, m, data, p, errno)
    {
      hide RunOn, Finish, Joined, MarksFit, Good, Sound;
      p, m := p0, m0;
      act := Reexecute;
      while act == Reexecute
        invariant old(calls) <= calls
        invariant Arrived(maxHeaderSize, c0, act, View(), calls, m, data, p, errno)
        invariant act == Reexecute && (state == HeaderField || state == HeaderValue) ==> 1 <= nread
        invariant act == Next || act == Reexecute ==> p0 <= p
        decreases if act == Reexecute then Rank(state) + 1 else 0
      {
        ghost var f := Here(data, m, p);
        ghost var q := p;
        act, p, m := Process(data, p, m);
        Arrive(maxHeaderSize, c0, f, act, View(), calls, m, data, q, p, errno);
      }
    }

    /** One turn of the loop: counts the byte at `p0` and goes through its states. */
    method Turn(data: seq<char>, p0: nat, m0: Marks, ghost c0: Config) returns (act: Action, p: nat, m: Marks)
      requires p0 < |data| && errno == OK && MarksFit(state, m0, p0) && |data| + maxHeaderSize < TWO_32
      requires GoodConfig(maxHeaderSize, c0)
      requires RunOn(maxHeaderSize, Going(c0), data[..p0]) == Going(Config(View(), Joined(calls, m0, data, p0), p0))
      modifies this
      ensures old(calls) <= calls
      ensures act != Reexecute && (act == Next ==> p0 <= p)
      ensures Arrived(maxHeaderSize, c0, act, View(), calls, m, data, p, errno)
    {
      hide RunOn, Finish, Joined, MarksFit, Good, Sound, Step, ParsingHeader, Rank, Arrived;
      ghost var v0 := View();
      TurnStarts(maxHeaderSize, c0, v0, calls, m0, data, p0);
      if ParsingHeader(state) {
        var ok := Count(1);
        assert View() == v0.(nread := v0.nread + 1);
        if !ok {
          ArrivedFailed(maxHeaderSize, c0, View(), calls, m0, data, p0, errno);
          return Error, p0, m0;
        }
      }
      act, p, m := Passes(data, p0, m0, c0);
    }

    /** `http_parser_execute`. `exited` says that the rest of the data is another protocol. */
    method Execute(data: seq<char>) returns (consumed: nat, exited: bool)
      requires Valid() && |data| + maxHeaderSize < TWO_32
      modifies this
      ensures old(calls) <= calls
      ensures Valid()
      ensures old(errno) != OK ==> errno != OK && consumed == 0 && calls == old(calls)
      ensures old(errno) == OK && data == [] ==> AtEof(old(View()), old(calls), View(), calls, errno, consumed)
      ensures old(errno) == OK && data != [] ==>
                match RunOn(maxHeaderSize, Going(old(Start())), data)
                case Going(c) => errno == OK && !exited && View() == c.p && Join(calls) == c.t && consumed == |data|
                case Exited(c) => errno == OK && exited && View() == c.p && Join(calls) == c.t
                  && consumed == c.n <= |data|
                case Failed =>
                  && errno != OK && !exited && consumed < |data|
                  && RunOn(maxHeaderSize, Going(old(Start())), data[..consumed + 1]) == Failed
    {
      exited := false;
      if errno != OK { return 0, false; }
      if |data| == 0 {
        consumed := Eof();
        return;
      }
      consumed, exited := ExecuteBytes(data);
    }

    /** A call without bytes: the connection is at its end. */
    method Eof() returns (code: nat)
      requires Valid() && errno == OK
      modifies this
      ensures old(calls) <= calls
      ensures Valid() && AtEof(old(View()), old(calls), View(), calls, errno, code)
    {
      if state == BodyIdentityEof {
        JoinSnoc(calls, MessageComplete);
        Notify(MessageComplete);
        return 0;
      }
      if state == Dead || state == StartRes || state == StartReq { return 0; }
      errno := INVALID_EOF_STATE;
      return 1;
    }

    method ExecuteBytes(data: seq<char>) returns (consumed: nat, exited: bool)
      requires Valid() && errno == OK && data != [] && |data| + maxHeaderSize < TWO_32
      modifies this
      ensures old(calls) <= calls
      ensures Valid()
      ensures match RunOn(maxHeaderSize, Going(old(Start())), data)
              case Going(c) => errno == OK && !exited && View() == c.p && Join(calls) == c.t && consumed == |data|
              case Exited(c) => errno == OK && exited && View() == c.p && Join(calls) == c.t
                && consumed == c.n <= |data|
              case Failed =>
                && errno != OK && !exited && consumed < |data|
                && RunOn(maxHeaderSize, Going(old(Start())), data[..consumed + 1]) == Failed
    {
      hide RunOn, Joined, MarksFit, Good, TailFits, Join, Finish, StartMarks;
      ghost var c0 := Start();
      RunGood(maxHeaderSize, c0, data);
      StartJoined(state, calls, data);
      var m := StartMarks(state);
      var p := 0;
      RunEmpty(maxHeaderSize, Going(c0), data);
      while p < |data|
        invariant p <= |data| && errno == OK && MarksFit(state, m, p) && old(calls) <= calls
        invariant RunOn(maxHeaderSize, Going(c0), data[..p]) == Going(Config(View(), Joined(calls, m, data, p), p))
      {
        var act;
        act, p, m := Turn(data, p, m, c0);
        if act == Error {
          FailedForGood(maxHeaderSize, c0, data, p);
          return p, false;
        }
        if act == Leave {
          return p + 1, true;
        }
        p := p + 1;
      }
      assert data[..p] == data;
      DeliverRest(data, m);
      return |data|, false;
    }

    /** The callbacks for the marks left over at the end of the data. */
    method DeliverRest(data: seq<char>, m: Marks)
      requires MarksFit(state, m, |data|)
      modifies this`calls
      ensures old(calls) <= calls
      ensures Join(calls) == old(Joined(calls, m, data, |data|)) && View() == old(View())
    {
      hide Join, Push, Slice, MarksFit;
      AtMostOne(state, m, |data|);
      // at most one mark is live
      assert Live(m.field) + Live(m.value) + Live(m.url) + Live(m.body) + Live(m.status) <= 1;
      Deliver(data, FieldData, m.field, |data|);
      Deliver(data, ValueData, m.value, |data|);
      Deliver(data, UrlData, m.url, |data|);
      Deliver(data, BodyData, m.body, |data|);
      Deliver(data, StatusData, m.status, |data|);
    }
  }
}
