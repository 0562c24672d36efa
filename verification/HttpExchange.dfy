/** Whole requests and responses with any header lines: how they end, and the message they leave in the `HTTPParser`. */
module HttpExchange {
  import opened Options
  import opened Sequences
  import opened HttpTypes
  import opened HttpAutomaton
  import opened HttpCharacters
  import opened HttpFields
  import opened HttpConnection
  import opened HttpStatus
  import opened HttpFraming
  import opened HttpHeaders
  import opened HttpUrl
  import opened HttpUrlLaws
  import opened HttpFormat
  import opened HttpWrapper
  import opened HttpReceive
  import opened HttpRoundTrip

  // ---------- how a message ends ----------

  predicate AllLines(ls: seq<Line>) { forall i :: 0 <= i < |ls| ==> IsLine(ls[i]) }

  /** The lines ask for another protocol. */
  predicate AsksForProtocol(ls: seq<Line>) { HasProtocol(ls) && HasOption(ls, UpgradeChoice) }

  /** The only Content-Length of acceptable lines is the one in force. */
  lemma {:induction false} LengthInForce(p: Parser, ls: seq<Line>, i: nat)
    requires ToldAll(p, ls).Some? && AllLines(ls) && i < |ls| && ls[i].Length?
    ensures ToldAll(p, ls).value.contentLength == DecValue(ls[i].digits) && ToldAll(p, ls).value.flags.contentLength
  {
    hide DecValue, FlagsUpTo, IsList, IsChunkedCoding, IsLine;
    var init, l := ls[..|ls| - 1], ls[|ls| - 1];
    if i == |ls| - 1 {
      assert l == ls[i];
    } else {
      assert init[i] == ls[i];
      LengthInForce(p, init, i);
      LengthStays(ToldAll(p, init).value, l);
    }
  }

  lemma LengthStays(p: Parser, l: Line)
    requires Told(p, l).Some? && IsLine(l) && p.flags.contentLength
    ensures Told(p, l).value.contentLength == p.contentLength && Told(p, l).value.flags.contentLength
  {
    hide DecValue, IsChunkedCoding, Found, AnyFound;
    if l.Options? { FlagsExact(p.flags, l.options, |l.options|); }
  }

  /** What follows a header section, by its lines: chunks if they are announced; else as many bytes as announced; else
      the other protocol that is asked for, by a request or by a response 101; else for a response other than 1xx, 204
      and 304 the bytes up to the end of the connection; else nothing. */
  function BodyBy(kind: MessageType, code: int, ls: seq<Line>, length: int): Body {
    if HasChunked(ls) then Chunks
    else if HasLength(ls) && length > 0 then Body.Length(length)
    else if AsksForProtocol(ls) && (kind == Request || code == 101) then Tunnel
    else if HasLength(ls) || kind == Request || 100 <= code < 200 || code == 204 || code == 304 then NoBody
    else ToEnd
  }

  lemma SectionBody(p: Parser, q: Parser, ls: seq<Line>)
    requires Untold(p) && p.verb != CONNECT && ToldAll(p, ls).Some? && AllLines(ls)
    requires q == ToldAll(p, ls).value.(headerState := q.headerState, index := q.index, nread := q.nread)
    ensures BodyFraming(q) == BodyBy(p.kind, p.statusCode, ls, q.contentLength)
    ensures UpgradeOf(q) <==> AsksForProtocol(ls) && (p.kind == Request || p.statusCode == 101)
    ensures FlagsSay(NO_FLAGS, q.flags, ls) && q.verb == p.verb && q.kind == p.kind && q.statusCode == p.statusCode
    ensures q.major == p.major && q.minor == p.minor && 0 <= q.contentLength <= ULLONG_MAX
    ensures forall i :: 0 <= i < |ls| && ls[i].Length? ==> q.contentLength == DecValue(ls[i].digits)
  {
    ToldKeeps(p, ls);
    SectionFlags(p, ls);
    if HasLength(ls) {
      var i :| 0 <= i < |ls| && ls[i].Length?;
      LengthInForce(p, ls, i);
      LengthRange(p, ls, i);
    }
    forall i | 0 <= i < |ls| && ls[i].Length? ensures q.contentLength == DecValue(ls[i].digits) {
      LengthInForce(p, ls, i);
    }
    hide ToldAll, HasChunked, HasProtocol, HasOption, IsLine, DecValue;
  }

  /** A length in force is not the sentinel. */
  lemma {:induction false} LengthRange(p: Parser, ls: seq<Line>, i: nat)
    requires ToldAll(p, ls).Some? && AllLines(ls) && i < |ls| && ls[i].Length?
    ensures 0 <= DecValue(ls[i].digits) <= MAX_CONTENT_LENGTH < ULLONG_MAX
  {
    hide FlagsUpTo, IsList, IsChunkedCoding, DecValue;
    var init, l := ls[..|ls| - 1], ls[|ls| - 1];
    if i == |ls| - 1 {
      assert IsLine(l);
      DecValueNonNegative(l.digits);
    } else {
      assert init[i] == ls[i];
      LengthRange(p, init, i);
    }
  }

  /** Whether the connection goes on after a message: for HTTP/1.1 unless the option `close` is given, for other
      versions when `keep-alive` is, and never when the message runs to the end of the connection. */
  predicate GoesOn(a: int, b: int, ls: seq<Line>, body: Body) {
    (if a > 0 && b > 0 then !HasOption(ls, CloseChoice) else HasOption(ls, KeepAliveChoice)) && body != ToEnd
  }

  /** The state after a message without a body: ready for the next one, or dead. */
  lemma NextMessage(q: Parser, ls: seq<Line>)
    requires FlagsSay(NO_FLAGS, q.flags, ls) && 0 <= q.contentLength <= ULLONG_MAX
    requires BodyFraming(q) == NoBody || BodyFraming(q) == Tunnel
    ensures BodyState(q) == if !(if q.major > 0 && q.minor > 0 then !HasOption(ls, CloseChoice)
                                 else HasOption(ls, KeepAliveChoice)) || NeedsEof(q) then Dead
                            else if q.kind == Request then StartReq else StartRes
  {
    SameEof(q, HeadOver(q));
    hide HasOption, NeedsEof, UpgradeOf;
  }

  /** Nothing but line ends is taken on a connection that is over. */
  lemma DeadRefuses(max: nat, c: Config, ch: char)
    requires c.p.state == Dead && c.p.nread < max
    ensures Step(max, c, ch) ==
            if ch == '\r' || ch == '\n' then Going(Config(c.p.(nread := c.p.nread + 1), c.t, c.n + 1)) else Failed
  {}

  // ---------- first lines ----------

  /** The first line of a message has been taken. */
  predicate FirstLineTaken(kind: MessageType, c: Config, line: seq<char>) {
    && c.p.state == HeaderFieldStart && Untold(c.p) && c.p.kind == kind && c.p.verb != CONNECT
    && c.n == |line| && c.p.nread == |line| && Completions(c.t) == 0
  }

  lemma FirstLineIsLine(kind: MessageType, c: Config, line: seq<char>)
    requires FirstLineTaken(kind, c, line)
    ensures AtLine(c) && Settle(c) == c
  {
    hide FinishValue, Push;
  }

  /** A request line: method, origin-form target and version digits. */
  datatype Asked = Asked(verb: Method, tail: Tail, major: char, minor: char)

  ghost predicate IsAsked(q: Asked) {
    && q.verb != MSEARCH && q.verb != CONNECT && WellFormed(Origin(q.tail)) && |TailText(q.tail)| <= 0xffff
    && IsDigitCode(q.major as int) && IsDigitCode(q.minor as int)
  }

  function AskedLine(q: Asked): seq<char> { AnyLine(q.verb, TailText(q.tail), q.major, q.minor) }

  lemma RequestStarts(max: nat, q: Asked) returns (c: Config)
    requires IsAsked(q) && |AskedLine(q)| <= max
    ensures RunOn(max, Going(Start(Request)), AskedLine(q)) == Going(c) && FirstLineTaken(Request, c, AskedLine(q))
    ensures c.p.verb == q.verb && c.p.major == q.major as int - 0x30 && c.p.minor == q.minor as int - 0x30
    ensures c.p.statusCode == 0 && c.t == Push(Push([], MessageBegin), Data(UrlData, TailText(q.tail)))
  {
    hide RunOn, Push, TailText, WellFormed, ScanFrom, AnyLine, TargetEnds, Completions;
    OriginTarget(q.tail);
    TailNonEmpty(q.tail);
    AnyLineRun(max, Start(Request), q.verb, TailText(q.tail), q.major, q.minor);
    c := AfterAnyLine(Start(Request), q.verb, TailText(q.tail), q.major, q.minor);
    StartTrace(UrlData, TailText(q.tail));
  }

  lemma StartTrace(kind: DataKind, bytes: seq<char>)
    ensures Completions(Push(Push([], MessageBegin), Data(kind, bytes))) == 0
  {
    hide Push;
    PushReads([], MessageBegin);
    PushReads(Push([], MessageBegin), Data(kind, bytes));
  }

  lemma ResponseStarts(max: nat, s: Status) returns (c: Config)
    requires IsStatus(s) && |StatusLine(s)| <= max
    ensures RunOn(max, Going(Start(Response)), StatusLine(s)) == Going(c)
    ensures FirstLineTaken(Response, c, StatusLine(s)) && c.p.statusCode == DecValue(s.code)
    ensures c.p.major == s.major as int - 0x30 && c.p.minor == s.minor as int - 0x30
    ensures c.t == Push(Push([], MessageBegin), Data(StatusData, s.reason))
  {
    hide RunOn, Push, StatusLine, DecValue, Completions, AllDigits;
    StatusLineRun(max, Start(Response), s);
    StartTrace(StatusData, s.reason);
    c := Config(AfterStatus(InitialParser(Response), s), Push(Push([], MessageBegin), Data(StatusData, s.reason)),
                |StatusLine(s)|);
  }

  // ---------- heads ----------

  /** A first line and a header section: refused exactly when the section is unacceptable, and else followed by what its
      lines announce. */
  lemma HeadOutcome(max: nat, kind: MessageType, c: Config, line: seq<char>, ls: seq<Line>) returns (q: Parser)
    requires RunOn(max, Going(Start(kind)), line) == Going(c) && FirstLineTaken(kind, c, line)
    requires AllLines(ls) && |line| + |SectionText(ls)| <= max
    ensures Unacceptable(ls) ==> RunOn(max, Going(Start(kind)), line + SectionText(ls)) == Failed
    ensures !Unacceptable(ls) ==>
              && RunOn(max, Going(Start(kind)), line + SectionText(ls)) ==
                 AfterHead(q, LinesTrace(c.t, ls), |line| + |SectionText(ls)|)
              && RunOn(max, Going(Start(kind)), line + (LinesText(ls) + [CR])).Going?
              && RunOn(max, Going(Start(kind)), line + (LinesText(ls) + [CR])).c.t == LinesTrace(c.t, ls)
              && BodyFraming(q) == BodyBy(kind, c.p.statusCode, ls, q.contentLength)
              && (UpgradeOf(q) <==> AsksForProtocol(ls) && (kind == Request || c.p.statusCode == 101))
              && FlagsSay(NO_FLAGS, q.flags, ls) && q.verb == c.p.verb && q.kind == kind
              && q.major == c.p.major && q.minor == c.p.minor && 0 <= q.contentLength <= ULLONG_MAX
              && forall i :: 0 <= i < |ls| && ls[i].Length? ==> q.contentLength == DecValue(ls[i].digits)
  {
    hide RunOn, LinesText, LinesTrace, AfterHead, Unacceptable, BodyFraming, UpgradeOf, AsksForProtocol, FlagsSay,
      BodyBy,
      IsLine, DecValue, Settle, AtLine, Completions;
    FirstLineIsLine(kind, c, line);
    RunAppend(max, Going(Start(kind)), line, SectionText(ls));
    RunAppend(max, Going(Start(kind)), line, LinesText(ls) + [CR]);
    RefusedExactly(c.p, ls);
    q := SectionRun(max, c, ls);
    if !Unacceptable(ls) { SectionBody(c.p, q, ls); }
  }

  /** A request with any acceptable header lines: what follows it. */
  lemma RequestHead(max: nat, a: Asked, ls: seq<Line>) returns (q: Parser)
    requires IsAsked(a) && AllLines(ls) && |AskedLine(a)| + |SectionText(ls)| <= max
    ensures Unacceptable(ls) ==> RunOn(max, Going(Start(Request)), AskedLine(a) + SectionText(ls)) == Failed
    ensures !Unacceptable(ls) ==>
              && RunOn(max, Going(Start(Request)), AskedLine(a) + SectionText(ls)) ==
                 AfterHead(q, LinesTrace(Push(Push([], MessageBegin), Data(UrlData, TailText(a.tail))), ls),
                           |AskedLine(a)| + |SectionText(ls)|)
              && BodyFraming(q) == BodyBy(Request, 0, ls, q.contentLength)
              && (BodyFraming(q) == NoBody ==>
                    BodyState(q) == if GoesOn(a.major as int - 0x30, a.minor as int - 0x30, ls, NoBody)
                                    then StartReq else Dead)
  {
    hide RunOn, AskedLine, SectionText, LinesTrace, AfterHead, Unacceptable, BodyFraming, BodyState, BodyBy, IsLine,
      TailText, IsAsked, FlagsSay, HasOption;
    var c := RequestStarts(max, a);
    q := HeadOutcome(max, Request, c, AskedLine(a), ls);
    if !Unacceptable(ls) && BodyFraming(q) == NoBody { NextMessage(q, ls); }
  }

  /** A response with any acceptable header lines: what follows it, by its status code. */
  lemma ResponseHead(max: nat, s: Status, ls: seq<Line>) returns (q: Parser)
    requires IsStatus(s) && AllLines(ls) && |StatusLine(s)| + |SectionText(ls)| <= max
    ensures Unacceptable(ls) ==> RunOn(max, Going(Start(Response)), StatusLine(s) + SectionText(ls)) == Failed
    ensures !Unacceptable(ls) ==>
              && RunOn(max, Going(Start(Response)), StatusLine(s) + SectionText(ls)) ==
                 AfterHead(q, LinesTrace(Push(Push([], MessageBegin), Data(StatusData, s.reason)), ls),
                           |StatusLine(s)| + |SectionText(ls)|)
              && BodyFraming(q) == BodyBy(Response, DecValue(s.code), ls, q.contentLength)
  {
    hide RunOn, StatusLine, SectionText, LinesTrace, AfterHead, Unacceptable, BodyFraming, BodyBy, IsLine, IsStatus,
      FlagsSay, HasOption, DecValue;
    var c := ResponseStarts(max, s);
    q := HeadOutcome(max, Response, c, StatusLine(s), ls);
  }

  lemma EofStep(max: nat, c: Config, ch: char)
    requires c.p.state == BodyIdentityEof
    ensures Step(max, c, ch) == Going(Config(c.p, Push(c.t, Data(BodyData, [ch])), c.n + 1))
  {}

  /** A body up to the end of the connection: every byte is delivered, and the message is complete when there are no
      more. */
  lemma {:induction false} BodyToEnd(max: nat, c: Config, bs: seq<char>)
    requires c.p.state == BodyIdentityEof && bs != []
    ensures RunOn(max, Going(c), bs) == Going(Config(c.p, Push(c.t, Data(BodyData, bs)), c.n + |bs|))
  {
    hide Push, Step;
    var last := |bs| - 1;
    var init, ch := bs[..last], bs[last];
    if last == 0 {
      assert bs == [ch];
      EofStep(max, c, ch);
      RunOne(max, c, ch);
    } else {
      BodyToEnd(max, c, init);
      EofStep(max, Config(c.p, Push(c.t, Data(BodyData, init)), c.n + last), ch);
      PushMerge(c.t, BodyData, init, [ch]);
      assert bs == init + [ch];
    }
  }

  // ---------- whole messages ----------

  function AsField(l: Line): Field { Field(l.name, ValueText(l)) }

  function Fields(ls: seq<Line>): seq<Field> {
    if ls == [] then [] else Fields(ls[..|ls| - 1]) + [AsField(ls[|ls| - 1])]
  }

  lemma {:induction false} TraceOfFields(t: seq<Event>, ls: seq<Line>)
    ensures LinesTrace(t, ls) == FieldTrace(t, Fields(ls)) && |Fields(ls)| == |ls|
  {
    hide Push, ValueText;
    if ls != [] { TraceOfFields(t, ls[..|ls| - 1]); }
  }

  /** What the end of the head makes of a message, whatever its header map. */
  ghost predicate HeadGives(n: Message, path: seq<char>, query: seq<char>) {
    forall m: Message {:trigger OnHeadComplete(m)} ::
      m.url == n.url && m.query == n.query && m.path == n.path ==>
        OnHeadComplete(m) == Some(m.(path := path, query := query))
  }

  /** A body: bytes, or chunks with what follows them. */
  datatype Payload =
    | Bytes(data: seq<char>)
    | InChunks(chunks: seq<Chunk>, lastSize: seq<char>, lastExt: seq<char>, trailers: seq<Field>)

  function PayloadText(b: Payload): seq<char> {
    match b case Bytes(data) => data case InChunks(ks, size, ext, trailers) => EncodeBody(ks, size, ext, trailers)
  }

  /** What the body delivers. */
  function Content(b: Payload): seq<char> {
    match b case Bytes(data) => data case InChunks(ks, _, _, _) => ChunkBytes(ks)
  }

  /** The fields of a message: those of its head, and its trailers. */
  function AllFields(ls: seq<Line>, b: Payload): seq<Field> { Fields(ls) + if b.InChunks? then b.trailers else [] }

  predicate IsChunkBody(max: nat, b: Payload) {
    && b.InChunks? && (forall i :: 0 <= i < |b.chunks| ==> IsChunk(max, b.chunks[i]))
    && IsSizeLine(max, b.lastSize, b.lastExt) && HexValue(b.lastSize) == 0
    && (forall i :: 0 <= i < |b.trailers| ==> IsPlainField(b.trailers[i])) && |FieldLines(b.trailers)| + 2 <= max
  }

  /** The lines announce the body: chunks, its length, or nothing where nothing is to follow. */
  predicate Announces(max: nat, kind: MessageType, code: int, ls: seq<Line>, b: Payload) {
    && !Unacceptable(ls)
    && match b
       case InChunks(_, _, _, _) => HasChunked(ls) && IsChunkBody(max, b)
       case Bytes(data) =>
         && !HasChunked(ls) && (forall i :: 0 <= i < |ls| && ls[i].Length? ==> DecValue(ls[i].digits) == |data|)
         && (!HasLength(ls) ==> data == [] && BodyBy(kind, code, ls, 0) != ToEnd)
  }

  /** The message a parser ends with. */
  function Built(n: Message, path: seq<char>, query: seq<char>, fs: seq<Field>, body: seq<char>, field: seq<char>)
    : Message
  {
    n.(path := path, query := query, headValues := AsMap(fs), currentField := field, body := body, completed := true)
  }

  /** The callbacks of the body and the end of the message, behind those of the head. */
  function PayloadTrace(t: seq<Event>, b: Payload): seq<Event> {
    match b
    case Bytes(data) => Push(if data == [] then t else Push(t, Data(BodyData, data)), MessageComplete)
    case InChunks(ks, _, _, trailers) => Push(BodyTrace(t, ks, trailers), MessageComplete)
  }

  lemma HeadReplayed(m: Message, t: seq<Event>, n: Message, path: seq<char>, query: seq<char>, ls: seq<Line>)
    returns (o: Message)
    requires Replay(m, t) == Some(n) && n.lastWasValue && n.headValues == map[]
    requires HeadGives(n, path, query) && Distinct(Fields(ls))
    ensures Replay(m, Push(LinesTrace(t, ls), HeadersComplete)) == Some(o) && o.lastWasValue
    ensures o == n.(path := path, query := query, headValues := AsMap(Fields(ls)), currentField := o.currentField)
  {
    hide Push, Replay, OnHeadComplete, FieldTrace, LinesTrace, Distinct, Fields;
    TraceOfFields(t, ls);
    assert [] + Fields(ls) == Fields(ls) && AsMap([]) == map[];
    var n1 := FieldsReplayed(m, t, [], Fields(ls), n);
    ReplayPush(m, LinesTrace(t, ls), HeadersComplete);
    o := OnHeadComplete(n1).value;
  }

  lemma {:induction false} ChunksReplayed(m: Message, t: seq<Event>, ks: seq<Chunk>, n: Message)
    requires Replay(m, t) == Some(n)
    ensures Replay(m, ChunkTrace(t, ks)) == Some(n.(body := n.body + ChunkBytes(ks)))
  {
    hide Push, Replay;
    if ks == [] {
      assert n.body + [] == n.body;
    } else {
      var init, k := ks[..|ks| - 1], ks[|ks| - 1];
      ChunksReplayed(m, t, init, n);
      var u := ChunkTrace(t, init);
      ReplayPush(m, u, ChunkHeader(|k.data|));
      var v := Push(u, ChunkHeader(|k.data|));
      ReplayPush(m, v, Data(BodyData, k.data));
      ReplayPush(m, Push(v, Data(BodyData, k.data)), ChunkComplete);
      assert n.body + ChunkBytes(init) + k.data == n.body + ChunkBytes(ks);
    }
  }

  lemma PartsReplayed(m: Message, t: seq<Event>, ks: seq<Chunk>, trailers: seq<Field>, es: seq<Field>, n: Message)
    returns (o: Message)
    requires Replay(m, t) == Some(n) && n.lastWasValue && n.headValues == AsMap(es) && n.body == []
    requires Distinct(es + trailers)
    ensures Replay(m, Push(BodyTrace(t, ks, trailers), MessageComplete)) == Some(o)
    ensures o == n.(headValues := AsMap(es + trailers), currentField := o.currentField, body := ChunkBytes(ks),
                    completed := true)
  {
    hide Push, Replay, ChunkTrace, FieldTrace, ChunkBytes, Distinct, AsMap;
    ChunksReplayed(m, t, ks, n);
    assert [] + ChunkBytes(ks) == ChunkBytes(ks);
    var u := Push(ChunkTrace(t, ks), ChunkHeader(0));
    ReplayPush(m, ChunkTrace(t, ks), ChunkHeader(0));
    var p := FieldsReplayed(m, u, es, trailers, n.(body := ChunkBytes(ks)));
    ReplayPush(m, FieldTrace(u, trailers), ChunkComplete);
    ReplayPush(m, Push(FieldTrace(u, trailers), ChunkComplete), MessageComplete);
    o := p.(completed := true);
  }

  lemma PayloadReplayed(m: Message, t: seq<Event>, n: Message, ls: seq<Line>, b: Payload) returns (o: Message)
    requires Replay(m, t) == Some(n) && n.lastWasValue && n.headValues == AsMap(Fields(ls)) && n.body == []
    requires Distinct(AllFields(ls, b))
    ensures Replay(m, PayloadTrace(t, b)) == Some(o)
    ensures o == Built(n, n.path, n.query, AllFields(ls, b), Content(b), o.currentField)
  {
    hide Push, Replay, BodyTrace, Distinct, AsMap, ChunkBytes, Fields;
    match b
    case Bytes(data) =>
      assert Fields(ls) + [] == Fields(ls);
      o := BodyReplayed(m, t, n, data);
    case InChunks(ks, _, _, trailers) => o := PartsReplayed(m, t, ks, trailers, Fields(ls), n);
  }

  lemma FrontDistinct(es: seq<Field>, fs: seq<Field>)
    requires Distinct(es + fs)
    ensures Distinct(es)
  {
    var gs := es + fs;
    forall i, j | 0 <= i < j < |es| ensures es[i].name != es[j].name { assert gs[i] == es[i] && gs[j] == es[j]; }
  }

  lemma {:induction false} LinesIncomplete(t: seq<Event>, ls: seq<Line>)
    requires Completions(t) == 0
    ensures Completions(LinesTrace(t, ls)) == 0 && Completions(Push(LinesTrace(t, ls), HeadersComplete)) == 0
  {
    hide Push, Completions, FieldTrace, LinesTrace;
    TraceOfFields(t, ls);
    FieldTraceReads(t, Fields(ls));
    PushReads(LinesTrace(t, ls), HeadersComplete);
  }

  lemma HeadInit(line: seq<char>, ls: seq<Line>)
    ensures var head := line + SectionText(ls);
            head != [] && head[..|head| - 1] == line + (LinesText(ls) + [CR])
  {
    hide LinesText;
    var head := line + SectionText(ls);
    assert CRLF == [CR] + [LF];
    assert head == line + (LinesText(ls) + [CR]) + [LF];
  }

  lemma NoBodyFollows(max: nat, kind: MessageType, code: int, ls: seq<Line>, q: Parser)
    requires Announces(max, kind, code, ls, Bytes([])) && BodyFraming(q) == BodyBy(kind, code, ls, q.contentLength)
    requires forall i :: 0 <= i < |ls| && ls[i].Length? ==> q.contentLength == DecValue(ls[i].digits)
    ensures BodyFraming(q) == NoBody || BodyFraming(q) == Tunnel
  {
    hide BodyFraming, AsksForProtocol, Unacceptable, HasChunked, DecValue;
  }

  lemma BodyFollows(max: nat, kind: MessageType, code: int, ls: seq<Line>, b: Payload, q: Parser)
    requires Announces(max, kind, code, ls, b) && PayloadText(b) != []
    requires BodyFraming(q) == BodyBy(kind, code, ls, q.contentLength)
    requires forall i :: 0 <= i < |ls| && ls[i].Length? ==> q.contentLength == DecValue(ls[i].digits)
    ensures b.Bytes? ==> BodyFraming(q) == Body.Length(|b.data|) && q.contentLength == |b.data|
    ensures b.InChunks? ==> BodyFraming(q) == Chunks && IsChunkBody(max, b)
  {
    hide BodyFraming, AsksForProtocol, Unacceptable, HasChunked, DecValue, IsChunkBody;
  }

  lemma HeadOnly(q: Parser, t: seq<Event>, n: nat)
    requires BodyFraming(q) == NoBody || BodyFraming(q) == Tunnel
    ensures var r := AfterHead(q, t, n);
            && !r.Failed? && r.c.n == n && r.c.t == Push(Push(t, HeadersComplete), MessageComplete)
            && r.c.p.verb == q.verb && r.c.p.upgrade == UpgradeOf(q)
  {
    hide BodyFraming, UpgradeOf, Push, NewMessage;
  }

  /** Where a body begins. */
  function AtPayload(q: Parser, t: seq<Event>, n: nat, b: Payload): Config {
    Config(HeadOver(q).(state := if b.Bytes? then BodyIdentity else ChunkSizeStart), Push(t, HeadersComplete), n)
  }

  lemma HeadThenBody(q: Parser, t: seq<Event>, n: nat, b: Payload)
    requires if b.Bytes? then BodyFraming(q).Length? else BodyFraming(q) == Chunks
    ensures AfterHead(q, t, n) == Going(AtPayload(q, t, n, b))
  {
    hide BodyFraming, UpgradeOf, Push, NewMessage;
  }

  /** An identity body, to its last byte. */
  lemma BytesEnd(max: nat, d: Config, body: seq<char>)
    requires d.p.state == BodyIdentity && 0 < |body| == d.p.contentLength && Completions(d.t) == 0
    ensures PayloadEnd(max, d, Bytes(body))
  {
    hide RunOn, Push, Completions, NewMessage;
    IdentityBodyDelivered(max, d, body);
    var init := body[..|body| - 1];
    if init == [] {
      RunNone(max, Going(d));
    } else {
      IdentityBodyPending(max, d, init);
      PushReads(d.t, Data(BodyData, init));
    }
  }

  /** The body runs to its last byte, and completes the message there and not before. */
  predicate PayloadEnd(max: nat, d: Config, b: Payload) {
    var text := PayloadText(b);
    && text != []
    && (var r := RunOn(max, Going(d), text);
        && !r.Failed? && r.c.n == d.n + |text| && r.c.t == PayloadTrace(d.t, b)
        && r.c.p.verb == d.p.verb && r.c.p.upgrade == d.p.upgrade)
    && RunOn(max, Going(d), text[..|text| - 1]).Going?
    && Completions(RunOn(max, Going(d), text[..|text| - 1]).c.t) == 0
  }

  /** A chunked body, to its last byte. */
  lemma PartsEnd(max: nat, d: Config, b: Payload)
    requires d.p.state == ChunkSizeStart && d.p.nread == 0 && Completions(d.t) == 0 && IsChunkBody(max, b)
    ensures PayloadEnd(max, d, b)
  {
    hide RunOn, Push, Completions, NewMessage, BodyTrace, HexValue, IsSizeLine, IsPlainField, IsChunk, FieldLines,
      EncodeBody;
    var q := ChunkedBodyDelivered(max, d, b.chunks, b.lastSize, b.lastExt, b.trailers);
    PartsNonEmpty(b);
    ChunkedBodyPending(max, d, b.chunks, b.lastSize, b.lastExt, b.trailers, |PayloadText(b)| - 1);
  }

  lemma PartsNonEmpty(b: Payload)
    requires b.InChunks?
    ensures PayloadText(b) != []
  {
    BodySplit(b.chunks, b.lastSize, b.lastExt, b.trailers);
    hide EncodeBody, BodyText;
  }

  /** The text completes a message on its last byte and not before, with these callbacks. */
  predicate Completes(max: nat, kind: MessageType, text: seq<char>, end: Run, t: seq<Event>) {
    && text != [] && RunOn(max, Going(Start(kind)), text) == end && !end.Failed? && end.c.n == |text| && end.c.t == t
    && RunOn(max, Going(Start(kind)), text[..|text| - 1]).Going?
    && Completions(RunOn(max, Going(Start(kind)), text[..|text| - 1]).c.t) == 0
  }

  /** The body behind a head. */
  lemma PayloadAtEnd(max: nat, kind: MessageType, head: seq<char>, d: Config, b: Payload) returns (end: Run)
    requires RunOn(max, Going(Start(kind)), head) == Going(d) && d.n == |head| && PayloadEnd(max, d, b)
    ensures Completes(max, kind, head + PayloadText(b), end, PayloadTrace(d.t, b))
    ensures end.c.p.verb == d.p.verb && end.c.p.upgrade == d.p.upgrade
  {
    hide RunOn, Push, Completions, NewMessage, PayloadTrace, PayloadText;
    var body := PayloadText(b);
    RunAppend(max, Going(Start(kind)), head, body);
    end := RunOn(max, Going(Start(kind)), head + body);
    var init := body[..|body| - 1];
    assert (head + body)[..|head + body| - 1] == head + init;
    RunAppend(max, Going(Start(kind)), head, init);
  }

  /** The body that the head announces, if any, to the end of the message. */
  lemma HeadAndPayload(max: nat, kind: MessageType, code: int, head: seq<char>, t: seq<Event>, ls: seq<Line>,
                       b: Payload,
                       q: Parser) returns (end: Run)
    requires RunOn(max, Going(Start(kind)), head) == AfterHead(q, t, |head|) && head != []
    requires RunOn(max, Going(Start(kind)), head[..|head| - 1]).Going?
    requires Completions(RunOn(max, Going(Start(kind)), head[..|head| - 1]).c.t) == 0
    requires Completions(Push(t, HeadersComplete)) == 0
    requires Announces(max, kind, code, ls, b) && BodyFraming(q) == BodyBy(kind, code, ls, q.contentLength)
    requires forall i :: 0 <= i < |ls| && ls[i].Length? ==> q.contentLength == DecValue(ls[i].digits)
    ensures Completes(max, kind, head + PayloadText(b), end, PayloadTrace(Push(t, HeadersComplete), b))
    ensures end.c.p.verb == q.verb && end.c.p.upgrade == UpgradeOf(q)
  {
    hide RunOn, Push, Completions, BodyFraming, BodyBy, UpgradeOf, NewMessage, DecValue, AfterHead, Announces,
      PayloadText, PayloadEnd, PayloadTrace, IsChunkBody;
    if PayloadText(b) == [] {
      OnlyEmpty(b);
      NoBodyFollows(max, kind, code, ls, q);
      HeadOnly(q, t, |head|);
      end := RunOn(max, Going(Start(kind)), head);
      assert head + PayloadText(b) == head;
    } else {
      BodyFollows(max, kind, code, ls, b, q);
      HeadThenBody(q, t, |head|, b);
      var d := AtPayload(q, t, |head|, b);
      PayloadReached(max, d, b);
      end := PayloadAtEnd(max, kind, head, d, b);
    }
  }

  /** A first line, header lines and the body they announce are a whole message: complete on its last byte and not
      before, taken for another protocol's beginning exactly when the lines ask for one. */
  lemma MessageWhole(max: nat, kind: MessageType, c: Config, line: seq<char>, ls: seq<Line>, b: Payload, m: Message,
                     n: Message, path: seq<char>, query: seq<char>) returns (end: Run, o: Message)
    requires RunOn(max, Going(Start(kind)), line) == Going(c) && FirstLineTaken(kind, c, line)
    requires AllLines(ls) && |line| + |SectionText(ls)| <= max && Announces(max, kind, c.p.statusCode, ls, b)
    requires Replay(m, c.t) == Some(n) && n.lastWasValue && n.headValues == map[] && n.body == []
    requires HeadGives(n, path, query) && Distinct(AllFields(ls, b))
    ensures Whole(max, kind, m, (line + SectionText(ls)) + PayloadText(b), end, o)
    ensures o == Built(n, path, query, AllFields(ls, b), Content(b), o.currentField) && end.c.p.verb == c.p.verb
    ensures end.c.p.upgrade <==> AsksForProtocol(ls) && (kind == Request || c.p.statusCode == 101)
  {
    hide RunOn, Push, Completions, LinesTrace, SectionText, Replay, HeadGives, Distinct, Fields, IsLine, FlagsSay,
      Built,
      BodyFraming, BodyBy, AsksForProtocol, UpgradeOf, NewMessage, DecValue, AfterHead, Announces, PayloadText,
      PayloadTrace, Content, AllFields, LinesText, Completes, Whole;
    o := ReplayedWhole(c.t, ls, b, m, n, path, query);
    LinesIncomplete(c.t, ls);
    Acceptable(max, kind, c.p.statusCode, ls, b);
    var q := HeadOutcome(max, kind, c, line, ls);
    HeadInit(line, ls);
    end := HeadAndPayload(max, kind, c.p.statusCode, line + SectionText(ls), LinesTrace(c.t, ls), ls, b, q);
    BuiltComplete(n, path, query, AllFields(ls, b), Content(b), o.currentField);
    CompletesWhole(max, kind, m, (line + SectionText(ls)) + PayloadText(b), end,
                   PayloadTrace(Push(LinesTrace(c.t, ls), HeadersComplete), b), o);
  }

  lemma CompletesWhole(max: nat, kind: MessageType, m: Message, text: seq<char>, end: Run, t: seq<Event>, o: Message)
    requires Completes(max, kind, text, end, t) && Replay(m, t) == Some(o) && o.completed
    ensures Whole(max, kind, m, text, end, o)
  {}

  /** The message that the callbacks of a whole message make. */
  lemma ReplayedWhole(t: seq<Event>, ls: seq<Line>, b: Payload, m: Message, n: Message, path: seq<char>,
                      query: seq<char>) returns (o: Message)
    requires Replay(m, t) == Some(n) && n.lastWasValue && n.headValues == map[] && n.body == []
    requires HeadGives(n, path, query) && Distinct(AllFields(ls, b))
    ensures Replay(m, PayloadTrace(Push(LinesTrace(t, ls), HeadersComplete), b)) == Some(o)
    ensures o == Built(n, path, query, AllFields(ls, b), Content(b), o.currentField)
  {
    hide Push, LinesTrace, Replay, HeadGives, Distinct, Fields, Built, PayloadTrace, Content;
    FrontDistinct(Fields(ls), if b.InChunks? then b.trailers else []);
    var n2 := HeadReplayed(m, t, n, path, query, ls);
    o := PayloadReplayed(m, Push(LinesTrace(t, ls), HeadersComplete), n2, ls, b);
    BuiltAgain(n, n2, path, query, ls, b, o.currentField);
  }

  lemma Acceptable(max: nat, kind: MessageType, code: int, ls: seq<Line>, b: Payload)
    requires Announces(max, kind, code, ls, b)
    ensures !Unacceptable(ls)
  {}

  lemma OnlyEmpty(b: Payload)
    requires PayloadText(b) == []
    ensures b == Bytes([])
    ensures forall t :: PayloadTrace(t, b) == Push(t, MessageComplete)
  {
    hide Push, EncodeBody;
    if b.InChunks? { PartsNonEmpty(b); }
  }

  lemma PayloadReached(max: nat, d: Config, b: Payload)
    requires Completions(d.t) == 0 && PayloadText(b) != []
    requires b.Bytes? ==> d.p.state == BodyIdentity && d.p.contentLength == |b.data|
    requires b.InChunks? ==> d.p.state == ChunkSizeStart && d.p.nread == 0 && IsChunkBody(max, b)
    ensures PayloadEnd(max, d, b)
  {
    hide PayloadEnd, IsChunkBody, Completions;
    if b.Bytes? { BytesEnd(max, d, b.data); } else { PartsEnd(max, d, b); }
  }

  lemma BuiltComplete(n: Message, path: seq<char>, query: seq<char>, fs: seq<Field>, body: seq<char>, field: seq<char>)
    ensures Built(n, path, query, fs, body, field).completed
  {}

  lemma BuiltAgain(n: Message, n2: Message, path: seq<char>, query: seq<char>, ls: seq<Line>, b: Payload,
                   field: seq<char>)
    requires n2 == n.(path := path, query := query, headValues := AsMap(Fields(ls)), currentField := n2.currentField)
    ensures Built(n2, n2.path, n2.query, AllFields(ls, b), Content(b), field) ==
            Built(n, path, query, AllFields(ls, b), Content(b), field)
  {}

  // ---------- requests ----------

  function RequestText(a: Asked, ls: seq<Line>, b: Payload): seq<char> {
    (AskedLine(a) + SectionText(ls)) + PayloadText(b)
  }

  function QueryOf(tail: Tail): seq<char> { if tail.query.Some? then tail.query.value else [] }

  lemma TargetGives(tail: Tail, n: Message)
    requires WellFormed(Origin(tail)) && |TailText(tail)| <= 0xffff && n.url == TailText(tail) && n.query == []
    ensures HeadGives(n, tail.path, QueryOf(tail))
  {
    hide OnHeadComplete, TailText, WellFormed;
    forall m: Message | m.url == n.url && m.query == n.query && m.path == n.path
      ensures OnHeadComplete(m) == Some(m.(path := tail.path, query := QueryOf(tail)))
    {
      UrlReplayed(m, tail);
    }
  }

  /** A request with any acceptable header lines and the body they announce. */
  lemma RequestWhole(max: nat, m: Message, a: Asked, ls: seq<Line>, b: Payload) returns (end: Run, o: Message)
    requires IsAsked(a) && AllLines(ls) && |AskedLine(a)| + |SectionText(ls)| <= max
    requires Announces(max, Request, 0, ls, b) && Distinct(AllFields(ls, b))
    ensures Whole(max, Request, m, RequestText(a, ls, b), end, o)
    ensures end.c.p.verb == a.verb && (end.c.p.upgrade <==> AsksForProtocol(ls))
    ensures o.url == TailText(a.tail) && o.path == a.tail.path && o.query == QueryOf(a.tail)
    ensures o.headValues == AsMap(AllFields(ls, b)) && o.body == Content(b)
  {
    hide RunOn, AskedLine, SectionText, TailText, IsLine, Replay, HeadGives, Distinct, AllFields, Content, Announces,
      AsksForProtocol,
      Push, WellFormed, Whole, AsMap;
    var c := RequestStarts(max, a);
    var n := CLEARED.(url := TailText(a.tail));
    HeadStarts(m, TailText(a.tail));
    TargetGives(a.tail, n);
    end, o := MessageWhole(max, Request, c, AskedLine(a), ls, b, m, n, a.tail.path, QueryOf(a.tail));
  }

  /** Feeds such a request, in any pieces, to an idle parser: it completes exactly at its last byte, with the request's
      method, target, headers and body; it is an upgrade exactly when an Upgrade header and the `upgrade` option of a
      Connection header are there, and for WebSocket when that Upgrade header says `websocket`. */
  method ReceiveRequest(parser: HTTPParser, pieces: seq<seq<char>>, ghost a: Asked, ghost ls: seq<Line>,
                        ghost b: Payload)
    returns (total: nat, failed: bool)
    requires parser.Idle() && !parser.mISCompleted && parser.mParserType == Request
    requires IsAsked(a) && AllLines(ls) && |AskedLine(a)| + |SectionText(ls)| <= parser.maxHeaderSize
    requires Announces(parser.maxHeaderSize, Request, 0, ls, b) && Distinct(AllFields(ls, b))
             && Flatten(pieces) == RequestText(a, ls, b)
    requires forall i :: 0 <= i < |pieces| ==> pieces[i] != [] && |pieces[i]| + parser.maxHeaderSize < TWO_32
    modifies parser, parser.mParser
    ensures !failed && total == |RequestText(a, ls, b)| && parser.mISCompleted && parser.mMethod == Some(a.verb)
    ensures parser.mUrl == TailText(a.tail) && parser.mPath == a.tail.path && parser.mQuery == QueryOf(a.tail)
    ensures parser.mHeadValues == AsMap(AllFields(ls, b)) && parser.mBody == Content(b)
    ensures parser.mIsUpgrade <==> AsksForProtocol(ls)
    ensures parser.mIsWebSocket <==> AsksForProtocol(ls) && "Upgrade" in AsMap(AllFields(ls, b))
                                     && AsMap(AllFields(ls, b))["Upgrade"] == "websocket"
  {
    hide RequestText, AskedLine, SectionText, TailText, IsLine, Distinct, AllFields, Content, Announces,
      AsksForProtocol, AsMap,
      IsAsked;
    ghost var end, o := RequestWhole(parser.maxHeaderSize, parser.base, a, ls, b);
    WholeCompletes(parser.maxHeaderSize, Request, parser.base, RequestText(a, ls, b), end, o);
    hide Whole;
    total, failed := ReceiveWhole(parser, pieces, RequestText(a, ls, b), end, o);
  }

  lemma WholeCompletes(max: nat, kind: MessageType, m: Message, text: seq<char>, end: Run, o: Message)
    requires Whole(max, kind, m, text, end, o)
    ensures o.completed
  {}

  // ---------- responses ----------

  function ResponseText(s: Status, ls: seq<Line>, b: Payload): seq<char> {
    (StatusLine(s) + SectionText(ls)) + PayloadText(b)
  }

  lemma StatusReplayed(m: Message, reason: seq<char>)
    ensures Replay(m, Push(Push([], MessageBegin), Data(StatusData, reason))) == Some(CLEARED.(status := reason))
    ensures HeadGives(CLEARED.(status := reason), [], [])
  {
    hide Push;
    ReplayPush(m, [], MessageBegin);
    ReplayPush(m, Push([], MessageBegin), Data(StatusData, reason));
    assert [] + reason == reason;
  }

  lemma ResponseWhole(max: nat, m: Message, s: Status, ls: seq<Line>, b: Payload) returns (end: Run, o: Message)
    requires IsStatus(s) && AllLines(ls) && |StatusLine(s)| + |SectionText(ls)| <= max
    requires Announces(max, Response, DecValue(s.code), ls, b) && Distinct(AllFields(ls, b))
    ensures Whole(max, Response, m, ResponseText(s, ls, b), end, o)
    ensures end.c.p.upgrade <==> AsksForProtocol(ls) && DecValue(s.code) == 101
    ensures o.status == s.reason && o.headValues == AsMap(AllFields(ls, b)) && o.body == Content(b)
  {
    hide RunOn, StatusLine, SectionText, IsLine, Replay, HeadGives, Distinct, AllFields, Content, Announces,
      AsksForProtocol, Push,
      Whole, AsMap, DecValue, IsStatus;
    var c := ResponseStarts(max, s);
    StatusReplayed(m, s.reason);
    end, o := MessageWhole(max, Response, c, StatusLine(s), ls, b, m, CLEARED.(status := s.reason), [], []);
  }

  /** A response without framing, by a code that allows a body: what follows it up to the end of the connection is its
      body, and it is complete when the connection ends. */
  lemma ResponseToEnd(max: nat, m: Message, s: Status, ls: seq<Line>, bs: seq<char>) returns (c: Config, o: Message)
    requires IsStatus(s) && AllLines(ls) && |StatusLine(s)| + |SectionText(ls)| <= max && Distinct(Fields(ls))
    requires !Unacceptable(ls) && BodyBy(Response, DecValue(s.code), ls, 0) == ToEnd
    ensures RunOn(max, Going(Start(Response)), ResponseText(s, ls, Bytes(bs))) == Going(c)
    ensures c.p.state == BodyIdentityEof && Completions(c.t) == 0 && Replay(m, c.t) == Some(o) && !o.completed
    ensures o.status == s.reason && o.headValues == AsMap(Fields(ls)) && o.body == bs
    ensures Replay(m, Push(c.t, MessageComplete)) == Some(o.(completed := true))
  {
    hide RunOn, StatusLine, SectionText, LinesTrace, AfterHead, Unacceptable, BodyFraming, IsLine, IsStatus, Push,
      FlagsSay, HasOption, DecValue, Replay, Completions, AsMap, HeadGives, Distinct, Fields, AsksForProtocol;
    var t := Push(Push([], MessageBegin), Data(StatusData, s.reason));
    var u := Push(LinesTrace(t, ls), HeadersComplete);
    StartTrace(StatusData, s.reason);
    LinesIncomplete(t, ls);
    StatusReplayed(m, s.reason);
    o := HeadReplayed(m, t, CLEARED.(status := s.reason), [], [], ls);
    var q := ResponseHead(max, s, ls);
    var head := StatusLine(s) + SectionText(ls);
    EofHead(q, LinesTrace(t, ls), |head|);
    c := Config(HeadOver(q).(state := BodyIdentityEof), u, |head|);
    RunAppend(max, Going(Start(Response)), head, bs);
    if bs == [] {
      RunNone(max, Going(c));
    } else {
      BodyToEnd(max, c, bs);
      ReplayPush(m, u, Data(BodyData, bs));
      PushReads(u, Data(BodyData, bs));
      c := Config(c.p, Push(u, Data(BodyData, bs)), c.n + |bs|);
      assert [] + bs == bs;
      o := o.(body := bs);
    }
    ReplayPush(m, c.t, MessageComplete);
  }

  lemma EofHead(q: Parser, t: seq<Event>, n: nat)
    requires BodyFraming(q) == ToEnd
    ensures AfterHead(q, t, n) == Going(Config(HeadOver(q).(state := BodyIdentityEof), Push(t, HeadersComplete), n))
  {
    hide BodyFraming, UpgradeOf, Push, NewMessage;
  }

  /** Feeds a response, in any pieces, to an idle parser: it completes exactly at its last byte, with the reason phrase,
      headers and body. */
  method ReceiveResponse(parser: HTTPParser, pieces: seq<seq<char>>, ghost s: Status, ghost ls: seq<Line>,
                         ghost b: Payload)
    returns (total: nat, failed: bool)
    requires parser.Idle() && !parser.mISCompleted && parser.mParserType == Response
    requires IsStatus(s) && AllLines(ls) && |StatusLine(s)| + |SectionText(ls)| <= parser.maxHeaderSize
    requires Announces(parser.maxHeaderSize, Response, DecValue(s.code), ls, b) && Distinct(AllFields(ls, b))
    requires Flatten(pieces) == ResponseText(s, ls, b)
    requires forall i :: 0 <= i < |pieces| ==> pieces[i] != [] && |pieces[i]| + parser.maxHeaderSize < TWO_32
    modifies parser, parser.mParser
    ensures !failed && total == |ResponseText(s, ls, b)| && parser.mISCompleted
    ensures parser.mStatus == s.reason && parser.mHeadValues == AsMap(AllFields(ls, b)) && parser.mBody == Content(b)
    ensures parser.mIsUpgrade <==> AsksForProtocol(ls) && DecValue(s.code) == 101
  {
    hide ResponseText, StatusLine, SectionText, IsLine, Distinct, AllFields, Content, Announces, AsksForProtocol,
      AsMap, IsStatus,
      DecValue;
    ghost var end, o := ResponseWhole(parser.maxHeaderSize, parser.base, s, ls, b);
    WholeCompletes(parser.maxHeaderSize, Response, parser.base, ResponseText(s, ls, b), end, o);
    hide Whole;
    total, failed := ReceiveWhole(parser, pieces, ResponseText(s, ls, b), end, o);
  }
}
