/** Data of the HTTP parser: character classes, parser state and callback events.
    Bytes are modelled as `char`; every test in the parser treats all bytes from 128 up alike. */
module HttpTypes {
  import opened Options

  const CR := '\r'
  const LF := '\n'
  const TAB := '\t'
  const ULLONG_MAX: int := 0xFFFF_FFFF_FFFF_FFFF
  const TWO_64: int := 0x1_0000_0000_0000_0000
  const TWO_32: int := 0x1_0000_0000

  datatype MessageType = Request | Response

  datatype Flags = Flags(
    chunked: bool, keepAlive: bool, close: bool, connectionUpgrade: bool,
    trailing: bool, upgrade: bool, skipBody: bool, contentLength: bool)

  const NO_FLAGS := Flags(false, false, false, false, false, false, false, false)

  /** The parser's states, in the order of the source. The two HTTP_BOTH states are left out. */
  datatype State =
    | Dead
    | StartRes | ResH | ResHT | ResHTT | ResHTTP
    | ResHttpMajor | ResHttpDot | ResHttpMinor | ResHttpEnd
    | ResFirstStatusCode | ResStatusCode | ResStatusStart | ResStatus | ResLineAlmostDone
    | StartReq | ReqMethod | ReqSpacesBeforeUrl
    | ReqSchema | ReqSchemaSlash | ReqSchemaSlashSlash
    | ReqServerStart | ReqServer | ReqServerWithAt
    | ReqPath | ReqQueryStringStart | ReqQueryString | ReqFragmentStart | ReqFragment
    | ReqHttpStart | ReqHttpH | ReqHttpHT | ReqHttpHTT | ReqHttpHTTP | ReqHttpI | ReqHttpIC
    | ReqHttpMajor | ReqHttpDot | ReqHttpMinor | ReqHttpEnd | ReqLineAlmostDone
    | HeaderFieldStart | HeaderField
    | HeaderValueDiscardWs | HeaderValueDiscardWsAlmostDone | HeaderValueDiscardLws
    | HeaderValueStart | HeaderValue | HeaderValueLws | HeaderAlmostDone
    | ChunkSizeStart | ChunkSize | ChunkParameters | ChunkSizeAlmostDone
    | HeadersAlmostDone | HeadersDone
    | ChunkData | ChunkDataAlmostDone | ChunkDataDone
    | BodyIdentity | BodyIdentityEof
    | MessageDone

  datatype HeaderState =
    | General | C | CO | CON
    | MatchingConnection | MatchingProxyConnection | MatchingContentLength
    | MatchingTransferEncoding | MatchingUpgrade
    | Connection | ContentLength | ContentLengthNum | ContentLengthWs | TransferEncoding | Upgrade
    | MatchingTransferEncodingChunked
    | MatchingConnectionTokenStart | MatchingConnectionKeepAlive | MatchingConnectionClose
    | MatchingConnectionUpgrade | MatchingConnectionToken
    | TransferEncodingChunked | ConnectionKeepAlive | ConnectionClose | ConnectionUpgrade

  datatype Method =
    | DELETE | GET | HEAD | POST | PUT
    | CONNECT | OPTIONS | TRACE
    | COPY | LOCK | MKCOL | MOVE | PROPFIND | PROPPATCH | SEARCH | UNLOCK | BIND | REBIND | UNBIND | ACL
    | REPORT | MKACTIVITY | CHECKOUT | MERGE
    | MSEARCH | NOTIFY | SUBSCRIBE | UNSUBSCRIBE
    | PATCH | PURGE | MKCALENDAR | LINK | UNLINK | SOURCE

  datatype Errno =
    | OK
    | INVALID_EOF_STATE | HEADER_OVERFLOW | CLOSED_CONNECTION | INVALID_VERSION | INVALID_STATUS
    | INVALID_METHOD | INVALID_URL | LF_EXPECTED | INVALID_HEADER_TOKEN | INVALID_CONTENT_LENGTH
    | UNEXPECTED_CONTENT_LENGTH | INVALID_CHUNK_SIZE | INVALID_CONSTANT | STRICT

  datatype DataKind = UrlData | StatusData | FieldData | ValueData | BodyData

  /** What the settings' callbacks see. */
  datatype Event =
    | MessageBegin
    | Data(kind: DataKind, bytes: seq<char>)
    | HeadersComplete
    | ChunkHeader(size: int)
    | ChunkComplete
    | MessageComplete

  /** The persistent fields of `struct http_parser`, without `http_errno` and `data`. */
  datatype Parser = Parser(
    kind: MessageType, flags: Flags, state: State, headerState: HeaderState, index: nat,
    nread: nat, contentLength: int, major: int, minor: int, statusCode: int,
    verb: Method, upgrade: bool)

  function InitialParser(kind: MessageType): Parser {
    Parser(kind, NO_FLAGS, if kind == Request then StartReq else StartRes, General, 0,
           0, 0, 0, 0, 0, DELETE, false)
  }

  // ---------- character classes ----------

  /** `c | 0x20` on ASCII; bytes from 128 up only ever compare unequal to ASCII, so they stay put. */
  function Lower(c: char): char {
    if c < ' ' || '@' <= c <= '_' then (c as int + 32) as char else c
  }

  predicate IsAlpha(c: char) { 'a' <= Lower(c) <= 'z' }

  predicate IsNum(c: char) { '0' <= c <= '9' }

  function Digit(c: char): int { c as int - '0' as int }

  predicate IsAlphaNum(c: char) { IsAlpha(c) || IsNum(c) }

  predicate IsHex(c: char) { IsNum(c) || 'a' <= Lower(c) <= 'f' }

  predicate IsMark(c: char) {
    c == '-' || c == '_' || c == '.' || c == '!' || c == '~' || c == '*' || c == '\'' || c == '(' || c == ')'
  }

  predicate IsUserinfoChar(c: char) {
    IsAlphaNum(c) || IsMark(c) || c == '%' || c == ';' || c == ':' || c == '&' || c == '=' || c == '+'
    || c == '$' || c == ','
  }

  predicate IsHostChar(c: char) { IsAlphaNum(c) || c == '.' || c == '-' }

  /** The `normal_url_char` bitmap in strict mode. */
  predicate IsUrlChar(c: char) { '!' <= c <= '~' && c != '#' && c != '?' }

  predicate IsHeaderChar(c: char) { c == CR || c == LF || c == TAB || (c >= ' ' && c != '\U{7F}') }

  predicate IsToken(c: char) {
    IsAlphaNum(c) || c == '!' || c == '#' || c == '$' || c == '%' || c == '&' || c == '\'' || c == '*'
    || c == '+' || c == '-' || c == '.' || c == '^' || c == '_' || c == '`' || c == '|' || c == '~'
  }

  /** The `tokens` table: a token character in lower case, or NUL. A space is no token in strict mode. */
  function TokenOf(c: char): char {
    if !IsToken(c) then '\0' else if 'A' <= c <= 'Z' then (c as int + 32) as char else c
  }

  /** The `unhex` table. It lists 128 entries, so the entries from 128 up are zero, not -1. */
  function Unhex(c: char): (v: int)
    ensures -1 <= v < 16
  {
    if IsNum(c) then Digit(c)
    else if 'a' <= c <= 'f' then c as int - 87
    else if 'A' <= c <= 'F' then c as int - 55
    else if c < '\U{80}' then -1
    else 0
  }

  // ---------- constant strings ----------

  const CONNECTION := "connection"
  const PROXY_CONNECTION := "proxy-connection"
  const CONTENT_LENGTH := "content-length"
  const TRANSFER_ENCODING := "transfer-encoding"
  const UPGRADE := "upgrade"
  const CHUNKED := "chunked"
  const KEEP_ALIVE := "keep-alive"
  const CLOSE := "close"

  /** A C string read at `i`: its terminating NUL comes back at the length. */
  function At(s: string, i: nat): char { if i < |s| then s[i] else '\0' }

  /** `method_strings`, with M-SEARCH spelled as the source's macro spells it. */
  function MethodString(m: Method): string {
    match m
    case DELETE => "DELETE" case GET => "GET" case HEAD => "HEAD" case POST => "POST" case PUT => "PUT"
    case CONNECT => "CONNECT" case OPTIONS => "OPTIONS" case TRACE => "TRACE" case COPY => "COPY"
    case LOCK => "LOCK" case MKCOL => "MKCOL" case MOVE => "MOVE" case PROPFIND => "PROPFIND"
    case PROPPATCH => "PROPPATCH" case SEARCH => "SEARCH" case UNLOCK => "UNLOCK" case BIND => "BIND"
    case REBIND => "REBIND" case UNBIND => "UNBIND" case ACL => "ACL" case REPORT => "REPORT"
    case MKACTIVITY => "MKACTIVITY" case CHECKOUT => "CHECKOUT" case MERGE => "MERGE"
    case MSEARCH => "M - SEARCH" case NOTIFY => "NOTIFY" case SUBSCRIBE => "SUBSCRIBE"
    case UNSUBSCRIBE => "UNSUBSCRIBE" case PATCH => "PATCH" case PURGE => "PURGE"
    case MKCALENDAR => "MKCALENDAR" case LINK => "LINK" case UNLINK => "UNLINK" case SOURCE => "SOURCE"
  }

  /** The method guessed from the first byte. */
  function FirstGuess(c: char): Option<Method> {
    match c
    case 'A' => Some(ACL) case 'B' => Some(BIND) case 'C' => Some(CONNECT) case 'D' => Some(DELETE)
    case 'G' => Some(GET) case 'H' => Some(HEAD) case 'L' => Some(LOCK) case 'M' => Some(MKCOL)
    case 'N' => Some(NOTIFY) case 'O' => Some(OPTIONS) case 'P' => Some(POST) case 'R' => Some(REPORT)
    case 'S' => Some(SUBSCRIBE) case 'T' => Some(TRACE) case 'U' => Some(UNLOCK)
    case _ => None
  }

  /** The method the guess is corrected to when byte `c` at `index` differs from it. */
  function Correct(m: Method, index: nat, c: char): Option<Method> {
    match (m, index, c)
    case (POST, 1, 'U') => Some(PUT)
    case (POST, 1, 'A') => Some(PATCH)
    case (POST, 1, 'R') => Some(PROPFIND)
    case (PUT, 2, 'R') => Some(PURGE)
    case (CONNECT, 1, 'H') => Some(CHECKOUT)
    case (CONNECT, 2, 'P') => Some(COPY)
    case (MKCOL, 1, 'O') => Some(MOVE)
    case (MKCOL, 1, 'E') => Some(MERGE)
    case (MKCOL, 1, '-') => Some(MSEARCH)
    case (MKCOL, 2, 'A') => Some(MKACTIVITY)
    case (MKCOL, 3, 'A') => Some(MKCALENDAR)
    case (SUBSCRIBE, 1, 'E') => Some(SEARCH)
    case (SUBSCRIBE, 1, 'O') => Some(SOURCE)
    case (REPORT, 2, 'B') => Some(REBIND)
    case (PROPFIND, 4, 'P') => Some(PROPPATCH)
    case (LOCK, 1, 'I') => Some(LINK)
    case (UNLOCK, 2, 'S') => Some(UNSUBSCRIBE)
    case (UNLOCK, 2, 'B') => Some(UNBIND)
    case (UNLOCK, 3, 'I') => Some(UNLINK)
    case _ => None
  }

  // ---------- state classes ----------

  /** PARSING_HEADER: every state up to HeadersDone. */
  predicate ParsingHeader(s: State) {
    match s
    case ChunkData | ChunkDataAlmostDone | ChunkDataDone | BodyIdentity | BodyIdentityEof | MessageDone => false
    case _ => true
  }

  /** The states in which a URL is being collected. */
  predicate InUrl(s: State) {
    s.ReqSchema? || s.ReqSchemaSlash? || s.ReqSchemaSlashSlash? || s.ReqServerStart? || s.ReqServer?
    || s.ReqServerWithAt? || s.ReqPath? || s.ReqQueryStringStart? || s.ReqQueryString?
    || s.ReqFragmentStart? || s.ReqFragment?
  }

  /** `parse_url_char`. */
  function ParseUrlChar(s: State, c: char): State {
    if c == ' ' || c == CR || c == LF || c == TAB || c == '\U{0C}' then Dead
    else match s
    case ReqSpacesBeforeUrl =>
      if c == '/' || c == '*' then ReqPath else if IsAlpha(c) then ReqSchema else Dead
    case ReqSchema => if IsAlpha(c) then s else if c == ':' then ReqSchemaSlash else Dead
    case ReqSchemaSlash => if c == '/' then ReqSchemaSlashSlash else Dead
    case ReqSchemaSlashSlash => if c == '/' then ReqServerStart else Dead
    case ReqServerWithAt => if c == '@' then Dead else ParseServerChar(c)
    case ReqServerStart => ParseServerChar(c)
    case ReqServer => ParseServerChar(c)
    case ReqPath =>
      if IsUrlChar(c) then s else if c == '?' then ReqQueryStringStart
      else if c == '#' then ReqFragmentStart else Dead
    case ReqQueryStringStart | ReqQueryString =>
      if IsUrlChar(c) || c == '?' then ReqQueryString else if c == '#' then ReqFragmentStart else Dead
    case ReqFragmentStart => if IsUrlChar(c) || c == '?' then ReqFragment else if c == '#' then s else Dead
    case ReqFragment => if IsUrlChar(c) || c == '?' || c == '#' then s else Dead
    case _ => Dead
  }

  function ParseServerChar(c: char): State {
    if c == '/' then ReqPath
    else if c == '?' then ReqQueryStringStart
    else if c == '@' then ReqServerWithAt
    else if IsUserinfoChar(c) || c == '[' || c == ']' then ReqServer
    else Dead
  }

  /** `http_message_needs_eof`. */
  predicate NeedsEof(p: Parser) {
    && p.kind == Response
    && !(100 <= p.statusCode < 200 || p.statusCode == 204 || p.statusCode == 304 || p.flags.skipBody)
    && !(p.flags.chunked || p.contentLength != ULLONG_MAX)
  }

  /** `http_should_keep_alive`. */
  predicate ShouldKeepAlive(p: Parser) {
    && (if p.major > 0 && p.minor > 0 then !p.flags.close else p.flags.keepAlive)
    && !NeedsEof(p)
  }

  /** The state a finished message leaves behind (NEW_MESSAGE in strict mode). */
  function NewMessage(p: Parser): (s: State)
    ensures s == Dead || s == StartReq || s == StartRes
  {
    if !ShouldKeepAlive(p) then Dead else if p.kind == Request then StartReq else StartRes
  }

  // ---------- callback traces ----------

  /** Appends a callback to a trace, joining adjacent data callbacks of the same kind. */
  function Push(t: seq<Event>, e: Event): seq<Event> {
    if e.Data? && EndsWith(t, e.kind)
    then t[..|t| - 1] + [Data(e.kind, t[|t| - 1].bytes + e.bytes)]
    else t + [e]
  }

  predicate EndsWith(t: seq<Event>, k: DataKind) {
    |t| > 0 && t[|t| - 1].Data? && t[|t| - 1].kind == k
  }

  function PushOpt(t: seq<Event>, o: Option<Event>): seq<Event> {
    match o case None => t case Some(e) => Push(t, e)
  }

  /** A raw callback trace with adjacent data callbacks joined. */
  function Join(calls: seq<Event>): seq<Event> {
    if calls == [] then [] else Push(Join(calls[..|calls| - 1]), calls[|calls| - 1])
  }

  lemma JoinSnoc(calls: seq<Event>, e: Event)
    ensures Join(calls + [e]) == Push(Join(calls), e)
  {
    assert (calls + [e])[..|calls|] == calls;
  }

  /** Two data callbacks of one kind join to one. */
  lemma PushMerge(t: seq<Event>, k: DataKind, x: seq<char>, y: seq<char>)
    ensures Push(Push(t, Data(k, x)), Data(k, y)) == Push(t, Data(k, x + y))
    ensures EndsWith(Push(t, Data(k, x)), k)
  {
    if EndsWith(t, k) {
      var z := t[|t| - 1].bytes;
      assert z + x + y == z + (x + y);
    }
  }

  lemma PushEmpty(t: seq<Event>, k: DataKind)
    requires EndsWith(t, k)
    ensures Push(t, Data(k, [])) == t
  {
    assert t[|t| - 1].bytes + [] == t[|t| - 1].bytes;
  }
}
