/** Messages written out byte by byte, and what the parser makes of them. */
module HttpExamples {
  import opened Options
  import opened Sequences
  import opened HttpTypes
  import opened HttpText
  import opened HttpCharacters
  import opened HttpFields
  import opened HttpMethods
  import opened HttpConnection
  import opened HttpStatus
  import opened HttpFraming
  import opened HttpHeaders
  import opened HttpUrlLaws
  import opened HttpFormat
  import opened HttpWrapper
  import opened HttpRoundTrip
  import opened HttpExchange

  // ---------- numbers ----------

  lemma OneMore(ds: seq<char>, d: char)
    ensures DecValue(ds + [d]) == DecValue(ds) * 10 + Digit(d)
  {
    assert (ds + [d])[..|ds|] == ds;
  }

  /** A status code is the number its three digits spell. */
  lemma ThreeDigits(a: char, b: char, c: char)
    requires IsDigitCode(a as int) && IsDigitCode(b as int) && IsDigitCode(c as int)
    ensures AllDigits([a, b, c])
    ensures DecValue([a, b, c]) == (a as int - 0x30) * 100 + (b as int - 0x30) * 10 + (c as int - 0x30)
  {
    OneMore([], a);
    OneMore([a], b);
    OneMore([a, b], c);
    assert [a] == [] + [a] && [a, b] == [a] + [b] && [a, b, c] == [a, b] + [c];
  }

  // ---------- a WebSocket request ----------

  const UPGRADE_REQUEST :=
    "GET /chat HTTP/1.1\r\n" +
    "Upgrade: websocket\r\n" +
    "Connection: Upgrade\r\n" +
    "\r\n"

  const CHAT := Asked(GET, Tail("/chat", None, None), '1', '1')

  const UPGRADE_LINES := [Protocol("Upgrade", "websocket"), Line.Options("Connection", [Element([], "Upgrade", [])])]

  lemma TwoLines(a: Line, b: Line)
    ensures SectionText([a, b]) == LineText(a) + (LineText(b) + CRLF) && SectionText([]) == CRLF
    ensures Fields([a, b]) == [AsField(a), AsField(b)] && Fields([]) == []
    ensures SectionText([a]) == LineText(a) + CRLF && Fields([a]) == [AsField(a)]
  {
    hide LineText, ValueText;
    assert [a][..0] == [] && [a, b][..1] == [a];
    assert LinesText([a]) == [] + LineText(a) && LinesText([a, b]) == LinesText([a]) + LineText(b);
    assert Fields([a]) == [] + [AsField(a)] && Fields([a, b]) == Fields([a]) + [AsField(b)];
  }

  lemma LineWritten(l: Line)
    ensures LineText(l) == l.name + ": " + ValueText(l) + "\r\n"
  {
    hide ValueText;
    assert ": " == [':'] + [' '] && "\r\n" == CRLF;
  }

  /** A request line of HTTP/1.1. */
  lemma LineOf(q: Asked)
    requires q.major == '1' && q.minor == '1'
    ensures AskedLine(q) == (NameOf(q.verb) + " ") + (TailText(q.tail) + " HTTP/1.1\r\n")
  {
    hide NameOf, TailText;
    assert ['1'] + ("." + ['1']) == "1.1" && "1.1" + "\r\n" == "1.1\r\n" && " HTTP/" + "1.1\r\n" == " HTTP/1.1\r\n";
  }

  lemma ChatLine()
    ensures AskedLine(CHAT) == "GET /chat HTTP/1.1\r\n"
  {
    LineOf(CHAT);
    hide AskedLine;
    assert TailText(CHAT.tail) == "/chat" && NameOf(GET) + " " == "GET ";
    hide TailText, NameOf;
    assert "/chat" + " HTTP/1.1\r\n" == "/chat HTTP/1.1\r\n";
  }

  lemma ProtocolWritten()
    ensures LineText(UPGRADE_LINES[0]) == "Upgrade: websocket\r\n"
  {
    LineWritten(UPGRADE_LINES[0]);
    assert "Upgrade" + ": " == "Upgrade: " && "Upgrade: " + "websocket" == "Upgrade: websocket";
  }

  lemma OptionWritten()
    ensures ValueText(UPGRADE_LINES[1]) == "Upgrade" && LineText(UPGRADE_LINES[1]) == "Connection: Upgrade\r\n"
  {
    LineWritten(UPGRADE_LINES[1]);
    assert ListText([Element([], "Upgrade", [])]) == "Upgrade";
    assert "Connection" + ": " == "Connection: " && "Connection: " + "Upgrade" == "Connection: Upgrade";
  }

  lemma UpgradeWritten()
    ensures RequestText(CHAT, UPGRADE_LINES, Bytes([])) == UPGRADE_REQUEST
    ensures Fields(UPGRADE_LINES) == [Field("Upgrade", "websocket"), Field("Connection", "Upgrade")]
  {
    hide LineText, LinesText, Fields, AskedLine;
    TwoLines(UPGRADE_LINES[0], UPGRADE_LINES[1]);
    ChatLine();
    ProtocolWritten();
    OptionWritten();
    assert CRLF == "\r\n";
  }

  lemma UpgradeSpelled()
    ensures Spells("Upgrade", "upgrade") && IsName("Upgrade")
  {
    forall i | 0 <= i < 7 ensures SameLetter("Upgrade"[i], "upgrade"[i]) && IsToken("Upgrade"[i]) {
      assert "Upgrade"[0] == 'U' && "upgrade"[0] == 'u' && 'U' as int == 'u' as int - 32;
    }
  }

  lemma ConnectionSpelled()
    ensures Spells("Connection", "connection") && IsName("Connection")
  {
    forall i | 0 <= i < 10 ensures SameLetter("Connection"[i], "connection"[i]) && IsToken("Connection"[i]) {
      assert "Connection"[0] == 'C' && "connection"[0] == 'c' && 'C' as int == 'c' as int - 32;
    }
  }

  lemma OptionOffered()
    ensures IsLine(UPGRADE_LINES[1]) && OffersOption(UPGRADE_LINES[1], UpgradeChoice)
  {
    ConnectionSpelled();
    UpgradeSpelled();
    hide Spells, IsName;
    var es := [Element([], "Upgrade", [])];
    assert IsElement(es[0]) by {
      forall i | 0 <= i < 7 ensures IsTcharCode("Upgrade"[i] as int) {}
    }
    assert Found(es, 0, UpgradeChoice);
  }

  lemma ProtocolIsLine()
    ensures IsLine(UPGRADE_LINES[0])
  {
    UpgradeSpelled();
    hide Spells, IsName;
    forall i | 0 <= i < 9 ensures IsHeaderChar("websocket"[i]) && "websocket"[i] != CR && "websocket"[i] != LF {}
  }

  lemma ChatAsked()
    ensures IsAsked(CHAT)
  {
    forall i | 0 <= i < 5 ensures IsUrlChar("/chat"[i]) {}
    assert TailText(CHAT.tail) == "/chat";
  }

  /** The request is one that asks for WebSocket. */
  lemma UpgradeAsks(max: nat)
    ensures IsAsked(CHAT) && AllLines(UPGRADE_LINES) && Announces(max, Request, 0, UPGRADE_LINES, Bytes([]))
    ensures AsksForProtocol(UPGRADE_LINES) && Distinct(AllFields(UPGRADE_LINES, Bytes([])))
    ensures var h := AsMap(AllFields(UPGRADE_LINES, Bytes([]))); "Upgrade" in h && h["Upgrade"] == "websocket"
  {
    ChatAsked();
    ProtocolIsLine();
    OptionOffered();
    UpgradeWritten();
    hide IsAsked, IsLine, OffersOption, Fields;
    var fs := [Field("Upgrade", "websocket"), Field("Connection", "Upgrade")];
    assert Fields(UPGRADE_LINES) + [] == fs;
    assert fs[..1] == [Field("Upgrade", "websocket")];
  }

  /** The request, in any pieces, ends with its last byte, as an upgrade to WebSocket. */
  method ReceiveUpgrade(parser: HTTPParser, pieces: seq<seq<char>>) returns (total: nat, failed: bool)
    requires parser.Idle() && !parser.mISCompleted && parser.mParserType == Request && parser.maxHeaderSize >= 100
    requires Flatten(pieces) == UPGRADE_REQUEST
    requires forall i :: 0 <= i < |pieces| ==> pieces[i] != [] && |pieces[i]| + parser.maxHeaderSize < TWO_32
    modifies parser, parser.mParser
    ensures !failed && total == |UPGRADE_REQUEST| && parser.mISCompleted && parser.mMethod == Some(GET)
    ensures parser.mIsUpgrade && parser.mIsWebSocket && parser.mPath == "/chat" && parser.mBody == []
  {
    UpgradeWritten();
    UpgradeAsks(parser.maxHeaderSize);
    hide IsAsked, AllLines, Announces, AsksForProtocol, Distinct, AllFields, AsMap, AskedLine, SectionText;
    total, failed := ReceiveRequest(parser, pieces, CHAT, UPGRADE_LINES, Bytes([]));
  }

  // ---------- responses by their code ----------

  /** Without header lines, exactly the responses 1xx, 204 and 304 are over with the blank line. */
  lemma BodilessCodes(a: char, b: char, c: char)
    requires IsDigitCode(a as int) && IsDigitCode(b as int) && IsDigitCode(c as int)
    ensures var body := BodyBy(Response, DecValue([a, b, c]), [], 0);
            && (body == NoBody <==> a == '1' || [a, b, c] == "204" || [a, b, c] == "304")
            && (body != NoBody ==> body == ToEnd)
  {
    ThreeDigits(a, b, c);
    hide DecValue;
    assert !HasLength([]) && !HasChunked([]) && !HasProtocol([]);
    assert "204"[0] == '2' && "204"[1] == '0' && "204"[2] == '4';
    assert "304"[0] == '3' && "304"[1] == '0' && "304"[2] == '4';
    if (a as int - 0x30) * 100 + (b as int - 0x30) * 10 + (c as int - 0x30) == 204 { assert [a, b, c] == "204"; }
    if (a as int - 0x30) * 100 + (b as int - 0x30) * 10 + (c as int - 0x30) == 304 { assert [a, b, c] == "304"; }
  }

  const NO_CONTENT_RESPONSE := "HTTP/1.1 204 No Content\r\n" + "\r\n"

  const NO_CONTENT := Status('1', '1', "204", "No Content")

  /** A status line of HTTP/1.1. */
  lemma StatusLineOf(s: Status)
    requires s.major == '1' && s.minor == '1'
    ensures StatusLine(s) == "HTTP/1.1 " + (s.code + (" " + (s.reason + "\r\n")))
  {
    assert ['1'] + (['.'] + (['1'] + [' '])) == "1.1 " && "HTTP/" + "1.1 " == "HTTP/1.1 " && CRLF == "\r\n";
  }

  lemma NoContentLine()
    ensures StatusLine(NO_CONTENT) == "HTTP/1.1 204 No Content\r\n"
  {
    StatusLineOf(NO_CONTENT);
    hide StatusLine, DecValue;
    assert " " + ("No Content" + "\r\n") == " No Content\r\n";
    assert "204" + " No Content\r\n" == "204 No Content\r\n";
  }

  lemma NoContentWritten()
    ensures ResponseText(NO_CONTENT, [], Bytes([])) == NO_CONTENT_RESPONSE
    ensures IsStatus(NO_CONTENT) && DecValue("204") == 204
  {
    ThreeDigits('2', '0', '4');
    NoContentLine();
    hide DecValue, AllDigits, StatusLine;
    assert ['2', '0', '4'] == "204" && CRLF == "\r\n" && LinesText([]) + CRLF == CRLF;
    forall i | 0 <= i < 10 ensures "No Content"[i] != CR && "No Content"[i] != LF {}
  }

  /** The response, in any pieces, ends with its blank line. */
  method ReceiveNoContent(parser: HTTPParser, pieces: seq<seq<char>>) returns (total: nat, failed: bool)
    requires parser.Idle() && !parser.mISCompleted && parser.mParserType == Response && parser.maxHeaderSize >= 100
    requires Flatten(pieces) == NO_CONTENT_RESPONSE
    requires forall i :: 0 <= i < |pieces| ==> pieces[i] != [] && |pieces[i]| + parser.maxHeaderSize < TWO_32
    modifies parser, parser.mParser
    ensures !failed && total == |NO_CONTENT_RESPONSE| && parser.mISCompleted
    ensures parser.mStatus == "No Content" && parser.mBody == [] && !parser.mIsUpgrade
  {
    NoContentWritten();
    NothingAnnounced(parser.maxHeaderSize);
    hide IsStatus, AllLines, Announces, AsksForProtocol, Distinct, AllFields, AsMap, StatusLine, SectionText, DecValue;
    total, failed := ReceiveResponse(parser, pieces, NO_CONTENT, [], Bytes([]));
  }

  lemma NothingAnnounced(max: nat)
    ensures AllLines([]) && Announces(max, Response, 204, [], Bytes([])) && Distinct(AllFields([], Bytes([])))
    ensures !AsksForProtocol([])
  {}

  // ---------- a chunked request ----------

  const CHUNKED_REQUEST :=
    "POST /upload HTTP/1.1\r\n" +
    "transfer-encoding: Chunked\r\n" +
    "\r\n" +
    "a\r\n0123456789\r\n0\r\n\r\n"

  const UPLOAD := Asked(POST, Tail("/upload", None, None), '1', '1')

  const CHUNKED_LINES := [Coding("transfer-encoding", "Chunked")]

  const TEN := InChunks([Chunk("a", [], "0123456789")], "0", [], [])

  lemma UploadLine()
    ensures AskedLine(UPLOAD) == "POST /upload HTTP/1.1\r\n"
  {
    LineOf(UPLOAD);
    hide AskedLine;
    assert TailText(UPLOAD.tail) == "/upload" && NameOf(POST) + " " == "POST ";
    hide TailText, NameOf;
    assert "/upload" + " HTTP/1.1\r\n" == "/upload HTTP/1.1\r\n";
  }

  lemma UploadAsked()
    ensures IsAsked(UPLOAD)
  {
    forall i | 0 <= i < 7 ensures IsUrlChar("/upload"[i]) {}
    assert TailText(UPLOAD.tail) == "/upload";
  }

  lemma ChunkedWritten()
    ensures LineText(CHUNKED_LINES[0]) == "transfer-encoding: Chunked\r\n" && IsLine(CHUNKED_LINES[0])
    ensures IsChunkedCoding("Chunked")
  {
    LineWritten(CHUNKED_LINES[0]);
    assert "transfer-encoding" + ": " == "transfer-encoding: ";
    assert "transfer-encoding: " + "Chunked" == "transfer-encoding: Chunked";
    forall i | 0 <= i < 17 ensures IsToken("transfer-encoding"[i]) {}
    forall i | 0 <= i < 7 ensures IsHeaderChar("Chunked"[i]) && SameLetter("Chunked"[i], "chunked"[i]) {
      assert "Chunked"[0] == 'C' && "chunked"[0] == 'c' && 'C' as int == 'c' as int - 32;
    }
  }

  lemma OneHexDigit(d: char)
    requires IsHexCode(d as int)
    ensures AllHexDigits([d]) && HexValue([d]) == Unhex(d)
  {
    HexWorth(d);
    HexLast([], d);
    NoHexDigits();
    assert [] + [d] == [d];
    hide Unhex;
  }

  lemma TenEncoded()
    ensures EncodeChunks(TEN.chunks) == "a\r\n0123456789\r\n"
  {
    var k := TEN.chunks[0];
    assert TEN.chunks == [k] && [k][..0] == [];
    assert EncodeChunks([k]) == [] + EncodeChunk(k);
    assert SizeLine(k.size, k.ext) == "a\r\n" && k.data + CRLF == "0123456789\r\n";
    assert "a\r\n" + "0123456789\r\n" == "a\r\n0123456789\r\n";
  }

  lemma TenWritten()
    ensures PayloadText(TEN) == "a\r\n0123456789\r\n0\r\n\r\n" && Content(TEN) == "0123456789"
  {
    TenEncoded();
    hide EncodeChunks;
    assert SizeLine("0", []) == "0\r\n" && FieldLines([]) + CRLF == "\r\n";
    assert "0\r\n" + "\r\n" == "0\r\n\r\n";
    var k := TEN.chunks[0];
    assert TEN.chunks == [k] && [k][..0] == [] && ChunkBytes([k]) == ChunkBytes([]) + k.data;
  }

  /** The chunk size `a` is ten. */
  lemma TenIsTen(max: nat)
    requires max >= 100
    ensures IsChunkBody(max, TEN)
  {
    assert "a" == ['a'] && "0" == ['0'];
    HexWorth('a');
    HexWorth('0');
    OneHexDigit('a');
    OneHexDigit('0');
    assert 'a' as int == 0x61 && '0' as int == 0x30;
    hide HexValue, AllHexDigits, Unhex;
    assert TEN.chunks[0] == Chunk("a", [], "0123456789");
  }

  lemma UploadWritten()
    ensures RequestText(UPLOAD, CHUNKED_LINES, TEN) == CHUNKED_REQUEST
  {
    UploadLine();
    ChunkedWritten();
    TenWritten();
    hide AskedLine, LineText, LinesText, PayloadText, IsLine, IsChunkedCoding;
    TwoLines(CHUNKED_LINES[0], CHUNKED_LINES[0]);
    assert CRLF == "\r\n" && CHUNKED_LINES == [CHUNKED_LINES[0]];
  }

  lemma UploadAnnounced(max: nat)
    requires max >= 100
    ensures AllLines(CHUNKED_LINES) && Announces(max, Request, 0, CHUNKED_LINES, TEN)
    ensures !AsksForProtocol(CHUNKED_LINES) && Distinct(AllFields(CHUNKED_LINES, TEN))
  {
    ChunkedWritten();
    TenIsTen(max);
    TwoLines(CHUNKED_LINES[0], CHUNKED_LINES[0]);
    hide IsLine, IsChunkedCoding, IsChunkBody, LineText, SectionText, Fields, HasOption;
    assert CHUNKED_LINES[0].Coding? && IsChunkedCoding(CHUNKED_LINES[0].text);
    assert !HasLength(CHUNKED_LINES) && !HasProtocol(CHUNKED_LINES);
  }

  /** The request, in any pieces, ends with its last byte, and its body is the ten bytes of its chunk. */
  method ReceiveUpload(parser: HTTPParser, pieces: seq<seq<char>>) returns (total: nat, failed: bool)
    requires parser.Idle() && !parser.mISCompleted && parser.mParserType == Request && parser.maxHeaderSize >= 100
    requires Flatten(pieces) == CHUNKED_REQUEST
    requires forall i :: 0 <= i < |pieces| ==> pieces[i] != [] && |pieces[i]| + parser.maxHeaderSize < TWO_32
    modifies parser, parser.mParser
    ensures !failed && total == |CHUNKED_REQUEST| && parser.mISCompleted && parser.mMethod == Some(POST)
    ensures parser.mPath == "/upload" && parser.mBody == "0123456789" && !parser.mIsUpgrade
  {
    UploadAsked();
    UploadAnnounced(parser.maxHeaderSize);
    UploadWritten();
    TenWritten();
    hide IsAsked, AllLines, Announces, AsksForProtocol, Distinct, AllFields, AsMap, AskedLine, SectionText, Content,
      PayloadText;
    total, failed := ReceiveRequest(parser, pieces, UPLOAD, CHUNKED_LINES, TEN);
  }
}
