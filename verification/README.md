# bsio: a verified model of its byte-level state machines

bsio is a thin network layer over asio. This project models the parts of it that take bytes apart, put them together or
hand them on, and proves what they promise:

- **HTTP parser** (`http_parser.h`, `HttpParser.hpp`, `HttpFormat.hpp`). `HttpAutomaton` is a byte-at-a-time automaton.
  `HttpExecute.HttpParser` is `http_parser_execute` itself, with its bulk loops, marks, jumps and `reexecute` passes, and
  it refines the automaton; `HttpMarks`, `HttpPasses`, `HttpSweeps` and `HttpCalls` hold the lemmas of that refinement. On
  top of that:
  - TCP segmentation does not matter (`HttpSegmentation`).
  - The words and characters are the standard's, letter by letter and code by code (`HttpText`, `HttpCharacters`,
    `HttpNames`, `HttpMethods`).
  - Bodies are framed as RFC 7230 says, from the header lines to the last byte (`HttpFields`, `HttpConnection`,
    `HttpStatus`, `HttpFraming`, `HttpHeaders`, `HttpMessages`); `HttpLineEnds` and `HttpLimits` have what is tolerated
    and what is too long.
  - URL parsing inverts URL composition (`HttpUrl`, `HttpUrlLaws`).
  - A printed request parses to itself (`HttpFormat`, `HttpWrapper`, `HttpReceive`, `HttpRoundTrip`), and any request or
    response arrives as it was sent (`HttpExchange`, with three messages written out in `HttpExamples`).
- **WebSocket** (`WebSocketFormat.hpp`, `HttpService::ProcessWebSocket`). Frames round-trip (`WebSocketFormat`), and
  fragmented messages with control frames between them are delivered whole, once and in order (`WebSocketDelivery`).
- **Handshake digest** (`SHA1.hpp`, `Base64.hpp`). The streaming SHA-1 equals FIPS 180-4 (`Sha1Spec`, `Sha1`), Base64
  equals section 4 of RFC 4648 (`Base64`), and the handshake puts them together (`WebSocketHandshake`); the example of
  RFC 6455 is computed to the last bit (`WebSocketSample`).
- **TcpSession**. The send side is a protocol of atomic steps with any number of sender threads (`TcpSend`). The receive
  side is a growing and compacting buffer over asio's streambuf (`StreamBuf`, `TcpReceive`), and behaves as a queue of
  bytes (`ReceiveQueue`).
- **buffers_iterator**: a cursor over a list of buffers agrees with an index into their concatenation
  (`BuffersIterator`).

Conventions. HTTP bytes are `char` (the parser treats all bytes from 128 up alike); elsewhere bytes are `bv8`.
A specification function says what an operation means; an imperative method is the source's code and is proved equal to it.
Fixed-width arithmetic is written out where the source relies on it.

Where the code and the obvious claim differ:

- `unhex` lists 128 entries, so every byte from 128 up counts as the hexadecimal digit 0 in a chunk size
  (`HttpFraming.HexDigitsAccepted`).
- In a Connection list an option is missed behind an element that is a strict beginning of an option (`k,close`), behind a
  tab or an underscore at the front of an element, and before a tab. `HttpConnection.FlagsExact` says exactly which options
  are found, `HttpConnection.OrdinaryFound` when those are all.
- Of Transfer-Encoding only the single coding `chunked` is recognised, not a list that ends in it
  (`HttpFields.TransferLine`).
- A response 204 or 304 with a Content-Length is read with a body of that length (`HttpExchange.ResponseHead`).
- M-SEARCH is taken for no method, because its name in the table has blanks (`HttpMethods.MethodExact`).
- A call to the parser without bytes returns 1, which is more than its length, when the connection may not end there
  (`HttpExecute.HttpParser.Eof`).
- A frame of 2^31 bytes or more cannot be read back (`WebSocketFormat.FrameRoundTrip` says exactly when it can).
- The frame reader takes non-minimal length forms and reserved bits, which section 5.2 of RFC 6455 forbids
  (`WebSocketFormat.Reencoded`).
- Shrinking the receive buffer adds zero bytes behind 1 to 127 unread ones (`TcpReceive.ReceiveSide.DoShrink`).
- Offsets and lengths of URL parts are 16-bit numbers, and nothing refuses a longer URL: a path of 65536 bytes comes out
  with length 0 (`HttpUrlLaws.LongPathWraps`). `HttpUrlLaws.RangesExactly` says exactly when the
  ranges are right.
- `buffers_iterator` keeps a stale current buffer at the end; the invariant does not mention it there.

## Model

| member | source | states |
|---|---|---|
| HttpExecute.HttpParser.Execute | include/bsio/net/http/http_parser.h:1097-2746 | The fast parser does what the byte-at-a-time automaton does: it is in error exactly when the automaton fails; otherwise its fields, the callbacks made (adjacent data callbacks joined) and the returned count, upgrade exit included, are the automaton's. On an error the count is below the length, and the automaton has failed by the byte it names. An empty call is the end of the connection. |
| HttpExecute.HttpParser.ExecuteBytes | include/bsio/net/http/http_parser.h:1141-2746 | The byte loop with its five marks refines the automaton run; the position it stops at on an error is inside the data, without a clamp, and the automaton has failed by it |
| HttpExecute.HttpParser.Turn | include/bsio/net/http/http_parser.h:1171-1180 | Counting a byte and all `reexecute` passes over it, bulk jumps included, end where the automaton run ends; the chain of passes terminates |
| HttpExecute.HttpParser.Passes | include/bsio/net/http/http_parser.h:1177-1179 | Every `goto reexecute` chain ends, because each pass lowers the rank of the state |
| HttpExecute.HttpParser.SweepField | include/bsio/net/http/http_parser.h:1791-1925 | The header-name loop leaves the matcher where byte-by-byte matching would |
| HttpExecute.HttpParser.FieldBytes | include/bsio/net/http/http_parser.h:1791-1943 | A header name swept in one go, counted afterwards and delivered by its mark, is what the automaton makes of its bytes one by one |
| HttpExecute.HttpParser.SkipValue | include/bsio/net/http/http_parser.h:2080-2102 | The inner loop of general values passes only header characters; when it runs over a header's worth of bytes it stops one byte late |
| HttpExecute.HttpParser.SweepValue | include/bsio/net/http/http_parser.h:2046-2286 | The header-value loop folds its bytes as the automaton does, refuses the same byte, or has overrun the header limit |
| HttpExecute.HttpParser.ValueBytes | include/bsio/net/http/http_parser.h:2046-2289 | A value swept in one go, with the count after the fact, is sound; an overrun always ends in the overflow error the automaton has |
| HttpExecute.HttpParser.MatchValue | include/bsio/net/http/http_parser.h:2104-2280 | One byte of the Connection, Transfer-Encoding and Content-Length value matchers, and the state the source calls unreachable is |
| HttpExecute.HttpParser.IdentityBytes | include/bsio/net/http/http_parser.h:2524-2559 | Jumping over a body run of `MIN(content_length, bytes left)` is as good as taking its bytes one by one |
| HttpExecute.HttpParser.ChunkBytes | include/bsio/net/http/http_parser.h:2668-2689 | The same for the data of a chunk; the asserts on flags and content length hold |
| HttpExecute.HttpParser.EofBytes | include/bsio/net/http/http_parser.h:2561-2565 | A body up to the end of the connection takes all the bytes at hand |
| HttpExecute.HttpParser.DeliverRest | include/bsio/net/http/http_parser.h:2725-2737 | The leftover marks deliver exactly the data in progress, and at most one of them is set |
| HttpExecute.HttpParser.Eof | include/bsio/net/http/http_parser.h:1118-1139 | What a call without bytes does in each state |
| HttpMarks.AtMostOne | include/bsio/net/http/http_parser.h:2725-2729 | At most one mark is live, and it is not beyond the current byte |
| HttpExecute.HexNoWrap | include/bsio/net/http/http_parser.h:2594-2633 | A chunk-size digit that passes the overflow test does not wrap in 64 bits |
| HttpExecute.DecimalNoWrap | include/bsio/net/http/http_parser.h:2115-2146 | A content-length digit that passes the overflow test does not wrap in 64 bits |
| HttpPasses.PlainPass | include/bsio/net/http/http_parser.h:1177-2710 | No state without data delivers data or fails without an error code |
| HttpInvariants.PassGood | include/bsio/net/http/http_parser.h:1177-2710 | One pass from a good parser is good again: matcher index in bounds, header state reachable, counters in range, chunked flag set in chunk states, content length neither 0 nor the sentinel in body states, `nread` as the asserts want it |
| HttpInvariants.RunGood | include/bsio/net/http/http_parser.h:1097-2746 | Over every run from every good parser the invariant holds, and a run consumes no more than it is given |
| HttpInvariants.InitialGood | include/bsio/net/http/http_parser.h:2816-2825 | A parser that has been set up is good |
| HttpInvariants.NextIndex | include/bsio/net/http/http_parser.h:1479-1540 | The method matcher stays inside the method string |
| HttpInvariants.CorrectIndex | include/bsio/net/http/http_parser.h:1499-1531 | So does a correction of the guessed method |
| HttpSegmentation.Segmentation | include/bsio/net/http/http_parser.h:1097-2746 | The automaton fed with any pieces of a stream ends as on the whole stream |
| HttpSegmentation.SegmentationIndependent | include/bsio/net/http/http_parser.h:1097-2746 | Two cuts of one stream cannot be told apart |
| HttpSegmentation.Feed | include/bsio/net/http/http_parser.h:1097-2746 | Calling the parser on any cut of a stream into non-empty pieces gives the parser state, joined callback trace, stopping offset (upgrade included) and failure of one run over the whole stream; on a failure the stream has failed by the offset where feeding stopped |
| HttpBulk.FieldRun | include/bsio/net/http/http_parser.h:1791-1925 | The automaton over a run of token bytes, in one formula |
| HttpBulk.ValueRun | include/bsio/net/http/http_parser.h:2046-2286 | The automaton over a run of value bytes: folded, refused, or over the header limit |
| HttpBulk.BodyPart | include/bsio/net/http/http_parser.h:2524-2545 | The automaton over a part of an identity body |
| HttpBulk.ChunkRun | include/bsio/net/http/http_parser.h:2668-2689 | The automaton over a run of chunk data |
| HttpNames.NameMatchedExactly | include/bsio/net/http/http_parser.h:1758-1925 | The header-name matcher recognises exactly connection, proxy-connection, content-length, transfer-encoding and upgrade, on lower-case names |
| HttpNames.NamesLiterally | include/bsio/net/http/http_parser.h:622-654 | A name is recognised as one of these words exactly when each letter is that of the word or its capital, whose code is 32 less |
| HttpCharacters.TokensExact | include/bsio/net/http/http_parser.h:622-654 | The name characters are the tchar of section 3.2.6 of RFC 7230, by code, and a capital stands for its small letter |
| HttpCharacters.HeaderCharsExact | include/bsio/net/http/http_parser.h:883-884 | The value characters are tab, blank, the visible ones and those from 128 up |
| HttpCharacters.UrlCharsExact | include/bsio/net/http/http_parser.h:665-700 | The URL characters are the visible ones but # and ?, those of the paths of RFC 3986 among them |
| HttpCharacters.AuthorityCharsExact | include/bsio/net/http/http_parser.h:854-880 | Userinfo and host characters, by code |
| HttpCharacters.DigitsExact | include/bsio/net/http/http_parser.h:855-857 | Decimal digits by code and value; hexadecimal digits by code |
| HttpCharacters.HexDigitsExact | include/bsio/net/http/http_parser.h:656-663 | The sixteen hexadecimal digits, in either spelling, are worth their places |
| HttpFields.ContentLengthExact | include/bsio/net/http/http_parser.h:2115-2146 | Content-Length digits are accepted exactly when their value is at most 18446744073709551609; the value is then the true one, never the sentinel |
| HttpFields.PlainLine | include/bsio/net/http/http_parser.h:1737-2384 | A header line of no meaning to the framing is delivered as it is and changes nothing else |
| HttpFields.LengthLine | include/bsio/net/http/http_parser.h:1991-2007 | A Content-Length line is delivered and sets the content length to its decimal value |
| HttpFields.ChunkedLine | include/bsio/net/http/http_parser.h:1979-2168 | A `Transfer-Encoding: chunked` line, in any case, is delivered and sets the chunked flag |
| HttpFields.TransferLine | include/bsio/net/http/http_parser.h:1979-2168 | A Transfer-Encoding line with any value is delivered, and sets the chunked flag exactly when the value is chunked, letter by letter in either spelling, with nothing but blanks behind it |
| HttpConnection.ConnectionLine | include/bsio/net/http/http_parser.h:2014-2286 | A Connection or Proxy-Connection line with any comma-separated list of tokens is delivered as it is and sets the flags of the options found in it, and nothing else |
| HttpConnection.FlagsExact | include/bsio/net/http/http_parser.h:2168-2286 | Each of the three flags is set exactly when its option is found somewhere in the list |
| HttpConnection.OrdinaryFound | include/bsio/net/http/http_parser.h:2168-2286 | In a list without tabs, without tokens that begin with an underscore and without an element that is a strict beginning of an option, an option is found exactly where keep-alive, close or upgrade stands, in any spelling |
| HttpConnection.MissedOptions | include/bsio/net/http/http_parser.h:2168-2286 | The lists `k,close`, `a,<tab>close`, `_,_,close` and `close<tab>,a` hold the option close, and it is not found |
| HttpConnection.UpgradeLine | include/bsio/net/http/http_parser.h:1974-1977 | An Upgrade line with a value sets the upgrade flag |
| HttpStatus.StatusCodeExact | include/bsio/net/http/http_parser.h:1321-1369 | The digits of a status code are accepted exactly when their value is at most 999, and it is then the value read |
| HttpStatus.StatusLineRun | include/bsio/net/http/http_parser.h:1234-1403 | A status line gives the two digits of its version, the decimal value of its code, and the reason phrase as status data behind the start of the message |
| HttpMethods.MethodExact | include/bsio/net/http/http_parser.h:1405-1540 | The word at the start of a request is taken for a method exactly when it is the name of the method, letter by letter, for all 33 names; M-SEARCH, which the table has with blanks, is taken for none |
| HttpMethods.NameGuessed | include/bsio/net/http/http_parser.h:1412-1531 | From the first letter, through every correction of the guess, each name but M-SEARCH ends in its own method |
| HttpLineEnds.LineFeedAlone | include/bsio/net/http/http_parser.h:1141-2450 | Wherever a line of the head may end, a line feed alone has the effect of CR LF |
| HttpLineEnds.ChunksWantCr | include/bsio/net/http/http_parser.h:2600-2707 | The lines of a chunked body are refused without the CR |
| HttpLineEnds.IgnoredRun | include/bsio/net/http/http_parser.h:1180-1962 | Empty lines before a message, further spaces in its first line and blanks before a header value have no effect but on the byte count |
| HttpLineEnds.FoldedLine | include/bsio/net/http/http_parser.h:2303-2337 | A line that begins with a blank goes on with the value before it: blank and rest are appended, the line end between them is not |
| HttpFraming.HeadEnd | include/bsio/net/http/http_parser.h:2386-2522 | Whatever the flags of the header section, Connection and Upgrade included, the blank line leads to what section 3.3.3 of RFC 7230 says: chunks, a body of the announced length, a body up to the end of the connection, no body, or another protocol |
| HttpFraming.WhichBody | include/bsio/net/http/http_parser.h:2463-2522 | Exactly when each of these bodies follows: chunks iff the chunked flag is set and neither skipBody nor a CONNECT upgrade intervenes; a length iff one is announced without it; up to the end only for a response that may have a body |
| HttpFraming.IdentityBodyDelivered | include/bsio/net/http/http_parser.h:2524-2575 | A message with Content-Length n delivers exactly the next n bytes, and is complete on the last of them |
| HttpFraming.IdentityBodyPending | include/bsio/net/http/http_parser.h:2524-2545 | With fewer bytes it is not complete, and the rest is still due |
| HttpFraming.ChunkSizeExact | include/bsio/net/http/http_parser.h:2577-2633 | Chunk-size digits are accepted exactly when their value is at most 2^64-17 and they fit the header limit; the value is then the true one |
| HttpFraming.HexRoundTrip | include/bsio/net/http/http_parser.h:656-663 | The hexadecimal text of a number, in small letters or capitals, denotes it |
| HttpFraming.HexDigitsAccepted | include/bsio/net/http/http_parser.h:656-657 | The digits accepted are HEXDIG and, because the table lists 128 entries only, every byte from 128 up, as a zero |
| HttpFraming.ChunkedBodyDelivered | include/bsio/net/http/http_parser.h:2577-2707 | Any list of chunks with extensions, the last chunk, trailers and the blank line give the callbacks of section 4.1 of RFC 7230, and the message is complete on the last byte |
| HttpFraming.ChunkedBodyBytes | include/bsio/net/http/http_parser.h:2577-2707 | The body delivered is the concatenation of the chunks, and there is exactly one message-complete |
| HttpFraming.IdentityBodySegmented | include/bsio/net/http/http_parser.h:2524-2575 | Cut into any pieces, an identity body is delivered whole and the message is complete on its last byte |
| HttpFraming.ChunkedBodySegmented | include/bsio/net/http/http_parser.h:2577-2707 | Cut into any pieces, a chunked body delivers the concatenation of its chunks and one message-complete |
| HttpFraming.ChunkedBodyPending | include/bsio/net/http/http_parser.h:2577-2707 | On every strict part of a chunked body there is neither an error nor a message-complete |
| HttpMessages.SideLine | include/bsio/net/http/http_parser.h:1737-2384 | A header other than Content-Length and Transfer-Encoding, Connection and Upgrade with any value included, is delivered as it is and changes no framing flag |
| HttpMessages.SizedMessage | include/bsio/net/http/http_parser.h:1737-2575 | Any headers with one Content-Length among them, the blank line and that many bytes give the headers, exactly that body, and one message-complete on the last byte |
| HttpMessages.ChunkedMessage | include/bsio/net/http/http_parser.h:1737-2707 | The same for a Transfer-Encoding: chunked header anywhere among the headers, and a chunked body with trailers |
| HttpMessages.SizedMessageSegmented | include/bsio/net/http/http_parser.h:1737-2575 | A message with a Content-Length, from its header lines on, cut into any pieces: all bytes taken, body delivered, completed once |
| HttpMessages.ChunkedMessageSegmented | include/bsio/net/http/http_parser.h:1737-2707 | A chunked message, from its header lines on, cut into any pieces: all bytes taken, the chunks delivered, completed once |
| HttpHeaders.LinesRun | include/bsio/net/http/http_parser.h:1737-2384 | Any list of header lines, plain, Connection, Upgrade, Content-Length and Transfer-Encoding in any order and number, is delivered as it stands, or refused at the line that `ToldAll` names |
| HttpHeaders.SectionFlags | include/bsio/net/http/http_parser.h:1963-2289 | After a header section each flag is set exactly when one of its lines says so |
| HttpHeaders.RefusedExactly | include/bsio/net/http/http_parser.h:1991-2420 | A section is refused if and only if it has a Content-Length above 18446744073709551609, a second one, or one beside chunked |
| HttpHeaders.SectionRun | include/bsio/net/http/http_parser.h:1737-2522 | With the blank line it leads to what section 3.3.3 of RFC 7230 makes of its lines |
| HttpHeaders.OrdinaryOffers | include/bsio/net/http/http_parser.h:2168-2286 | An ordinary list offers exactly the options written in it |
| HttpExchange.RequestHead | include/bsio/net/http/http_parser.h:1405-2522 | A request line with any header lines: refused exactly when the section is unacceptable, otherwise followed by chunks, the announced length, another protocol or nothing; without a body the connection goes on exactly as version, close and keep-alive say |
| HttpExchange.ResponseHead | include/bsio/net/http/http_parser.h:1234-2522 | A status line with any header lines: the same, by the status code; without framing 1xx, 204 and 304 end at the blank line and every other code runs to the end of the connection |
| HttpExchange.NextMessage | include/bsio/net/http/http_parser.h:2773-2793 | After a message without a body the parser waits for the next one exactly when HTTP/1.1 is used without close, or another version with keep-alive |
| HttpExchange.DeadRefuses | include/bsio/net/http/http_parser.h:1180-1189 | On a connection that is over nothing but line ends is taken |
| HttpExchange.BodyToEnd | include/bsio/net/http/http_parser.h:2561-2565 | A body up to the end of the connection is delivered byte for byte |
| HttpExchange.MessageWhole | include/bsio/net/http/http_parser.h:1097-2746 | A first line, any acceptable lines and the body they announce, chunked with trailers or not, are complete on the last byte and not before; they are an upgrade exactly when an Upgrade line and the option upgrade are there, for a response with code 101 |
| HttpLimits.LimitExact | include/bsio/net/http/http_parser.h:588-600 | Bytes that count are accepted exactly as far as the limit goes |
| HttpLimits.RequestTooLong | include/bsio/net/http/http_parser.h:588-600 | The head of a request that is longer than the limit is refused, whatever its lines are |
| HttpLimits.ResponseTooLong | include/bsio/net/http/http_parser.h:588-600 | So is the head of a response |
| HttpUrl.ParsedUrl.Parse | include/bsio/net/http/http_parser.h:3040-3171 | The imperative URL parser computes the specified ranges and port and fails exactly when the specification refuses; its internal asserts hold |
| HttpUrl.ParsedUrl.ScanFields | include/bsio/net/http/http_parser.h:3055-3117 | The URL loop computes the fold over its bytes and stops at the first dead state |
| HttpUrl.ParsedUrl.ParseHost | include/bsio/net/http/http_parser.h:2943-3032 | The host loop splits the host field as the fold does, and fails exactly in the states the source lists |
| HttpUrl.ParsedUrl.ConvertPort | include/bsio/net/http/http_parser.h:3140-3168 | The port loop, in wrapping `unsigned long` arithmetic, fails above 65535 |
| HttpUrl.UrlStates | include/bsio/net/http/http_parser.h:3060-3102 | No other state reaches the loop's default case |
| HttpUrl.ScanInBounds | include/bsio/net/http/http_parser.h:3105-3116 | However long the URL, the 16-bit ranges stay inside it |
| HttpUrlLaws.UrlLoopExactly | include/bsio/net/http/http_parser.h:3055-3117 | For a URL of any length the ranges of the URL loop are the true ones cut to 16 bits, and are the true ones exactly when every true offset and length is below 65536 |
| HttpUrlLaws.TrueRunGood | include/bsio/net/http/http_parser.h:3055-3117 | The true ranges of every URL the loop accepts, of any length, are non-empty, in bounds and in order |
| HttpUrlLaws.LongPathWraps | include/bsio/net/http/http_parser.h:3104-3116 | A path longer than 65535 bytes is accepted, with its length modulo 65536 |
| HttpUrlLaws.ShortFits | include/bsio/net/http/http_parser.h:3104-3116 | A URL of at most 65535 bytes always fits |
| HttpUrlLaws.RangesExactly | include/bsio/net/http/http_parser.h:2943-3171 | For a URL of any length whose characters are accepted, the ranges reported, host part included, are the true ones if and only if every true offset and length, that of the whole authority included, is below 65536 |
| HttpUrlLaws.TrueRangesGood | include/bsio/net/http/http_parser.h:2943-3171 | The true ranges of such a URL are non-empty, in bounds, disjoint and ordered, and the port is made of digits |
| HttpUrlLaws.AcceptedUrl | include/bsio/net/http/http_parser.h:3040-3171 | For every accepted URL that fits, the set ranges are the true ones, so non-empty, in bounds, disjoint and ordered; a scheme has a host, and the port is the decimal value of its digits, at most 65535 |
| HttpUrlLaws.ComposedUrl | include/bsio/net/http/http_parser.h:927-1095 | Parsing a URL composed of scheme, user, host or bracketed address with zone, port, path, query and fragment finds each where it was put (absolute, origin and CONNECT form); a port above 65535 is refused |
| HttpUrlLaws.AuthoritySplit | include/bsio/net/http/http_parser.h:2847-2941 | The host automaton finds user, host and port of every well-formed authority |
| HttpUrlLaws.PortIsDecimal | include/bsio/net/http/http_parser.h:3155-3168 | The port loop gives the decimal value of its digits, or refuses exactly above 65535 |
| HttpFormat.HttpRequest.GetResult | include/bsio/net/http/HttpFormat.hpp:102-137 | The printer yields request line, header lines in key order, blank line and body; the text starts with GET, POST, PUT or DELETE, spelled out, and a blank |
| HttpFormat.PrintedLine | include/bsio/net/http/HttpFormat.hpp:102-137 | Behind the word of the method come target, version, header lines, blank line and body |
| HttpFormat.HttpRequest.AddHeadValue | include/bsio/net/http/HttpFormat.hpp:96-100 | Assignment to the header map: one entry per key, in order, the others as they were |
| HttpFormat.HttpRequest.SetBody | include/bsio/net/http/HttpFormat.hpp:84-94 | The body and the Content-Length that goes with it, which keeps a well-framed request well framed |
| HttpFormat.HttpRequest.constructor | include/bsio/net/http/HttpFormat.hpp:47-50 | A new request is a GET with nothing else |
| HttpFormat.HttpRequest.SetMethod | include/bsio/net/http/HttpFormat.hpp:52-57 | Only methods after HEAD may be set, as the assert demands |
| HttpFormat.DecimalRoundTrip | include/bsio/net/http/HttpFormat.hpp:87-87 | The decimal form of a size has the size as its value |
| HttpFormat.NoLeadingZero | include/bsio/net/http/HttpFormat.hpp:87-87 | The decimal form of a positive number has no leading zero |
| HttpFormat.LessLiterally | include/bsio/net/http/HttpFormat.hpp:127-131 | Header lines are in the order of their names: the first character that differs decides, by its code, and a strict beginning comes first |
| HttpWrapper.HTTPParser.TryParse | include/bsio/net/http/HttpParser.hpp:166-178 | The callbacks of one execute build the message that replaying the joined trace builds; on completion the method and upgrade flags are taken over and the parser is set up anew |
| HttpWrapper.HTTPParser.Notify | include/bsio/net/http/HttpParser.hpp:181-291 | Each callback does to the message what its specification says |
| HttpWrapper.HTTPParser.HeadComplete | include/bsio/net/http/HttpParser.hpp:207-246 | Path and query come out of the parsed URL; a URL without a path is an error |
| HttpWrapper.HTTPParser.ClearParse | include/bsio/net/http/HttpParser.hpp:149-164 | A new message clears the old one |
| HttpWrapper.ReplayJoin | include/bsio/net/http/HttpParser.hpp:248-291 | The message does not depend on how data is split into callbacks |
| HttpWrapper.RefusedStays | include/bsio/net/http/HttpParser.hpp:207-246 | A failed callback is not undone by further input |
| HttpRoundTrip.PrintedRun | include/bsio/net/http/HttpFormat.hpp:102-137 | Parsing a printed request completes exactly at its last byte, not before, with the request's callbacks |
| HttpRoundTrip.RequestReplayed | include/bsio/net/http/HttpParser.hpp:193-291 | Those callbacks build a message with the request's target, path, query, header map and body |
| HttpRoundTrip.PartialRequest | include/bsio/net/http/HttpParser.hpp:166-178 | On every strict part of a printed request there is no error, no failed callback and no completion |
| HttpRoundTrip.Receive | include/bsio/net/http/HttpParser.hpp:166-291 | Feeding a printed request in any segmentation to an idle parser reports no error, completes exactly at the last byte, and leaves the same method, path, query, header map and body |
| HttpRoundTrip.PlainUrl | include/bsio/net/http/HttpFormat.hpp:115-120 | A URL that is a plain path, and a query, are found as path and query |
| HttpRoundTrip.RequestLineRun | include/bsio/net/http/http_parser.h:1405-1735 | The request line of every printable request starts with its word and is accepted, with its target delivered as one run of data |
| HttpRoundTrip.AnyLineRun | include/bsio/net/http/http_parser.h:1405-1735 | So is the request line of any method but CONNECT and M-SEARCH, any target of the URL automaton and any version digits, which are noted |
| HttpReceive.ReceiveWhole | include/bsio/net/http/HttpParser.hpp:166-291 | A text that is complete on its last byte and not before, fed in any pieces to an idle parser, leaves no error, the right number of bytes taken and the message that its callbacks make |
| HttpExchange.RequestWhole | include/bsio/net/http/HttpParser.hpp:166-291 | A request with any method, origin-form target, version, acceptable header lines, body and trailers is such a text, and its callbacks rebuild target, path, query, header map and body |
| HttpExchange.ReceiveRequest | include/bsio/net/http/HttpParser.hpp:166-291 | In any segmentation it completes exactly at its last byte with its method, path, query, headers and body; mIsUpgrade exactly when an Upgrade line and the option upgrade are there, mIsWebSocket when that header is websocket |
| HttpExchange.ReceiveResponse | include/bsio/net/http/HttpParser.hpp:166-291 | In any segmentation a response with a body that is announced completes exactly at its last byte, with its reason phrase, headers and body |
| HttpExchange.ResponseToEnd | include/bsio/net/http/HttpParser.hpp:166-291 | A response without framing delivers every byte that follows as its body, and is complete when the connection ends |
| HttpExamples.ReceiveUpgrade | include/bsio/net/http/HttpParser.hpp:166-291 | The request `GET /chat` with `Upgrade: websocket` and `Connection: Upgrade`, byte by byte, ends as an upgrade to WebSocket, in any segmentation |
| HttpExamples.ReceiveNoContent | include/bsio/net/http/http_parser.h:2748-2771 | The response `HTTP/1.1 204 No Content` ends with its blank line |
| HttpExamples.ReceiveUpload | include/bsio/net/http/http_parser.h:2577-2707 | A chunked POST with `transfer-encoding: Chunked` and the chunk size `a` gives a body of ten bytes |
| HttpExamples.BodilessCodes | include/bsio/net/http/http_parser.h:2748-2771 | Without header lines exactly 1xx, 204 and 304, by their three digits, have no body |
| WebSocketFormat.BuildFrame | include/bsio/net/http/WebSocketFormat.hpp:51-117 | The frame builder writes the encoding of section 5.2 of RFC 6455 |
| WebSocketFormat.ExtractFrame | include/bsio/net/http/WebSocketFormat.hpp:133-223 | The frame reader succeeds exactly when the specification finds a frame, appends its payload and gives opcode, final flag and size; its 32-bit sums do not wrap |
| WebSocketFormat.FrameRoundTrip | include/bsio/net/http/WebSocketFormat.hpp:51-223 | For any opcode, final flag, mask and following bytes, extracting from a built frame gives the frame and its exact size if and only if the payload is below 2^31 bytes |
| WebSocketFormat.PrefixRefused | include/bsio/net/http/WebSocketFormat.hpp:133-223 | Every strict prefix of a frame is refused |
| WebSocketFormat.AppendStable | include/bsio/net/http/WebSocketFormat.hpp:133-223 | A successful extract is unchanged by appended bytes |
| WebSocketFormat.Reencoded | include/bsio/net/http/WebSocketFormat.hpp:149-190 | The reader ignores reserved bits and takes longer length forms; an extracted frame is the bytes the builder would write exactly when neither occurs |
| WebSocketFormat.HelloWritten | include/bsio/net/http/WebSocketFormat.hpp:51-117 | The examples of section 5.7 of RFC 6455: a text message, and the same in two fragments |
| WebSocketFormat.HelloMasked | include/bsio/net/http/WebSocketFormat.hpp:51-117 | The masked example of that section |
| WebSocketFormat.LongHeads | include/bsio/net/http/WebSocketFormat.hpp:51-117 | Its heads of 256 bytes and 64 KiB |
| WebSocketDelivery.WebSocketReader.ProcessWebSocket | include/bsio/net/http/HttpService.hpp:112-178 | The frame loop takes the whole frames at the start of the buffer and returns their length |
| WebSocketDelivery.PumpAppend | include/bsio/net/http/HttpService.hpp:112-178 | Processing what has arrived, and later the unread tail with what arrives then, is processing it all at once |
| WebSocketDelivery.Feed | include/bsio/net/http/HttpService.hpp:112-178 | Over any segmentation with the tail kept, the callbacks are those of the whole stream |
| WebSocketDelivery.StreamDelivered | include/bsio/net/http/HttpService.hpp:143-174 | Each control frame and each whole message comes once, in order of final frames, with the first fragment's opcode and the joined payload (section 5.4 of RFC 6455) |
| WebSocketDelivery.FramesPumped | include/bsio/net/http/HttpService.hpp:121-175 | Encoded frames are all taken, in order |
| WebSocketDelivery.ReceiveStream | include/bsio/net/http/HttpService.hpp:112-178 | Messages in any fragments with control frames between them, built by the frame builder and received in any segmentation, are delivered exactly, and nothing is left over |
| Sha1.CSHA1.Transform | include/bsio/base/crypto/SHA1.hpp:478-577 | The unrolled rounds over the circular 16-word schedule are the 80-round compression of section 6.1.2 of FIPS 180-4 |
| Sha1.CSHA1.R0 | include/bsio/base/crypto/SHA1.hpp:233-248 | The first macro is a round, with the registers renamed and the block word swapped in place |
| Sha1.CSHA1.R1 | include/bsio/base/crypto/SHA1.hpp:239-253 | The macro of rounds 16 to 19, on the running schedule |
| Sha1.CSHA1.R2 | include/bsio/base/crypto/SHA1.hpp:254-258 | The macro of rounds 20 to 39 |
| Sha1.CSHA1.R3 | include/bsio/base/crypto/SHA1.hpp:259-263 | The macro of rounds 40 to 59 |
| Sha1.CSHA1.R4 | include/bsio/base/crypto/SHA1.hpp:264-268 | The macro of rounds 60 to 79 |
| Sha1.SlideWindow | include/bsio/base/crypto/SHA1.hpp:239-241 | The circular schedule word is the next word of the 80-word schedule, and the window slides on |
| Sha1.SwapWindow | include/bsio/base/crypto/SHA1.hpp:233-234 | The little-endian word with its bytes swapped is the big-endian word of the standard |
| Sha1.RewrittenForms | include/bsio/base/crypto/SHA1.hpp:244-263 | The rewritten choice and majority forms are Ch and Maj |
| Sha1.CSHA1.Update | include/bsio/base/crypto/SHA1.hpp:315-341 | Taking in bytes keeps count, buffer and state those of the longer message |
| Sha1.CarryIsExact | include/bsio/base/crypto/SHA1.hpp:319-322 | The two count words hold the bit count modulo 2^64, carry included |
| Sha1.CSHA1.Finish | include/bsio/base/crypto/SHA1.hpp:384-400 | The padding of section 5.1.1, with a loop that terminates after exactly the right number of zero bytes |
| Sha1.CSHA1.Final | include/bsio/base/crypto/SHA1.hpp:384-415 | The digest is the SHA-1 of everything taken in; afterwards the variables are wiped |
| Sha1.CSHA1.Reset | include/bsio/base/crypto/SHA1.hpp:301-312 | The initial value of section 5.3.1 and a zero count |
| Sha1.HashPieces | include/bsio/base/crypto/SHA1.hpp:301-415 | For any list of updates the digest is FIPS 180-4 SHA-1 of their concatenation |
| Sha1.PaddingStop | include/bsio/base/crypto/SHA1.hpp:397-398 | The loop stops exactly after the zero bytes of the standard |
| Base64.Encode | include/bsio/base/crypto/Base64.hpp:18-60 | The encoder computes the grouped definition of section 4 of RFC 4648, padding included |
| Base64.Decode | include/bsio/base/crypto/Base64.hpp:62-106 | The decoder computes the bytes of the leading alphabet characters |
| Base64.RoundTrip | include/bsio/base/crypto/Base64.hpp:18-106 | Decoding an encoding gives every byte string back |
| Base64.EncodingLength | include/bsio/base/crypto/Base64.hpp:18-60 | The encoded length is 4*ceil(n/3) |
| Base64.EncodeThenDecode | include/bsio/base/crypto/Base64.hpp:18-106 | The two methods, one after the other, return the input |
| Base64.FindIsPosition | include/bsio/base/crypto/Base64.hpp:7-16 | Every alphabet character is recognised and found at its position |
| Base64.Regroup | include/bsio/base/crypto/Base64.hpp:33-36 | The shifts and masks are the four sextets of a 24-bit group |
| WebSocketHandshake.Handshake | include/bsio/net/http/WebSocketFormat.hpp:27-49 | The response carries the Base64 form of the SHA-1 of key and GUID |
| WebSocketHandshake.AcceptDecodes | include/bsio/net/http/WebSocketFormat.hpp:27-49 | The accept value has 28 characters and decodes to the digest |
| WebSocketSample.AcceptOfSample | include/bsio/net/http/WebSocketFormat.hpp:27-49 | For the key of section 1.3 of RFC 6455 the accept value is the one given there, through padding, both blocks of 80 rounds and Base64 |
| TcpSend.SendSafety | include/bsio/net/TcpSession.hpp:140-356 | In every interleaving: messages sent, in lock order, are completed, then in flight, then pending; at most one write, of exactly the list in flight; the size counter is exact; pending messages without a write have somebody who owes a flush |
| TcpSend.StepHistory | include/bsio/net/TcpSession.hpp:332-356 | Callbacks run once each, on the next message in order; the list in flight does not change during a write; the counter does not underflow |
| TcpSend.NoLostWakeup | include/bsio/net/TcpSession.hpp:146-165 | When nobody owes anything and no write failed, everything sent has been completed and the counter is zero |
| TcpSend.Drains | include/bsio/net/TcpSession.hpp:299-356 | From every reachable state without an error the steps that are owed lead to rest with everything completed |
| TcpSend.StepsCloser | include/bsio/net/TcpSession.hpp:299-356 | Every step but a send lowers the measure, so the session comes to rest when sending stops |
| TcpSend.InvStep | include/bsio/net/TcpSession.hpp:140-356 | Every step of every thread keeps the invariant |
| TcpSend.RunInv | include/bsio/net/TcpSession.hpp:140-356 | The invariant holds over all runs |
| TcpSend.SendSide.SendLocked | include/bsio/net/TcpSession.hpp:146-163 | The lock region of send: appended and counted, high water noticed, and a flush owed exactly when nothing is being sent |
| TcpSend.SendSide.TryFlushLocked | include/bsio/net/TcpSession.hpp:299-314 | The lock region of tryFlush: the lists are swapped at most once |
| TcpSend.SendSide.FlushBatch | include/bsio/net/TcpSession.hpp:316-330 | The buffers are those of the batch, in order |
| TcpSend.SendSide.OnSendCompleted | include/bsio/net/TcpSession.hpp:332-356 | From the outstanding write on. Without an error, with sends at any point between the callbacks, the batch is completed in order, what was sent meanwhile is pending, and the session is free, owing a flush. With an error the batch stays, no callback runs, and the session stays busy |
| TcpReceive.ReceiveSide.StartAsyncRecv | include/bsio/net/TcpSession.hpp:236-267 | A receive is posted at the put offset with room up to the bound; length_error is never thrown; the room is zero exactly when unread bytes fill the bound and it is the maximum or the increment is zero |
| TcpReceive.ReceiveSide.Adjust | include/bsio/net/TcpSession.hpp:210-229 | Growing, moving or resetting leaves room behind the receive position, unless the unread bytes fill the bound and it does not grow |
| TcpReceive.ReceiveSide.Grow | include/bsio/net/TcpSession.hpp:189-202 | Growth keeps the unread bytes and raises the bound |
| TcpReceive.ReceiveSide.Move | include/bsio/net/TcpSession.hpp:204-208 | Compacting keeps the unread bytes and puts the receive position behind them |
| TcpReceive.ReceiveSide.OnRecvCompleted | include/bsio/net/TcpSession.hpp:269-297 | One completion: the bytes arrive behind the unread ones, the handler consumes exactly the prefix its reader saved, and a pending shrink adds exactly its surplus; a receive is posted again unless unread bytes fill a bound that is the maximum or does not grow |
| TcpReceive.ReceiveSide.TryProcess | include/bsio/net/TcpSession.hpp:358-380 | The handler consumes a prefix of what it sees, never more |
| TcpReceive.ReceiveSide.DoShrink | include/bsio/net/TcpSession.hpp:391-403 | A shrink keeps the unread bytes and appends min(n, 128-n) zero bytes when there are fewer than 128; the contents are the same if and only if n is 0 or at least 128 |
| ReceiveQueue.SurplusExactly | include/bsio/net/TcpSession.hpp:382-403 | The zero bytes of a shrink behind n unread ones: n up to 64, what is missing to 128 above, none from 128 on |
| TcpReceive.ReceiveSide.Handle | include/bsio/net/TcpSession.hpp:189-403 | Every event on the executor does to queue, posted receive, room and bound what the transition relation says; a completion is taken exactly when a receive is posted with room for it |
| TcpReceive.ReceiveSide.Run | include/bsio/net/TcpSession.hpp:189-403 | Over all runs the receive position is the put offset and the put area is within the bound; the bytes received are those the completions brought, in order; the bytes consumed and visible are exactly what was put into the queue; and they are the bytes received if and only if no shrink of the run met 1 to 127 unread bytes |
| ReceiveQueue.QueueExact | include/bsio/net/TcpSession.hpp:269-403 | Over every trace: received = received before + what the completions brought; consumed ++ visible = the same before + those bytes with the zero bytes of each shrink where it happened |
| ReceiveQueue.StreamIncomings | include/bsio/net/TcpSession.hpp:382-403 | What is put into the queue is what was received if and only if no shrink is rough; otherwise it is longer |
| ReceiveQueue.FaithfulExactly | include/bsio/net/TcpSession.hpp:269-403 | A faithful queue stays faithful over a run if and only if no shrink meets 1 to 127 unread bytes |
| ReceiveQueue.NoShrinkFaithful | include/bsio/net/TcpSession.hpp:269-380 | Without shrink requests every run keeps received = consumed ++ visible |
| ReceiveQueue.CursorInView | include/bsio/base/Packet.hpp:268-331 | Whatever operations a handler performs, its reader saves no position beyond the view |
| ReceiveQueue.LastSave | include/bsio/base/Packet.hpp:268-331 | What a handler consumes is the position at its last save, everything after a consume-all, and nothing without either |
| ReceiveQueue.ReadsConsume | include/bsio/base/Packet.hpp:268-331 | Reads that fit and a save consume exactly the bytes read; a read that does not fit adds nothing |
| ReceiveQueue.MovesBack | include/bsio/base/Packet.hpp:268-331 | Moving by a wrapping `size_t` goes back or forth within the view |
| TcpReceive.PacketReader.DoAll | include/bsio/base/Packet.hpp:268-331 | The reader does exactly what its operations say, throwing ones included, and saves a position within the view |
| StreamBuf.StreamBuffer.Reserve | dep/asio-1-16-1/asio/include/asio/basic_streambuf.hpp:308-346 | Room is made without changing the contents, or length_error is thrown, exactly when it must be |
| StreamBuf.StreamBuffer.Resize | dep/asio-1-16-1/asio/include/asio/basic_streambuf.hpp:331-332 | A larger vector keeps its elements, zeroes the new ones and moves only when they do not fit |
| StreamBuf.StreamBuffer.Commit | dep/asio-1-16-1/asio/include/asio/basic_streambuf.hpp:233-238 | The put pointer moves by at most the put area |
| StreamBuf.StreamBuffer.Consume | dep/asio-1-16-1/asio/include/asio/basic_streambuf.hpp:247-254 | A prefix of the contents goes, at most all of it |
| StreamBuf.StreamBuffer.constructor | dep/asio-1-16-1/asio/include/asio/basic_streambuf.hpp:131-141 | An empty buffer of zero bytes with a put area of at most 128 |
| BuffersIterator.BufferCursor.Advance | dep/asio-1-16-1/asio/include/asio/buffers_iterator.hpp:407-485 | Advancing by n, forward or back, terminates and equals n single steps |
| BuffersIterator.BufferCursor.Increment | dep/asio-1-16-1/asio/include/asio/buffers_iterator.hpp:354-374 | The cursor goes to the next byte, past empty buffers |
| BuffersIterator.BufferCursor.Decrement | dep/asio-1-16-1/asio/include/asio/buffers_iterator.hpp:377-404 | The cursor goes to the byte before, past empty buffers, and finds it |
| BuffersIterator.BufferCursor.Begin | dep/asio-1-16-1/asio/include/asio/buffers_iterator.hpp:167-184 | The first byte, or the end |
| BuffersIterator.BufferCursor.End | dep/asio-1-16-1/asio/include/asio/buffers_iterator.hpp:187-203 | The position behind the last byte |
| BuffersIterator.BufferCursor.Dereference | dep/asio-1-16-1/asio/include/asio/buffers_iterator.hpp:341-345 | The byte is the flat byte at the position |
| BuffersIterator.BufferCursor.At | dep/asio-1-16-1/asio/include/asio/buffers_iterator.hpp:218-223 | Indexed access is access to the flat sequence |
| BuffersIterator.BufferCursor.DistanceTo | dep/asio-1-16-1/asio/include/asio/buffers_iterator.hpp:488-491 | The distance is the number of single steps |
| BuffersIterator.CanonicalUnique | dep/asio-1-16-1/asio/include/asio/buffers_iterator.hpp:348-351 | A position has only one cursor, so comparing positions compares iterators |
| BuffersIterator.FlatAt | dep/asio-1-16-1/asio/include/asio/buffers_iterator.hpp:341-345 | Position = bytes before the current buffer + offset |

## Left out

- `HTTP_BOTH`, pausing, callbacks that return an error, `lenient_http_headers`: extra branches. Every parser callback returns 0; only the URL check of `HTTPParser` can fail, see the next line.
- HttpWrapper.HTTPParser.TryParse: after a head whose URL is refused it states only the failure, because the parser's callbacks are modelled as returning 0; the source stops at that byte with a callback error.
- Trailers other than plain fields in a chunked body, and header names that occur twice in one message, whose values the source runs together.
- `nread` is a 32-bit counter, so one call is limited to fewer than 2^32 bytes together with the header limit (a `requires` of `Execute`).
- On malformed input the data callbacks already made depend on segmentation; only the error itself is proved independent of it.
- Status codes seen from inside a callback, error descriptions, and the order of callbacks relative to parser fields: callbacks do not read the parser, except `sStatusHandle`, whose status code is left out.
- `HttpService::ProcessHttp` and message-to-message reset: the internal header that calls `ProcessHttp` is not part of this model.
- `HTTPParser::tryParse` with no bytes, and several messages in one buffer: `sMessageBegin` clears the message before.
- Request lines of Icecast's SOURCE with the protocol name ICE.
- `HttpResponse` printing, and the query-string builder: easy members.
- CONNECT through `HTTPParser`, which always passes `is_connect` = 0; `ParsedUrl.Parse` itself covers it.
- The order of `std::map` keys is taken as lexicographic by character; the insertion loop stands for the tree.
- `base64_encode` and `base64_decode` on 2^31 bytes and more, where `int` counters overflow; the decoder's in-place reuse of its four-byte array is two arrays here.
- SHA-1 on a big-endian machine, file hashing and hash reports; messages of 2^61 bytes and more, which FIPS 180-4 excludes.
- The source of the random mask: it is a parameter.
- Sockets, timers, threads, the executor and `close`: only their contracts, as steps of `TcpSend` and events of `TcpReceive`. Sending on a closed socket is refused before the lock and is not a step.
- The value of `tanh`: the growth increment is any number, and nothing is claimed about progress when it is 0.
- `streambuf` beyond what the session uses: `underflow`, `overflow` and `egptr`; `int` truncation in `pbump` and `gbump`.
- `BasePacketWriter` and the typed reads of `BasePacketReader`: used only to bound what is consumed.
- `TcpConnector`, `WaitGroup`, acceptors, builders, examples: plumbing.
