/** Whole messages, from the header lines to the last byte of the body: one framing header among any others, the blank
    line and the body it announces. */
module HttpMessages {
  import opened HttpTypes
  import opened HttpAutomaton
  import opened HttpBulk
  import opened HttpNames
  import opened HttpFields
  import opened HttpFraming
  import opened HttpSegmentation
  import opened Sequences

  // ---------- headers without a meaning to the framing ----------

  /** A header other than Content-Length and Transfer-Encoding: Connection, Proxy-Connection, Upgrade or a plain one. */
  predicate IsSideField(f: Field) {
    IsName(f.name) && IsSideClass(NameClass(LowerName(f.name))) && IsValue(f.value)
  }

  predicate IsSideClass(h: HeaderState) { h == General || h == Connection || h == Upgrade }

  /** The flags agree but for those that the Connection and Upgrade headers set. */
  predicate SideFlags(f: Flags, g: Flags) {
    g == f.(keepAlive := g.keepAlive, close := g.close, connectionUpgrade := g.connectionUpgrade, upgrade := g.upgrade)
  }

  /** The parsers of two header-line starts agree but for the name matcher, the byte count and those flags. */
  predicate SameFraming(p: Parser, q: Parser, nread: nat) {
    p == q.(headerState := p.headerState, index := p.index, nread := nread, flags := p.flags)
      && SideFlags(q.flags, p.flags)
  }

  /** The value matchers of a Connection header, and none at all. */
  predicate SideState(h: HeaderState) {
    h == General || h == Connection || h == MatchingConnectionTokenStart || h == MatchingConnectionToken
    || h == MatchingConnectionKeepAlive || h == MatchingConnectionClose || h == MatchingConnectionUpgrade
    || h == ConnectionKeepAlive || h == ConnectionClose || h == ConnectionUpgrade
  }

  /** A Connection value changes no other flag, and no value of it is refused. */
  predicate SideValue(v: ValueState, w: ValueState) {
    SideState(w.headerState) && w.contentLength == v.contentLength && SideFlags(v.flags, w.flags)
  }

  lemma SideByte(v: ValueState, ch: char)
    requires SideState(v.headerState)
    ensures ValueByte(v, ch).Some? && SideValue(v, ValueByte(v, ch).value)
  {
    hide Lower, IsToken;
  }

  lemma SideTrans(u: ValueState, v: ValueState, w: ValueState)
    requires SideValue(u, v) && SideValue(v, w)
    ensures SideValue(u, w)
  {}

  lemma {:induction false} SideFold(v: ValueState, bs: seq<char>)
    requires SideState(v.headerState) && AllHeaderChars(bs)
    ensures ValueFold(v, bs).Some? && SideValue(v, ValueFold(v, bs).value)
  {
    hide ValueByte, IsHeaderChar, SideFlags;
    if bs == [] {
      SideRefl(v);
    } else {
      var init := bs[..|bs| - 1];
      SideFold(v, init);
      var u := ValueFold(v, init).value;
      SideByte(u, bs[|bs| - 1]);
      SideTrans(v, u, ValueByte(u, bs[|bs| - 1]).value);
    }
  }

  lemma SideRefl(v: ValueState)
    requires SideState(v.headerState)
    ensures SideValue(v, v)
  {}

  /** The name of a side header leaves the matcher in a state whose values change no framing flag. */
  predicate SideName(h: HeaderState) {
    IsSideClass(if Framing(h) then h else General) && h != ContentLengthWs && h != MatchingConnectionTokenStart
    && FinishValue(NO_FLAGS, h) == NO_FLAGS
  }

  lemma SideNameState(k: seq<char>)
    requires k != [] && IsSideClass(NameClass(LowerName(k)))
    ensures SideName(NameState(k).0)
  {
    NameMatchedExactly(k);
    FoldTracks(k);
    hide LowerName, NameState;
  }

  lemma SideFirst(p: Parser, ch: char)
    requires SideName(p.headerState)
    ensures var o := FirstValueByte(p, ch);
            && o.Consumed? && o.p.state == HeaderValue && SideState(o.p.headerState) && SideFlags(p.flags, o.p.flags)
            && o.p == p.(state := HeaderValue, index := 0, headerState := o.p.headerState, flags := o.p.flags)
  {
    hide Lower;
  }

  lemma SideFinish(f: Flags, h: HeaderState)
    requires SideState(h)
    ensures SideFlags(f, FinishValue(f, h))
  {}

  lemma SideFlagsTrans(f: Flags, g: Flags, h: Flags)
    requires SideFlags(f, g) && SideFlags(g, h)
    ensures SideFlags(f, h)
  {}

  lemma SideFullValue(max: nat, a: Config, v: seq<char>) returns (d: Config)
    requires a.p.state == HeaderValueDiscardWs && v != [] && IsValue(v) && a.p.nread + |v| + 3 <= max
    requires SideName(a.p.headerState)
    ensures RunOn(max, Going(a), [' '] + (v + CRLF)) == Going(d) && AtLine(d) && d.n == a.n + |v| + 3
    ensures Settle(d).t == Push(a.t, Data(ValueData, v))
    ensures SameFraming(Settle(d).p, a.p.(state := HeaderFieldStart), a.p.nread + |v| + 3)
  {
    hide RunOn, FinishValue, Push, ValueFold, FirstValueByte, IsHeaderChar, SideFlags, SideName, SideState,
      AfterValue, Settle, AtLine;
    var b := a.p.(nread := a.p.nread + 2);
    SideFirst(b, v[0]);
    var q := FirstValueByte(b, v[0]).p;
    SideFold(ValueOf(q), v[1..]);
    var w := ValueFold(ValueOf(q), v[1..]).value;
    ValueLineRun(max, a, v, q, w);
    d := AfterValue(a, q, w, v);
    ValueSettled(a, q, w, v);
    SideFinish(w.flags, w.headerState);
    SideFlagsTrans(a.p.flags, q.flags, w.flags);
    SideFlagsTrans(a.p.flags, w.flags, FinishValue(w.flags, w.headerState));
  }

  lemma SideEmptyValue(max: nat, a: Config) returns (d: Config)
    requires a.p.state == HeaderValueDiscardWs && a.p.nread + 3 <= max && SideName(a.p.headerState)
    ensures RunOn(max, Going(a), [' '] + ([] + CRLF)) == Going(d) && AtLine(d) && d.n == a.n + 3
    ensures Settle(d).t == Push(a.t, Data(ValueData, []))
    ensures SameFraming(Settle(d).p, a.p.(state := HeaderFieldStart), a.p.nread + 3)
  {
    hide RunOn, Push;
    EmptyLineRun(max, a);
    d := Config(a.p.(state := HeaderValueDiscardLws, nread := a.p.nread + 3), a.t, a.n + 3);
  }

  /** A header that is not a framing one is delivered as it stands, whatever its value, and changes no flag but those of
      the Connection and Upgrade headers. */
  lemma SideLine(max: nat, c: Config, f: Field) returns (d: Config)
    requires AtLine(c) && IsSideField(f) && c.p.nread + |FieldLine(f.name, f.value)| <= max
    ensures RunOn(max, Going(c), FieldLine(f.name, f.value)) == Going(d) && AtLine(d)
    ensures Settle(d).t == Push(Push(Settle(c).t, Data(FieldData, f.name)), Data(ValueData, f.value))
    ensures SameFraming(Settle(d).p, Settle(c).p, c.p.nread + |FieldLine(f.name, f.value)|)
    ensures d.n == c.n + |FieldLine(f.name, f.value)|
  {
    hide RunOn, Settle, AllTokens, IsValue, NameState, NameClass, LowerName, Push, AtLine, SideName, IsSideClass,
      SideFlags;
    LineStarts(max, c, f.name, f.value);
    SettleKeeps(c);
    SideNameState(f.name);
    var a := AfterName(Settle(c), f.name);
    if f.value == [] { d := SideEmptyValue(max, a); } else { d := SideFullValue(max, a, f.value); }
  }

  lemma SameFramingTrans(p: Parser, q: Parser, r: Parser, m: nat, n: nat)
    requires SameFraming(q, p, m) && SameFraming(r, q, n)
    ensures SameFraming(r, p, n)
  {}

  lemma SameFramingRefl(p: Parser)
    ensures SameFraming(p, p, p.nread)
  {}

  lemma CountOf(d: Config, p: Parser, nread: nat)
    requires AtLine(d) && SameFraming(Settle(d).p, p, nread)
    ensures d.p.nread == nread
  {
    hide FinishValue, Push;
  }

  /** Any number of such headers. */
  lemma {:induction false} SideLines(max: nat, c: Config, fs: seq<Field>) returns (d: Config)
    requires AtLine(c) && forall i :: 0 <= i < |fs| ==> IsSideField(fs[i])
    requires c.p.nread + |FieldLines(fs)| <= max
    ensures RunOn(max, Going(c), FieldLines(fs)) == Going(d) && AtLine(d)
    ensures Settle(d).t == FieldTrace(Settle(c).t, fs) && d.n == c.n + |FieldLines(fs)|
    ensures SameFraming(Settle(d).p, Settle(c).p, c.p.nread + |FieldLines(fs)|)
  {
    hide RunOn, Push, IsSideField, FieldLine, Settle, SameFraming, AtLine;
    if fs == [] {
      RunNone(max, Going(c));
      SettleKeeps(c);
      SameFramingRefl(Settle(c).p);
      d := c;
    } else {
      var init, f := fs[..|fs| - 1], fs[|fs| - 1];
      var e := SideLines(max, c, init);
      CountOf(e, Settle(c).p, c.p.nread + |FieldLines(init)|);
      RunAppend(max, Going(c), FieldLines(init), FieldLine(f.name, f.value));
      d := SideLine(max, e, f);
      SameFramingTrans(Settle(c).p, Settle(e).p, Settle(d).p, e.p.nread, c.p.nread + |FieldLines(fs)|);
    }
  }

  // ---------- the framing header ----------

  /** A Content-Length of `n`, or `Transfer-Encoding: chunked`. */
  datatype Announcement = Sized(digits: seq<char>) | Coded(coding: seq<char>)

  predicate IsAnnouncement(name: seq<char>, a: Announcement) {
    IsName(name) &&
    match a
    case Sized(digits) =>
      NameClass(LowerName(name)) == ContentLength && digits != [] && AllDigits(digits)
        && DecValue(digits) <= MAX_CONTENT_LENGTH
    case Coded(coding) => NameClass(LowerName(name)) == TransferEncoding && IsChunkedValue(coding)
  }

  function Text(a: Announcement): seq<char> { match a case Sized(digits) => digits case Coded(coding) => coding }

  /** What the header tells the parser. */
  function Told(p: Parser, a: Announcement): Parser {
    match a
    case Sized(digits) => p.(flags := p.flags.(contentLength := true), contentLength := DecValue(digits))
    case Coded(_) => p.(flags := p.flags.(chunked := true))
  }

  lemma AnnouncementLine(max: nat, c: Config, name: seq<char>, a: Announcement) returns (d: Config)
    requires AtLine(c) && IsAnnouncement(name, a) && c.p.nread + |FieldLine(name, Text(a))| <= max
    requires !Settle(c).p.flags.contentLength
    ensures RunOn(max, Going(c), FieldLine(name, Text(a))) == Going(d) && AtLine(d)
    ensures Settle(d).t == Push(Push(Settle(c).t, Data(FieldData, name)), Data(ValueData, Text(a)))
    ensures SameBut(Settle(d).p, Told(Settle(c).p, a), c.p.nread + |FieldLine(name, Text(a))|)
    ensures d.n == c.n + |FieldLine(name, Text(a))|
  {
    hide RunOn, Settle, IsName, NameClass, LowerName, Push, AtLine, DecValue, AllDigits, IsChunkedValue, FieldLine;
    match a
    case Sized(digits) => d := LengthLine(max, c, name, digits);
    case Coded(coding) => d := ChunkedLine(max, c, name, coding);
  }

  /** The header section of a message with one framing header, in any place. */
  datatype Head = Head(before: seq<Field>, name: seq<char>, a: Announcement, after: seq<Field>)

  predicate IsHead(h: Head) {
    IsAnnouncement(h.name, h.a)
    && (forall i :: 0 <= i < |h.before| ==> IsSideField(h.before[i]))
    && (forall i :: 0 <= i < |h.after| ==> IsSideField(h.after[i]))
  }

  function Lines(h: Head): seq<char> {
    FieldLines(h.before) + (FieldLine(h.name, Text(h.a)) + FieldLines(h.after))
  }

  function HeadLines(h: Head): seq<char> { Lines(h) + CRLF }

  /** The callbacks of the header section. */
  function LinesTrace(t: seq<Event>, h: Head): seq<Event> {
    FieldTrace(Push(Push(FieldTrace(t, h.before), Data(FieldData, h.name)), Data(ValueData, Text(h.a))), h.after)
  }

  lemma HeadLinesRun(max: nat, c: Config, h: Head) returns (d: Config)
    requires AtLine(c) && IsHead(h) && c.p.nread + |Lines(h)| <= max && !Settle(c).p.flags.contentLength
    ensures RunOn(max, Going(c), Lines(h)) == Going(d) && AtLine(d)
    ensures Settle(d).t == LinesTrace(Settle(c).t, h) && d.n == c.n + |Lines(h)| && d.p.nread == c.p.nread + |Lines(h)|
    ensures SameFraming(Settle(d).p, Told(Settle(c).p, h.a), c.p.nread + |Lines(h)|)
  {
    hide RunOn, Settle, Push, AtLine, FieldLine, FieldLines, FieldTrace, IsSideField, IsAnnouncement, SameFraming;
    var line := FieldLine(h.name, Text(h.a));
    var a := SideLines(max, c, h.before);
    CountOf(a, Settle(c).p, c.p.nread + |FieldLines(h.before)|);
    LengthUnseen(Settle(c).p, Settle(a).p, a.p.nread);
    var b := AnnouncementLine(max, a, h.name, h.a);
    ToldFraming(Settle(c).p, Settle(a).p, Settle(b).p, h.a, a.p.nread, a.p.nread + |line|);
    CountOf(b, Told(Settle(c).p, h.a), a.p.nread + |line|);
    d := SideLines(max, b, h.after);
    RunAppend(max, Going(c), FieldLines(h.before), line + FieldLines(h.after));
    RunAppend(max, Going(a), line, FieldLines(h.after));
    SameFramingTrans(Told(Settle(c).p, h.a), Settle(b).p, Settle(d).p, b.p.nread, b.p.nread + |FieldLines(h.after)|);
    CountOf(d, Told(Settle(c).p, h.a), b.p.nread + |FieldLines(h.after)|);
  }

  lemma LengthUnseen(p: Parser, q: Parser, nread: nat)
    requires SameFraming(q, p, nread) && !p.flags.contentLength
    ensures !q.flags.contentLength
  {}

  lemma ToldFraming(p: Parser, q: Parser, r: Parser, a: Announcement, m: nat, n: nat)
    requires SameFraming(q, p, m) && SameBut(r, Told(q, a), n)
    ensures SameFraming(r, Told(p, a), n)
  {
    hide DecValue;
  }

  // ---------- the body ----------

  /** Nothing is known of the framing yet, and the request is not a CONNECT. */
  predicate Fresh(p: Parser) {
    && !p.flags.chunked && !p.flags.contentLength && !p.flags.trailing && !p.flags.skipBody && p.verb != CONNECT
    && p.contentLength == ULLONG_MAX
  }

  /** The body that a header announces is the body the parser expects. */
  lemma ExpectedBody(p: Parser, q: Parser, a: Announcement, nread: nat)
    requires Fresh(p) && SameFraming(q, Told(p, a), nread)
    requires a.Sized? ==> AllDigits(a.digits) && DecValue(a.digits) <= MAX_CONTENT_LENGTH
    ensures !q.flags.trailing && !(q.flags.chunked && q.flags.contentLength) && 0 <= q.contentLength <= ULLONG_MAX
    ensures a.Coded? ==> BodyFraming(q) == Chunks
    ensures a.Sized? && DecValue(a.digits) > 0 ==> BodyFraming(q) == Length(DecValue(a.digits))
    ensures a.Sized? && DecValue(a.digits) == 0 ==> BodyFraming(q) == if UpgradeOf(q) then Tunnel else NoBody
  {
    hide DecValue, AllDigits, UpgradeOf;
    if a.Sized? { DecValueNonNegative(a.digits); }
    assert UpgradeOf(q) && q.verb == CONNECT ==> false;
  }

  /** From the header lines to the body. */
  lemma HeadRun(max: nat, c: Config, h: Head) returns (p: Parser)
    requires AtLine(c) && Fresh(Settle(c).p) && IsHead(h) && c.p.nread + |HeadLines(h)| <= max
    ensures RunOn(max, Going(c), HeadLines(h)) == AfterHead(p, LinesTrace(Settle(c).t, h), c.n + |HeadLines(h)|)
    ensures SameFraming(p, Told(Settle(c).p, h.a), c.p.nread + |Lines(h)|)
    ensures h.a.Coded? ==> BodyFraming(p) == Chunks
    ensures h.a.Sized? && DecValue(h.a.digits) > 0 ==> BodyFraming(p) == Length(DecValue(h.a.digits))
    ensures h.a.Sized? && DecValue(h.a.digits) == 0 ==> BodyFraming(p) == if UpgradeOf(p) then Tunnel else NoBody
  {
    hide RunOn, Settle, Push, AtLine, AfterHead, Lines, LinesTrace, DecValue, AllDigits, SameFraming, BodyFraming,
      UpgradeOf;
    var d := HeadLinesRun(max, c, h);
    ExpectedBody(Settle(c).p, Settle(d).p, h.a, c.p.nread + |Lines(h)|);
    HeadEnd(max, d);
    RunAppend(max, Going(c), Lines(h), CRLF);
    p := Settle(d).p;
  }

  /** A message whose header announces `|body|` bytes delivers its headers and exactly those bytes, and is complete,
      once, on the last of them; Connection and Upgrade headers may be among the headers. */
  lemma SizedMessage(max: nat, c: Config, h: Head, body: seq<char>) returns (q: Parser)
    requires AtLine(c) && Fresh(Settle(c).p) && IsHead(h) && c.p.nread + |HeadLines(h)| <= max
    requires h.a.Sized? && DecValue(h.a.digits) == |body|
    ensures RunOn(max, Going(c), HeadLines(h) + body) ==
            Completed(q, SizedTrace(LinesTrace(Settle(c).t, h), body), c.n + |HeadLines(h)| + |body|)
  {
    hide RunOn, Settle, Push, AtLine, HeadLines, LinesTrace, DecValue, SameFraming, NewMessage, UpgradeOf, IsHead,
      Fresh;
    var p := HeadRun(max, c, h);
    RunAppend(max, Going(c), HeadLines(h), body);
    if body == [] {
      RunNone(max, RunOn(max, Going(c), HeadLines(h)));
      q := HeadOver(p);
    } else {
      var d := Config(HeadOver(p).(state := BodyIdentity), Push(LinesTrace(Settle(c).t, h), HeadersComplete),
                      c.n + |HeadLines(h)|);
      IdentityBodyDelivered(max, d, body);
      q := BodyDone(d.p);
    }
  }

  function SizedTrace(t: seq<Event>, body: seq<char>): seq<Event> {
    var u := Push(t, HeadersComplete);
    if body == [] then u else Push(u, Data(BodyData, body))
  }

  /** A message whose header announces chunks delivers its headers, its chunks and its trailers, and is complete,
      once, on its last byte. */
  lemma ChunkedMessage(max: nat, c: Config, h: Head, ks: seq<Chunk>, lastSize: seq<char>, lastExt: seq<char>,
                       trailers: seq<Field>) returns (q: Parser)
    requires AtLine(c) && Fresh(Settle(c).p) && IsHead(h) && c.p.nread + |HeadLines(h)| <= max && h.a.Coded?
    requires forall i :: 0 <= i < |ks| ==> IsChunk(max, ks[i])
    requires IsSizeLine(max, lastSize, lastExt) && HexValue(lastSize) == 0
    requires forall i :: 0 <= i < |trailers| ==> IsPlainField(trailers[i])
    requires |FieldLines(trailers)| + 2 <= max
    ensures var body := EncodeBody(ks, lastSize, lastExt, trailers);
            RunOn(max, Going(c), HeadLines(h) + body) ==
            Completed(q, BodyTrace(Push(LinesTrace(Settle(c).t, h), HeadersComplete), ks, trailers),
                      c.n + |HeadLines(h)| + |body|)
  {
    hide RunOn, Settle, Push, AtLine, HeadLines, LinesTrace, SameFraming, IsHead, Fresh, IsChunk, IsSizeLine,
      HexValue, IsPlainField, FieldLines, EncodeBody, BodyTrace, Completed;
    var p := HeadRun(max, c, h);
    RunAppend(max, Going(c), HeadLines(h), EncodeBody(ks, lastSize, lastExt, trailers));
    var d := Config(HeadOver(p).(state := ChunkSizeStart), Push(LinesTrace(Settle(c).t, h), HeadersComplete),
                    c.n + |HeadLines(h)|);
    q := ChunkedBodyDelivered(max, d, ks, lastSize, lastExt, trailers);
  }

  // ---------- what is delivered, in any segmentation ----------

  lemma LinesTraceReads(t: seq<Event>, h: Head)
    ensures var u := Push(LinesTrace(t, h), HeadersComplete);
            BodyOf(u) == BodyOf(t) && Completions(u) == Completions(t)
  {
    hide Push, BodyOf, Completions, FieldTrace;
    var t1 := FieldTrace(t, h.before);
    var t2 := Push(t1, Data(FieldData, h.name));
    var t3 := Push(t2, Data(ValueData, Text(h.a)));
    FieldTraceReads(t, h.before);
    PushReads(t1, Data(FieldData, h.name));
    PushReads(t2, Data(ValueData, Text(h.a)));
    FieldTraceReads(t3, h.after);
    PushReads(LinesTrace(t, h), HeadersComplete);
  }

  lemma CompletedReads(q: Parser, t: seq<Event>, n: nat)
    ensures var r := Completed(q, t, n);
            !r.Failed? && r.c.n == n && BodyOf(r.c.t) == BodyOf(t) && Completions(r.c.t) == Completions(t) + 1
  {
    hide Push, BodyOf, Completions, NewMessage;
    PushReads(t, MessageComplete);
  }

  lemma SizedReads(t: seq<Event>, h: Head, body: seq<char>)
    ensures var u := SizedTrace(LinesTrace(t, h), body);
            BodyOf(u) == BodyOf(t) + body && Completions(u) == Completions(t)
  {
    hide Push, BodyOf, Completions, LinesTrace;
    LinesTraceReads(t, h);
    PushReads(Push(LinesTrace(t, h), HeadersComplete), Data(BodyData, body));
  }

  lemma ChunkedReads(t: seq<Event>, h: Head, ks: seq<Chunk>, trailers: seq<Field>)
    ensures var u := BodyTrace(Push(LinesTrace(t, h), HeadersComplete), ks, trailers);
            BodyOf(u) == BodyOf(t) + ChunkBytes(ks) && Completions(u) == Completions(t)
  {
    hide Push, BodyOf, Completions, LinesTrace, ChunkTrace, FieldTrace, ChunkBytes;
    LinesTraceReads(t, h);
    var t0 := Push(LinesTrace(t, h), HeadersComplete);
    ChunkTraceReads(t0, ks);
    var t1 := ChunkTrace(t0, ks);
    PushReads(t1, ChunkHeader(0));
    var t2 := Push(t1, ChunkHeader(0));
    FieldTraceReads(t2, trailers);
    PushReads(FieldTrace(t2, trailers), ChunkComplete);
  }

  /** The outcome of a message: all of its bytes are taken, its body is delivered, and it is complete, once. */
  ghost predicate Delivers(r: Run, c: Config, length: nat, body: seq<char>) {
    && !r.Failed? && r.c.n == c.n + length
    && BodyOf(r.c.t) == BodyOf(Settle(c).t) + body
    && Completions(r.c.t) == Completions(Settle(c).t) + 1
  }

  /** A message with a Content-Length, cut into any pieces. */
  lemma SizedMessageSegmented(max: nat, c: Config, h: Head, body: seq<char>, pieces: seq<seq<char>>)
    requires AtLine(c) && Fresh(Settle(c).p) && IsHead(h) && c.p.nread + |HeadLines(h)| <= max
    requires h.a.Sized? && DecValue(h.a.digits) == |body| && Flatten(pieces) == HeadLines(h) + body
    ensures Delivers(FeedOn(max, Going(c), pieces), c, |Flatten(pieces)|, body)
  {
    hide RunOn, FeedOn, Push, AtLine, HeadLines, LinesTrace, DecValue, IsHead, Fresh, Settle, Completed, SizedTrace,
      BodyOf, Completions;
    Segmentation(max, Going(c), pieces);
    var q := SizedMessage(max, c, h, body);
    SizedReads(Settle(c).t, h, body);
    CompletedReads(q, SizedTrace(LinesTrace(Settle(c).t, h), body), c.n + |HeadLines(h)| + |body|);
  }

  /** A chunked message, cut into any pieces. */
  lemma ChunkedMessageSegmented(max: nat, c: Config, h: Head, ks: seq<Chunk>, lastSize: seq<char>, lastExt: seq<char>,
                                trailers: seq<Field>, pieces: seq<seq<char>>)
    requires AtLine(c) && Fresh(Settle(c).p) && IsHead(h) && c.p.nread + |HeadLines(h)| <= max && h.a.Coded?
    requires forall i :: 0 <= i < |ks| ==> IsChunk(max, ks[i])
    requires IsSizeLine(max, lastSize, lastExt) && HexValue(lastSize) == 0
    requires forall i :: 0 <= i < |trailers| ==> IsPlainField(trailers[i])
    requires |FieldLines(trailers)| + 2 <= max
    requires Flatten(pieces) == HeadLines(h) + EncodeBody(ks, lastSize, lastExt, trailers)
    ensures Delivers(FeedOn(max, Going(c), pieces), c, |Flatten(pieces)|, ChunkBytes(ks))
  {
    hide RunOn, FeedOn, Push, AtLine, HeadLines, LinesTrace, IsHead, Fresh, Settle, Completed, BodyTrace, BodyOf,
      Completions, IsChunk, IsSizeLine, HexValue, IsPlainField, FieldLines, EncodeBody, ChunkBytes;
    Segmentation(max, Going(c), pieces);
    var q := ChunkedMessage(max, c, h, ks, lastSize, lastExt, trailers);
    ChunkedReads(Settle(c).t, h, ks, trailers);
    CompletedReads(q, BodyTrace(Push(LinesTrace(Settle(c).t, h), HeadersComplete), ks, trailers),
                   c.n + |HeadLines(h)| + |EncodeBody(ks, lastSize, lastExt, trailers)|);
  }
}
