/** Message framing (sections 3.3.2, 3.3.3 and 4.1 of RFC 7230): which bytes are the body, and when the
    message is complete. */
module HttpFraming {
  import opened Options
  import opened HttpTypes
  import opened HttpAutomaton
  import opened HttpInvariants
  import opened HttpBulk
  import opened HttpNames
  import opened HttpCharacters
  import opened HttpFields
  import opened HttpSegmentation
  import opened Sequences

  // ---------- the end of a message ----------

  /** A message is complete: on to the next one, or out of the parser when the protocol changes. */
  function Completed(p: Parser, t: seq<Event>, n: nat): Run {
    var c := Config(p.(state := NewMessage(p)), Push(t, MessageComplete), n);
    if p.upgrade then Exited(c) else Going(c)
  }

  lemma DoneCompletes(p: Parser, t: seq<Event>, n: nat, ch: char)
    requires p.state == MessageDone
    ensures Finish(p, t, n, ch) == Completed(p, t, n + 1)
  {
    hide NewMessage, Push;
  }

  /** A message with Content-Length `|bs|` delivers exactly the next `|bs|` bytes and is then complete. */
  lemma IdentityBodyDelivered(max: nat, c: Config, bs: seq<char>)
    requires c.p.state == BodyIdentity && 0 < |bs| == c.p.contentLength
    ensures RunOn(max, Going(c), bs) == Completed(BodyDone(c.p), Push(c.t, Data(BodyData, bs)), c.n + |bs|)
  {
    hide RunOn, Finish, Step, Push;
    assert bs == [bs[0]] + bs[1..];
    RunAppend(max, Going(c), [bs[0]], bs[1..]);
    RunOne(max, c, bs[0]);
    BodyUncounted(max, c, bs[0]);
    BodyWhole(max, c.p, c.t, c.n, bs);
    DoneCompletes(BodyDone(c.p), Push(c.t, Data(BodyData, bs)), c.n + |bs| - 1, bs[|bs| - 1]);
  }

  /** With fewer bytes the message is not complete, and the rest of the body is still to come. */
  lemma IdentityBodyPending(max: nat, c: Config, bs: seq<char>)
    requires c.p.state == BodyIdentity && 0 < |bs| < c.p.contentLength
    ensures RunOn(max, Going(c), bs) ==
            Going(Config(c.p.(contentLength := c.p.contentLength - |bs|), Push(c.t, Data(BodyData, bs)), c.n + |bs|))
  {
    hide RunOn, Finish, Step, Push;
    assert bs == [bs[0]] + bs[1..];
    RunAppend(max, Going(c), [bs[0]], bs[1..]);
    RunOne(max, c, bs[0]);
    BodyUncounted(max, c, bs[0]);
    BodyPart(max, c.p, c.t, c.n, bs);
  }

  // ---------- chunk sizes ----------

  predicate AllHexDigits(ds: seq<char>) { forall k :: 0 <= k < |ds| ==> Unhex(ds[k]) != -1 }

  /** The number a string of hexadecimal digits denotes. */
  function HexValue(ds: seq<char>): int {
    if ds == [] then 0 else HexValue(ds[..|ds| - 1]) * 16 + Unhex(ds[|ds| - 1])
  }

  lemma {:induction false} HexValueNonNegative(ds: seq<char>)
    requires AllHexDigits(ds)
    ensures HexValue(ds) >= 0
  {
    if ds != [] { HexValueNonNegative(ds[..|ds| - 1]); }
  }

  function HexDigit(k: nat, capitals: bool): char
    requires k < 16
  {
    if capitals then "0123456789ABCDEF"[k] else "0123456789abcdef"[k]
  }

  /** A number in hexadecimal, in capitals or in small letters. */
  function ToHex(n: nat, capitals: bool): (ds: seq<char>)
    ensures ds != []
    decreases n
  {
    (if n < 16 then [] else ToHex(n / 16, capitals)) +
    [HexDigit(n % 16, capitals)]
  }

  lemma HexDigitWorth(k: nat, capitals: bool)
    requires k < 16
    ensures Unhex(HexDigit(k, capitals)) == k
  {
    HexDigitsExact(k);
  }

  /** A number written in hexadecimal is read as that number. */
  lemma {:induction false} HexRoundTrip(n: nat, capitals: bool)
    ensures AllHexDigits(ToHex(n, capitals)) && HexValue(ToHex(n, capitals)) == n
    decreases n
  {
    hide Unhex, HexDigit, HexValue, AllHexDigits;
    HexDigitWorth(n % 16, capitals);
    var init := if n < 16 then [] else ToHex(n / 16, capitals);
    HexLast(init, HexDigit(n % 16, capitals));
    if n < 16 { NoHexDigits(); } else { HexRoundTrip(n / 16, capitals); }
  }

  lemma NoHexDigits()
    ensures AllHexDigits([]) && HexValue([]) == 0
  {}

  lemma HexLast(init: seq<char>, d: char)
    ensures HexValue(init + [d]) == HexValue(init) * 16 + Unhex(d)
    ensures AllHexDigits(init + [d]) <==> AllHexDigits(init) && Unhex(d) != -1
  {
    hide Unhex;
    assert (init + [d])[..|init|] == init && (init + [d])[|init|] == d;
    if AllHexDigits(init + [d]) { assert forall k :: 0 <= k < |init| ==> init[k] == (init + [d])[k]; }
  }

  /** Section 4.1 of RFC 7230 wants HEXDIG. The table takes every byte from 128 up for a zero as well. */
  lemma HexDigitsAccepted(ch: char)
    ensures Unhex(ch) != -1 <==> IsHex(ch) || ch >= '\U{80}'
    ensures Unhex('\U{80}') == 0 && !IsHex('\U{80}')
  {}

  /** The largest chunk size that is accepted, 2^64 - 17. */
  const MAX_CHUNK_SIZE: int := 18446744073709551599

  lemma FirstDigit(p: Parser, t: seq<Event>, n: nat, ch: char)
    requires p.state == ChunkSizeStart && Unhex(ch) != -1
    ensures Finish(p, t, n, ch) == Going(Config(p.(contentLength := Unhex(ch), state := ChunkSize), t, n + 1))
  {
    hide Unhex;
  }

  lemma NextDigit(p: Parser, t: seq<Event>, n: nat, ch: char)
    requires p.state == ChunkSize && Unhex(ch) != -1
    ensures Finish(p, t, n, ch) ==
            if p.contentLength > (ULLONG_MAX - 16) / 16 then Failed
            else Going(Config(p.(contentLength := p.contentLength * 16 + Unhex(ch)), t, n + 1))
  {
    CrIsNoDigit(ch);
    hide Unhex;
  }

  lemma CrIsNoDigit(ch: char)
    requires Unhex(ch) != -1
    ensures ch != CR && ch != ';' && ch != ' ' && 0 <= Unhex(ch) < 16
  {}

  /** A chunk size is accepted exactly when it is at most MAX_CHUNK_SIZE and its digits fit the header limit;
      the value is then the true one. */
  lemma {:induction false} ChunkSizeExact(max: nat, c: Config, ds: seq<char>)
    requires c.p.state == ChunkSizeStart && c.p.nread == 0 && ds != [] && AllHexDigits(ds)
    ensures RunOn(max, Going(c), ds) ==
            if HexValue(ds) <= MAX_CHUNK_SIZE < ULLONG_MAX && |ds| <= max
            then Going(Config(c.p.(state := ChunkSize, contentLength := HexValue(ds), nread := |ds|), c.t, c.n + |ds|))
            else Failed
  {
    hide Finish, Step, Unhex, ParsingHeader;
    var last := |ds| - 1;
    var init := ds[..last];
    assert HexValue(ds) == HexValue(init) * 16 + Unhex(ds[last]);
    CrIsNoDigit(ds[last]);
    SizeCounts(max, c, ds[last]);
    if last == 0 {
      assert ds == [ds[0]] && init == [];
      RunOne(max, c, ds[0]);
      FirstDigit(c.p.(nread := 1), c.t, c.n, ds[0]);
    } else {
      ChunkSizeExact(max, c, init);
      HexValueNonNegative(init);
      if HexValue(init) <= MAX_CHUNK_SIZE && |init| <= max {
        var d := Config(c.p.(state := ChunkSize, contentLength := HexValue(init), nread := |init|), c.t, c.n + |init|);
        SizeCounts(max, d, ds[last]);
        NextDigit(d.p.(nread := |ds|), d.t, d.n, ds[last]);
      }
    }
  }

  lemma SizeCounts(max: nat, c: Config, ch: char)
    requires ParsingHeader(c.p.state) || c.p.state == ChunkSizeStart || c.p.state == ChunkSize
    ensures Step(max, c, ch) ==
            if c.p.nread + 1 > max then Failed else Finish(c.p.(nread := c.p.nread + 1), c.t, c.n, ch)
  {
    hide Finish;
  }

  // ---------- chunks ----------

  /** A chunk with its size line: hexadecimal digits and an optional extension. */
  datatype Chunk = Chunk(size: seq<char>, ext: seq<char>, data: seq<char>)

  /** A chunk extension as the parser takes it: it starts with a semicolon or a blank and holds no CR. */
  predicate IsExtension(ext: seq<char>) {
    ext == [] || ((ext[0] == ';' || ext[0] == ' ') && forall k :: 0 <= k < |ext| ==> ext[k] != CR)
  }

  predicate IsSizeLine(max: nat, size: seq<char>, ext: seq<char>) {
    size != [] && AllHexDigits(size) && IsExtension(ext) && |size| + |ext| + 2 <= max
  }

  predicate IsChunk(max: nat, k: Chunk) {
    IsSizeLine(max, k.size, k.ext) && 0 < |k.data| == HexValue(k.size) <= MAX_CHUNK_SIZE
  }

  function SizeLine(size: seq<char>, ext: seq<char>): seq<char> { size + (ext + CRLF) }

  function EncodeChunk(k: Chunk): seq<char> { SizeLine(k.size, k.ext) + (k.data + CRLF) }

  function EncodeChunks(ks: seq<Chunk>): seq<char> {
    if ks == [] then [] else EncodeChunks(ks[..|ks| - 1]) + EncodeChunk(ks[|ks| - 1])
  }

  /** The callbacks for a list of chunks. */
  function ChunkTrace(t: seq<Event>, ks: seq<Chunk>): seq<Event> {
    if ks == [] then t
    else
      var k := ks[|ks| - 1];
      var u := Push(ChunkTrace(t, ks[..|ks| - 1]), ChunkHeader(|k.data|));
      Push(Push(u, Data(BodyData, k.data)), ChunkComplete)
  }

  lemma ExtensionStart(p: Parser, t: seq<Event>, n: nat, ch: char)
    requires p.state == ChunkSize && (ch == ';' || ch == ' ')
    ensures Finish(p, t, n, ch) == Going(Config(p.(state := ChunkParameters), t, n + 1))
  {}

  lemma ExtensionByte(p: Parser, t: seq<Event>, n: nat, ch: char)
    requires p.state == ChunkParameters && ch != CR
    ensures Finish(p, t, n, ch) == Going(Config(p, t, n + 1))
  {}

  lemma {:induction false} ExtensionRest(max: nat, c: Config, ext: seq<char>)
    requires c.p.state == ChunkParameters && c.p.nread + |ext| <= max
    requires forall k :: 0 <= k < |ext| ==> ext[k] != CR
    ensures RunOn(max, Going(c), ext) == Going(Config(c.p.(nread := c.p.nread + |ext|), c.t, c.n + |ext|))
  {
    hide Finish, Step;
    if ext != [] {
      var last := |ext| - 1;
      ExtensionRest(max, c, ext[..last]);
      var d := Config(c.p.(nread := c.p.nread + last), c.t, c.n + last);
      SizeCountsAny(max, d, ext[last]);
      ExtensionByte(d.p.(nread := d.p.nread + 1), d.t, d.n, ext[last]);
    }
  }

  lemma SizeCountsAny(max: nat, c: Config, ch: char)
    requires c.p.state == ChunkParameters || c.p.state == ChunkSizeAlmostDone || c.p.state == ChunkSize
    requires c.p.nread + 1 <= max
    ensures Step(max, c, ch) == Finish(c.p.(nread := c.p.nread + 1), c.t, c.n, ch)
  {
    hide Finish;
  }

  lemma SizeCr(p: Parser, t: seq<Event>, n: nat)
    requires p.state == ChunkSize || p.state == ChunkParameters
    ensures Finish(p, t, n, CR) == Going(Config(p.(state := ChunkSizeAlmostDone), t, n + 1))
  {}

  /** The parser and trace after a size line. */
  function AfterSize(p: Parser): Parser {
    if p.contentLength == 0 then p.(nread := 0, flags := p.flags.(trailing := true), state := HeaderFieldStart)
    else p.(nread := 0, state := ChunkData)
  }

  lemma SizeLf(p: Parser, t: seq<Event>, n: nat)
    requires p.state == ChunkSizeAlmostDone
    ensures Finish(p, t, n, LF) == Going(Config(AfterSize(p), Push(t, ChunkHeader(p.contentLength)), n + 1))
  {
    hide Push;
  }

  lemma ExtensionRun(max: nat, c: Config, ext: seq<char>) returns (d: Config)
    requires c.p.state == ChunkSize && IsExtension(ext) && c.p.nread + |ext| <= max
    ensures RunOn(max, Going(c), ext) == Going(d) && (d.p.state == ChunkSize || d.p.state == ChunkParameters)
    ensures d == Config(c.p.(state := d.p.state, nread := c.p.nread + |ext|), c.t, c.n + |ext|)
  {
    hide Finish, Step;
    if ext == [] {
      d := c;
    } else {
      var e := Config(c.p.(state := ChunkParameters, nread := c.p.nread + 1), c.t, c.n + 1);
      SizeCountsAny(max, c, ext[0]);
      ExtensionStart(c.p.(nread := c.p.nread + 1), c.t, c.n, ext[0]);
      assert ext == [ext[0]] + ext[1..];
      Run2(max, c, e, ext[0], ext[1..]);
      ExtensionRest(max, e, ext[1..]);
      d := Config(e.p.(nread := e.p.nread + |ext| - 1), e.t, e.n + |ext| - 1);
    }
  }

  lemma SizeLineRun(max: nat, c: Config, size: seq<char>, ext: seq<char>)
    requires c.p.state == ChunkSizeStart && c.p.nread == 0 && IsSizeLine(max, size, ext)
    requires HexValue(size) <= MAX_CHUNK_SIZE
    ensures RunOn(max, Going(c), SizeLine(size, ext)) ==
            Going(Config(AfterSize(c.p.(contentLength := HexValue(size))), Push(c.t, ChunkHeader(HexValue(size))),
                         c.n + |SizeLine(size, ext)|))
  {
    hide RunOn, Finish, Step, Push, HexValue, AllHexDigits;
    ChunkSizeExact(max, c, size);
    RunAppend(max, Going(c), size, ext + CRLF);
    var d := Config(c.p.(state := ChunkSize, contentLength := HexValue(size), nread := |size|), c.t, c.n + |size|);
    RunAppend(max, Going(d), ext, CRLF);
    var e := ExtensionRun(max, d, ext);
    var f := Config(e.p.(state := ChunkSizeAlmostDone, nread := e.p.nread + 1), e.t, e.n + 1);
    SizeCountsAny(max, e, CR);
    SizeCr(e.p.(nread := e.p.nread + 1), e.t, e.n);
    assert CRLF == [CR] + [LF];
    Run2(max, e, f, CR, [LF]);
    RunOne(max, f, LF);
    SizeCountsAny(max, f, LF);
    SizeLf(f.p.(nread := f.p.nread + 1), f.t, f.n);
  }

  lemma ChunkByte(max: nat, c: Config, ch: char)
    requires c.p.state == ChunkData || c.p.state == ChunkDataAlmostDone || c.p.state == ChunkDataDone
    ensures Step(max, c, ch) == Finish(c.p, c.t, c.n, ch)
  {
    hide Finish;
  }

  lemma DataCr(p: Parser, t: seq<Event>, n: nat)
    requires p.state == ChunkDataAlmostDone
    ensures Finish(p, t, n, CR) == Going(Config(p.(state := ChunkDataDone), t, n + 1))
  {}

  lemma DataLf(p: Parser, t: seq<Event>, n: nat)
    requires p.state == ChunkDataDone
    ensures Finish(p, t, n, LF) == Going(Config(p.(nread := 0, state := ChunkSizeStart), Push(t, ChunkComplete), n + 1))
  {
    hide Push;
  }

  lemma ChunkDataRun(max: nat, c: Config, bs: seq<char>)
    requires c.p.state == ChunkData && 0 < |bs| == c.p.contentLength
    ensures RunOn(max, Going(c), bs + CRLF) ==
            Going(Config(c.p.(contentLength := 0, nread := 0, state := ChunkSizeStart),
                         Push(Push(c.t, Data(BodyData, bs)), ChunkComplete), c.n + |bs| + 2))
  {
    hide RunOn, Finish, Step, Push;
    RunAppend(max, Going(c), bs, CRLF);
    assert bs == [bs[0]] + bs[1..];
    RunAppend(max, Going(c), [bs[0]], bs[1..]);
    RunOne(max, c, bs[0]);
    ChunkByte(max, c, bs[0]);
    ChunkRun(max, c.p, c.t, c.n, bs);
    var d := Config(c.p.(contentLength := 0, state := ChunkDataAlmostDone), Push(c.t, Data(BodyData, bs)), c.n + |bs|);
    var e := Config(d.p.(state := ChunkDataDone), d.t, d.n + 1);
    ChunkByte(max, d, CR);
    DataCr(d.p, d.t, d.n);
    assert CRLF == [CR] + [LF];
    Run2(max, d, e, CR, [LF]);
    RunOne(max, e, LF);
    ChunkByte(max, e, LF);
    DataLf(e.p, e.t, e.n);
  }

  /** Every chunk is delivered whole, with its callbacks. */
  lemma {:induction false} ChunksRun(max: nat, c: Config, ks: seq<Chunk>) returns (d: Config)
    requires c.p.state == ChunkSizeStart && c.p.nread == 0
    requires forall i :: 0 <= i < |ks| ==> IsChunk(max, ks[i])
    ensures RunOn(max, Going(c), EncodeChunks(ks)) == Going(d)
    ensures d == Config(c.p.(contentLength := d.p.contentLength), ChunkTrace(c.t, ks), c.n + |EncodeChunks(ks)|)
  {
    hide RunOn, Finish, Step, Push, HexValue, AllHexDigits, SizeLine;
    if ks == [] {
      RunNone(max, Going(c));
      d := c;
    } else {
      var k := ks[|ks| - 1];
      var e := ChunksRun(max, c, ks[..|ks| - 1]);
      RunAppend(max, Going(c), EncodeChunks(ks[..|ks| - 1]), EncodeChunk(k));
      RunAppend(max, Going(e), SizeLine(k.size, k.ext), k.data + CRLF);
      SizeLineRun(max, e, k.size, k.ext);
      var f := Config(AfterSize(e.p.(contentLength := HexValue(k.size))), Push(e.t, ChunkHeader(HexValue(k.size))),
                      e.n + |SizeLine(k.size, k.ext)|);
      ChunkDataRun(max, f, k.data);
      d := Config(f.p.(contentLength := 0, nread := 0, state := ChunkSizeStart),
                  Push(Push(f.t, Data(BodyData, k.data)), ChunkComplete), f.n + |k.data| + 2);
    }
  }

  lemma RunNone(max: nat, r: Run)
    ensures RunOn(max, r, []) == r
  {}

  // ---------- trailers ----------

  datatype Field = Field(name: seq<char>, value: seq<char>)

  predicate IsPlainField(f: Field) {
    IsName(f.name) && NameClass(LowerName(f.name)) == General && IsValue(f.value)
  }

  function FieldLines(fs: seq<Field>): seq<char> {
    if fs == [] then [] else FieldLines(fs[..|fs| - 1]) + FieldLine(fs[|fs| - 1].name, fs[|fs| - 1].value)
  }

  function FieldTrace(t: seq<Event>, fs: seq<Field>): seq<Event> {
    if fs == [] then t
    else
      var f := fs[|fs| - 1];
      Push(Push(FieldTrace(t, fs[..|fs| - 1]), Data(FieldData, f.name)), Data(ValueData, f.value))
  }

  /** Plain header lines are delivered one by one and change nothing else. */
  lemma {:induction false} PlainLines(max: nat, c: Config, fs: seq<Field>) returns (d: Config)
    requires c.p.state == HeaderFieldStart && forall i :: 0 <= i < |fs| ==> IsPlainField(fs[i])
    requires c.p.nread + |FieldLines(fs)| <= max
    ensures RunOn(max, Going(c), FieldLines(fs)) == Going(d) && AtLine(d)
    ensures Settle(d).t == FieldTrace(c.t, fs) && d.n == c.n + |FieldLines(fs)|
    ensures SameBut(Settle(d).p, c.p, c.p.nread + |FieldLines(fs)|)
  {
    hide RunOn, Push, IsName, IsValue, NameClass, LowerName, FieldLine, FinishValue;
    if fs == [] {
      RunNone(max, Going(c));
      d := c;
    } else {
      var f := fs[|fs| - 1];
      var e := PlainLines(max, c, fs[..|fs| - 1]);
      RunAppend(max, Going(c), FieldLines(fs[..|fs| - 1]), FieldLine(f.name, f.value));
      d := PlainLine(max, e, f.name, f.value);
    }
  }

  lemma EndCr(p: Parser, t: seq<Event>, n: nat)
    requires p.state == HeaderFieldStart
    ensures Finish(p, t, n, CR) == Going(Config(p.(state := HeadersAlmostDone), t, n + 1))
  {}

  lemma TrailersPass(p: Parser)
    requires p.state == HeadersAlmostDone && p.flags.trailing
    ensures Pass(p, LF) == Again(p.(state := MessageDone), Some(ChunkComplete))
  {}

  lemma TrailersLf(p: Parser, t: seq<Event>, n: nat)
    requires p.state == HeadersAlmostDone && p.flags.trailing
    ensures Finish(p, t, n, LF) == Completed(p.(state := MessageDone), Push(t, ChunkComplete), n + 1)
  {
    TrailersPass(p);
    hide NewMessage, Push, Pass, Finish, Completed;
    FinishAgain(p, t, n, LF, p.(state := MessageDone), Some(ChunkComplete));
    DoneCompletes(p.(state := MessageDone), Push(t, ChunkComplete), n, LF);
  }

  lemma EndStep(max: nat, c: Config, ch: char)
    requires (c.p.state == HeaderFieldStart || c.p.state == HeadersAlmostDone) && c.p.nread + 1 <= max
    ensures Step(max, c, ch) == Finish(c.p.(nread := c.p.nread + 1), c.t, c.n, ch)
  {
    hide Finish;
  }

  /** The blank line after the trailers completes a chunked message. */
  lemma TrailersEnd(max: nat, c: Config)
    requires AtLine(c) && Settle(c).p.flags.trailing && c.p.nread + 2 <= max
    ensures RunOn(max, Going(c), CRLF) ==
            Completed(Settle(c).p.(state := MessageDone, nread := c.p.nread + 2), Push(Settle(c).t, ChunkComplete),
                      c.n + 2)
  {
    hide RunOn, Finish, Step, Push, Settle, NewMessage, AtLine, Completed;
    HeadCr(max, c);
    SettleKeeps(c);
    var f := BeforeLf(c);
    RunOne(max, f, LF);
    EndStep(max, f, LF);
    TrailersLf(f.p.(nread := f.p.nread + 1), f.t, f.n);
  }

  /** A whole chunked body: chunks, the last chunk, trailers and the blank line. */
  function EncodeBody(ks: seq<Chunk>, lastSize: seq<char>, lastExt: seq<char>, trailers: seq<Field>): seq<char> {
    EncodeChunks(ks) + (SizeLine(lastSize, lastExt) + (FieldLines(trailers) + CRLF))
  }

  function BodyTrace(t: seq<Event>, ks: seq<Chunk>, trailers: seq<Field>): seq<Event> {
    Push(FieldTrace(Push(ChunkTrace(t, ks), ChunkHeader(0)), trailers), ChunkComplete)
  }

  /** A chunked body up to its last blank line. */
  function BodyText(ks: seq<Chunk>, lastSize: seq<char>, lastExt: seq<char>, trailers: seq<Field>): seq<char> {
    EncodeChunks(ks) + (SizeLine(lastSize, lastExt) + FieldLines(trailers))
  }

  /** The run up to the last blank line; `e` is where the trailers start. */
  lemma TrailersRun(max: nat, c: Config, ks: seq<Chunk>, lastSize: seq<char>, lastExt: seq<char>, trailers: seq<Field>)
    returns (d: Config, e: Config)
    requires c.p.state == ChunkSizeStart && c.p.nread == 0
    requires forall i :: 0 <= i < |ks| ==> IsChunk(max, ks[i])
    requires IsSizeLine(max, lastSize, lastExt) && HexValue(lastSize) == 0
    requires forall i :: 0 <= i < |trailers| ==> IsPlainField(trailers[i])
    requires |FieldLines(trailers)| + 2 <= max
    ensures RunOn(max, Going(c), BodyText(ks, lastSize, lastExt, trailers)) == Going(d) && AtLine(d)
    ensures Settle(d).t == FieldTrace(Push(ChunkTrace(c.t, ks), ChunkHeader(0)), trailers)
    ensures d.n == c.n + |BodyText(ks, lastSize, lastExt, trailers)| && d.p.nread == |FieldLines(trailers)|
    ensures SameBut(Settle(d).p, e.p, |FieldLines(trailers)|) && e.p.flags.trailing
    ensures e.p == c.p.(contentLength := 0, nread := 0, flags := c.p.flags.(trailing := true),
                        state := HeaderFieldStart)
  {
    hide RunOn, Finish, Step, Push, HexValue, AllHexDigits, SizeLine, FieldTrace, ChunkTrace, IsExtension,
      IsPlainField;
    var rest := FieldLines(trailers);
    var a := ChunksRun(max, c, ks);
    RunAppend(max, Going(c), EncodeChunks(ks), SizeLine(lastSize, lastExt) + rest);
    RunAppend(max, Going(a), SizeLine(lastSize, lastExt), rest);
    SizeLineRun(max, a, lastSize, lastExt);
    e := Config(AfterSize(a.p.(contentLength := 0)), Push(a.t, ChunkHeader(0)), a.n + |SizeLine(lastSize, lastExt)|);
    d := PlainLines(max, e, trailers);
    SettleKeeps(d);
    SameCount(d, e.p, |FieldLines(trailers)|);
  }

  lemma SameCount(d: Config, p: Parser, nread: nat)
    requires AtLine(d) && SameBut(Settle(d).p, p, nread)
    ensures d.p.nread == nread
  {
    hide FinishValue, Push;
  }

  /** A chunked body delivers exactly its chunks, in order, then its trailers, and is then complete, once,
      on its last byte. */
  lemma ChunkedBodyDelivered(max: nat, c: Config, ks: seq<Chunk>, lastSize: seq<char>, lastExt: seq<char>,
                             trailers: seq<Field>) returns (q: Parser)
    requires c.p.state == ChunkSizeStart && c.p.nread == 0
    requires forall i :: 0 <= i < |ks| ==> IsChunk(max, ks[i])
    requires IsSizeLine(max, lastSize, lastExt) && HexValue(lastSize) == 0
    requires forall i :: 0 <= i < |trailers| ==> IsPlainField(trailers[i])
    requires |FieldLines(trailers)| + 2 <= max
    ensures var body := EncodeBody(ks, lastSize, lastExt, trailers);
            RunOn(max, Going(c), body) == Completed(q, BodyTrace(c.t, ks, trailers), c.n + |body|)
    ensures q.upgrade == c.p.upgrade && q.kind == c.p.kind && q.verb == c.p.verb
  {
    hide RunOn, Push, HexValue, IsSizeLine, IsPlainField, IsChunk, FieldTrace, ChunkTrace, NewMessage, AtLine, Settle;
    var d, e := TrailersRun(max, c, ks, lastSize, lastExt, trailers);
    TrailersEnd(max, d);
    q := Settle(d).p.(state := MessageDone, nread := d.p.nread + 2);
    var text := BodyText(ks, lastSize, lastExt, trailers);
    RunAppend(max, Going(c), text, CRLF);
    assert EncodeBody(ks, lastSize, lastExt, trailers) == text + CRLF;
  }

  // ---------- what the traces say ----------

  /** The body bytes of a trace. */
  function BodyOf(t: seq<Event>): seq<char> {
    if t == [] then []
    else
      BodyOf(t[..|t| - 1]) +
      (match t[|t| - 1] case Data(BodyData, bytes) => bytes case _ => [])
  }

  function Completions(t: seq<Event>): nat {
    if t == [] then 0 else Completions(t[..|t| - 1]) + if t[|t| - 1].MessageComplete? then 1 else 0
  }

  lemma PushReads(t: seq<Event>, e: Event)
    ensures BodyOf(Push(t, e)) == BodyOf(t) + (match e case Data(BodyData, bytes) => bytes case _ => [])
    ensures Completions(Push(t, e)) == Completions(t) + if e.MessageComplete? then 1 else 0
  {
    if e.Data? && EndsWith(t, e.kind) {
      var last := t[|t| - 1];
      var joined := Data(e.kind, last.bytes + e.bytes);
      assert t == t[..|t| - 1] + [last];
      assert (t[..|t| - 1] + [joined])[..|t| - 1] == t[..|t| - 1];
      assert BodyOf(t) == BodyOf(t[..|t| - 1]) + if e.kind == BodyData then last.bytes else [];
    } else {
      assert (t + [e])[..|t|] == t;
    }
  }

  /** The data of a list of chunks, put together. */
  function ChunkBytes(ks: seq<Chunk>): seq<char> {
    if ks == [] then [] else ChunkBytes(ks[..|ks| - 1]) + ks[|ks| - 1].data
  }

  lemma {:induction false} ChunkTraceReads(t: seq<Event>, ks: seq<Chunk>)
    ensures BodyOf(ChunkTrace(t, ks)) == BodyOf(t) + ChunkBytes(ks)
    ensures Completions(ChunkTrace(t, ks)) == Completions(t)
  {
    hide Push;
    if ks != [] {
      var init := ks[..|ks| - 1];
      var k := ks[|ks| - 1];
      ChunkTraceReads(t, init);
      var u := Push(ChunkTrace(t, init), ChunkHeader(|k.data|));
      PushReads(ChunkTrace(t, init), ChunkHeader(|k.data|));
      PushReads(u, Data(BodyData, k.data));
      PushReads(Push(u, Data(BodyData, k.data)), ChunkComplete);
    }
  }

  lemma {:induction false} FieldTraceReads(t: seq<Event>, fs: seq<Field>)
    ensures BodyOf(FieldTrace(t, fs)) == BodyOf(t) && Completions(FieldTrace(t, fs)) == Completions(t)
  {
    hide Push;
    if fs != [] {
      var init := fs[..|fs| - 1];
      var f := fs[|fs| - 1];
      FieldTraceReads(t, init);
      PushReads(FieldTrace(t, init), Data(FieldData, f.name));
      PushReads(Push(FieldTrace(t, init), Data(FieldData, f.name)), Data(ValueData, f.value));
    }
  }

  /** The body delivered by a chunked message is the concatenation of its chunks, and the message completes
      exactly once. */
  lemma ChunkedBodyBytes(max: nat, c: Config, ks: seq<Chunk>, lastSize: seq<char>, lastExt: seq<char>,
                         trailers: seq<Field>)
    requires c.p.state == ChunkSizeStart && c.p.nread == 0
    requires forall i :: 0 <= i < |ks| ==> IsChunk(max, ks[i])
    requires IsSizeLine(max, lastSize, lastExt) && HexValue(lastSize) == 0
    requires forall i :: 0 <= i < |trailers| ==> IsPlainField(trailers[i])
    requires |FieldLines(trailers)| + 2 <= max
    ensures var body := EncodeBody(ks, lastSize, lastExt, trailers);
            var r := RunOn(max, Going(c), body);
            && !r.Failed? && r.c.n == c.n + |body| && (r.Exited? <==> c.p.upgrade)
            && BodyOf(r.c.t) == BodyOf(c.t) + ChunkBytes(ks)
            && Completions(r.c.t) == Completions(c.t) + 1
  {
    hide RunOn, Push, EncodeBody, HexValue, IsSizeLine, IsPlainField, NewMessage, IsChunk, FieldLines;
    var q := ChunkedBodyDelivered(max, c, ks, lastSize, lastExt, trailers);
    var t1 := ChunkTrace(c.t, ks);
    var t2 := Push(t1, ChunkHeader(0));
    var t3 := FieldTrace(t2, trailers);
    ChunkTraceReads(c.t, ks);
    PushReads(t1, ChunkHeader(0));
    FieldTraceReads(t2, trailers);
    PushReads(t3, ChunkComplete);
    PushReads(Push(t3, ChunkComplete), MessageComplete);
  }

  // ---------- from the head to the body ----------

  /** What follows the header section. */
  datatype Body = NoBody | Tunnel | Chunks | Length(n: int) | ToEnd

  /** Section 3.3.3 of RFC 7230, as the flags of the header section decide it. */
  function BodyFraming(p: Parser): Body {
    if p.flags.skipBody then if UpgradeOf(p) then Tunnel else NoBody
    else if UpgradeOf(p) && p.verb == CONNECT then Tunnel
    else if p.flags.chunked then Chunks
    else if 0 < p.contentLength < ULLONG_MAX then Length(p.contentLength)
    else if UpgradeOf(p) then Tunnel
    else if p.contentLength == ULLONG_MAX && NeedsEof(p) then ToEnd
    else NoBody
  }

  /** Whether the headers ask for another protocol. */
  predicate UpgradeOf(p: Parser) {
    if p.flags.upgrade && p.flags.connectionUpgrade then p.kind == Request || p.statusCode == 101 else p.verb == CONNECT
  }

  /** When there is a body, and of which kind. */
  lemma WhichBody(p: Parser)
    requires 0 <= p.contentLength <= ULLONG_MAX
    ensures BodyFraming(p) == Chunks <==> p.flags.chunked && !p.flags.skipBody && !(UpgradeOf(p) && p.verb == CONNECT)
    ensures BodyFraming(p).Length? <==>
            && !p.flags.chunked && 0 < p.contentLength < ULLONG_MAX && !p.flags.skipBody
            && !(UpgradeOf(p) && p.verb == CONNECT)
    ensures BodyFraming(p).Length? ==> BodyFraming(p).n == p.contentLength
    ensures BodyFraming(p) == ToEnd <==>
            && p.kind == Response && !(100 <= p.statusCode < 200 || p.statusCode == 204 || p.statusCode == 304)
            && !p.flags.chunked && p.contentLength == ULLONG_MAX && !p.flags.skipBody && !UpgradeOf(p)
  {}

  /** The parser when the head is over, before it turns to the body. */
  function HeadOver(p: Parser): Parser { p.(state := HeadersDone, upgrade := UpgradeOf(p), nread := 0) }

  function BodyState(p: Parser): State {
    match BodyFraming(p)
    case Chunks => ChunkSizeStart
    case Length(_) => BodyIdentity
    case ToEnd => BodyIdentityEof
    case _ => NewMessage(HeadOver(p))
  }

  /** What the end of the head leads to: a body, or the end of the message when there is none. */
  function AfterHead(p: Parser, t: seq<Event>, n: nat): Run {
    var q := HeadOver(p).(state := BodyState(p));
    var u := Push(t, HeadersComplete);
    match BodyFraming(p)
    case NoBody => Going(Config(q, Push(u, MessageComplete), n))
    case Tunnel => Exited(Config(q, Push(u, MessageComplete), n))
    case _ => Going(Config(q, u, n))
  }

  lemma HeadLf(p: Parser, t: seq<Event>, n: nat)
    requires p.state == HeadersAlmostDone && !p.flags.trailing && !(p.flags.chunked && p.flags.contentLength)
    requires 0 <= p.contentLength <= ULLONG_MAX
    ensures Finish(p, t, n, LF) == AfterHead(p, t, n + 1)
  {
    hide Push, Finish, Pass, BodyFraming, UpgradeOf, BodyState;
    var h := p.(state := HeadersDone, upgrade := UpgradeOf(p));
    HeadAgain(p);
    FinishAgain(p, t, n, LF, h, Some(HeadersComplete));
    HeadPass(p);
    FinishLast(h, Push(t, HeadersComplete), n, LF);
  }

  lemma HeadAgain(p: Parser)
    requires p.state == HeadersAlmostDone && !p.flags.trailing && !(p.flags.chunked && p.flags.contentLength)
    ensures Pass(p, LF) == Again(p.(state := HeadersDone, upgrade := UpgradeOf(p)), Some(HeadersComplete))
  {
    assert Pass(p, LF) == EndOfHeaders(p);
    hide Pass;
  }

  lemma HeadPass(p: Parser)
    requires 0 <= p.contentLength <= ULLONG_MAX
    ensures var h := p.(state := HeadersDone, upgrade := UpgradeOf(p));
            var q := HeadOver(p).(state := BodyState(p));
            Pass(h, LF) == match BodyFraming(p)
                           case NoBody => Consumed(q, Some(MessageComplete))
                           case Tunnel => Exit(q, Some(MessageComplete))
                           case _ => Consumed(q, None)
  {
    var h := p.(state := HeadersDone, upgrade := UpgradeOf(p));
    assert Pass(h, LF) == AfterHeaders(h);
    assert h.(nread := 0) == HeadOver(p);
    SameEof(p, HeadOver(p));
    hide Pass, UpgradeOf, NewMessage, NeedsEof;
  }

  lemma SameEof(p: Parser, q: Parser)
    requires q == p.(state := q.state, upgrade := q.upgrade, nread := q.nread)
    ensures NeedsEof(p) == NeedsEof(q)
  {}

  lemma FinishLast(p: Parser, t: seq<Event>, n: nat, ch: char)
    requires !Pass(p, ch).Again? && !Pass(p, ch).Fail?
    ensures Finish(p, t, n, ch) ==
            var o := Pass(p, ch);
            var c := Config(o.p, PushOpt(t, o.out), n + 1);
            if o.Exit? then Exited(c) else Going(c)
  {
    hide Pass;
  }

  /** The configuration before the last byte of the head. */
  function BeforeLf(c: Config): Config {
    Config(Settle(c).p.(state := HeadersAlmostDone, nread := c.p.nread + 1), Settle(c).t, c.n + 1)
  }

  lemma HeadCr(max: nat, c: Config)
    requires AtLine(c) && c.p.nread + 2 <= max
    ensures RunOn(max, Going(c), [CR]) == Going(BeforeLf(c))
    ensures RunOn(max, Going(c), CRLF) == RunOn(max, Going(BeforeLf(c)), [LF])
  {
    hide RunOn, Finish, Step, FinishValue;
    SettleRun(max, c, [CR]);
    var e := Settle(c);
    EndStep(max, e, CR);
    EndCr(e.p.(nread := e.p.nread + 1), e.t, e.n);
    RunOne(max, e, CR);
    RunAppend(max, Going(c), [CR], [LF]);
    assert CRLF == [CR] + [LF];
  }

  lemma HeadLfRun(max: nat, c: Config)
    requires c.p.state == HeadersAlmostDone && c.p.nread < max && 0 <= c.p.contentLength <= ULLONG_MAX
    requires !c.p.flags.trailing && !(c.p.flags.chunked && c.p.flags.contentLength)
    ensures RunOn(max, Going(c), [LF]) == AfterHead(c.p, c.t, c.n + 1)
  {
    hide RunOn, Finish, Step, Push;
    RunOne(max, c, LF);
    EndStep(max, c, LF);
    HeadLf(c.p.(nread := c.p.nread + 1), c.t, c.n);
    SameHead(c.p, c.p.(nread := c.p.nread + 1), c.t, c.n + 1);
  }

  /** The head's outcome does not depend on the byte count or on the parser's place in the head. */
  lemma SameHead(p: Parser, q: Parser, t: seq<Event>, n: nat)
    requires q == p.(state := q.state, nread := q.nread)
    ensures AfterHead(p, t, n) == AfterHead(q, t, n)
  {
    hide Push, NewMessage, NeedsEof;
    assert NeedsEof(p) == NeedsEof(q) by { SameEof(p, q.(upgrade := p.upgrade)); }
    assert HeadOver(p) == HeadOver(q);
  }

  /** The blank line after the header section leads to the body that its flags call for. */
  lemma HeadEnd(max: nat, c: Config)
    requires AtLine(c) && c.p.nread + 2 <= max && 0 <= Settle(c).p.contentLength <= ULLONG_MAX
    requires var f := Settle(c).p.flags; !f.trailing && !(f.chunked && f.contentLength)
    ensures RunOn(max, Going(c), CRLF) == AfterHead(Settle(c).p, Settle(c).t, c.n + 2)
  {
    hide RunOn, Settle, AfterHead, AtLine;
    HeadCr(max, c);
    SettleKeeps(c);
    HeadLfRun(max, BeforeLf(c));
    SameHead(Settle(c).p, BeforeLf(c).p, Settle(c).t, c.n + 2);
  }

  // ---------- before the last byte ----------

  /** However a run goes on, no completion is undone. */
  lemma CompletionsGrow(max: nat, c: Config, bs: seq<char>)
    ensures var r := RunOn(max, Going(c), bs); !r.Failed? ==> Completions(r.c.t) >= Completions(c.t)
  {
    hide Completions, Push, RunOn;
    var k := Completions(c.t);
    forall t, e | Completions(t) >= k ensures Completions(Push(t, e)) >= k { PushReads(t, e); }
    RunStable(t => Completions(t) >= k, max, c, bs);
  }

  /** A run over a part of the bytes is under way, without a completion, if the run over more of them is. */
  lemma PartPending(max: nat, c: Config, a: seq<char>, b: seq<char>)
    requires RunOn(max, Going(c), a + b).Going? && Completions(RunOn(max, Going(c), a + b).c.t) == Completions(c.t)
    ensures var r := RunOn(max, Going(c), a); r.Going? && Completions(r.c.t) == Completions(c.t)
  {
    hide RunOn, Completions;
    RunAppend(max, Going(c), a, b);
    var r := RunOn(max, Going(c), a);
    if !r.Going? { RunStopped(max, r, b); }
    CompletionsGrow(max, c, a);
    CompletionsGrow(max, r.c, b);
  }

  lemma BodySplit(ks: seq<Chunk>, lastSize: seq<char>, lastExt: seq<char>, trailers: seq<Field>)
    ensures EncodeBody(ks, lastSize, lastExt, trailers) == (BodyText(ks, lastSize, lastExt, trailers) + [CR]) + [LF]
  {
    hide EncodeChunks, SizeLine, FieldLines;
  }

  /** A chunked body without its last byte. */
  lemma BodyOpen(max: nat, c: Config, ks: seq<Chunk>, lastSize: seq<char>, lastExt: seq<char>, trailers: seq<Field>)
    requires c.p.state == ChunkSizeStart && c.p.nread == 0
    requires forall i :: 0 <= i < |ks| ==> IsChunk(max, ks[i])
    requires IsSizeLine(max, lastSize, lastExt) && HexValue(lastSize) == 0
    requires forall i :: 0 <= i < |trailers| ==> IsPlainField(trailers[i])
    requires |FieldLines(trailers)| + 2 <= max
    ensures var r := RunOn(max, Going(c), BodyText(ks, lastSize, lastExt, trailers) + [CR]);
            r.Going? && Completions(r.c.t) == Completions(c.t)
  {
    hide RunOn, Push, Completions, HexValue, IsSizeLine, IsPlainField, IsChunk, FieldTrace, ChunkTrace, BodyText,
      Settle, AtLine;
    var d, e := TrailersRun(max, c, ks, lastSize, lastExt, trailers);
    HeadCr(max, d);
    RunAppend(max, Going(c), BodyText(ks, lastSize, lastExt, trailers), [CR]);
    ChunkTraceReads(c.t, ks);
    PushReads(ChunkTrace(c.t, ks), ChunkHeader(0));
    FieldTraceReads(Push(ChunkTrace(c.t, ks), ChunkHeader(0)), trailers);
  }

  /** On a strict part of a chunked body the message is neither refused nor complete. */
  lemma ChunkedBodyPending(max: nat, c: Config, ks: seq<Chunk>, lastSize: seq<char>, lastExt: seq<char>,
                           trailers: seq<Field>, k: nat)
    requires c.p.state == ChunkSizeStart && c.p.nread == 0
    requires forall i :: 0 <= i < |ks| ==> IsChunk(max, ks[i])
    requires IsSizeLine(max, lastSize, lastExt) && HexValue(lastSize) == 0
    requires forall i :: 0 <= i < |trailers| ==> IsPlainField(trailers[i])
    requires |FieldLines(trailers)| + 2 <= max
    requires k < |EncodeBody(ks, lastSize, lastExt, trailers)|
    ensures var r := RunOn(max, Going(c), EncodeBody(ks, lastSize, lastExt, trailers)[..k]);
            r.Going? && Completions(r.c.t) == Completions(c.t)
  {
    hide RunOn, Completions, HexValue, IsSizeLine, IsPlainField, IsChunk, FieldLines, EncodeBody, BodyText;
    BodyOpen(max, c, ks, lastSize, lastExt, trailers);
    var body := EncodeBody(ks, lastSize, lastExt, trailers);
    var open := BodyText(ks, lastSize, lastExt, trailers) + [CR];
    BodySplit(ks, lastSize, lastExt, trailers);
    assert open == body[..k] + open[k..];
    PartPending(max, c, body[..k], open[k..]);
  }

  // ---------- in any segmentation ----------

  /** An identity body cut into any pieces. */
  lemma IdentityBodySegmented(max: nat, c: Config, pieces: seq<seq<char>>)
    requires c.p.state == BodyIdentity && 0 < |Flatten(pieces)| == c.p.contentLength
    ensures FeedOn(max, Going(c), pieces) ==
            Completed(BodyDone(c.p), Push(c.t, Data(BodyData, Flatten(pieces))), c.n + |Flatten(pieces)|)
  {
    hide RunOn, Push, Completed;
    Segmentation(max, Going(c), pieces);
    IdentityBodyDelivered(max, c, Flatten(pieces));
  }

  /** A chunked body cut into any pieces: the body delivered is the concatenation of the chunks, and the message
      completes exactly once, on the last byte. */
  lemma ChunkedBodySegmented(max: nat, c: Config, ks: seq<Chunk>, lastSize: seq<char>, lastExt: seq<char>,
                             trailers: seq<Field>, pieces: seq<seq<char>>)
    requires c.p.state == ChunkSizeStart && c.p.nread == 0
    requires forall i :: 0 <= i < |ks| ==> IsChunk(max, ks[i])
    requires IsSizeLine(max, lastSize, lastExt) && HexValue(lastSize) == 0
    requires forall i :: 0 <= i < |trailers| ==> IsPlainField(trailers[i])
    requires |FieldLines(trailers)| + 2 <= max
    requires Flatten(pieces) == EncodeBody(ks, lastSize, lastExt, trailers)
    ensures var r := FeedOn(max, Going(c), pieces);
            && !r.Failed? && r.c.n == c.n + |Flatten(pieces)|
            && BodyOf(r.c.t) == BodyOf(c.t) + ChunkBytes(ks)
            && Completions(r.c.t) == Completions(c.t) + 1
  {
    hide RunOn, Push, EncodeBody, HexValue, IsSizeLine, IsPlainField, IsChunk, FieldLines, BodyOf, Completions,
      ChunkBytes;
    Segmentation(max, Going(c), pieces);
    ChunkedBodyBytes(max, c, ks, lastSize, lastExt, trailers);
  }
}
