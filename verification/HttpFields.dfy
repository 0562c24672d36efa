/** What a header line printed as `name: value` does to the parser. */
module HttpFields {
  import opened Options
  import opened HttpTypes
  import opened HttpAutomaton
  import opened HttpBulk
  import opened HttpNames
  import opened HttpText
  import opened HttpCharacters

  // ---------- numbers ----------

  predicate AllDigits(ds: seq<char>) { forall k :: 0 <= k < |ds| ==> IsNum(ds[k]) }

  /** The number a string of decimal digits denotes. */
  function DecValue(ds: seq<char>): int {
    if ds == [] then 0 else DecValue(ds[..|ds| - 1]) * 10 + Digit(ds[|ds| - 1])
  }

  lemma {:induction false} DecValueNonNegative(ds: seq<char>)
    requires AllDigits(ds)
    ensures DecValue(ds) >= 0
  {
    if ds != [] { DecValueNonNegative(ds[..|ds| - 1]); }
  }

  /** The largest content length that is accepted: one digit short of where a conservative test could wrap. */
  const MAX_CONTENT_LENGTH: int := 18446744073709551609

  lemma LengthDigit(v: ValueState, ch: char)
    requires v.headerState == ContentLengthNum && IsNum(ch)
    ensures ValueByte(v, ch) == if v.contentLength > (ULLONG_MAX - 10) / 10 then None
                                else Some(v.(contentLength := v.contentLength * 10 + Digit(ch)))
  {}

  lemma DigitIsHeaderChar(ch: char)
    requires IsNum(ch)
    ensures IsHeaderChar(ch) && ch != CR && ch != LF && 0 <= Digit(ch) <= 9
  {}

  /** The digits of a Content-Length are accepted exactly when their value is at most MAX_CONTENT_LENGTH,
      and then the value is the true one and not the sentinel. */
  lemma {:induction false} ContentLengthExact(v: ValueState, ds: seq<char>)
    requires ds != [] && AllDigits(ds)
    requires v.headerState == ContentLengthNum && v.contentLength == Digit(ds[0])
    ensures ValueFold(v, ds[1..]) ==
            if DecValue(ds) <= MAX_CONTENT_LENGTH < ULLONG_MAX then Some(v.(contentLength := DecValue(ds))) else None
  {
    hide ValueByte, IsHeaderChar;
    var last := |ds| - 1;
    assert DecValue(ds) == DecValue(ds[..last]) * 10 + Digit(ds[last]);
    DigitIsHeaderChar(ds[last]);
    if last == 0 {
      assert ds[..0] == [] && ds[1..] == [];
    } else {
      var init := ds[..last];
      ContentLengthExact(v, init);
      DecValueNonNegative(init);
      assert ds[1..][..last - 1] == init[1..];
      if DecValue(init) <= MAX_CONTENT_LENGTH {
        LengthDigit(v.(contentLength := DecValue(init)), ds[last]);
      }
    }
  }

  // ---------- lines ----------

  /** What a byte that does not fold the line sees after a header value: the value is over. */
  function Settle(c: Config): Config {
    if c.p.state == HeaderValueLws then
      c.(p := c.p.(flags := FinishValue(c.p.flags, c.p.headerState), state := HeaderFieldStart))
    else if c.p.state == HeaderValueDiscardLws then
      c.(p := c.p.(flags := FinishValue(c.p.flags, c.p.headerState), state := HeaderFieldStart),
         t := Push(c.t, Data(ValueData, [])))
    else c
  }

  /** The parser is at the start of a header line, the line before it perhaps not settled yet. */
  predicate AtLine(c: Config) {
    c.p.state == HeaderFieldStart || c.p.state == HeaderValueLws
    || (c.p.state == HeaderValueDiscardLws && c.p.headerState != ContentLength)
  }

  lemma FinishAgain(p: Parser, t: seq<Event>, n: nat, ch: char, q: Parser, out: Option<Event>)
    requires Pass(p, ch) == Again(q, out)
    ensures Finish(p, t, n, ch) == Finish(q, PushOpt(t, out), n, ch)
  {
    hide Pass, PushOpt;
  }

  lemma LwsPass(p: Parser, ch: char)
    requires ch != ' ' && ch != TAB
    ensures var q := p.(flags := FinishValue(p.flags, p.headerState), state := HeaderFieldStart);
            && (p.state == HeaderValueLws ==> Pass(p, ch) == Again(q, None))
            && (p.state == HeaderValueDiscardLws && p.headerState != ContentLength ==>
                  Pass(p, ch) == Again(q, Some(Data(ValueData, []))))
  {
    hide FinishValue, FirstValueByte, ValueByte;
  }

  lemma LineCounted(max: nat, c: Config, ch: char)
    requires c.p.state == HeaderFieldStart || c.p.state == HeaderValueLws || c.p.state == HeaderValueDiscardLws
    ensures Step(max, c, ch) ==
            if c.p.nread + 1 > max then Failed else Finish(c.p.(nread := c.p.nread + 1), c.t, c.n, ch)
  {
    hide Finish;
  }

  lemma SettleStep(max: nat, c: Config, ch: char)
    requires AtLine(c) && ch != ' ' && ch != TAB
    ensures Step(max, c, ch) == Step(max, Settle(c), ch)
  {
    hide Finish, Step, Settle;
    var k := c.p.nread + 1;
    SettledFinish(c, k, ch);
    SettleKeeps(c);
    LineCounted(max, c, ch);
    LineCounted(max, Settle(c), ch);
  }

  lemma SettledFinish(c: Config, k: nat, ch: char)
    requires AtLine(c) && ch != ' ' && ch != TAB
    ensures Finish(c.p.(nread := k), c.t, c.n, ch) == Finish(Settle(c).p.(nread := k), Settle(c).t, c.n, ch)
  {
    hide Finish, Pass, FinishValue, Push;
    var p := c.p.(nread := k);
    var q := p.(flags := FinishValue(p.flags, p.headerState), state := HeaderFieldStart);
    LwsPass(p, ch);
    if c.p.state == HeaderValueLws { FinishAgain(p, c.t, c.n, ch, q, None); }
    if c.p.state == HeaderValueDiscardLws { FinishAgain(p, c.t, c.n, ch, q, Some(Data(ValueData, []))); }
  }

  predicate IsName(k: seq<char>) { k != [] && AllTokens(k) }

  /** A value without line ends, and without leading blanks, which the parser would drop. */
  predicate IsValue(v: seq<char>) {
    AllHeaderChars(v) && NoLineEnd(v) && (v != [] ==> v[0] != ' ' && v[0] != TAB)
  }

  /** The configuration after a header name and its colon. */
  function AfterName(c: Config, k: seq<char>): Config
    requires k != []
  {
    var (h, i) := NameState(k);
    Config(c.p.(state := HeaderValueDiscardWs, headerState := h, index := i, nread := c.p.nread + |k| + 1),
           Push(c.t, Data(FieldData, k)), c.n + |k| + 1)
  }

  lemma TokenNotBlank(ch: char)
    requires IsToken(ch)
    ensures ch != ' ' && ch != TAB && ch != CR && ch != LF && ch != ':'
  {}

  lemma NameStart(p: Parser, t: seq<Event>, n: nat, ch: char)
    requires p.state == HeaderFieldStart && IsToken(ch)
    ensures Finish(p, t, n, ch) ==
            Going(Config(p.(state := HeaderField, index := 0, headerState := FirstFieldByte(TokenOf(ch))),
                         Push(t, Data(FieldData, [ch])), n + 1))
  {
    hide TokenOf, FirstFieldByte;
    TokenNotBlank(ch);
  }

  lemma NameEnd(p: Parser, t: seq<Event>, n: nat)
    requires p.state == HeaderField
    ensures Finish(p, t, n, ':') == Going(Config(p.(state := HeaderValueDiscardWs), t, n + 1))
  {}

  lemma CountedStep(max: nat, c: Config, ch: char)
    requires ParsingHeader(c.p.state) && c.p.nread < max
    ensures Step(max, c, ch) == Finish(c.p.(nread := c.p.nread + 1), c.t, c.n, ch)
  {
    hide Finish, ParsingHeader;
  }

  lemma Run2(max: nat, c: Config, d: Config, a: char, bs: seq<char>)
    requires Step(max, c, a) == Going(d)
    ensures RunOn(max, Going(c), [a] + bs) == RunOn(max, Going(d), bs)
  {
    hide Step;
    RunAppend(max, Going(c), [a], bs);
    RunOne(max, c, a);
  }

  /** A counted byte that is consumed in one pass without a callback. */
  lemma Move(max: nat, c: Config, ch: char, q: Parser)
    requires ParsingHeader(c.p.state) && c.p.nread < max
    requires Pass(c.p.(nread := c.p.nread + 1), ch) == Consumed(q, None)
    ensures Step(max, c, ch) == Going(Config(q, c.t, c.n + 1))
  {
    hide Pass, ParsingHeader;
  }

  /** `c` with its parser moved to state `s` by one byte. */
  function Moved(c: Config, s: State): Config {
    Config(c.p.(state := s, nread := c.p.nread + 1), c.t, c.n + 1)
  }

  lemma NameMove(max: nat, c: Config, ch: char, s: State)
    requires ParsingHeader(c.p.state) && c.p.nread < max
    requires Pass(c.p.(nread := c.p.nread + 1), ch) == Consumed(c.p.(state := s, nread := c.p.nread + 1), None)
    ensures Step(max, c, ch) == Going(Moved(c, s))
  {
    hide Pass, ParsingHeader;
    Move(max, c, ch, c.p.(state := s, nread := c.p.nread + 1));
  }

  lemma NameRun(max: nat, c: Config, k: seq<char>)
    requires c.p.state == HeaderFieldStart && IsName(k) && c.p.nread + |k| + 1 <= max
    ensures RunOn(max, Going(c), k + [':']) == Going(AfterName(c, k))
  {
    hide Finish, Step, RunOn, Push, FieldFold, IsToken, FirstFieldByte, TokenOf;
    var h := FirstFieldByte(TokenOf(k[0]));
    var d := Config(c.p.(state := HeaderField, index := 0, headerState := h, nread := c.p.nread + 1),
                    Push(c.t, Data(FieldData, [k[0]])), c.n + 1);
    CountedStep(max, c, k[0]);
    NameStart(c.p.(nread := c.p.nread + 1), c.t, c.n, k[0]);
    Run2(max, c, d, k[0], k[1..] + [':']);
    assert k + [':'] == [k[0]] + (k[1..] + [':']);
    RunAppend(max, Going(d), k[1..], [':']);
    NameRest(max, d, k, c.t);
    var (g, i) := NameState(k);
    var e := Config(d.p.(headerState := g, index := i, nread := c.p.nread + |k|), Push(c.t, Data(FieldData, k)),
                    c.n + |k|);
    RunOne(max, e, ':');
    CountedStep(max, e, ':');
    NameEnd(e.p.(nread := e.p.nread + 1), e.t, e.n);
  }

  lemma NameRest(max: nat, d: Config, k: seq<char>, t: seq<Event>)
    requires IsName(k) && d.p.state == HeaderField && d.p.nread + |k| - 1 <= max
    requires d.p.headerState == FirstFieldByte(TokenOf(k[0])) && d.p.index == 0
    requires d.t == Push(t, Data(FieldData, [k[0]]))
    ensures var (g, i) := NameState(k);
            RunOn(max, Going(d), k[1..]) ==
            Going(Config(d.p.(headerState := g, index := i, nread := d.p.nread + |k| - 1), Push(t, Data(FieldData, k)),
                         d.n + |k| - 1))
  {
    hide Finish, Step, FieldFold, IsToken, FirstFieldByte, TokenOf, Push;
    if |k| == 1 {
      assert k == [k[0]] && k[1..] == [];
      FieldFoldNone(d.p.headerState, 0);
    } else {
      var bs := k[1..];
      CountedStep(max, d, bs[0]);
      RunOne(max, d, bs[0]);
      assert bs == [bs[0]] + bs[1..];
      RunAppend(max, Going(d), [bs[0]], bs[1..]);
      FieldRun(max, d.p.(nread := d.p.nread + 1), d.t, d.n, bs);
      PushMerge(t, FieldData, [k[0]], bs);
      assert [k[0]] + bs == k;
    }
  }

  lemma FieldFoldNone(h: HeaderState, i: nat)
    ensures FieldFold(h, i, []) == (h, i)
  {}

  // ---------- values ----------

  const CRLF: seq<char> := [CR, LF]

  function FieldLine(k: seq<char>, v: seq<char>): seq<char> {
    (k + [':']) + ([' '] + (v + CRLF))
  }

  lemma BlankSkipped(p: Parser, t: seq<Event>, n: nat)
    requires p.state == HeaderValueDiscardWs
    ensures Finish(p, t, n, ' ') == Going(Config(p, t, n + 1))
  {}

  lemma ValueFirst(p: Parser, t: seq<Event>, n: nat, ch: char)
    requires p.state == HeaderValueDiscardWs && ch != ' ' && ch != TAB && ch != CR && ch != LF
    requires FirstValueByte(p, ch).Consumed?
    ensures FirstValueByte(p, ch).out == Some(Data(ValueData, [ch]))
    ensures Finish(p, t, n, ch) == Going(Config(FirstValueByte(p, ch).p, Push(t, Data(ValueData, [ch])), n + 1))
  {
    assert Pass(p, ch) == FirstValueByte(p, ch);
  }

  /** A value's CR and LF. */
  lemma ValueCrlf(max: nat, c: Config)
    requires c.p.state == HeaderValue && c.p.nread + 2 <= max
    ensures RunOn(max, Going(c), CRLF) ==
            Going(Config(c.p.(state := HeaderValueLws, nread := c.p.nread + 2), c.t, c.n + 2))
  {
    hide RunOn, Finish;
    var d := Config(c.p.(state := HeaderAlmostDone, nread := c.p.nread + 1), c.t, c.n + 1);
    CountedStep(max, c, CR);
    ValueCr(c.p.(nread := c.p.nread + 1), c.t, c.n);
    Run2(max, c, d, CR, [LF]);
    assert [CR] + [LF] == CRLF;
    RunOne(max, d, LF);
    CountedStep(max, d, LF);
    ValueLf(d.p.(nread := d.p.nread + 1), d.t, d.n);
  }

  lemma ValueCr(p: Parser, t: seq<Event>, n: nat)
    requires p.state == HeaderValue
    ensures Finish(p, t, n, CR) == Going(Config(p.(state := HeaderAlmostDone), t, n + 1))
  {
    assert Pass(p, CR) == Consumed(p.(state := HeaderAlmostDone), None);
  }

  lemma ValueLf(p: Parser, t: seq<Event>, n: nat)
    requires p.state == HeaderAlmostDone
    ensures Finish(p, t, n, LF) == Going(Config(p.(state := HeaderValueLws), t, n + 1))
  {}

  /** The bytes of a value after its first. */
  lemma ValueRest(max: nat, d: Config, v: seq<char>, t: seq<Event>, w: ValueState)
    requires v != [] && NoLineEnd(v) && d.p.state == HeaderValue && d.p.nread + |v| - 1 <= max
    requires d.t == Push(t, Data(ValueData, [v[0]])) && ValueFold(ValueOf(d.p), v[1..]) == Some(w)
    ensures RunOn(max, Going(d), v[1..]) ==
            Going(Config(SetValue(d.p, w).(nread := d.p.nread + |v| - 1), Push(t, Data(ValueData, v)), d.n + |v| - 1))
  {
    hide Finish, Step, Push, ValueByte, IsHeaderChar;
    if |v| == 1 {
      assert v == [v[0]] && v[1..] == [];
    } else {
      var bs := v[1..];
      CountedStep(max, d, bs[0]);
      RunOne(max, d, bs[0]);
      assert bs == [bs[0]] + bs[1..];
      RunAppend(max, Going(d), [bs[0]], bs[1..]);
      ValueRun(max, d.p.(nread := d.p.nread + 1), d.t, d.n, bs);
      PushMerge(t, ValueData, [v[0]], bs);
      assert [v[0]] + bs == v;
    }
  }

  /** The configuration after a non-empty value and its line end. */
  function AfterValue(c: Config, q: Parser, w: ValueState, v: seq<char>): Config {
    Config(SetValue(q, w).(state := HeaderValueLws, nread := c.p.nread + |v| + 3),
           Push(c.t, Data(ValueData, v)), c.n + |v| + 3)
  }

  /** The end of a value, settled. */
  lemma ValueSettled(c: Config, q: Parser, w: ValueState, v: seq<char>)
    ensures var d := AfterValue(c, q, w, v);
            && AtLine(d) && d.n == c.n + |v| + 3 && Settle(d).t == Push(c.t, Data(ValueData, v))
            && Settle(d).p == SetValue(q, w).(state := HeaderFieldStart, nread := c.p.nread + |v| + 3,
                                              flags := FinishValue(w.flags, w.headerState))
  {
    hide FinishValue, Push;
  }

  lemma ValueLineRun(max: nat, c: Config, v: seq<char>, q: Parser, w: ValueState)
    requires c.p.state == HeaderValueDiscardWs && v != [] && IsValue(v) && c.p.nread + |v| + 3 <= max
    requires var o := FirstValueByte(c.p.(nread := c.p.nread + 2), v[0]); o.Consumed? && o.p == q
    requires q.state == HeaderValue && q.nread == c.p.nread + 2
    requires ValueFold(ValueOf(q), v[1..]) == Some(w)
    ensures RunOn(max, Going(c), [' '] + (v + CRLF)) == Going(AfterValue(c, q, w, v))
  {
    hide RunOn, Finish, FirstValueByte, ValueFold, Push, IsHeaderChar, Step;
    var c1 := Config(c.p.(nread := c.p.nread + 1), c.t, c.n + 1);
    CountedStep(max, c, ' ');
    BlankSkipped(c1.p, c.t, c.n);
    Run2(max, c, c1, ' ', v + CRLF);
    var c2 := Config(q, Push(c.t, Data(ValueData, [v[0]])), c.n + 2);
    CountedStep(max, c1, v[0]);
    ValueFirst(c1.p.(nread := c.p.nread + 2), c.t, c.n + 1, v[0]);
    assert v + CRLF == [v[0]] + (v[1..] + CRLF);
    Run2(max, c1, c2, v[0], v[1..] + CRLF);
    ValueRest(max, c2, v, c.t, w);
    RunAppend(max, Going(c2), v[1..], CRLF);
    ValueCrlf(max, Config(SetValue(q, w).(nread := c.p.nread + |v| + 1), Push(c.t, Data(ValueData, v)), c.n + |v| + 1));
  }

  /** An empty value: its callback comes with the next byte. */
  lemma EmptyLineRun(max: nat, c: Config)
    requires c.p.state == HeaderValueDiscardWs && c.p.nread + 3 <= max
    ensures RunOn(max, Going(c), [' '] + ([] + CRLF)) ==
            Going(Config(c.p.(state := HeaderValueDiscardLws, nread := c.p.nread + 3), c.t, c.n + 3))
  {
    hide RunOn, Finish;
    var c1 := Config(c.p.(nread := c.p.nread + 1), c.t, c.n + 1);
    var c2 := Config(c.p.(state := HeaderValueDiscardWsAlmostDone, nread := c.p.nread + 2), c.t, c.n + 2);
    CountedStep(max, c, ' ');
    BlankSkipped(c1.p, c.t, c.n);
    Run2(max, c, c1, ' ', CRLF);
    assert [] + CRLF == CRLF && CRLF == [CR] + [LF];
    CountedStep(max, c1, CR);
    EmptyCr(c1.p.(nread := c.p.nread + 2), c.t, c.n + 1);
    Run2(max, c1, c2, CR, [LF]);
    RunOne(max, c2, LF);
    CountedStep(max, c2, LF);
    EmptyLf(c2.p.(nread := c.p.nread + 3), c.t, c.n + 2);
  }

  lemma EmptyCr(p: Parser, t: seq<Event>, n: nat)
    requires p.state == HeaderValueDiscardWs
    ensures Finish(p, t, n, CR) == Going(Config(p.(state := HeaderValueDiscardWsAlmostDone), t, n + 1))
  {}

  lemma EmptyLf(p: Parser, t: seq<Event>, n: nat)
    requires p.state == HeaderValueDiscardWsAlmostDone
    ensures Finish(p, t, n, LF) == Going(Config(p.(state := HeaderValueDiscardLws), t, n + 1))
  {}

  // ---------- whole lines ----------

  lemma {:induction false} SettleRun(max: nat, c: Config, bs: seq<char>)
    requires AtLine(c) && bs != [] && bs[0] != ' ' && bs[0] != TAB
    ensures RunOn(max, Going(c), bs) == RunOn(max, Going(Settle(c)), bs)
  {
    hide Step, Settle;
    assert bs == [bs[0]] + bs[1..];
    RunAppend(max, Going(c), [bs[0]], bs[1..]);
    RunAppend(max, Going(Settle(c)), [bs[0]], bs[1..]);
    RunOne(max, c, bs[0]);
    RunOne(max, Settle(c), bs[0]);
    SettleStep(max, c, bs[0]);
  }

  /** The parsers of two header-line starts agree but for the name matcher and the byte count. */
  predicate SameBut(p: Parser, q: Parser, nread: nat) {
    p == q.(headerState := p.headerState, index := p.index, nread := nread)
  }

  lemma PlainName(k: seq<char>)
    requires k != [] && NameClass(LowerName(k)) == General
    ensures var h := NameState(k).0;
            !Framing(h) && h != ContentLengthWs && h != MatchingConnectionTokenStart
              && FinishValue(NO_FLAGS, h) == NO_FLAGS
    ensures forall f {:trigger FinishValue(f, NameState(k).0)} :: FinishValue(f, NameState(k).0) == f
  {
    NameMatchedExactly(k);
    FoldTracks(k);
  }

  lemma PlainFirst(p: Parser, ch: char)
    requires !Framing(p.headerState) && p.headerState != ContentLengthWs
             && p.headerState != MatchingConnectionTokenStart
    ensures FirstValueByte(p, ch) ==
            Consumed(p.(state := HeaderValue, index := 0, headerState := General), Some(Data(ValueData, [ch])))
  {}

  /** The start of a header line: the line before is settled, the name and its colon are taken. */
  lemma LineStarts(max: nat, c: Config, k: seq<char>, v: seq<char>)
    requires AtLine(c) && IsName(k) && c.p.nread + |FieldLine(k, v)| <= max
    ensures RunOn(max, Going(c), FieldLine(k, v)) == RunOn(max, Going(AfterName(Settle(c), k)), [' '] + (v + CRLF))
  {
    hide RunOn, IsToken, NameState, Settle, AfterName;
    var e := Settle(c);
    SettleKeeps(c);
    TokenNotBlank(k[0]);
    assert FieldLine(k, v)[0] == k[0];
    SettleRun(max, c, FieldLine(k, v));
    NameRun(max, e, k);
    RunAppend(max, Going(e), k + [':'], [' '] + (v + CRLF));
  }

  lemma SettleKeeps(c: Config)
    requires AtLine(c)
    ensures Settle(c).p.nread == c.p.nread && Settle(c).p.state == HeaderFieldStart && Settle(c).n == c.n
  {
    hide FinishValue, Push;
  }

  /** A header line of no meaning to the framing is delivered as it stands and changes nothing else. */
  lemma PlainLine(max: nat, c: Config, k: seq<char>, v: seq<char>) returns (d: Config)
    requires AtLine(c) && IsName(k) && NameClass(LowerName(k)) == General && IsValue(v)
    requires c.p.nread + |FieldLine(k, v)| <= max
    ensures RunOn(max, Going(c), FieldLine(k, v)) == Going(d) && AtLine(d)
    ensures Settle(d).t == Push(Push(Settle(c).t, Data(FieldData, k)), Data(ValueData, v))
    ensures SameBut(Settle(d).p, Settle(c).p, c.p.nread + |FieldLine(k, v)|)
    ensures d.n == c.n + |FieldLine(k, v)|
  {
    hide RunOn, Settle, AllTokens, IsValue, NameState, NameClass, LowerName, FinishValue, Push, AtLine;
    LineStarts(max, c, k, v);
    SettleKeeps(c);
    var e := Settle(c);
    var a := AfterName(e, k);
    PlainName(k);
    if v == [] { d := PlainEmpty(max, a); } else { d := PlainValue(max, a, v); }
  }

  lemma PlainEmpty(max: nat, a: Config) returns (d: Config)
    requires a.p.state == HeaderValueDiscardWs && a.p.nread + 3 <= max
    requires !Framing(a.p.headerState) && FinishValue(a.p.flags, a.p.headerState) == a.p.flags
    ensures RunOn(max, Going(a), [' '] + ([] + CRLF)) == Going(d) && AtLine(d) && d.n == a.n + 3
    ensures Settle(d).t == Push(a.t, Data(ValueData, []))
    ensures SameBut(Settle(d).p, a.p.(state := HeaderFieldStart), a.p.nread + 3)
  {
    hide RunOn, FinishValue, Push;
    EmptyLineRun(max, a);
    d := Config(a.p.(state := HeaderValueDiscardLws, nread := a.p.nread + 3), a.t, a.n + 3);
  }

  lemma PlainValue(max: nat, a: Config, v: seq<char>) returns (d: Config)
    requires a.p.state == HeaderValueDiscardWs && v != [] && IsValue(v) && a.p.nread + |v| + 3 <= max
    requires !Framing(a.p.headerState) && a.p.headerState != ContentLengthWs
             && a.p.headerState != MatchingConnectionTokenStart
    ensures RunOn(max, Going(a), [' '] + (v + CRLF)) == Going(d) && AtLine(d) && d.n == a.n + |v| + 3
    ensures Settle(d).t == Push(a.t, Data(ValueData, v))
    ensures SameBut(Settle(d).p, a.p.(state := HeaderFieldStart), a.p.nread + |v| + 3)
  {
    hide RunOn, FinishValue, Push, ValueFold, FirstValueByte, IsValue, AfterValue, Settle, AtLine, Framing;
    var q := a.p.(nread := a.p.nread + 2, state := HeaderValue, index := 0, headerState := General);
    PlainFirst(a.p.(nread := a.p.nread + 2), v[0]);
    GeneralRest(ValueOf(q), v);
    ValueLineRun(max, a, v, q, ValueOf(q));
    d := AfterValue(a, q, ValueOf(q), v);
    ValueSettled(a, q, ValueOf(q), v);
    PlainFlags(a.p.flags);
  }

  lemma GeneralRest(w: ValueState, v: seq<char>)
    requires w.headerState == General && v != [] && IsValue(v)
    ensures ValueFold(w, v[1..]) == Some(w)
  {
    hide ValueFold, IsHeaderChar;
    ValueFoldGeneral(w, v[1..]);
  }

  lemma PlainFlags(f: Flags)
    ensures FinishValue(f, General) == f && FinishValue(f, ContentLengthNum) == f
  {}

  lemma LengthFirst(p: Parser, ch: char)
    requires p.headerState == ContentLength && IsNum(ch) && !p.flags.contentLength
    ensures FirstValueByte(p, ch) ==
            Consumed(p.(state := HeaderValue, index := 0, flags := p.flags.(contentLength := true),
                        contentLength := Digit(ch), headerState := ContentLengthNum), Some(Data(ValueData, [ch])))
  {}

  lemma DigitsAreValue(v: seq<char>)
    requires AllDigits(v)
    ensures IsValue(v)
  {}

  /** A Content-Length line is delivered and sets the content length to the number it denotes. */
  lemma LengthLine(max: nat, c: Config, k: seq<char>, v: seq<char>) returns (d: Config)
    requires AtLine(c) && IsName(k) && NameClass(LowerName(k)) == ContentLength
    requires v != [] && AllDigits(v) && DecValue(v) <= MAX_CONTENT_LENGTH && !Settle(c).p.flags.contentLength
    requires c.p.nread + |FieldLine(k, v)| <= max
    ensures RunOn(max, Going(c), FieldLine(k, v)) == Going(d) && AtLine(d)
    ensures Settle(d).t == Push(Push(Settle(c).t, Data(FieldData, k)), Data(ValueData, v))
    ensures SameBut(Settle(d).p,
                    Settle(c).p.(flags := Settle(c).p.flags.(contentLength := true), contentLength := DecValue(v)),
                    c.p.nread + |FieldLine(k, v)|)
    ensures d.n == c.n + |FieldLine(k, v)|
  {
    hide RunOn, Settle, AllTokens, NameState, NameClass, LowerName, FinishValue, Push, AtLine, DecValue, AllDigits;
    LineStarts(max, c, k, v);
    SettleKeeps(c);
    NameMatchedExactly(k);
    d := LengthValue(max, AfterName(Settle(c), k), v);
  }

  lemma LengthValue(max: nat, a: Config, v: seq<char>) returns (d: Config)
    requires a.p.state == HeaderValueDiscardWs && a.p.headerState == ContentLength && !a.p.flags.contentLength
    requires v != [] && AllDigits(v) && DecValue(v) <= MAX_CONTENT_LENGTH && a.p.nread + |v| + 3 <= max
    ensures RunOn(max, Going(a), [' '] + (v + CRLF)) == Going(d) && AtLine(d) && d.n == a.n + |v| + 3
    ensures Settle(d).t == Push(a.t, Data(ValueData, v))
    ensures SameBut(Settle(d).p,
                    a.p.(state := HeaderFieldStart, flags := a.p.flags.(contentLength := true),
                         contentLength := DecValue(v)),
                    a.p.nread + |v| + 3)
  {
    hide RunOn, FinishValue, Push, ValueFold, FirstValueByte, IsHeaderChar, DecValue, IsValue, AfterValue, Settle,
      AtLine;
    DigitsAreValue(v);
    var b := a.p.(nread := a.p.nread + 2);
    LengthFirst(b, v[0]);
    var q := FirstValueByte(b, v[0]).p;
    ContentLengthExact(ValueOf(q), v);
    var w := ValueOf(q).(contentLength := DecValue(v));
    ValueLineRun(max, a, v, q, w);
    d := AfterValue(a, q, w, v);
    ValueSettled(a, q, w, v);
    PlainFlags(w.flags);
  }

  // ---------- the chunked transfer coding ----------

  /** `chunked`, in any mix of cases. */
  predicate IsChunkedValue(v: seq<char>) { Spells(v, "chunked") }

  /** The matcher's comparison finds the word in any spelling. */
  lemma ChunkedLower(v: seq<char>)
    requires IsChunkedValue(v)
    ensures |v| == |CHUNKED| && forall k :: 0 <= k < |v| ==> Lower(v[k]) == CHUNKED[k] && 'a' <= CHUNKED[k] <= 'z'
  {
    hide Lower;
    forall k | 0 <= k < |v| ensures Lower(v[k]) == CHUNKED[k] { LowerLetter(v[k], CHUNKED[k]); }
  }

  lemma LetterIsHeaderChar(ch: char)
    requires 'a' <= Lower(ch) <= 'z'
    ensures IsHeaderChar(ch) && ch != CR && ch != LF && ch != ' ' && ch != TAB
  {}

  lemma ChunkedIsValue(v: seq<char>)
    requires IsChunkedValue(v)
    ensures IsValue(v) && forall k :: 0 <= k < |v| ==> IsHeaderChar(v[k])
  {
    ChunkedLower(v);
    hide Lower, IsHeaderChar;
    forall k | 0 <= k < |v| ensures IsHeaderChar(v[k]) && v[k] != CR && v[k] != LF && v[k] != ' ' && v[k] != TAB {
      LetterIsHeaderChar(v[k]);
    }
  }

  /** The value matcher after the first `n` characters of `chunked`. */
  function ChunkedSeen(w: ValueState, n: nat): ValueState
    requires n >= 1
  {
    w.(index := n - 1,
       headerState := if n == |CHUNKED| then TransferEncodingChunked else MatchingTransferEncodingChunked)
  }

  lemma ChunkedByte(w: ValueState, ch: char)
    requires w.headerState == MatchingTransferEncodingChunked && w.index + 1 < |CHUNKED|
             && Lower(ch) == CHUNKED[w.index + 1]
    ensures ValueByte(w, ch) == Some(ChunkedSeen(w, w.index + 2))
  {
    hide Lower;
  }

  lemma {:induction false} ChunkedFold(w: ValueState, v: seq<char>, n: nat)
    requires IsChunkedValue(v) && 1 <= n <= |v|
    requires w.headerState == MatchingTransferEncodingChunked && w.index == 0
    ensures ValueFold(w, v[1..n]) == Some(ChunkedSeen(w, n))
  {
    hide ValueByte, IsHeaderChar, Lower, IsChunkedValue;
    ChunkedLower(v);
    if n == 1 {
      assert v[1..1] == [];
    } else {
      ChunkedFold(w, v, n - 1);
      assert v[1..n][..n - 2] == v[1..n - 1];
      ChunkedIsValue(v);
      ChunkedByte(ChunkedSeen(w, n - 1), v[n - 1]);
    }
  }

  lemma ChunkedHead(v: seq<char>)
    requires IsChunkedValue(v)
    ensures |v| == |CHUNKED| == 7 && Lower(v[0]) == 'c'
  {
    ChunkedLower(v);
  }

  lemma ChunkedFlag(f: Flags)
    ensures FinishValue(f, TransferEncodingChunked) == f.(chunked := true)
  {}

  lemma ChunkedFirst(p: Parser, ch: char)
    requires p.headerState == TransferEncoding && Lower(ch) == 'c'
    ensures FirstValueByte(p, ch) ==
            Consumed(p.(state := HeaderValue, index := 0, headerState := MatchingTransferEncodingChunked),
                     Some(Data(ValueData, [ch])))
  {}

  /** A Transfer-Encoding line with the value `chunked` is delivered and sets the chunked flag. */
  lemma ChunkedLine(max: nat, c: Config, k: seq<char>, v: seq<char>) returns (d: Config)
    requires AtLine(c) && IsName(k) && NameClass(LowerName(k)) == TransferEncoding && IsChunkedValue(v)
    requires c.p.nread + |FieldLine(k, v)| <= max
    ensures RunOn(max, Going(c), FieldLine(k, v)) == Going(d) && AtLine(d)
    ensures Settle(d).t == Push(Push(Settle(c).t, Data(FieldData, k)), Data(ValueData, v))
    ensures SameBut(Settle(d).p, Settle(c).p.(flags := Settle(c).p.flags.(chunked := true)),
                    c.p.nread + |FieldLine(k, v)|)
    ensures d.n == c.n + |FieldLine(k, v)|
  {
    hide RunOn, Settle, AllTokens, NameState, NameClass, LowerName, FinishValue, Push, AtLine, IsChunkedValue;
    LineStarts(max, c, k, v);
    SettleKeeps(c);
    NameMatchedExactly(k);
    d := ChunkedValue(max, AfterName(Settle(c), k), v);
  }

  lemma ChunkedValue(max: nat, a: Config, v: seq<char>) returns (d: Config)
    requires a.p.state == HeaderValueDiscardWs && a.p.headerState == TransferEncoding
    requires IsChunkedValue(v) && a.p.nread + |v| + 3 <= max
    ensures RunOn(max, Going(a), [' '] + (v + CRLF)) == Going(d) && AtLine(d) && d.n == a.n + |v| + 3
    ensures Settle(d).t == Push(a.t, Data(ValueData, v))
    ensures SameBut(Settle(d).p, a.p.(state := HeaderFieldStart, flags := a.p.flags.(chunked := true)),
                    a.p.nread + |v| + 3)
  {
    ChunkedIsValue(v);
    ChunkedHead(v);
    hide RunOn, Push, ValueFold, FirstValueByte, IsHeaderChar, IsValue, IsChunkedValue, FinishValue, AfterValue,
      Settle, AtLine;
    var b := a.p.(nread := a.p.nread + 2);
    ChunkedFirst(b, v[0]);
    var q := FirstValueByte(b, v[0]).p;
    ChunkedFold(ValueOf(q), v, |v|);
    assert v[1..|v|] == v[1..];
    var w := ChunkedSeen(ValueOf(q), |v|);
    ValueLineRun(max, a, v, q, w);
    d := AfterValue(a, q, w, v);
    ValueSettled(a, q, w, v);
    ChunkedFlag(w.flags);
  }

  // ---------- any transfer coding ----------

  /** `chunked` in any spelling, with spaces behind it perhaps. */
  predicate IsChunkedCoding(v: seq<char>) {
    |v| >= 7 && Spells(v[..7], "chunked") && forall i :: 7 <= i < |v| ==> v[i] == ' '
  }

  /** The value matcher's state after the bytes `bs` of a transfer coding. */
  function TransferSeen(bs: seq<char>): HeaderState {
    if |bs| < 7 && Begins(bs, "chunked") then MatchingTransferEncodingChunked
    else if IsChunkedCoding(bs) then TransferEncodingChunked
    else General
  }

  predicate TransferTracks(w: ValueState, p: Parser, bs: seq<char>) {
    && w.headerState == TransferSeen(bs) && w.flags == p.flags && w.contentLength == p.contentLength
    && (w.headerState == MatchingTransferEncodingChunked ==> w.index == |bs| - 1)
  }

  /** What one more byte makes of it. */
  lemma TransferNext(bs: seq<char>, c: char)
    requires bs != [] && c != CR
    ensures var g := TransferSeen(bs + [c]);
            match TransferSeen(bs)
            case MatchingTransferEncodingChunked =>
              |bs| < 7 && g == if Lower(c) != "chunked"[|bs|] then General
                               else if |bs| == 6 then TransferEncodingChunked else MatchingTransferEncodingChunked
            case TransferEncodingChunked => g == if c == ' ' then TransferEncodingChunked else General
            case _ => g == General
  {
    BeginsNext(bs, c, "chunked");
    if |bs| < 7 { LowerLetter(c, "chunked"[|bs|]); }
    if |bs| == 6 {
      assert (bs + [c])[..7] == bs + [c];
      assert Spells(bs + [c], "chunked") <==> Begins(bs + [c], "chunked");
    }
    if |bs| >= 7 {
      assert (bs + [c])[..7] == bs[..7] && (bs + [c])[|bs|] == c;
      assert forall i :: 7 <= i < |bs| ==> (bs + [c])[i] == bs[i];
    }
    hide Lower, SameLetter, Begins;
  }

  lemma TransferByte(w: ValueState, p: Parser, bs: seq<char>, c: char)
    requires bs != [] && TransferTracks(w, p, bs) && c != CR
    ensures ValueByte(w, c).Some? && TransferTracks(ValueByte(w, c).value, p, bs + [c])
  {
    TransferNext(bs, c);
    LowerPositive(c);
    hide Lower, TransferSeen;
  }

  lemma LowerPositive(c: char)
    ensures Lower(c) != '\0'
  {}

  lemma {:induction false} TransferFold(p: Parser, w: ValueState, v: seq<char>, n: nat)
    requires AllHeaderChars(v) && NoLineEnd(v) && 1 <= n <= |v| && TransferTracks(w, p, v[..1])
    ensures ValueFold(w, v[1..n]).Some? && TransferTracks(ValueFold(w, v[1..n]).value, p, v[..n])
  {
    hide ValueByte, IsHeaderChar, TransferTracks;
    if n == 1 {
      assert v[1..1] == [];
    } else {
      TransferFold(p, w, v, n - 1);
      assert v[1..n][..n - 2] == v[1..n - 1] && v[..n] == v[..n - 1] + [v[n - 1]];
      TransferByte(ValueFold(w, v[1..n - 1]).value, p, v[..n - 1], v[n - 1]);
    }
  }

  lemma TransferFirst(p: Parser, ch: char)
    requires p.headerState == TransferEncoding && ch != CR
    ensures var o := FirstValueByte(p, ch);
            && o.Consumed? && o.p == p.(state := HeaderValue, index := 0, headerState := o.p.headerState)
            && TransferTracks(ValueOf(o.p), p, [ch])
  {
    LowerLetter(ch, 'c');
    BeginsNext([], ch, "chunked");
    assert [] + [ch] == [ch];
    hide Lower, Begins;
  }

  lemma TransferValue(max: nat, a: Config, v: seq<char>) returns (d: Config)
    requires a.p.state == HeaderValueDiscardWs && a.p.headerState == TransferEncoding
    requires v != [] && IsValue(v) && a.p.nread + |v| + 3 <= max
    ensures RunOn(max, Going(a), [' '] + (v + CRLF)) == Going(d) && AtLine(d) && d.n == a.n + |v| + 3
    ensures Settle(d).t == Push(a.t, Data(ValueData, v))
    ensures SameBut(Settle(d).p, Coded(a.p.(state := HeaderFieldStart), v), a.p.nread + |v| + 3)
  {
    hide RunOn, Push, ValueFold, FirstValueByte, IsHeaderChar, FinishValue, AfterValue, Settle, AtLine, IsChunkedCoding,
      Begins;
    var b := a.p.(nread := a.p.nread + 2);
    TransferFirst(b, v[0]);
    var q := FirstValueByte(b, v[0]).p;
    assert v[..1] == [v[0]] && v[1..|v|] == v[1..] && v[..|v|] == v;
    TransferFold(b, ValueOf(q), v, |v|);
    var w := ValueFold(ValueOf(q), v[1..]).value;
    ValueLineRun(max, a, v, q, w);
    d := AfterValue(a, q, w, v);
    ValueSettled(a, q, w, v);
    TransferFlag(w.flags, v);
  }

  /** The parser told of a transfer coding. */
  function Coded(p: Parser, v: seq<char>): Parser {
    p.(flags := p.flags.(chunked := p.flags.chunked || IsChunkedCoding(v)))
  }

  lemma TransferFlag(f: Flags, v: seq<char>)
    ensures FinishValue(f, TransferSeen(v)) == f.(chunked := f.chunked || IsChunkedCoding(v))
  {
    hide Spells, Begins;
  }

  /** A Transfer-Encoding line sets the chunked flag exactly when its value is the one coding `chunked`; a list of
      codings that ends in it is not recognised. */
  lemma TransferLine(max: nat, c: Config, k: seq<char>, v: seq<char>) returns (d: Config)
    requires AtLine(c) && IsName(k) && Spells(k, "transfer-encoding") && IsValue(v)
    requires c.p.nread + |FieldLine(k, v)| <= max
    ensures RunOn(max, Going(c), FieldLine(k, v)) == Going(d) && AtLine(d)
    ensures Settle(d).t == Push(Push(Settle(c).t, Data(FieldData, k)), Data(ValueData, v))
    ensures SameBut(Settle(d).p, Coded(Settle(c).p, v), c.p.nread + |FieldLine(k, v)|)
    ensures d.n == c.n + |FieldLine(k, v)|
  {
    hide RunOn, Settle, AllTokens, NameState, Push, AtLine, Spells, IsValue, IsChunkedCoding;
    LineStarts(max, c, k, v);
    SettleKeeps(c);
    NamesLiterally(k);
    var a := AfterName(Settle(c), k);
    if v == [] {
      NoCoding();
      d := NoTransferValue(max, a);
    } else {
      d := TransferValue(max, a, v);
    }
  }

  lemma NoCoding()
    ensures !IsChunkedCoding([])
  {}

  lemma NoTransferValue(max: nat, a: Config) returns (d: Config)
    requires a.p.state == HeaderValueDiscardWs && a.p.headerState == TransferEncoding && a.p.nread + 3 <= max
    ensures RunOn(max, Going(a), [' '] + ([] + CRLF)) == Going(d) && AtLine(d) && d.n == a.n + 3
    ensures Settle(d).t == Push(a.t, Data(ValueData, []))
    ensures SameBut(Settle(d).p, a.p.(state := HeaderFieldStart), a.p.nread + 3)
  {
    hide RunOn, Push;
    EmptyLineRun(max, a);
    d := Config(a.p.(state := HeaderValueDiscardLws, nread := a.p.nread + 3), a.t, a.n + 3);
  }
}
