/** What the automaton does on a whole run of bytes that the parser takes in one sweep:
    a header name, a header value or a body. */
module HttpBulk {
  import opened Options
  import opened HttpTypes
  import opened HttpAutomaton

  predicate AllTokens(bs: seq<char>) { forall k :: 0 <= k < |bs| ==> IsToken(bs[k]) }

  /** The name matcher over a run of token bytes. */
  function FieldFold(h: HeaderState, index: nat, bs: seq<char>): (HeaderState, nat) {
    if bs == [] then (h, index)
    else
      var (g, i) := FieldFold(h, index, bs[..|bs| - 1]);
      FieldByte(g, i, TokenOf(bs[|bs| - 1]))
  }

  lemma {:induction false} FieldFoldGeneral(index: nat, bs: seq<char>)
    ensures FieldFold(General, index, bs) == (General, index)
  {
    if bs != [] { FieldFoldGeneral(index, bs[..|bs| - 1]); }
  }

  lemma {:induction false} FieldFoldAppend(h: HeaderState, index: nat, a: seq<char>, b: seq<char>)
    ensures var (g, i) := FieldFold(h, index, a); FieldFold(h, index, a + b) == FieldFold(g, i, b)
  {
    if b == [] {
      assert a + b == a;
    } else {
      FieldFoldAppend(h, index, a, b[..|b| - 1]);
      assert (a + b)[..|a + b| - 1] == a + b[..|b| - 1];
    }
  }

  /** The parser after the further header-name bytes `bs`, the first of which is already counted. */
  function AfterField(p: Parser, bs: seq<char>): Parser
    requires |bs| > 0
  {
    var (h, i) := FieldFold(p.headerState, p.index, bs);
    p.(headerState := h, index := i, nread := p.nread + |bs| - 1)
  }

  lemma FieldOne(p: Parser, t: seq<Event>, n: nat, ch: char)
    requires p.state == HeaderField && IsToken(ch)
    ensures Finish(p, t, n, ch) == Going(Config(AfterField(p, [ch]), Push(t, Data(FieldData, [ch])), n + 1))
  {
    assert [ch][..0] == [];
    assert FieldFold(p.headerState, p.index, [ch]) == FieldByte(p.headerState, p.index, TokenOf(ch));
  }

  lemma {:induction false} FieldRun(max: nat, p: Parser, t: seq<Event>, n: nat, bs: seq<char>)
    requires |bs| > 0 && AllTokens(bs) && p.state == HeaderField && p.nread <= max
    ensures RunOn(max, Finish(p, t, n, bs[0]), bs[1..]) ==
            if p.nread + |bs| - 1 > max then Failed
            else Going(Config(AfterField(p, bs), Push(t, Data(FieldData, bs)), n + |bs|))
  {
    hide Finish, FieldByte, FieldFold, Push, TokenOf, IsToken;
    var last := |bs| - 1;
    var init := bs[..last];
    if last == 0 {
      assert bs == [bs[0]];
      FieldOne(p, t, n, bs[0]);
    } else {
      FieldRun(max, p, t, n, init);
      assert bs[1..][..last - 1] == init[1..];
      assert bs == init + [bs[last]];
      PushMerge(t, FieldData, init, [bs[last]]);
      var q := AfterField(p, init);
      FieldOne(q.(nread := q.nread + 1), Push(t, Data(FieldData, init)), n + |init|, bs[last]);
      FieldFoldAppend(p.headerState, p.index, init, [bs[last]]);
    }
  }

  // ---------- header values ----------

  predicate NoLineEnd(bs: seq<char>) { forall k :: 0 <= k < |bs| ==> bs[k] != CR && bs[k] != LF }

  /** The value matchers over a run of bytes other than CR and LF; None when a byte is refused. */
  function ValueFold(v: ValueState, bs: seq<char>): Option<ValueState> {
    if bs == [] then Some(v)
    else
      match ValueFold(v, bs[..|bs| - 1])
      case None => None
      case Some(w) => if IsHeaderChar(bs[|bs| - 1]) then ValueByte(w, bs[|bs| - 1]) else None
  }

  lemma {:induction false} ValueFoldAppend(v: ValueState, a: seq<char>, b: seq<char>)
    ensures ValueFold(v, a + b) == match ValueFold(v, a) case None => None case Some(w) => ValueFold(w, b)
  {
    if b == [] {
      assert a + b == a;
    } else {
      ValueFoldAppend(v, a, b[..|b| - 1]);
      assert (a + b)[..|a + b| - 1] == a + b[..|b| - 1];
    }
  }

  predicate AllHeaderChars(bs: seq<char>) { forall k :: 0 <= k < |bs| ==> IsHeaderChar(bs[k]) }

  lemma {:induction false} ValueFoldGeneral(v: ValueState, bs: seq<char>)
    requires v.headerState == General && AllHeaderChars(bs)
    ensures ValueFold(v, bs) == Some(v)
  {
    if bs != [] {
      ValueFoldGeneral(v, bs[..|bs| - 1]);
      assert ValueByte(v, bs[|bs| - 1]) == Some(v.(headerState := General));
    }
  }

  lemma ValueOne(p: Parser, t: seq<Event>, n: nat, ch: char)
    requires p.state == HeaderValue && ch != CR && ch != LF
    ensures Finish(p, t, n, ch) ==
            if IsHeaderChar(ch) && ValueByte(ValueOf(p), ch).Some?
            then Going(Config(SetValue(p, ValueByte(ValueOf(p), ch).value), Push(t, Data(ValueData, [ch])), n + 1))
            else Failed
  {}

  /** The run after the value bytes `bs`, the first of which is already counted. */
  function ValueAfter(max: nat, p: Parser, t: seq<Event>, n: nat, bs: seq<char>): Run
    requires |bs| > 0
  {
    var o := ValueFold(ValueOf(p), bs);
    if o.None? || p.nread + |bs| - 1 > max then Failed
    else Going(Config(SetValue(p, o.value).(nread := p.nread + |bs| - 1), Push(t, Data(ValueData, bs)), n + |bs|))
  }

  function StepRun(max: nat, r: Run, ch: char): Run {
    match r case Going(c) => Step(max, c, ch) case _ => r
  }

  lemma ValueStep(max: nat, p: Parser, t: seq<Event>, n: nat, bs: seq<char>, ch: char)
    requires |bs| > 0 && ch != CR && ch != LF && p.state == HeaderValue
    ensures StepRun(max, ValueAfter(max, p, t, n, bs), ch) == ValueAfter(max, p, t, n, bs + [ch])
  {
    hide Finish, ValueByte;
    assert (bs + [ch])[..|bs|] == bs;
    PushMerge(t, ValueData, bs, [ch]);
    var o := ValueFold(ValueOf(p), bs);
    if o.Some? && p.nread + |bs| <= max {
      ValueOne(SetValue(p, o.value).(nread := p.nread + |bs|), Push(t, Data(ValueData, bs)), n + |bs|, ch);
    }
  }

  lemma {:induction false} ValueSweep(max: nat, r: Run, p: Parser, t: seq<Event>, n: nat, bs: seq<char>)
    requires |bs| > 0 && NoLineEnd(bs) && p.state == HeaderValue
    requires r == ValueAfter(max, p, t, n, bs[..1])
    ensures RunOn(max, r, bs[1..]) == ValueAfter(max, p, t, n, bs)
  {
    hide Step, ValueAfter;
    var last := |bs| - 1;
    if last == 0 {
      assert bs == bs[..1];
    } else {
      var init := bs[..last];
      assert init[..1] == bs[..1];
      ValueSweep(max, r, p, t, n, init);
      assert bs[1..][..last - 1] == init[1..];
      assert bs == init + [bs[last]];
      ValueStep(max, p, t, n, init, bs[last]);
    }
  }

  lemma ValueRun(max: nat, p: Parser, t: seq<Event>, n: nat, bs: seq<char>)
    requires |bs| > 0 && NoLineEnd(bs) && p.state == HeaderValue && p.nread <= max
    ensures RunOn(max, Finish(p, t, n, bs[0]), bs[1..]) == ValueAfter(max, p, t, n, bs)
  {
    hide Finish, Step, ValueByte;
    ValueOne(p, t, n, bs[0]);
    assert bs[..1] == [bs[0]] && [bs[0]][..0] == [];
    assert ValueFold(ValueOf(p), [bs[0]]) == if IsHeaderChar(bs[0]) then ValueByte(ValueOf(p), bs[0]) else None;
    ValueSweep(max, Finish(p, t, n, bs[0]), p, t, n, bs);
  }

  // ---------- bodies ----------

  lemma BodyOne(p: Parser, t: seq<Event>, n: nat, ch: char)
    requires p.state == BodyIdentity && p.contentLength > 1
    ensures Finish(p, t, n, ch) ==
            Going(Config(p.(contentLength := p.contentLength - 1), Push(t, Data(BodyData, [ch])), n + 1))
  {}

  lemma BodyLast(p: Parser, t: seq<Event>, n: nat, ch: char)
    requires p.state == BodyIdentity && p.contentLength == 1
    ensures Finish(p, t, n, ch) == Finish(BodyDone(p), Push(t, Data(BodyData, [ch])), n, ch)
  {
    assert Pass(p, ch) == Again(BodyDone(p), Some(Data(BodyData, [ch])));
  }

  lemma BodyUncounted(max: nat, c: Config, ch: char)
    requires c.p.state == BodyIdentity
    ensures Step(max, c, ch) == Finish(c.p, c.t, c.n, ch)
  {
    hide Finish;
  }

  /** The configuration after the body bytes `bs`. */
  function BodyConfig(p: Parser, t: seq<Event>, n: nat, bs: seq<char>): Config {
    Config(p.(contentLength := p.contentLength - |bs|), Push(t, Data(BodyData, bs)), n + |bs|)
  }

  lemma {:induction false} BodyPart(max: nat, p: Parser, t: seq<Event>, n: nat, bs: seq<char>)
    requires 0 < |bs| < p.contentLength && p.state == BodyIdentity
    ensures RunOn(max, Finish(p, t, n, bs[0]), bs[1..]) == Going(BodyConfig(p, t, n, bs))
  {
    hide Finish, Step;
    var last := |bs| - 1;
    if last == 0 {
      assert bs == [bs[0]];
      BodyOne(p, t, n, bs[0]);
    } else {
      var init := bs[..last];
      BodyPart(max, p, t, n, init);
      assert bs[1..][..last - 1] == init[1..];
      assert bs == init + [bs[last]];
      PushMerge(t, BodyData, init, [bs[last]]);
      var c := BodyConfig(p, t, n, init);
      BodyUncounted(max, c, bs[last]);
      BodyOne(c.p, c.t, c.n, bs[last]);
    }
  }

  /** The parser and trace when the whole body `bs` has been delivered. */
  function BodyDone(p: Parser): Parser { p.(contentLength := 0, state := MessageDone) }

  /** On the last byte of a body the message is finished on the same byte. */
  lemma BodyWhole(max: nat, p: Parser, t: seq<Event>, n: nat, bs: seq<char>)
    requires 0 < |bs| == p.contentLength && p.state == BodyIdentity
    ensures RunOn(max, Finish(p, t, n, bs[0]), bs[1..]) ==
            Finish(BodyDone(p), Push(t, Data(BodyData, bs)), n + |bs| - 1, bs[|bs| - 1])
  {
    hide Finish, Step;
    var last := |bs| - 1;
    if last == 0 {
      assert bs == [bs[0]];
      BodyLast(p, t, n, bs[0]);
    } else {
      var init := bs[..last];
      BodyPart(max, p, t, n, init);
      assert bs[1..][..last - 1] == init[1..];
      assert bs == init + [bs[last]];
      PushMerge(t, BodyData, init, [bs[last]]);
      var c := BodyConfig(p, t, n, init);
      BodyUncounted(max, c, bs[last]);
      BodyLast(c.p, c.t, c.n, bs[last]);
    }
  }

  lemma {:induction false} ChunkRun(max: nat, p: Parser, t: seq<Event>, n: nat, bs: seq<char>)
    requires 0 < |bs| <= p.contentLength && p.state == ChunkData
    ensures RunOn(max, Finish(p, t, n, bs[0]), bs[1..]) ==
            Going(Config(ChunkTaken(p, |bs|), Push(t, Data(BodyData, bs)), n + |bs|))
  {
    hide RunOn, Finish, Push, Step;
    var last := |bs| - 1;
    var init := bs[..last];
    if last == 0 {
      assert bs == [bs[0]];
      assert bs[1..] == [];
      NothingRun(max, Finish(p, t, n, bs[0]));
      ChunkOne(p, t, n, bs[0]);
    } else {
      ChunkRun(max, p, t, n, init);
      var c := Config(ChunkTaken(p, last), Push(t, Data(BodyData, init)), n + last);
      assert bs[1..] == init[1..] + [bs[last]];
      RunAppend(max, Finish(p, t, n, bs[0]), init[1..], [bs[last]]);
      RunOne(max, c, bs[last]);
      BodyNotCounted(max, c, bs[last]);
      ChunkOne(c.p, c.t, c.n, bs[last]);
      assert bs == init + [bs[last]];
      PushMerge(t, BodyData, init, [bs[last]]);
    }
  }

  /** The parser after `k` bytes of chunk data. */
  function ChunkTaken(p: Parser, k: nat): Parser {
    p.(contentLength := p.contentLength - k, state := if k < p.contentLength then ChunkData else ChunkDataAlmostDone)
  }

  lemma ChunkOne(p: Parser, t: seq<Event>, n: nat, ch: char)
    requires p.state == ChunkData && p.contentLength > 0
    ensures Finish(p, t, n, ch) == Going(Config(ChunkTaken(p, 1), Push(t, Data(BodyData, [ch])), n + 1))
  {
    hide Push;
  }

  lemma NothingRun(max: nat, r: Run)
    ensures RunOn(max, r, []) == r
  {}

  /** Body bytes are not counted. */
  lemma BodyNotCounted(max: nat, c: Config, ch: char)
    requires c.p.state == ChunkData || c.p.state == BodyIdentityEof
    ensures Step(max, c, ch) == Finish(c.p, c.t, c.n, ch)
  {
    hide Finish;
  }

  lemma EofOne(p: Parser, t: seq<Event>, n: nat, ch: char)
    requires p.state == BodyIdentityEof
    ensures Finish(p, t, n, ch) == Going(Config(p, Push(t, Data(BodyData, [ch])), n + 1))
  {
    hide Push;
  }

  lemma {:induction false} EofRun(max: nat, p: Parser, t: seq<Event>, n: nat, bs: seq<char>)
    requires 0 < |bs| && p.state == BodyIdentityEof
    ensures RunOn(max, Finish(p, t, n, bs[0]), bs[1..]) == Going(Config(p, Push(t, Data(BodyData, bs)), n + |bs|))
  {
    hide RunOn, Finish, Push, Step;
    var last := |bs| - 1;
    var init := bs[..last];
    if last == 0 {
      assert bs == [bs[0]];
      assert bs[1..] == [];
      NothingRun(max, Finish(p, t, n, bs[0]));
      EofOne(p, t, n, bs[0]);
    } else {
      EofRun(max, p, t, n, init);
      var c := Config(p, Push(t, Data(BodyData, init)), n + last);
      assert bs[1..] == init[1..] + [bs[last]];
      RunAppend(max, Finish(p, t, n, bs[0]), init[1..], [bs[last]]);
      RunOne(max, c, bs[last]);
      BodyNotCounted(max, c, bs[last]);
      EofOne(p, c.t, c.n, bs[last]);
      assert bs == init + [bs[last]];
      PushMerge(t, BodyData, init, [bs[last]]);
    }
  }
}
