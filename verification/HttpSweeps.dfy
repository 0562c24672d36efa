/** The bulk loops: header names, header values and bodies taken many bytes at a time. */
module HttpSweeps {
  import opened Options
  import opened HttpTypes
  import opened HttpAutomaton
  import opened HttpInvariants
  import opened HttpBulk
  import opened HttpMarks
  import opened HttpPasses

  lemma ChunkFacts(max: nat, p: Parser)
    requires Good(max, p, 1)
    ensures InChunk(p.state) ==> p.flags.chunked
    ensures p.state == ChunkSizeStart ==> p.nread == 1
    ensures 0 <= p.contentLength <= ULLONG_MAX
    ensures p.state == ChunkDataAlmostDone ==> p.contentLength == 0
    ensures p.state == ChunkData || p.state == BodyIdentity ==> p.contentLength != 0 && p.contentLength != ULLONG_MAX
  {}

  lemma FieldSwept(max: nat, v: Parser, calls: seq<Event>, k: nat, data: seq<char>, p0: nat, p: nat)
    requires k <= p0 < p <= |data| && AllTokens(data[p0..p]) && v.state == HeaderField && v.nread <= max
    ensures RunOn(max, Finish(v, Joined(calls, MarkOf(FieldData, k), data, p0), p0, data[p0]), data[p0 + 1..p]) ==
            if v.nread + (p - p0) - 1 > max then Failed
            else Going(Config(AfterField(v, data[p0..p]), Joined(calls, MarkOf(FieldData, k), data, p), p))
  {
    hide Finish, Joined, Push, AfterField, RunOn;
    var bs := data[p0..p];
    assert bs[1..] == data[p0 + 1..p];
    FieldRun(max, v, Joined(calls, MarkOf(FieldData, k), data, p0), p0, bs);
    JoinedExtend(calls, FieldData, k, data, p0, p);
  }

  lemma ValueSwept(max: nat, v: Parser, calls: seq<Event>, k: nat, data: seq<char>, p0: nat, p: nat)
    requires k <= p0 < p <= |data| && NoLineEnd(data[p0..p]) && v.state == HeaderValue && v.nread <= max
    ensures RunOn(max, Finish(v, Joined(calls, MarkOf(ValueData, k), data, p0), p0, data[p0]), data[p0 + 1..p]) ==
            var o := ValueFold(ValueOf(v), data[p0..p]);
            if o.None? || v.nread + (p - p0) - 1 > max then Failed
            else Going(Config(SetValue(v, o.value).(nread := v.nread + (p - p0) - 1),
                              Joined(calls, MarkOf(ValueData, k), data, p), p))
  {
    hide Finish, Joined, Push, ValueFold, RunOn;
    var bs := data[p0..p];
    assert bs[1..] == data[p0 + 1..p];
    ValueRun(max, v, Joined(calls, MarkOf(ValueData, k), data, p0), p0, bs);
    JoinedExtend(calls, ValueData, k, data, p0, p);
  }

  /** One more byte after a sweep. */
  lemma StepAfter(max: nat, f: Run, data: seq<char>, p0: nat, p: nat)
    requires p0 < p < |data|
    ensures RunOn(max, f, data[p0 + 1..p + 1]) == StepRun(max, RunOn(max, f, data[p0 + 1..p]), data[p])
  {
    hide Step;
    assert data[p0 + 1..p + 1][..p - p0 - 1] == data[p0 + 1..p];
  }

  lemma FieldColon(max: nat, p: Parser, t: seq<Event>, n: nat, ch: char)
    requires p.state == HeaderField && !IsToken(ch)
    ensures Finish(p, t, n, ch) ==
            if ch == ':' then Going(Config(p.(state := HeaderValueDiscardWs), t, n + 1)) else Failed
  {
    assert Pass(p, ch) == Expect(p, ch == ':', HeaderValueDiscardWs, INVALID_HEADER_TOKEN);
  }

  lemma FieldFacts(max: nat, p: Parser)
    requires Good(max, p, 1)
    ensures p.nread <= max
    ensures p.state == HeaderField ==> FieldStateOk(p.headerState, p.index)
    ensures p.state == HeaderValue ==> ValueStateOk(p.headerState, p.index)
    ensures 0 <= p.contentLength <= ULLONG_MAX
  {}

  lemma FieldFoldOne(h: HeaderState, index: nat, ch: char)
    ensures FieldFold(h, index, [ch]) == FieldByte(h, index, TokenOf(ch))
  {
    hide FieldByte, TokenOf;
    assert [ch][..0] == [];
  }

  lemma EmptyRun(max: nat, f: Run)
    ensures RunOn(max, f, []) == f
  {}

  lemma HeaderStep(max: nat, c: Config, ch: char)
    requires c.p.state == HeaderField || c.p.state == HeaderValue
    ensures Step(max, c, ch) ==
            if c.p.nread + 1 > max then Failed else Finish(c.p.(nread := c.p.nread + 1), c.t, c.n, ch)
  {
    hide Finish;
  }

  /** A name that goes on to the end of the data has been swept but not counted. */
  lemma FieldOut(max: nat, v: Parser, calls: seq<Event>, k: nat, data: seq<char>, p0: nat, h: HeaderState, i: nat)
    requires k <= p0 < |data| && AllTokens(data[p0..|data|]) && v.state == HeaderField && v.nread <= max
    requires |data| + max < TWO_32 && (h, i) == FieldFold(v.headerState, v.index, data[p0..|data|])
    ensures var q := AfterField(v, data[p0..]);
            var p := |data| - 1;
            var f := Finish(v, Joined(calls, MarkOf(FieldData, k), data, p0), p0, data[p0]);
            && p - p0 <= q.nread < TWO_32 && v.(headerState := h, index := i) == q.(nread := q.nread - (p - p0))
            && MarksFit(q.state, MarkOf(FieldData, k), p + 1)
            && (q.nread > max ==> RunOn(max, f, data[p0 + 1..p + 1]) == Failed)
            && (q.nread <= max ==>
                  RunOn(max, f, data[p0 + 1..p + 1]) ==
                  Going(Config(q, Joined(calls, MarkOf(FieldData, k), data, p + 1), p + 1)))
  {
    hide Finish, Joined, FieldFold, RunOn, AllTokens;
    assert data[p0..|data|] == data[p0..];
    FieldMarkFits(k, |data|);
    FieldSwept(max, v, calls, k, data, p0, |data|);
  }

  /** What the byte that ends a header name leads to. */
  lemma FieldEnd(max: nat, v: Parser, calls: seq<Event>, k: nat, data: seq<char>, p0: nat, p: nat) returns (r: Run)
    requires k <= p0 <= p < |data| && AllTokens(data[p0..p]) && !IsToken(data[p])
    requires v.state == HeaderField && v.nread <= max
    ensures r == RunOn(max, Finish(v, Joined(calls, MarkOf(FieldData, k), data, p0), p0, data[p0]), data[p0 + 1..p + 1])
    ensures var (h, i) := FieldFold(v.headerState, v.index, data[p0..p]);
            r == if v.nread + (p - p0) > max || data[p] != ':' then Failed
                 else Going(Config(v.(headerState := h, index := i, nread := v.nread + (p - p0),
                                      state := HeaderValueDiscardWs),
                                   Joined(calls, MarkOf(FieldData, k), data, p), p + 1))
  {
    hide Finish, Joined, FieldFold, IsToken, RunOn;
    var f := Finish(v, Joined(calls, MarkOf(FieldData, k), data, p0), p0, data[p0]);
    r := RunOn(max, f, data[p0 + 1..p + 1]);
    var (h, i) := FieldFold(v.headerState, v.index, data[p0..p]);
    var w := v.(headerState := h, index := i, nread := v.nread + (p - p0));
    FieldColon(max, w, Joined(calls, MarkOf(FieldData, k), data, p), p, data[p]);
    if p == p0 {
      assert data[p0 + 1..p + 1] == [] && data[p0..p] == [];
      FieldFoldEmpty(v.headerState, v.index);
      EmptyRun(max, f);
    } else {
      FieldSwept(max, v, calls, k, data, p0, p);
      StepAfter(max, f, data, p0, p);
      if v.nread + (p - p0) - 1 <= max {
        HeaderStep(max, Config(w.(nread := w.nread - 1), Joined(calls, MarkOf(FieldData, k), data, p), p), data[p]);
      }
    }
  }

  lemma FieldFoldEmpty(h: HeaderState, index: nat)
    ensures FieldFold(h, index, []) == (h, index)
  {}

  lemma MatcherByte(v: ValueState, ch: char)
    requires Matching(v.headerState)
    ensures var c := Lower(ch);
            var i := v.index + 1;
            ValueByte(v, ch) == Some(v.(index := i, headerState :=
              match v.headerState
              case MatchingTransferEncodingChunked =>
                MatchNext(CHUNKED, i, c, v.headerState, TransferEncodingChunked, General)
              case MatchingConnectionKeepAlive =>
                MatchNext(KEEP_ALIVE, i, c, v.headerState, ConnectionKeepAlive, MatchingConnectionToken)
              case MatchingConnectionClose =>
                MatchNext(CLOSE, i, c, v.headerState, ConnectionClose, MatchingConnectionToken)
              case _ => MatchNext(UPGRADE, i, c, v.headerState, ConnectionUpgrade, MatchingConnectionToken)))
  {
    hide MatchNext, Lower;
  }

  lemma SliceInit(data: seq<char>, p0: nat, p: nat)
    requires p0 <= p < |data|
    ensures data[p0..p + 1][..p - p0] == data[p0..p] && data[p0..p + 1][p - p0] == data[p]
  {}

  lemma ValueFoldEmpty(v: ValueState)
    ensures ValueFold(v, []) == Some(v)
  {}

  /** The fold over one more byte. */
  lemma ValueTaken(v: ValueState, data: seq<char>, p0: nat, p: nat)
    requires p0 <= p < |data| && NoLineEnd(data[p0..p]) && data[p] != CR && data[p] != LF && IsHeaderChar(data[p])
    requires ValueFold(v, data[p0..p]).Some?
    ensures NoLineEnd(data[p0..p + 1])
    ensures ValueFold(v, data[p0..p + 1]) == ValueByte(ValueFold(v, data[p0..p]).value, data[p])
  {
    hide ValueByte;
    SliceInit(data, p0, p);
  }

  lemma ValueRefused(v: ValueState, data: seq<char>, p0: nat, p: nat, w: ValueState)
    requires p0 <= p < |data| && NoLineEnd(data[p0..p]) && !IsHeaderChar(data[p])
    requires ValueFold(v, data[p0..p]) == Some(w)
    ensures NoLineEnd(data[p0..p + 1]) && ValueFold(v, data[p0..p + 1]) == None
  {
    hide ValueByte;
    SliceInit(data, p0, p);
  }

  /** Skipping over header bytes in `h_general` leaves the fold alone. */
  lemma ValueSkipped(v: ValueState, data: seq<char>, p0: nat, p: nat, q: nat, w: ValueState)
    requires p0 <= p <= q <= |data| && NoLineEnd(data[p0..p]) && NoLineEnd(data[p..q])
    requires AllHeaderChars(data[p..q]) && w.headerState == General && ValueFold(v, data[p0..p]) == Some(w)
    ensures NoLineEnd(data[p0..q]) && ValueFold(v, data[p0..q]) == Some(w)
  {
    hide ValueFold, IsHeaderChar;
    assert data[p0..q] == data[p0..p] + data[p..q];
    ValueFoldAppend(v, data[p0..p], data[p..q]);
    ValueFoldGeneral(w, data[p..q]);
  }

  /** Where the sweep over a value is: the bytes so far are folded into `w`, or, once `lost`, a header's worth of bytes
      has been passed at `q`. */
  ghost predicate Sweeping(max: nat, w0: ValueState, data: seq<char>, p0: nat, p: nat, lost: bool, q: nat,
                           w: ValueState) {
    && p0 <= p <= |data| && p0 <= q <= |data| && ValueGood(w)
    && (lost ==> q < |data| && p0 + max <= q < p && NoLineEnd(data[p0..q]) && ValueFold(w0, data[p0..q]).Some?)
    && (!lost ==> NoLineEnd(data[p0..p]) && ValueFold(w0, data[p0..p]) == Some(w))
  }

  /** The byte at `p` is refused. */
  ghost predicate Refused(max: nat, w0: ValueState, data: seq<char>, p0: nat, p: nat, lost: bool, q: nat) {
    && p0 <= p < |data| && p0 <= q <= |data|
    && (lost ==> p0 + max <= q < p && NoLineEnd(data[p0..q]) && ValueFold(w0, data[p0..q]).Some?)
    && (!lost ==> NoLineEnd(data[p0..p + 1]) && ValueFold(w0, data[p0..p + 1]) == None)
  }

  lemma SweepStarts(max: nat, w0: ValueState, data: seq<char>, p0: nat)
    requires p0 < |data| && ValueGood(w0)
    ensures Sweeping(max, w0, data, p0, p0, false, p0, w0)
  {
    hide ValueGood;
    assert data[p0..p0] == [];
    ValueFoldEmpty(w0);
  }

  lemma SweepGood(max: nat, w0: ValueState, data: seq<char>, p0: nat, p: nat, lost: bool, q: nat, w: ValueState)
    requires Sweeping(max, w0, data, p0, p, lost, q, w)
    ensures ValueGood(w)
  {
    hide ValueGood, ValueFold;
  }

  /** A byte that is no header character, perhaps after bytes skipped in `h_general`. */
  lemma SweepRefused(max: nat, w0: ValueState, data: seq<char>, p0: nat, here: nat, p: nat, lost: bool, q: nat,
                     w: ValueState)
    requires Sweeping(max, w0, data, p0, here, lost, q, w)
    requires here <= p < |data| && !IsHeaderChar(data[p])
    requires here < p ==> w.headerState == General && AllHeaderChars(data[here..p]) && NoLineEnd(data[here..p])
    ensures Refused(max, w0, data, p0, p, lost, q)
  {
    hide ValueGood, ValueFold, IsHeaderChar;
    if !lost {
      if here < p { ValueSkipped(w0, data, p0, here, p, w); }
      ValueRefused(w0, data, p0, p, w);
    }
  }

  /** The bytes skipped in `h_general`. */
  lemma SweepSkips(max: nat, w0: ValueState, data: seq<char>, p0: nat, here: nat, p: nat, lost: bool, q: nat,
                   w: ValueState, overran: bool)
    requires Sweeping(max, w0, data, p0, here, lost, q, w) && w.headerState == General
    requires here <= p < |data| && AllHeaderChars(data[here..p]) && NoLineEnd(data[here..p])
    requires if overran then p == here + max else AllHeaderChars(data[here..p + 1]) && NoLineEnd(data[here..p + 1])
    ensures if overran && !lost then Sweeping(max, w0, data, p0, p + 1, true, p, w)
            else Sweeping(max, w0, data, p0, p + 1, lost, q, w)
  {
    hide ValueGood, ValueFold, IsHeaderChar;
    if !lost {
      if overran {
        ValueSkipped(w0, data, p0, here, p, w);
      } else {
        ValueSkipped(w0, data, p0, here, p + 1, w);
      }
    }
  }

  /** A byte outside `h_general`. */
  lemma SweepTakes(max: nat, w0: ValueState, data: seq<char>, p0: nat, p: nat, lost: bool, q: nat, w: ValueState)
    requires Sweeping(max, w0, data, p0, p, lost, q, w)
    requires p < |data| && data[p] != CR && data[p] != LF && IsHeaderChar(data[p])
    ensures ValueByte(w, data[p]) == None ==> Refused(max, w0, data, p0, p, lost, q)
    ensures ValueByte(w, data[p]).Some? && ValueGood(ValueByte(w, data[p]).value) ==>
              Sweeping(max, w0, data, p0, p + 1, lost, q, ValueByte(w, data[p]).value)
  {
    hide ValueGood, ValueFold, IsHeaderChar, ValueByte;
    if !lost { ValueTaken(w0, data, p0, p); }
  }

  /** A header value has been swept from `start` up to `p` and is not counted. */
  ghost predicate SweptTo(max: nat, v: Parser, calls: seq<Event>, data: seq<char>, start: nat, p: nat, m: Marks,
                          w: ValueState, k: nat, lost: bool, q: nat)
  {
    && k <= start <= p < |data| && m == MarkOf(ValueData, k)
    && v.state == HeaderValue && Good(max, v, 1) && 1 <= v.nread && |data| + max < TWO_32 && ValueGood(w)
    && (if lost
        then && start + max <= q < p
             && RunOn(max, Finish(v, Joined(calls, m, data, start), start, data[start]), data[start + 1..q + 1]) ==
               Failed
        else NoLineEnd(data[start..p]) && ValueFold(ValueOf(v), data[start..p]) == Some(w))
  }

  lemma ValueStarts(max: nat, v: Parser)
    requires v.state == HeaderValue && Good(max, v, 1)
    ensures ValueGood(ValueOf(v)) && v.nread <= max
  {}

  /** Where the automaton has failed when the sweep refuses the byte at `p`. */
  lemma ValueFails(max: nat, v: Parser, calls: seq<Event>, k: nat, data: seq<char>, p0: nat, p: nat, f: Run,
                   lost: bool, q: nat) returns (fails: nat)
    requires k <= p0 < |data| && v.state == HeaderValue && 1 <= v.nread <= max
    requires f == Finish(v, Joined(calls, MarkOf(ValueData, k), data, p0), p0, data[p0])
    requires Refused(max, ValueOf(v), data, p0, p, lost, q)
    ensures p0 < fails <= p + 1 <= |data| && RunOn(max, f, data[p0 + 1..fails]) == Failed
  {
    hide Finish, Joined, ValueFold, RunOn;
    if lost {
      LostRun(max, v, calls, k, data, p0, q);
      fails := q + 1;
    } else {
      ValueSwept(max, v, calls, k, data, p0, p + 1);
      fails := p + 1;
    }
  }

  /** What the automaton makes of the bytes the sweep has taken. */
  lemma ValueRuns(max: nat, v: Parser, calls: seq<Event>, k: nat, data: seq<char>, p0: nat, p: nat, w: ValueState,
                  f: Run, lost: bool, q: nat)
    requires k <= p0 < |data| && v.state == HeaderValue && Good(max, v, 1) && 1 <= v.nread && |data| + max < TWO_32
    requires f == Finish(v, Joined(calls, MarkOf(ValueData, k), data, p0), p0, data[p0])
    requires Sweeping(max, ValueOf(v), data, p0, p, lost, q, w)
    ensures p <= |data| && (p < |data| ==> SweptTo(max, v, calls, data, p0, p, MarkOf(ValueData, k), w, k, lost, q))
    ensures p == |data| ==>
              var u := SetValue(v, w).(nread := v.nread + (p - 1 - p0));
              && p0 <= p - 1 && p0 < (if lost then q else p - 1) + 1 <= p
              && p - 1 - p0 <= u.nread < TWO_32 && SetValue(v, w) == u.(nread := u.nread - (p - 1 - p0))
              && MarksFit(u.state, MarkOf(ValueData, k), p)
              && (u.nread > max ==> RunOn(max, f, data[p0 + 1..(if lost then q else p - 1) + 1]) == Failed)
              && (u.nread <= max ==>
                    RunOn(max, f, data[p0 + 1..p]) == Going(Config(u, Joined(calls, MarkOf(ValueData, k), data, p), p)))
  {
    hide Finish, Joined, ValueFold, RunOn, Good, ValueGood;
    FieldFacts(max, v);
    if lost { LostRun(max, v, calls, k, data, p0, q); }
    if p == |data| {
      ValueMarkFits(k, p);
      if !lost { ValueSwept(max, v, calls, k, data, p0, p); }
    }
  }

  /** What the line end after a header value leads to. */
  lemma ValueEnd(max: nat, v: Parser, calls: seq<Event>, k: nat, data: seq<char>, p0: nat, p: nat, w: ValueState,
                 f: Run, q: Parser, t: seq<Event>)
    requires k <= p0 <= p < |data| && NoLineEnd(data[p0..p]) && (data[p] == CR || data[p] == LF)
    requires v.state == HeaderValue && v.nread <= max && ValueFold(ValueOf(v), data[p0..p]) == Some(w)
    requires f == Finish(v, Joined(calls, MarkOf(ValueData, k), data, p0), p0, data[p0])
    requires q == SetValue(v, w).(nread := v.nread + (p - p0), state := HeaderAlmostDone)
    requires t == Joined(calls, MarkOf(ValueData, k), data, p)
    ensures q.nread > max ==> RunOn(max, f, data[p0 + 1..p + 1]) == Failed
    ensures q.nread <= max && data[p] == CR ==> RunOn(max, f, data[p0 + 1..p + 1]) == Going(Config(q, t, p + 1))
    ensures q.nread <= max && data[p] == LF ==> RunOn(max, f, data[p0 + 1..p + 1]) == Finish(q, t, p, data[p])
  {
    hide Finish, Joined, ValueFold, RunOn;
    var u := q.(state := HeaderValue);
    assert u == SetValue(v, w).(nread := v.nread + (p - p0));
    LineEnd(u, t, p, data[p]);
    if p == p0 {
      assert data[p0 + 1..p + 1] == [] && data[p0..p] == [];
      ValueFoldEmpty(ValueOf(v));
      EmptyRun(max, f);
    } else {
      ValueSwept(max, v, calls, k, data, p0, p);
      StepAfter(max, f, data, p0, p);
      if v.nread + (p - p0) - 1 <= max {
        HeaderStep(max, Config(u.(nread := u.nread - 1), t, p), data[p]);
      }
    }
  }

  /** The value ending at the CR at `p` has been delivered but not counted. */
  lemma ValueCounted(max: nat, v: Parser, before: seq<Event>, calls: seq<Event>, k: nat, data: seq<char>, start: nat,
                     p: nat, w: ValueState, f: Run, q1: Parser, lost: bool, q: nat)
    requires k <= start <= p < |data| && data[p] == CR && v.state == HeaderValue && Good(max, v, 1)
    requires |data| + max < TWO_32
    requires f == Finish(v, Joined(before, MarkOf(ValueData, k), data, start), start, data[start])
    requires if lost then start + max <= q < p && RunOn(max, f, data[start + 1..q + 1]) == Failed && 1 <= v.nread
             else NoLineEnd(data[start..p]) && ValueFold(ValueOf(v), data[start..p]) == Some(w)
    requires q1 == SetValue(v, w).(nread := v.nread + (p - start), state := HeaderAlmostDone)
    requires Join(calls) == Joined(before, MarkOf(ValueData, k), data, p)
    ensures p - start <= q1.nread < TWO_32 && MarksFit(q1.state, NO_MARKS, p + 1)
    ensures q1.nread > max ==> RunOn(max, f, data[start + 1..(if lost then q else p) + 1]) == Failed
    ensures q1.nread <= max ==>
            RunOn(max, f, data[start + 1..p + 1]) == Going(Config(q1, Joined(calls, NO_MARKS, data, p + 1), p + 1))
  {
    hide RunOn, Finish, Joined, ValueFold, Join, Good, MarkOf;
    FieldFacts(max, v);
    JoinedNone(calls, data, p + 1);
    if !lost { ValueEnd(max, v, before, k, data, start, p, w, f, q1, Join(calls)); }
  }

  /** The value ending at the LF at `p` is to be counted and then delivered. */
  lemma ValueEnds(max: nat, v: Parser, calls: seq<Event>, data: seq<char>, start: nat, p: nat, m: Marks, w: ValueState,
                  k: nat, lost: bool, q: nat, f: Run, q1: Parser)
    requires SweptTo(max, v, calls, data, start, p, m, w, k, lost, q) && data[p] == LF
    requires f == Finish(v, Joined(calls, m, data, start), start, data[start])
    requires q1 == SetValue(v, w).(nread := v.nread + (p - start), state := HeaderAlmostDone)
    ensures v.nread <= max && (v.nread + (p - start)) % TWO_32 == v.nread + (p - start)
    ensures start <= p < |data| && k <= p && m == MarkOf(ValueData, k) && m.value == Some(k)
    ensures start < (if lost then q else p) + 1 <= p + 1
    ensures q1.nread > max ==> RunOn(max, f, data[start + 1..(if lost then q else p) + 1]) == Failed
    ensures q1.nread <= max ==>
            && RunOn(max, f, data[start + 1..p + 1]) == Finish(q1, Joined(calls, m, data, p), p, data[p])
            && Good(max, q1, 1)
  {
    hide RunOn, Finish, Joined, ValueFold, Good, ValueGood;
    FieldFacts(max, v);
    CountExact(v.nread, p - start, max, |data|);
    if !lost { ValueEnd(max, v, calls, k, data, start, p, w, f, q1, Joined(calls, m, data, p)); }
    if q1.nread <= max { GoodAfterValue(max, v, w, q1.nread); }
  }

  lemma LineEnd(p: Parser, t: seq<Event>, n: nat, ch: char)
    requires p.state == HeaderValue && (ch == CR || ch == LF)
    ensures Finish(p, t, n, ch) ==
            if ch == CR then Going(Config(p.(state := HeaderAlmostDone), t, n + 1))
            else Finish(p.(state := HeaderAlmostDone), t, n, LF)
  {
    assert Pass(p, ch) == if ch == CR then Consumed(p.(state := HeaderAlmostDone), None)
                          else Again(p.(state := HeaderAlmostDone), None);
  }

  /** A general value that overruns a header's worth of bytes is a header overflow. */
  lemma LostRun(max: nat, v: Parser, calls: seq<Event>, k: nat, data: seq<char>, p0: nat, q: nat)
    requires k <= p0 < |data| && p0 + max <= q < |data| && NoLineEnd(data[p0..q])
    requires v.state == HeaderValue && 1 <= v.nread <= max && ValueFold(ValueOf(v), data[p0..q]).Some?
    ensures RunOn(max, Finish(v, Joined(calls, MarkOf(ValueData, k), data, p0), p0, data[p0]), data[p0 + 1..q + 1]) ==
            Failed
  {
    hide Finish, Joined, ValueFold, RunOn;
    var f := Finish(v, Joined(calls, MarkOf(ValueData, k), data, p0), p0, data[p0]);
    ValueSwept(max, v, calls, k, data, p0, q);
    StepAfter(max, f, data, p0, q);
    if v.nread + (q - p0) - 1 <= max {
      var w := ValueFold(ValueOf(v), data[p0..q]).value;
      var c := Config(SetValue(v, w).(nread := v.nread + (q - p0) - 1), Joined(calls, MarkOf(ValueData, k), data, q),
                      q);
      HeaderStep(max, c, data[q]);
    }
  }

  lemma GoodAfterValue(max: nat, v: Parser, w: ValueState, n: nat)
    requires Good(max, v, 1) && v.state == HeaderValue && ValueGood(w) && n <= max
    ensures Good(max, SetValue(v, w).(nread := n, state := HeaderAlmostDone), 1)
  {}

  /** What a sweep over part of an identity body leads to. */
  lemma PartSwept(max: nat, v: Parser, t: seq<Event>, data: seq<char>, p0: nat, p: nat)
    requires p0 < p <= |data| && v.state == BodyIdentity && p - p0 < v.contentLength
    ensures RunOn(max, Finish(v, t, p0, data[p0]), data[p0 + 1..p]) ==
            Going(Config(v.(contentLength := v.contentLength - (p - p0)), Push(t, Data(BodyData, data[p0..p])), p))
  {
    hide RunOn, Finish, Push;
    var bs := data[p0..p];
    assert bs[1..] == data[p0 + 1..p];
    BodyPart(max, v, t, p0, bs);
  }

  /** What a sweep over the rest of an identity body leads to. */
  lemma WholeSwept(max: nat, v: Parser, t: seq<Event>, data: seq<char>, p0: nat, p: nat)
    requires p0 <= p < |data| && v.state == BodyIdentity && p + 1 - p0 == v.contentLength
    ensures RunOn(max, Finish(v, t, p0, data[p0]), data[p0 + 1..p + 1]) ==
            Finish(BodyDone(v), Push(t, Data(BodyData, data[p0..p + 1])), p, data[p])
  {
    hide RunOn, Finish, Push;
    var bs := data[p0..p + 1];
    assert bs[1..] == data[p0 + 1..p + 1];
    BodyWhole(max, v, t, p0, bs);
  }

  lemma ChunkSwept(max: nat, v: Parser, t: seq<Event>, data: seq<char>, p0: nat, p: nat)
    requires p0 < p <= |data| && v.state == ChunkData && p - p0 <= v.contentLength
    ensures var left := v.contentLength - (p - p0);
            RunOn(max, Finish(v, t, p0, data[p0]), data[p0 + 1..p]) ==
            Going(Config(v.(contentLength := left, state := if left > 0 then ChunkData else ChunkDataAlmostDone),
                         Push(t, Data(BodyData, data[p0..p])), p))
  {
    hide RunOn, Finish, Push;
    var bs := data[p0..p];
    assert bs[1..] == data[p0 + 1..p];
    ChunkRun(max, v, t, p0, bs);
  }

  /** A jump over chunk data up to `p`, delivered by the body mark. */
  lemma ChunkSound(max: nat, v: Parser, calls: seq<Event>, m: Marks, data: seq<char>, p0: nat, p: nat, f: Run)
    requires p0 <= p < |data| && v.state == ChunkData && p + 1 - p0 <= v.contentLength && MarksFit(v.state, m, p0)
    requires f == Finish(v, Joined(calls, m, data, p0), p0, data[p0])
    ensures var left := v.contentLength - (p + 1 - p0);
            var u := v.(contentLength := left, state := if left > 0 then ChunkData else ChunkDataAlmostDone);
            && MarksFit(u.state, BodyMarked(m, p0), p + 1)
            && RunOn(max, f, data[p0 + 1..p + 1]) ==
               Going(Config(u, Joined(calls, BodyMarked(m, p0), data, p + 1), p + 1))
  {
    hide RunOn, Finish, Joined, Push, MarksFit, BodyMarked;
    ChunkSwept(max, v, Joined(calls, m, data, p0), data, p0, p + 1);
    BodyJoined(v.state, calls, m, data, p0, p + 1);
    BodyMarkFits(BodyMarked(m, p0).body.value, p + 1);
  }

  lemma EofSwept(max: nat, v: Parser, t: seq<Event>, data: seq<char>, p0: nat, p: nat)
    requires p0 < p <= |data| && v.state == BodyIdentityEof
    ensures RunOn(max, Finish(v, t, p0, data[p0]), data[p0 + 1..p]) ==
            Going(Config(v, Push(t, Data(BodyData, data[p0..p])), p))
  {
    hide RunOn, Finish, Push;
    var bs := data[p0..p];
    assert bs[1..] == data[p0 + 1..p];
    EofRun(max, v, t, p0, bs);
  }

  lemma GoodDone(max: nat, v: Parser)
    requires Good(max, v, 1) && v.state == BodyIdentity
    ensures Good(max, BodyDone(v), 1)
  {}

  /** Delivering the rest of an identity body and going on to the end of the message is sound. */
  lemma IdentitySound(max: nat, v: Parser, before: seq<Event>, m: Marks, after: seq<Event>, data: seq<char>, p0: nat,
                      p: nat)
    requires p0 <= p < |data| && Good(max, v, 1) && v.state == BodyIdentity && v.contentLength == p + 1 - p0
    requires MarksFit(v.state, m, p0) && Join(after) == Joined(before, BodyMarked(m, p0), data, p + 1)
    ensures Sound(max, Finish(v, Joined(before, m, data, p0), p0, data[p0]), Reexecute, BodyDone(v), after, NO_MARKS,
                  data, p0, p, OK)
  {
    hide RunOn, Finish, Joined, Good, Sound, MarksFit, Push, BodyMarked, Join;
    var t := Joined(before, m, data, p0);
    BodyJoined(v.state, before, m, data, p0, p + 1);
    WholeSwept(max, v, t, data, p0, p);
    JoinedNone(after, data, p);
    NoMarkFits(MessageDone, p);
    GoodDone(max, v);
    SoundAgain(max, Finish(v, t, p0, data[p0]), BodyDone(v), Push(t, Data(BodyData, data[p0..p + 1])),
               after, NO_MARKS, data, p0, p);
  }

  /** The 32-bit counter does not wrap. */
  lemma CountExact(nread: nat, n: nat, max: nat, size: nat)
    requires nread <= max && n <= size && size + max < TWO_32
    ensures (nread + n) % TWO_32 == nread + n
  {}
}
