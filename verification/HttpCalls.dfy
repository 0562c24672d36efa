/** One call of the parser: the run over the bytes at hand, counted byte by byte. */
module HttpCalls {
  import opened HttpTypes
  import opened HttpAutomaton
  import opened HttpInvariants
  import opened HttpMarks
  import opened HttpPasses

  /** Counting a byte turns the invariant between bytes into the one on a byte. */
  lemma CountedGood(max: nat, p: Parser)
    requires Good(max, p, 0)
    ensures ParsingHeader(p.state) && p.nread + 1 <= max ==> Good(max, p.(nread := p.nread + 1), 1)
    ensures !ParsingHeader(p.state) ==> Good(max, p, 1)
  {}

  /** A run over `data` up to `p + 1` is a run up to `p0 + 1` and then over the bytes between. */
  lemma Glue(max: nat, r: Run, data: seq<char>, p0: nat, p: nat)
    requires p0 <= p < |data|
    ensures RunOn(max, r, data[..p + 1]) == RunOn(max, RunOn(max, r, data[..p0 + 1]), data[p0 + 1..p + 1])
  {
    hide RunOn;
    assert data[..p + 1] == data[..p0 + 1] + data[p0 + 1..p + 1];
    RunAppend(max, r, data[..p0 + 1], data[p0 + 1..p + 1]);
  }

  lemma GlueEnd(max: nat, r: Run, data: seq<char>, p: nat)
    requires p < |data|
    ensures RunOn(max, r, data) == RunOn(max, RunOn(max, r, data[..p + 1]), data[p + 1..])
  {
    hide RunOn;
    assert data == data[..p + 1] + data[p + 1..];
    RunAppend(max, r, data[..p + 1], data[p + 1..]);
  }

  lemma RunNext(max: nat, r: Run, data: seq<char>, p: nat, c: Config)
    requires p < |data| && RunOn(max, r, data[..p]) == Going(c)
    ensures RunOn(max, r, data[..p + 1]) == Step(max, c, data[p])
  {
    hide Step;
    assert data[..p + 1][..p] == data[..p];
  }

  lemma StepCounts(max: nat, c: Config, ch: char)
    ensures Step(max, c, ch) ==
            if ParsingHeader(c.p.state)
            then if c.p.nread + 1 > max then Failed else Finish(c.p.(nread := c.p.nread + 1), c.t, c.n, ch)
            else Finish(c.p, c.t, c.n, ch)
  {
    hide Finish, ParsingHeader;
  }

  /** Where the processing of one byte, bulk jumps included, leaves the run from `c0`. */
  ghost predicate Arrived(max: nat, c0: Config, act: Action, v: Parser, calls: seq<Event>, m: Marks, data: seq<char>,
                          p: nat, e: Errno)
  {
    match act
    case Next =>
      e == OK && p < |data| && MarksFit(v.state, m, p + 1)
      && RunOn(max, Going(c0), data[..p + 1]) == Going(Config(v, Joined(calls, m, data, p + 1), p + 1))
    case Reexecute =>
      e == OK && p < |data| && MarksFit(v.state, m, p) && Good(max, v, 1)
      && RunOn(max, Going(c0), data[..p + 1]) == Finish(v, Joined(calls, m, data, p), p, data[p])
    case Leave => e == OK && p < |data| && RunOn(max, Going(c0), data) == Exited(Config(v, Join(calls), p + 1))
    case Error => e != OK && p < |data| && RunOn(max, Going(c0), data[..p + 1]) == Failed
  }

  lemma Arrive(max: nat, c0: Config, f: Run, act: Action, v: Parser, calls: seq<Event>, m: Marks, data: seq<char>,
               p0: nat, p: nat, e: Errno)
    requires p0 < |data| && RunOn(max, Going(c0), data[..p0 + 1]) == f
    requires Sound(max, f, act, v, calls, m, data, p0, p, e)
    ensures Arrived(max, c0, act, v, calls, m, data, p, e)
    ensures act == Next || act == Reexecute ==> p0 <= p
  {
    hide RunOn, Finish, Joined, MarksFit, Good;
    GlueEnd(max, Going(c0), data, p0);
    if act != Leave { Glue(max, Going(c0), data, p0, p); }
    if act == Leave { RunStopped(max, f, data[p0 + 1..]); }
  }

  lemma CountFits(max: nat, p: Parser, n: nat)
    requires Good(max, p, 0) && n > 0 && n + max < TWO_32
    ensures (p.nread + 1) % TWO_32 == p.nread + 1
  {}

  lemma FieldsCounted(s: State)
    ensures s == HeaderField || s == HeaderValue ==> ParsingHeader(s)
  {}

  lemma RunEmpty(max: nat, r: Run, data: seq<char>)
    ensures RunOn(max, r, data[..0]) == r
  {}

  /** What the end of the connection leads to: a body that ends with it is complete, between messages it
      is fine, and anywhere else it is an error. */
  ghost predicate AtEof(v: Parser, before: seq<Event>, w: Parser, after: seq<Event>, e: Errno, code: nat) {
    if v.state == BodyIdentityEof then e == OK && code == 0 && w == v && after == before + [MessageComplete]
    else if v.state == Dead || v.state == StartRes || v.state == StartReq
    then e == OK && code == 0 && w == v && after == before
    else e == INVALID_EOF_STATE && code == 1 && after == before
  }

  /** What counting the byte at `p0` leads to. */
  lemma TurnStarts(max: nat, c0: Config, v: Parser, calls: seq<Event>, m: Marks, data: seq<char>, p0: nat)
    requires p0 < |data| && MarksFit(v.state, m, p0) && |data| + max < TWO_32 && GoodConfig(max, c0)
    requires RunOn(max, Going(c0), data[..p0]) == Going(Config(v, Joined(calls, m, data, p0), p0))
    ensures (v.nread + 1) % TWO_32 == v.nread + 1
    ensures !ParsingHeader(v.state) ==> Arrived(max, c0, Reexecute, v, calls, m, data, p0, OK)
    ensures !ParsingHeader(v.state) ==> v.state != HeaderField && v.state != HeaderValue
    ensures ParsingHeader(v.state) && v.nread + 1 <= max ==>
              Arrived(max, c0, Reexecute, v.(nread := v.nread + 1), calls, m, data, p0, OK)
    ensures ParsingHeader(v.state) && v.nread + 1 > max ==> RunOn(max, Going(c0), data[..p0 + 1]) == Failed
  {
    hide RunOn, Finish, Joined, MarksFit, Good, ParsingHeader, Arrived, GoodConfig;
    var c := Config(v, Joined(calls, m, data, p0), p0);
    GoodNow(max, c0, data, p0, c);
    CountFits(max, v, |data|);
    TurnRuns(max, c0, c, data, p0);
    if !ParsingHeader(v.state) {
      FieldsCounted(v.state);
      GoodUncounted(max, v);
      ArrivedOn(max, c0, v, calls, m, data, p0);
    } else if v.nread + 1 <= max {
      GoodCounted(max, v);
      ArrivedOn(max, c0, v.(nread := v.nread + 1), calls, m, data, p0);
    }
  }

  lemma GoodNow(max: nat, c0: Config, data: seq<char>, p0: nat, c: Config)
    requires p0 <= |data| && GoodConfig(max, c0) && RunOn(max, Going(c0), data[..p0]) == Going(c)
    ensures Good(max, c.p, 0)
  {
    hide RunOn, Good;
    RunGood(max, c0, data[..p0]);
  }

  lemma GoodUncounted(max: nat, v: Parser)
    requires Good(max, v, 0) && !ParsingHeader(v.state)
    ensures Good(max, v, 1)
  {
    CountedGood(max, v);
    hide Good;
  }

  lemma GoodCounted(max: nat, v: Parser)
    requires Good(max, v, 0) && ParsingHeader(v.state) && v.nread + 1 <= max
    ensures Good(max, v.(nread := v.nread + 1), 1)
  {
    CountedGood(max, v);
    hide Good;
  }

  /** The automaton on the next byte: counted or not, or over the limit. */
  lemma TurnRuns(max: nat, c0: Config, c: Config, data: seq<char>, p0: nat)
    requires p0 < |data| && RunOn(max, Going(c0), data[..p0]) == Going(c)
    ensures !ParsingHeader(c.p.state) ==> RunOn(max, Going(c0), data[..p0 + 1]) == Finish(c.p, c.t, c.n, data[p0])
    ensures ParsingHeader(c.p.state) && c.p.nread + 1 <= max ==>
              RunOn(max, Going(c0), data[..p0 + 1]) == Finish(c.p.(nread := c.p.nread + 1), c.t, c.n, data[p0])
    ensures ParsingHeader(c.p.state) && c.p.nread + 1 > max ==> RunOn(max, Going(c0), data[..p0 + 1]) == Failed
  {
    hide RunOn, Finish, ParsingHeader, Step;
    RunNext(max, Going(c0), data, p0, c);
    StepCounts(max, c, data[p0]);
  }

  lemma ArrivedOn(max: nat, c0: Config, v: Parser, calls: seq<Event>, m: Marks, data: seq<char>, p: nat)
    requires p < |data| && MarksFit(v.state, m, p) && Good(max, v, 1)
    requires RunOn(max, Going(c0), data[..p + 1]) == Finish(v, Joined(calls, m, data, p), p, data[p])
    ensures Arrived(max, c0, Reexecute, v, calls, m, data, p, OK)
  {
    hide RunOn, Finish, Joined, MarksFit, Good;
  }

  lemma ArrivedFailed(max: nat, c0: Config, v: Parser, calls: seq<Event>, m: Marks, data: seq<char>, p: nat, e: Errno)
    requires p < |data| && RunOn(max, Going(c0), data[..p + 1]) == Failed && e != OK
    ensures Arrived(max, c0, Error, v, calls, m, data, p, e)
  {
    hide RunOn, Finish, Joined, MarksFit, Good;
  }

  /** The automaton has failed for good. */
  lemma FailedForGood(max: nat, c0: Config, data: seq<char>, p: nat)
    requires p < |data| && RunOn(max, Going(c0), data[..p + 1]) == Failed
    ensures RunOn(max, Going(c0), data) == Failed
  {
    hide RunOn;
    GlueEnd(max, Going(c0), data, p);
    RunStopped(max, Failed, data[p + 1..]);
  }
}
