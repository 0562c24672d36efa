/** TCP segmentation does not matter: feeding a stream in pieces is one run over the whole stream. */
module HttpSegmentation {
  import opened Sequences
  import opened HttpTypes
  import opened HttpAutomaton
  import opened HttpInvariants
  import opened HttpExecute

  /** The automaton fed piece by piece. */
  function FeedOn(max: nat, r: Run, pieces: seq<seq<char>>): Run {
    if pieces == [] then r else RunOn(max, FeedOn(max, r, pieces[..|pieces| - 1]), pieces[|pieces| - 1])
  }

  /** Every cut of a stream into pieces gives the run over the whole stream: the same parser state,
      joined callbacks, stopping offset and failure. */
  lemma {:induction false} Segmentation(max: nat, r: Run, pieces: seq<seq<char>>)
    ensures FeedOn(max, r, pieces) == RunOn(max, r, Flatten(pieces))
  {
    if pieces != [] {
      var init := pieces[..|pieces| - 1];
      Segmentation(max, r, init);
      RunAppend(max, r, Flatten(init), pieces[|pieces| - 1]);
    }
  }

  /** Two cuts of one stream cannot be told apart. */
  lemma SegmentationIndependent(max: nat, c: Config, a: seq<seq<char>>, b: seq<seq<char>>)
    requires Flatten(a) == Flatten(b)
    ensures FeedOn(max, Going(c), a) == FeedOn(max, Going(c), b)
  {
    Segmentation(max, Going(c), a);
    Segmentation(max, Going(c), b);
  }

  /** A run with its byte count moved on by `k`. */
  function Shift(r: Run, k: nat): Run {
    match r
    case Going(c) => Going(c.(n := c.n + k))
    case Exited(c) => Exited(c.(n := c.n + k))
    case Failed => Failed
  }

  lemma {:induction false} FinishShift(p: Parser, t: seq<Event>, n: nat, k: nat, ch: char)
    ensures Finish(p, t, n + k, ch) == Shift(Finish(p, t, n, ch), k)
    decreases Rank(p.state)
  {
    hide Pass, Rank;
    match Pass(p, ch)
    case Again(q, out) => FinishShift(q, PushOpt(t, out), n, k, ch);
    case _ =>
  }

  lemma StepShift(max: nat, c: Config, k: nat, ch: char)
    ensures Step(max, c.(n := c.n + k), ch) == Shift(Step(max, c, ch), k)
  {
    hide Finish, ParsingHeader;
    FinishShift(c.p, c.t, c.n, k, ch);
    FinishShift(c.p.(nread := c.p.nread + 1), c.t, c.n, k, ch);
  }

  lemma {:induction false} RunShift(max: nat, r: Run, k: nat, bs: seq<char>)
    ensures RunOn(max, Shift(r, k), bs) == Shift(RunOn(max, r, bs), k)
  {
    hide Step;
    if bs != [] {
      RunShift(max, r, k, bs[..|bs| - 1]);
      match RunOn(max, r, bs[..|bs| - 1])
      case Going(c) => StepShift(max, c, k, bs[|bs| - 1]);
      case _ =>
    }
  }

  /** A run that has stopped on a part of the pieces has stopped on all of them. */
  lemma StoppedFeed(max: nat, r: Run, pieces: seq<seq<char>>, i: nat)
    requires i <= |pieces| && !RunOn(max, r, Flatten(pieces[..i])).Going?
    ensures RunOn(max, r, Flatten(pieces)) == RunOn(max, r, Flatten(pieces[..i]))
  {
    assert pieces == pieces[..i] + pieces[i..];
    FlattenAppend(pieces[..i], pieces[i..]);
    RunAppend(max, r, Flatten(pieces[..i]), Flatten(pieces[i..]));
    RunStopped(max, RunOn(max, r, Flatten(pieces[..i])), Flatten(pieces[i..]));
  }

  /** The run over `i + 1` pieces from the run over `i` pieces and a call on the next piece. */
  lemma FeedOne(max: nat, c0: Config, pieces: seq<seq<char>>, i: nat, c: Config)
    requires i < |pieces| && RunOn(max, Going(c0), Flatten(pieces[..i])) == Going(c)
    ensures RunOn(max, Going(c0), Flatten(pieces[..i + 1])) ==
            Shift(RunOn(max, Going(c.(n := 0)), pieces[i]), c.n)
    ensures |Flatten(pieces[..i + 1])| == |Flatten(pieces[..i])| + |pieces[i]|
  {
    FlattenSnoc(pieces, i);
    RunAppend(max, Going(c0), Flatten(pieces[..i]), pieces[i]);
    RunShift(max, Going(c.(n := 0)), c.n, pieces[i]);
  }

  lemma StartIsGood(max: nat, p: Parser, t: seq<Event>)
    requires Good(max, p, 0) && TailFits(p.state, t)
    ensures GoodConfig(max, Config(p, t, 0))
  {}

  /** What a call on the next piece means for the whole stream. */
  lemma PieceDone(max: nat, c0: Config, pieces: seq<seq<char>>, i: nat, c: Config)
    requires i < |pieces| && RunOn(max, Going(c0), Flatten(pieces[..i])) == Going(c) && c.n == |Flatten(pieces[..i])|
    requires GoodConfig(max, c.(n := 0))
    ensures match RunOn(max, Going(c.(n := 0)), pieces[i])
            case Going(d) =>
              && RunOn(max, Going(c0), Flatten(pieces[..i + 1])) == Going(d.(n := c.n + d.n))
              && c.n + d.n == |Flatten(pieces[..i + 1])| && d.n == |pieces[i]|
            case Exited(d) => RunOn(max, Going(c0), Flatten(pieces)) == Exited(d.(n := c.n + d.n))
            case Failed => RunOn(max, Going(c0), Flatten(pieces)) == Failed
  {
    hide RunOn, Flatten, GoodConfig;
    FeedOne(max, c0, pieces, i, c);
    RunGood(max, c.(n := 0), pieces[i]);
    if !RunOn(max, Going(c.(n := 0)), pieces[i]).Going? { StoppedFeed(max, Going(c0), pieces, i + 1); }
  }

  /** A piece that fails by its byte `k` fails the stream by that byte. */
  lemma FailedFeed(max: nat, c0: Config, pieces: seq<seq<char>>, i: nat, c: Config, k: nat)
    requires i < |pieces| && RunOn(max, Going(c0), Flatten(pieces[..i])) == Going(c) && c.n == |Flatten(pieces[..i])|
    requires k < |pieces[i]| && RunOn(max, Going(c.(n := 0)), pieces[i][..k + 1]) == Failed
    ensures c.n + k < |Flatten(pieces)| && RunOn(max, Going(c0), Flatten(pieces)[..c.n + k + 1]) == Failed
  {
    hide RunOn, Flatten;
    FlattenSnoc(pieces, i);
    assert pieces == pieces[..i + 1] + pieces[i + 1..];
    FlattenAppend(pieces[..i + 1], pieces[i + 1..]);
    var before := Flatten(pieces[..i]);
    var part := pieces[i][..k + 1];
    assert Flatten(pieces)[..c.n + k + 1] == before + part;
    RunAppend(max, Going(c0), before, part);
    RunShift(max, Going(c.(n := 0)), c.n, part);
  }

  /** Feeds a stream to the parser piece by piece, until it fails or leaves for another protocol. The
      outcome is that of one run over the whole stream. */
  method Feed(parser: HttpParser, pieces: seq<seq<char>>) returns (total: nat, exited: bool)
    requires parser.Valid() && parser.errno == OK
    requires forall i :: 0 <= i < |pieces| ==> pieces[i] != [] && |pieces[i]| + parser.maxHeaderSize < TWO_32
    modifies parser
    ensures parser.Valid()
    ensures match RunOn(parser.maxHeaderSize, Going(old(parser.Start())), Flatten(pieces))
            case Going(c) =>
              parser.errno == OK && !exited && parser.View() == c.p && Join(parser.calls) == c.t
              && total == c.n == |Flatten(pieces)|
            case Exited(c) =>
              parser.errno == OK && exited && parser.View() == c.p && Join(parser.calls) == c.t
              && total == c.n <= |Flatten(pieces)|
            case Failed =>
              && parser.errno != OK && !exited && total < |Flatten(pieces)|
              && RunOn(parser.maxHeaderSize, Going(old(parser.Start())), Flatten(pieces)[..total + 1]) == Failed
  {
    hide RunOn, Join, GoodConfig, Good, TailFits, Flatten;
    ghost var c0 := parser.Start();
    ghost var max := parser.maxHeaderSize;
    StartIsGood(max, parser.View(), Join(parser.calls));
    RunGood(max, c0, Flatten(pieces));
    total, exited := 0, false;
    FeedNone(max, Going(c0), pieces);
    var i := 0;
    while i < |pieces|
      invariant i <= |pieces| && parser.Valid() && parser.errno == OK && !exited && total == |Flatten(pieces[..i])|
      invariant RunOn(max, Going(c0), Flatten(pieces[..i])) == Going(Config(parser.View(), Join(parser.calls), total))
    {
      ghost var c := Config(parser.View(), Join(parser.calls), total);
      assert c.(n := 0) == parser.Start();
      StartIsGood(max, parser.View(), Join(parser.calls));
      PieceDone(max, c0, pieces, i, c);
      var consumed;
      consumed, exited := parser.Execute(pieces[i]);
      if parser.errno != OK { FailedFeed(max, c0, pieces, i, c, consumed); }
      total := total + consumed;
      if parser.errno != OK || exited { return; }
      i := i + 1;
    }
    assert pieces[..i] == pieces;
  }

  lemma FeedNone(max: nat, r: Run, pieces: seq<seq<char>>)
    ensures RunOn(max, r, Flatten(pieces[..0])) == r && |Flatten(pieces[..0])| == 0
  {}
}
