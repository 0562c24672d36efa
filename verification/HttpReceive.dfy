/** Feeding a whole message to an `HTTPParser`, in any pieces. */
module HttpReceive {
  import opened Options
  import opened Sequences
  import opened HttpTypes
  import opened HttpAutomaton
  import opened HttpInvariants
  import opened HttpFraming
  import opened HttpUrl
  import opened HttpSegmentation
  import opened HttpWrapper

  /** Where a new parser starts. */
  function Start(kind: MessageType): Config { Config(InitialParser(kind), [], 0) }

  /** The text is a message that is complete on its last byte and not before: its run is `end`, and its callbacks make
      the message `o` out of `base`. */
  ghost predicate Whole(max: nat, kind: MessageType, base: Message, text: seq<char>, end: Run, o: Message) {
    && text != [] && RunOn(max, Going(Start(kind)), text) == end && !end.Failed? && end.c.n == |text|
    && RunOn(max, Going(Start(kind)), text[..|text| - 1]).Going?
    && Completions(RunOn(max, Going(Start(kind)), text[..|text| - 1]).c.t) == 0
    && Replay(base, end.c.t) == Some(o) && o.completed
  }

  /** Without a message-complete callback the message is not complete. */
  lemma {:induction false} NotYet(m: Message, t: seq<Event>)
    requires !m.completed && Completions(t) == 0 && Replay(m, t).Some?
    ensures !Replay(m, t).value.completed
  {
    hide OnData;
    if t != [] {
      NotYet(m, t[..|t| - 1]);
      DataKeeps(Replay(m, t[..|t| - 1]).value, t[|t| - 1]);
    }
  }

  lemma DataKeeps(m: Message, e: Event)
    requires OnEvent(m, e).Some? && !e.MessageComplete? && !m.completed
    ensures !OnEvent(m, e).value.completed
  {
    hide ParseResult;
  }

  /** A part of a run that is under way is under way. */
  lemma PartGoing(max: nat, kind: MessageType, a: seq<char>, b: seq<char>)
    requires RunOn(max, Going(Start(kind)), a + b).Going?
    ensures RunOn(max, Going(Start(kind)), a).Going?
  {
    hide RunOn;
    RunAppend(max, Going(Start(kind)), a, b);
    var r := RunOn(max, Going(Start(kind)), a);
    if !r.Going? { RunStopped(max, r, b); }
  }

  /** If the callbacks of a whole run are accepted, so are those of a part. */
  lemma PartReplayed(m: Message, max: nat, kind: MessageType, a: seq<char>, b: seq<char>)
    requires RunOn(max, Going(Start(kind)), a).Going? && !RunOn(max, Going(Start(kind)), a + b).Failed?
    requires Replay(m, RunOn(max, Going(Start(kind)), a + b).c.t).Some?
    ensures Replay(m, RunOn(max, Going(Start(kind)), a).c.t).Some?
  {
    hide RunOn, Replay;
    RunAppend(max, Going(Start(kind)), a, b);
    var c := RunOn(max, Going(Start(kind)), a).c;
    if Replay(m, c.t) == None { RefusedStays(m, max, c, b); }
  }

  lemma NoCompletions(kind: MessageType)
    ensures Completions(Start(kind).t) == 0
  {}

  /** On a strict part of a whole message the parser is under way: no error, no callback has failed, and the message
      is not complete. */
  lemma PartUnderWay(max: nat, kind: MessageType, m: Message, text: seq<char>, end: Run, o: Message, k: nat)
    requires Whole(max, kind, m, text, end, o) && k < |text| && !m.completed
    ensures var a := RunOn(max, Going(Start(kind)), text[..k]);
            a.Going? && Replay(m, a.c.t).Some? && !Replay(m, a.c.t).value.completed
  {
    hide RunOn, Replay, Completions;
    NoCompletions(kind);
    var init := text[..|text| - 1];
    assert text == text[..k] + text[k..];
    assert init == text[..k] + init[k..];
    PartGoing(max, kind, text[..k], init[k..]);
    PartReplayed(m, max, kind, text[..k], text[k..]);
    PartPending(max, Start(kind), text[..k], init[k..]);
    NotYet(m, RunOn(max, Going(Start(kind)), text[..k]).c.t);
  }

  lemma {:induction false} PrefixShorter(pieces: seq<seq<char>>, i: nat)
    requires i <= |pieces| && forall j :: 0 <= j < |pieces| ==> pieces[j] != []
    ensures Flatten(pieces[..i]) <= Flatten(pieces)
    ensures i < |pieces| ==> |Flatten(pieces[..i])| < |Flatten(pieces)|
  {
    assert pieces == pieces[..i] + pieces[i..];
    FlattenAppend(pieces[..i], pieces[i..]);
    if i < |pieces| {
      assert pieces[i..] == [pieces[i]] + pieces[i + 1..];
      FlattenAppend([pieces[i]], pieces[i + 1..]);
      assert Flatten([pieces[i]]) == Flatten([]) + pieces[i];
    }
  }

  /** The call on piece `i`, after the pieces before it. */
  lemma NextPiece(m: Message, max: nat, kind: MessageType, text: seq<char>, end: Run, o: Message,
                  pieces: seq<seq<char>>, i: nat, c: Config)
    requires Whole(max, kind, m, text, end, o) && Flatten(pieces) == text && !m.completed
    requires i < |pieces| && forall j :: 0 <= j < |pieces| ==> pieces[j] != []
    requires RunOn(max, Going(Start(kind)), Flatten(pieces[..i])) == Going(c)
    ensures var s := RunOn(max, Going(c.(n := 0)), pieces[i]);
            && !s.Failed? && Replay(m, s.c.t).Some?
            && (i + 1 < |pieces| ==>
                  && s.Going? && !Replay(m, s.c.t).value.completed
                  && RunOn(max, Going(Start(kind)), Flatten(pieces[..i + 1])) == Going(s.c.(n := s.c.n + c.n)))
            && (i + 1 == |pieces| ==>
                  && Replay(m, s.c.t) == Some(o) && s.c.n + c.n == |text|
                  && s.c.p.verb == end.c.p.verb && s.c.p.upgrade == end.c.p.upgrade)
  {
    hide RunOn, Replay, Flatten, Completions;
    FeedOne(max, Start(kind), pieces, i, c);
    PrefixShorter(pieces, i + 1);
    if i + 1 < |pieces| {
      var read := Flatten(pieces[..i + 1]);
      assert read == text[..|read|];
      PartUnderWay(max, kind, m, text, end, o, |read|);
    } else {
      assert pieces[..i + 1] == pieces;
    }
  }

  /** Feeds a whole message, in any pieces, to an idle parser: no error, complete exactly at the last byte, and the
      message is the one its callbacks make. */
  method ReceiveWhole(parser: HTTPParser, pieces: seq<seq<char>>, ghost text: seq<char>, ghost end: Run,
                      ghost o: Message)
    returns (total: nat, failed: bool)
    requires parser.Idle() && !parser.mISCompleted
    requires Whole(parser.maxHeaderSize, parser.mParserType, parser.base, text, end, o) && Flatten(pieces) == text
    requires forall i :: 0 <= i < |pieces| ==> pieces[i] != [] && |pieces[i]| + parser.maxHeaderSize < TWO_32
    modifies parser, parser.mParser
    ensures !failed && total == |text| && parser.Value() == o && parser.Idle()
    ensures parser.mMethod == Some(end.c.p.verb) && parser.mIsUpgrade == end.c.p.upgrade
    ensures parser.mIsWebSocket == (parser.mIsUpgrade && parser.HasEntry("Upgrade", "websocket"))
  {
    hide RunOn, Replay, Flatten, Join, Good, UnderWay, Whole;
    ghost var base := parser.base;
    IdleStart(parser);
    SomePieces(parser.maxHeaderSize, parser.mParserType, base, text, end, o, pieces);
    total, failed := 0, false;
    var i := 0;
    while i < |pieces| && !failed && !parser.mISCompleted
      invariant i <= |pieces| && !failed && (parser.mISCompleted <==> i == |pieces|)
      invariant i < |pieces| ==>
                  parser.mParser == old(parser.mParser) && UnderWay(parser, base, total, Flatten(pieces[..i]))
      invariant i == |pieces| ==> Done(parser, total, text, end, o)
    {
      total, failed := ReceivePiece(parser, pieces, i, total, base, text, end, o);
      i := i + 1;
    }
  }

  /** The message is complete. */
  ghost predicate Done(parser: HTTPParser, total: nat, text: seq<char>, end: Run, o: Message)
    reads parser, parser.mParser
  {
    && !end.Failed? && total == |text| && parser.Value() == o && parser.Idle()
    && parser.mMethod == Some(end.c.p.verb) && parser.mIsUpgrade == end.c.p.upgrade
    && parser.mIsWebSocket == (parser.mIsUpgrade && parser.HasEntry("Upgrade", "websocket"))
  }

  /** Feeds one more piece. */
  method ReceivePiece(parser: HTTPParser, pieces: seq<seq<char>>, i: nat, total0: nat, ghost base: Message,
                      ghost text: seq<char>, ghost end: Run, ghost o: Message)
    returns (total: nat, failed: bool)
    requires i < |pieces| && UnderWay(parser, base, total0, Flatten(pieces[..i]))
    requires Whole(parser.maxHeaderSize, parser.mParserType, base, text, end, o) && Flatten(pieces) == text
    requires forall j :: 0 <= j < |pieces| ==> pieces[j] != [] && |pieces[j]| + parser.maxHeaderSize < TWO_32
    modifies parser, parser.mParser
    ensures !failed && (parser.mISCompleted <==> i + 1 == |pieces|)
    ensures i + 1 < |pieces| ==>
              parser.mParser == old(parser.mParser) && UnderWay(parser, base, total, Flatten(pieces[..i + 1]))
    ensures i + 1 == |pieces| ==> Done(parser, total, text, end, o)
  {
    hide RunOn, Replay, Flatten, Join, Good, TailFits, Completions;
    NextPiece(base, parser.maxHeaderSize, parser.mParserType, text, end, o, pieces, i,
              Config(parser.mParser.View(), Join(parser.mParser.calls), total0));
    var nparsed;
    nparsed, failed := parser.TryParse(pieces[i]);
    total := total0 + nparsed;
  }

  /** The parser has taken the bytes `read` of a message without completing it. */
  ghost predicate UnderWay(parser: HTTPParser, base: Message, total: nat, read: seq<char>)
    reads parser, parser.mParser
  {
    && parser.Valid() && parser.base == base && !base.completed && !parser.mISCompleted
    && RunOn(parser.maxHeaderSize, Going(Start(parser.mParserType)), read) ==
       Going(Config(parser.mParser.View(), Join(parser.mParser.calls), total))
  }

  lemma IdleStart(parser: HTTPParser)
    requires parser.Idle() && !parser.mISCompleted
    ensures UnderWay(parser, parser.base, 0, []) && !parser.mISCompleted
  {}

  lemma SomePieces(max: nat, kind: MessageType, base: Message, text: seq<char>, end: Run, o: Message,
                   pieces: seq<seq<char>>)
    requires Whole(max, kind, base, text, end, o) && Flatten(pieces) == text
    ensures |pieces| > 0 && Flatten(pieces[..0]) == []
  {}
}
