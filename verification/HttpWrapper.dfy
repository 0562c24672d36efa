/** `HTTPParser`: the callbacks that build a message out of the parser's events. */
module HttpWrapper {
  import opened Options
  import opened HttpTypes
  import opened HttpAutomaton
  import opened HttpInvariants
  import opened HttpExecute
  import opened HttpUrl

  /** The message fields of an `HTTPParser`. */
  datatype Message = Message(url: seq<char>, path: seq<char>, query: seq<char>, status: seq<char>, body: seq<char>,
                             headValues: map<seq<char>, seq<char>>, currentField: seq<char>, lastWasValue: bool,
                             completed: bool)

  /** `clearParse`. */
  const CLEARED := Message([], [], [], [], [], map[], [], true, false)

  /** What a callback does to the message; None when it returns an error. */
  function OnEvent(m: Message, e: Event): Option<Message> {
    match e
    case MessageBegin => Some(CLEARED)
    case Data(k, bytes) => Some(OnData(m, k, bytes))
    case HeadersComplete => OnHeadComplete(m)
    case MessageComplete => Some(m.(completed := true))
    case ChunkHeader(_) => Some(m)
    case ChunkComplete => Some(m)
  }

  function OnData(m: Message, k: DataKind, bytes: seq<char>): Message {
    match k
    case UrlData => m.(url := m.url + bytes)
    case StatusData => m.(status := m.status + bytes)
    case FieldData =>
      m.(currentField := (if m.lastWasValue then [] else m.currentField) + bytes, lastWasValue := false)
    case ValueData =>
      m.(headValues := m.headValues[m.currentField := Entry(m.headValues, m.currentField) + bytes],
         lastWasValue := true)
    case BodyData => m.(body := m.body + bytes)
  }

  /** `mHeadValues[k]`, which creates an empty entry. */
  function Entry(h: map<seq<char>, seq<char>>, k: seq<char>): seq<char> { if k in h then h[k] else [] }

  function OnHeadComplete(m: Message): Option<Message> {
    if m.url == [] then Some(m)
    else
      match ParseResult(m.url, false)
      case None => None
      case Some(parts) =>
        if PATH !in parts.fields then None
        else Some(m.(path := RangeOf(m.url, parts.fields[PATH]),
                     query := if QUERY in parts.fields then RangeOf(m.url, parts.fields[QUERY]) else m.query))
  }

  /** The message after a trace of callbacks; None when a callback returned an error. */
  function Replay(m: Message, t: seq<Event>): Option<Message> {
    if t == [] then Some(m)
    else
      match Replay(m, t[..|t| - 1])
      case None => None
      case Some(n) => OnEvent(n, t[|t| - 1])
  }

  lemma ReplaySnoc(m: Message, t: seq<Event>, e: Event)
    ensures Replay(m, t + [e]) == match Replay(m, t) case None => None case Some(n) => OnEvent(n, e)
  {
    assert (t + [e])[..|t|] == t;
  }

  /** Data that comes in two callbacks has the effect of one callback. */
  lemma TwoCalls(m: Message, k: DataKind, x: seq<char>, y: seq<char>)
    ensures OnData(OnData(m, k, x), k, y) == OnData(m, k, x + y)
  {
    var n := OnData(OnData(m, k, x), k, y);
    match k
    case UrlData => assert m.url + x + y == m.url + (x + y);
    case StatusData => assert m.status + x + y == m.status + (x + y);
    case FieldData =>
      var f := if m.lastWasValue then [] else m.currentField;
      assert f + x + y == f + (x + y);
    case ValueData =>
      var v := Entry(m.headValues, m.currentField);
      assert v + x + y == v + (x + y);
      assert n.headValues == m.headValues[m.currentField := v + (x + y)];
    case BodyData => assert m.body + x + y == m.body + (x + y);
  }

  lemma ReplayPush(m: Message, t: seq<Event>, e: Event)
    ensures Replay(m, Push(t, e)) == match Replay(m, t) case None => None case Some(n) => OnEvent(n, e)
  {
    hide OnData, OnHeadComplete;
    ReplaySnoc(m, t, e);
    if e.Data? && EndsWith(t, e.kind) {
      var init, last := t[..|t| - 1], t[|t| - 1];
      ReplaySnoc(m, init, Data(e.kind, last.bytes + e.bytes));
      if Replay(m, init).Some? { TwoCalls(Replay(m, init).value, e.kind, last.bytes, e.bytes); }
    }
  }

  /** The message does not depend on how the data is split into callbacks. */
  lemma {:induction false} ReplayJoin(m: Message, calls: seq<Event>)
    ensures Replay(m, calls) == Replay(m, Join(calls))
  {
    hide OnEvent;
    if calls != [] {
      ReplayJoin(m, calls[..|calls| - 1]);
      ReplayPush(m, Join(calls[..|calls| - 1]), calls[|calls| - 1]);
    }
  }

  /** Once a callback has failed, the trace stays refused. */
  lemma RefusedStays(m: Message, max: nat, c: Config, bs: seq<char>)
    requires Replay(m, c.t) == None
    ensures var r := RunOn(max, Going(c), bs); !r.Failed? ==> Replay(m, r.c.t) == None
  {
    hide Replay, Push, RunOn;
    forall t, e | Replay(m, t) == None ensures Replay(m, Push(t, e)) == None { ReplayPush(m, t, e); }
    RunStable(t => Replay(m, t) == None, max, c, bs);
  }

  class HTTPParser {
    const mParserType: MessageType
    const maxHeaderSize: nat
    var mParser: HttpParser

    var mMethod: Option<Method>
    var mIsUpgrade: bool
    var mIsWebSocket: bool
    var mISCompleted: bool
    var mLastWasValue: bool
    var mCurrentField: seq<char>
    var mPath: seq<char>
    var mQuery: seq<char>
    var mStatus: seq<char>
    var mHeadValues: map<seq<char>, seq<char>>
    var mUrl: seq<char>
    var mBody: seq<char>

    /** The message when the current `http_parser` was set up. */
    ghost var base: Message

    ghost function Value(): Message
      reads this
    {
      Message(mUrl, mPath, mQuery, mStatus, mBody, mHeadValues, mCurrentField, mLastWasValue, mISCompleted)
    }

    /** The message is what the callbacks made so far build. */
    ghost predicate Valid()
      reads this, mParser
    {
      && mParser.Valid() && mParser.errno == OK && mParser.maxHeaderSize == maxHeaderSize
      && Replay(base, Join(mParser.calls)) == Some(Value())
    }

    /** No byte of a message has been parsed yet. */
    ghost predicate Idle()
      reads this, mParser
    {
      Valid() && mParser.View() == InitialParser(mParserType) && mParser.calls == []
    }

    constructor (parserType: MessageType, maxHeaderSize: nat)
      ensures Idle() && mParserType == parserType && this.maxHeaderSize == maxHeaderSize && !mISCompleted
      ensures fresh(mParser)
    {
      mParserType, this.maxHeaderSize := parserType, maxHeaderSize;
      mParser := new HttpParser(parserType, maxHeaderSize);
      mMethod, mIsUpgrade, mIsWebSocket := None, false, false;
      mUrl, mPath, mQuery, mStatus, mBody, mHeadValues, mCurrentField := [], [], [], [], [], map[], [];
      mLastWasValue, mISCompleted := true, false;
      base := CLEARED;
    }

    /** `sMessageBegin`. */
    method ClearParse()
      modifies this
      ensures mParser == old(mParser) && base == old(base) && Value() == CLEARED && mMethod == None
    {
      mMethod, mIsUpgrade, mIsWebSocket, mISCompleted, mLastWasValue := None, false, false, false, true;
      mUrl, mQuery, mBody, mStatus, mCurrentField, mHeadValues, mPath := [], [], [], [], [], map[], [];
    }

    /** `sHeadComplete`; the result is true on failure. */
    method HeadComplete() returns (failed: bool)
      modifies this`mPath, this`mQuery
      ensures failed == OnHeadComplete(old(Value())).None?
      ensures !failed ==> Some(Value()) == OnHeadComplete(old(Value()))
    {
      if mUrl == [] { return false; }
      var u := new ParsedUrl();
      failed := u.Parse(mUrl, false);
      if failed { return; }
      if PATH !in u.fieldSet { return true; }
      mPath := mUrl[u.fieldData[PATH].off..u.fieldData[PATH].off + u.fieldData[PATH].len];
      if QUERY in u.fieldSet {
        mQuery := mUrl[u.fieldData[QUERY].off..u.fieldData[QUERY].off + u.fieldData[QUERY].len];
      }
    }

    /** The data callbacks. */
    method Append(kind: DataKind, bytes: seq<char>)
      modifies this`mUrl, this`mStatus, this`mCurrentField, this`mHeadValues, this`mBody, this`mLastWasValue
      ensures Value() == OnData(old(Value()), kind, bytes)
    {
      match kind
      case UrlData => mUrl := mUrl + bytes;
      case StatusData => mStatus := mStatus + bytes;
      case FieldData =>
        if mLastWasValue { mCurrentField := []; }
        mCurrentField := mCurrentField + bytes;
        mLastWasValue := false;
      case ValueData =>
        mHeadValues := mHeadValues[mCurrentField := Entry(mHeadValues, mCurrentField) + bytes];
        mLastWasValue := true;
      case BodyData => mBody := mBody + bytes;
    }

    /** One callback. */
    method Notify(e: Event) returns (failed: bool)
      modifies this
      ensures mParser == old(mParser) && base == old(base)
      ensures failed == OnEvent(old(Value()), e).None?
      ensures !failed ==> Some(Value()) == OnEvent(old(Value()), e)
    {
      hide OnData, OnHeadComplete;
      failed := false;
      match e
      case MessageBegin => ClearParse();
      case Data(k, bytes) => Append(k, bytes);
      case HeadersComplete => failed := HeadComplete();
      case MessageComplete => mISCompleted := true;
      case ChunkHeader(_) =>
      case ChunkComplete =>
    }

    /** The callbacks of one `http_parser_execute`, the calls from the `k`th on. */
    method NotifyAll(calls: seq<Event>, k: nat) returns (failed: bool)
      requires k <= |calls| && Replay(base, calls[..k]) == Some(Value())
      modifies this
      ensures mParser == old(mParser) && base == old(base)
      ensures failed == Replay(base, calls).None?
      ensures !failed ==> Some(Value()) == Replay(base, calls)
    {
      hide OnEvent;
      var i := k;
      while i < |calls|
        invariant k <= i <= |calls|
        invariant mParser == old(mParser) && base == old(base)
        invariant Replay(base, calls[..i]) == Some(Value())
      {
        assert calls[..i + 1][..i] == calls[..i];
        failed := Notify(calls[i]);
        if failed {
          ReplayStops(base, calls, i + 1);
          return;
        }
        i := i + 1;
      }
      assert calls[..i] == calls;
      failed := false;
    }

    predicate HasEntry(key: seq<char>, value: seq<char>)
      reads this
    {
      key in mHeadValues && mHeadValues[key] == value
    }

    /** `tryParse` on at least one byte. The parser is set up anew when a message is complete. `failed` says that the
        parser or one of the callbacks is in error. */
    method TryParse(buffer: seq<char>) returns (nparsed: nat, failed: bool)
      requires Valid() && buffer != [] && |buffer| + maxHeaderSize < TWO_32
      modifies this, mParser
      ensures mParser == old(mParser) || fresh(mParser)
      ensures var r := RunOn(maxHeaderSize, Going(old(mParser.Start())), buffer);
              if r.Failed? || Replay(old(base), r.c.t).None? then failed
              else !failed && nparsed == r.c.n && Some(Value()) == Replay(old(base), r.c.t)
                   && if mISCompleted
                      then Idle() && mMethod == Some(r.c.p.verb) && mIsUpgrade == r.c.p.upgrade
                           && mIsWebSocket == (mIsUpgrade && HasEntry("Upgrade", "websocket"))
                      else Valid() && mParser == old(mParser) && base == old(base)
                           && mParser.View() == r.c.p && Join(mParser.calls) == r.c.t
    {
      hide RunOn, Replay, Join, Good, TailFits;
      ghost var calls0 := mParser.calls;
      var k := |mParser.calls|;
      RunGood(maxHeaderSize, mParser.Start(), buffer);
      var exited;
      nparsed, exited := mParser.Execute(buffer);
      if mParser.errno != OK { return nparsed, true; }
      assert mParser.calls[..k] == calls0;
      ReplayJoin(base, calls0);
      ReplayJoin(base, mParser.calls);
      failed := NotifyAll(mParser.calls, k);
      if !failed && mISCompleted { Conclude(); }
    }

    /** A message is complete. */
    method Conclude()
      modifies this
      ensures fresh(mParser) && Idle() && Value() == old(Value())
      ensures mMethod == Some(old(mParser.verb)) && mIsUpgrade == old(mParser.upgrade)
      ensures mIsWebSocket == (mIsUpgrade && HasEntry("Upgrade", "websocket"))
    {
      mIsUpgrade := mParser.upgrade;
      mIsWebSocket := mIsUpgrade && HasEntry("Upgrade", "websocket");
      mMethod := Some(mParser.verb);
      SetUp();
    }

    /** `http_parser_init`. */
    method SetUp()
      modifies this`mParser, this`base
      ensures fresh(mParser) && Idle()
    {
      mParser := new HttpParser(mParserType, maxHeaderSize);
      base := Value();
    }
  }

  lemma {:induction false} ReplayStops(m: Message, t: seq<Event>, k: nat)
    requires k <= |t| && Replay(m, t[..k]) == None
    ensures Replay(m, t) == None
  {
    if k == |t| {
      assert t[..k] == t;
    } else {
      assert t[..|t| - 1][..k] == t[..k];
      ReplayStops(m, t[..|t| - 1], k);
    }
  }
}
