/** `ProcessWebSocket`: the frame loop and the reassembly of fragments (section 5.4 of RFC 6455). */
module WebSocketDelivery {
  import opened Options
  import opened Sequences
  import opened WebSocketFormat

  /** One call of the data callback. */
  datatype Delivery = Delivery(opcode: bv8, payload: seq<bv8>)

  /** The state that lives between calls: the cached fragments and their type, and the callbacks made. */
  datatype Reassembly = Reassembly(cache: seq<bv8>, frameType: bv8, delivered: seq<Delivery>)

  /** What one frame does. */
  function OnFrame(st: Reassembly, f: Frame): Reassembly {
    var continued := f.opcode == CONTINUATION_FRAME;
    var cache := if !f.fin || continued then st.cache + f.payload else st.cache;
    var frameType := if !f.fin && !continued then f.opcode else st.frameType;
    if !f.fin then Reassembly(cache, frameType, st.delivered)
    else if continued then Reassembly([], frameType, st.delivered + [Delivery(frameType, cache)])
    else Reassembly(cache, frameType, st.delivered + [Delivery(f.opcode, f.payload)])
  }

  datatype Pumped = Pumped(st: Reassembly, used: nat)

  /** The whole frames at the start of a buffer, one after the other. */
  function Pump(st: Reassembly, b: seq<bv8>): (r: Pumped)
    ensures r.used <= |b|
    decreases |b|
  {
    match Decode(b)
    case None => Pumped(st, 0)
    case Some(x) =>
      var r := Pump(OnFrame(st, x.frame), b[x.size..]);
      Pumped(r.st, x.size + r.used)
  }

  // ---------- the imperative loop ----------

  /** The WebSocket side of an `HTTPParser` and the callbacks of its session. */
  class WebSocketReader {
    var mWSCacheFrame: seq<bv8>
    var mWSParsePayload: seq<bv8>
    var mWSFrameType: bv8
    /** The calls of the data callback so far. */
    var delivered: seq<Delivery>

    ghost function State(): Reassembly
      reads this
    {
      Reassembly(mWSCacheFrame, mWSFrameType, delivered)
    }

    constructor ()
      ensures State() == Reassembly([], ERROR_FRAME, [])
    {
      mWSCacheFrame, mWSParsePayload, mWSFrameType, delivered := [], [], ERROR_FRAME, [];
    }

    method ProcessWebSocket(data: seq<bv8>) returns (used: nat)
      modifies this
      ensures Pump(old(State()), data) == Pumped(State(), used)
    {
      hide Decode, OnFrame;
      var leftLen := |data|;
      var buffer := data;
      while leftLen > 0
        invariant 0 <= leftLen <= |data| && buffer == data[|data| - leftLen..]
        invariant Pump(old(State()), data) ==
                  Pumped(Pump(State(), buffer).st, |data| - leftLen + Pump(State(), buffer).used)
      {
        mWSParsePayload := [];
        var ok, payload, opcode, frameSize, isFin := ExtractFrame(buffer, mWSParsePayload);
        mWSParsePayload := payload;
        if !ok { break; }
        ghost var f := Decode(buffer).value.frame;
        leftLen := leftLen - frameSize;
        buffer := buffer[frameSize..];
        assert [] + f.payload == f.payload;
        Take(opcode, isFin, f);
      }
      NothingToPump(buffer);
      used := |data| - leftLen;
    }

    /** The body of the loop, for a frame that has been extracted. */
    method Take(opcode0: bv8, isFin: bool, ghost f: Frame)
      requires f.opcode == opcode0 && f.fin == isFin && mWSParsePayload == f.payload
      modifies this
      ensures State() == OnFrame(old(State()), f)
    {
      var opcode := opcode0;
      if !isFin || opcode == CONTINUATION_FRAME {
        mWSCacheFrame := mWSCacheFrame + mWSParsePayload;
        mWSParsePayload := [];
      }
      if !isFin && opcode != CONTINUATION_FRAME { mWSFrameType := opcode; }
      if !isFin { return; }
      if opcode == CONTINUATION_FRAME {
        if mWSCacheFrame != [] {
          mWSParsePayload := mWSCacheFrame;
          mWSCacheFrame := [];
        }
        opcode := mWSFrameType;
      }
      delivered := delivered + [Delivery(opcode, mWSParsePayload)];
    }
  }

  lemma NothingToPump(b: seq<bv8>)
    ensures b == [] ==> Decode(b) == None
  {}

  // ---------- segmentation ----------

  /** Processing what has arrived and later the unread tail with what arrives then is processing it all at once. */
  lemma {:induction false} PumpAppend(st: Reassembly, a: seq<bv8>, b: seq<bv8>)
    ensures var r := Pump(st, a);
            var s := Pump(r.st, a[r.used..] + b);
            Pump(st, a + b) == Pumped(s.st, r.used + s.used)
    decreases |a|
  {
    hide Decode, OnFrame;
    match Decode(a)
    case None => assert a[0..] + b == a + b;
    case Some(x) =>
      AppendStable(a, b);
      assert (a + b)[x.size..] == a[x.size..] + b;
      PumpAppend(OnFrame(st, x.frame), a[x.size..], b);
      var r := Pump(OnFrame(st, x.frame), a[x.size..]);
      assert a[x.size..][r.used..] == a[x.size + r.used..];
  }

  /** Feeds a stream piece by piece, the caller keeping the unread tail: the callbacks are those of the whole stream,
      whatever the cut. */
  method Feed(reader: WebSocketReader, pieces: seq<seq<bv8>>) returns (tail: seq<bv8>)
    modifies reader
    ensures var r := Pump(old(reader.State()), Flatten(pieces));
            reader.State() == r.st && tail == Flatten(pieces)[r.used..]
  {
    hide Pump;
    ghost var st0 := reader.State();
    tail := [];
    PumpNothing(st0);
    for i := 0 to |pieces|
      invariant var r := Pump(st0, Flatten(pieces[..i]));
                reader.State() == r.st && tail == Flatten(pieces[..i])[r.used..]
    {
      ghost var read := Flatten(pieces[..i]);
      assert pieces[..i + 1][..i] == pieces[..i];
      PumpAppend(st0, read, pieces[i]);
      var buffer := tail + pieces[i];
      var used := reader.ProcessWebSocket(buffer);
      tail := buffer[used..];
    }
    assert pieces[..|pieces|] == pieces;
  }

  lemma PumpNothing(st: Reassembly)
    ensures Pump(st, []) == Pumped(st, 0)
  {}

  // ---------- messages ----------

  /** A payload and the mask it is sent under, if any. */
  datatype Body = Body(payload: seq<bv8>, mask: Option<seq<bv8>>)

  datatype Control = Control(opcode: bv8, body: Body)

  /** A continuation fragment and the control frames sent just before it. */
  datatype Fragment = Fragment(before: seq<Control>, body: Body)

  /** What a peer sends: a control frame, or a data message in one or more fragments. */
  datatype Item = Ctl(control: Control) | Msg(opcode: bv8, first: Body, rest: seq<Fragment>)

  function FrameOf(fin: bool, opcode: bv8, b: Body): Frame { Frame(fin, opcode, b.mask, b.payload) }

  function ControlFrames(cs: seq<Control>): seq<Frame> {
    seq(|cs|, i requires 0 <= i < |cs| => FrameOf(true, cs[i].opcode, cs[i].body))
  }

  /** The continuation frames; only the last is final. */
  function RestFrames(rest: seq<Fragment>): seq<Frame> {
    if rest == [] then []
    else ControlFrames(rest[0].before) + [FrameOf(|rest| == 1, CONTINUATION_FRAME,
                                                  rest[0].body)] + RestFrames(rest[1..])
  }

  function ItemFrames(item: Item): seq<Frame> {
    match item
    case Ctl(c) => [FrameOf(true, c.opcode, c.body)]
    case Msg(opcode, first, rest) => [FrameOf(rest == [], opcode, first)] + RestFrames(rest)
  }

  function StreamFrames(items: seq<Item>): seq<Frame> {
    if items == [] then [] else ItemFrames(items[0]) + StreamFrames(items[1..])
  }

  function ControlDeliveries(cs: seq<Control>): seq<Delivery> {
    seq(|cs|, i requires 0 <= i < |cs| => Delivery(cs[i].opcode, cs[i].body.payload))
  }

  /** The control frames between the fragments, in order. */
  function Interleaved(rest: seq<Fragment>): seq<Delivery> {
    if rest == [] then [] else ControlDeliveries(rest[0].before) + Interleaved(rest[1..])
  }

  function Joined(rest: seq<Fragment>): seq<bv8> {
    if rest == [] then [] else rest[0].body.payload + Joined(rest[1..])
  }

  /** What the receiver is promised: each control frame as it comes, each message once, whole, with the opcode of its
      first fragment, when its final frame arrives. */
  function ItemDeliveries(item: Item): seq<Delivery> {
    match item
    case Ctl(c) => [Delivery(c.opcode, c.body.payload)]
    case Msg(opcode, first, rest) => Interleaved(rest) + [Delivery(opcode, first.payload + Joined(rest))]
  }

  function StreamDeliveries(items: seq<Item>): seq<Delivery> {
    if items == [] then [] else ItemDeliveries(items[0]) + StreamDeliveries(items[1..])
  }

  predicate IsBody(b: Body) { |b.payload| < 0x8000_0000 && (b.mask.Some? ==> |b.mask.value| == 4) }

  predicate IsControl(c: Control) { CONTINUATION_FRAME < c.opcode <= 0x0F && IsBody(c.body) }

  predicate IsFragment(f: Fragment) { IsBody(f.body) && forall i :: 0 <= i < |f.before| ==> IsControl(f.before[i]) }

  predicate IsItem(item: Item) {
    match item
    case Ctl(c) => IsControl(c)
    case Msg(opcode, first, rest) =>
      CONTINUATION_FRAME < opcode <= 0x0F && IsBody(first) && forall i :: 0 <= i < |rest| ==> IsFragment(rest[i])
  }

  // ---------- delivery ----------

  /** Frames taken one after the other. */
  function OnFrames(st: Reassembly, fs: seq<Frame>): Reassembly
    decreases |fs|
  {
    if fs == [] then st else OnFrames(OnFrame(st, fs[0]), fs[1..])
  }

  lemma {:induction false} OnFramesAppend(st: Reassembly, a: seq<Frame>, b: seq<Frame>)
    ensures OnFrames(st, a + b) == OnFrames(OnFrames(st, a), b)
    decreases |a|
  {
    hide OnFrame;
    if a == [] {
      assert a + b == b;
    } else {
      assert (a + b)[1..] == a[1..] + b;
      OnFramesAppend(OnFrame(st, a[0]), a[1..], b);
    }
  }

  lemma {:induction false} ControlsDelivered(st: Reassembly, cs: seq<Control>)
    requires forall i :: 0 <= i < |cs| ==> IsControl(cs[i])
    ensures OnFrames(st, ControlFrames(cs)) == st.(delivered := st.delivered + ControlDeliveries(cs))
    decreases |cs|
  {
    if cs != [] {
      var fs := ControlFrames(cs);
      var next := st.(delivered := st.delivered + [Delivery(cs[0].opcode, cs[0].body.payload)]);
      assert IsControl(cs[0]) && OnFrame(st, fs[0]) == next;
      assert fs[1..] == ControlFrames(cs[1..]);
      ControlsDelivered(next, cs[1..]);
      assert ControlDeliveries(cs) == [Delivery(cs[0].opcode, cs[0].body.payload)] + ControlDeliveries(cs[1..]);
    }
  }

  lemma StreamSplit(items: seq<Item>)
    ensures items == [] ==> StreamFrames(items) == [] && StreamDeliveries(items) == []
    ensures items != [] ==>
              && StreamFrames(items) == ItemFrames(items[0]) + StreamFrames(items[1..])
              && StreamDeliveries(items) == ItemDeliveries(items[0]) + StreamDeliveries(items[1..])
  {
    hide ItemFrames, ItemDeliveries;
  }

  lemma NoFrames(st: Reassembly)
    ensures OnFrames(st, []) == st
  {}

  /** The rest of a message whose first fragments are in the cache. */
  lemma {:induction false} RestDelivered(st: Reassembly, rest: seq<Fragment>)
    requires rest != [] && forall i :: 0 <= i < |rest| ==> IsFragment(rest[i])
    ensures OnFrames(st, RestFrames(rest)) ==
            Reassembly([], st.frameType,
                       st.delivered + Interleaved(rest) + [Delivery(st.frameType, st.cache + Joined(rest))])
    decreases |rest|
  {
    hide IsControl;
    var f := rest[0];
    assert IsFragment(f);
    var frame := FrameOf(|rest| == 1, CONTINUATION_FRAME, f.body);
    var a := st.(delivered := st.delivered + ControlDeliveries(f.before));
    ControlsDelivered(st, f.before);
    OnFramesAppend(st, ControlFrames(f.before) + [frame], RestFrames(rest[1..]));
    OnFramesAppend(st, ControlFrames(f.before), [frame]);
    OneFrame(a, frame);
    if |rest| == 1 {
      assert f.body.payload + [] == f.body.payload && ControlDeliveries(f.before) + [] == ControlDeliveries(f.before);
    } else {
      var b := a.(cache := st.cache + f.body.payload);
      RestDelivered(b, rest[1..]);
      assert st.cache + Joined(rest) == b.cache + Joined(rest[1..]);
      assert st.delivered + Interleaved(rest) == a.delivered + Interleaved(rest[1..]);
    }
  }

  lemma OneFrame(st: Reassembly, f: Frame)
    ensures OnFrames(st, [f]) == OnFrame(st, f)
  {
    hide OnFrame;
  }

  lemma ItemDelivered(st: Reassembly, item: Item)
    requires IsItem(item) && st.cache == []
    ensures var r := OnFrames(st, ItemFrames(item));
            r.cache == [] && r.delivered == st.delivered + ItemDeliveries(item)
  {
    if item.Ctl? {
      OneFrame(st, ItemFrames(item)[0]);
    } else {
      var frame := FrameOf(item.rest == [], item.opcode, item.first);
      OnFramesAppend(st, [frame], RestFrames(item.rest));
      OneFrame(st, frame);
      if item.rest == [] {
        assert item.first.payload + [] == item.first.payload;
      } else {
        RestDelivered(OnFrame(st, frame), item.rest);
        assert [] + item.first.payload == item.first.payload;
      }
    }
  }

  lemma {:induction false} StreamDelivered(st: Reassembly, items: seq<Item>)
    requires st.cache == [] && forall i :: 0 <= i < |items| ==> IsItem(items[i])
    ensures var r := OnFrames(st, StreamFrames(items));
            r.cache == [] && r.delivered == st.delivered + StreamDeliveries(items)
    decreases |items|
  {
    StreamSplit(items);
    hide OnFrames, OnFrame, IsItem, ItemFrames, ItemDeliveries, StreamFrames, StreamDeliveries;
    if items == [] {
      NoFrames(st);
    } else {
      OnFramesAppend(st, ItemFrames(items[0]), StreamFrames(items[1..]));
      ItemDelivered(st, items[0]);
      StreamDelivered(OnFrames(st, ItemFrames(items[0])), items[1..]);
    }
  }

  /** A frame that the writer can build and the reader can read. */
  predicate IsSent(f: Frame) { IsFrame(f) && |f.payload| < 0x8000_0000 }

  /** The bytes of a list of frames. */
  function EncodeAll(fs: seq<Frame>): seq<bv8>
    requires forall f :: f in fs ==> IsSent(f)
  {
    if fs == [] then []
    else
      assert IsSent(fs[0]);
      Encode(fs[0]) + EncodeAll(fs[1..])
  }

  /** Whole encoded frames are all taken, in order. */
  lemma {:induction false} FramesPumped(st: Reassembly, fs: seq<Frame>)
    requires forall f :: f in fs ==> IsSent(f)
    ensures Pump(st, EncodeAll(fs)) == Pumped(OnFrames(st, fs), |EncodeAll(fs)|)
    decreases |fs|
  {
    hide Decode, Encode, OnFrame, IsFrame;
    if fs == [] {
      PumpNothing(st);
    } else {
      var rest := EncodeAll(fs[1..]);
      assert IsSent(fs[0]);
      FrameRoundTrip(fs[0], rest);
      assert EncodeAll(fs)[|Encode(fs[0])|..] == rest;
      FramesPumped(OnFrame(st, fs[0]), fs[1..]);
    }
  }

  lemma {:induction false} RestSent(rest: seq<Fragment>)
    requires forall i :: 0 <= i < |rest| ==> IsFragment(rest[i])
    ensures forall f :: f in RestFrames(rest) ==> IsSent(f)
  {
    if rest != [] {
      RestSent(rest[1..]);
      assert IsFragment(rest[0]);
    }
  }

  lemma {:induction false} StreamSent(items: seq<Item>)
    requires forall i :: 0 <= i < |items| ==> IsItem(items[i])
    ensures forall f :: f in StreamFrames(items) ==> IsSent(f)
  {
    if items != [] {
      assert IsItem(items[0]);
      StreamSent(items[1..]);
      if items[0].Msg? { RestSent(items[0].rest); }
    }
  }

  /** A stream of messages on the wire. */
  ghost function EncodeStream(items: seq<Item>): seq<bv8>
    requires forall i :: 0 <= i < |items| ==> IsItem(items[i])
  {
    StreamSent(items);
    EncodeAll(StreamFrames(items))
  }

  /** Messages in fragments, with control frames anywhere between them, built by the frame writer and received in any
      segmentation: the callback sees each control frame and each whole message once, in order, and nothing is left. */
  method ReceiveStream(reader: WebSocketReader, pieces: seq<seq<bv8>>, ghost items: seq<Item>) returns (tail: seq<bv8>)
    requires forall i :: 0 <= i < |items| ==> IsItem(items[i])
    requires Flatten(pieces) == EncodeStream(items)
    requires reader.mWSCacheFrame == []
    modifies reader
    ensures tail == [] && reader.mWSCacheFrame == []
    ensures reader.delivered == old(reader.delivered) + StreamDeliveries(items)
  {
    hide Pump, OnFrames, Flatten, EncodeAll, StreamFrames, StreamDeliveries;
    StreamSent(items);
    FramesPumped(reader.State(), StreamFrames(items));
    StreamDelivered(reader.State(), items);
    tail := Feed(reader, pieces);
  }
}
