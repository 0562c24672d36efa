/** The send side of `TcpSession` as a protocol: any number of threads call `send`, each lock region is one atomic
    step, and the executor runs the flush and completion handlers. */
module TcpSend {
  import opened Options
  import opened Sequences

  /** A message, identified by its place in the order of acceptance. */
  datatype Msg = Msg(data: seq<bv8>)

  function Total(ms: seq<Msg>): nat { if ms == [] then 0 else Total(ms[..|ms| - 1]) + |ms[|ms| - 1].data| }

  lemma {:induction false} TotalAppend(a: seq<Msg>, b: seq<Msg>)
    ensures Total(a + b) == Total(a) + Total(b)
  {
    if b == [] {
      assert a + b == a;
    } else {
      assert (a + b)[..|a + b| - 1] == a + b[..|b| - 1];
      TotalAppend(a, b[..|b| - 1]);
    }
  }

  /** A completion handler under way: running the callbacks, `next` of them done, or done with the list. */
  datatype Handler = Notifying(next: nat, bytes: nat) | Cleared(bytes: nat)

  /** The members of the session, the work that threads and the executor still owe, and the history. */
  datatype State = State(
    mSending: bool, mPending: seq<Msg>, mList: seq<Msg>, mSize: int,
    /** Threads between their lock region and the `tryFlush` they owe. */
    owed: nat,
    /** Flush handlers handed to the executor. */
    posted: nat,
    /** The buffers of the writes outstanding. */
    writes: seq<seq<Msg>>,
    handler: Option<Handler>,
    /** A write has failed. */
    broken: bool,
    /** Messages in lock order, messages whose callbacks have run, and messages whose write has been accounted for. */
    accepted: seq<Msg>, completed: seq<Msg>, released: seq<Msg>)

  const INIT := State(false, [], [], 0, 0, 0, [], None, false, [], [], [])

  datatype Step =
    | Send(msg: Msg)          // lock region of send
    | TryFlush                // lock region of tryFlush, by someone who owes one
    | Flush                   // a flush handler
    | WriteDone(w: nat)       // a write completes in full
    | WriteFailed(w: nat)     // a write completes with an error
    | Callback                // the next completion callback
    | ClearList               // the sending list is cleared
    | Release                 // lock region of onSendCompleted

  predicate Enabled(s: State, step: Step) {
    match step
    case Send(_) => true
    case TryFlush => s.owed > 0
    case Flush => s.posted > 0
    case WriteDone(w) => w < |s.writes| && s.handler.None?
    case WriteFailed(w) => w < |s.writes| && s.handler.None?
    case Callback => s.handler.Some? && s.handler.value.Notifying? && s.handler.value.next < |s.mList|
    case ClearList => s.handler.Some? && s.handler.value.Notifying? && s.handler.value.next >= |s.mList|
    case Release => s.handler.Some? && s.handler.value.Cleared?
  }

  function Without<T>(xs: seq<T>, i: nat): seq<T>
    requires i < |xs|
  {
    xs[..i] + xs[i + 1..]
  }

  function Apply(s: State, step: Step): State
    requires Enabled(s, step)
  {
    match step
    case Send(msg) =>
      s.(mSize := s.mSize + |msg.data|, mPending := s.mPending + [msg], accepted := s.accepted + [msg],
         owed := if s.mSending then s.owed else s.owed + 1)
    case TryFlush =>
      if s.mSending || s.mPending == [] then s.(owed := s.owed - 1)
      else s.(owed := s.owed - 1, mList := s.mPending, mPending := s.mList, mSending := true, posted := s.posted + 1)
    case Flush => s.(posted := s.posted - 1, writes := s.writes + [s.mList])
    case WriteDone(w) =>
      s.(writes := Without(s.writes, w), handler := Some(Notifying(0, Total(s.writes[w]))))
    case WriteFailed(w) => s.(writes := Without(s.writes, w), broken := true)
    case Callback =>
      var h := s.handler.value;
      s.(completed := s.completed + [s.mList[h.next]], handler := Some(Notifying(h.next + 1, h.bytes)))
    case ClearList =>
      s.(mList := [], released := s.released + s.mList, handler := Some(Cleared(s.handler.value.bytes)))
    case Release =>
      s.(mSending := false, mSize := s.mSize - s.handler.value.bytes, owed := s.owed + 1, handler := None)
  }

  // ---------- the invariant ----------

  /** The messages of the batch whose callbacks have not run yet. */
  function Unnotified(s: State): seq<Msg> {
    match s.handler
    case Some(Notifying(k, _)) => if k <= |s.mList| then s.mList[k..] else []
    case _ => s.mList
  }

  /** Exactly one party holds the batch: a posted flush, an outstanding write, a handler, or nobody after an error. */
  predicate OneHolder(s: State) {
    && s.posted + |s.writes| + (if s.handler.Some? then 1 else 0) + (if s.broken then 1 else 0)
       == (if s.mSending then 1 else 0)
    && (|s.writes| == 1 ==> s.writes[0] == s.mList)
    && (!s.mSending ==> s.mList == [])
  }

  /** What a handler under way has done to the batch. */
  predicate HandlerFits(s: State) {
    match s.handler
    case None => s.completed == s.released
    case Some(Notifying(k, bytes)) =>
      k <= |s.mList| && bytes == Total(s.mList) && s.completed == s.released + s.mList[..k]
    case Some(Cleared(_)) => s.mList == [] && s.completed == s.released
  }

  /** The bytes accepted and not yet accounted for. */
  function Outstanding(s: State): nat {
    (match s.handler case Some(Cleared(bytes)) => bytes case _ => Total(s.mList)) + Total(s.mPending)
  }

  predicate Inv(s: State) {
    && OneHolder(s)
    && HandlerFits(s)
    && s.accepted == s.released + (s.mList + s.mPending)
    && s.mSize == Outstanding(s)
    && (!s.mSending && s.mPending != [] ==> s.owed > 0)
  }

  lemma InvInit()
    ensures Inv(INIT)
  {}

  lemma SendKeeps(s: State, msg: Msg)
    requires Inv(s)
    ensures Inv(Apply(s, Send(msg)))
  {
    TotalAppend(s.mPending, [msg]);
    assert Total([msg]) == |msg.data| by { assert [msg][..0] == []; }
    assert s.accepted + [msg] == s.released + (s.mList + (s.mPending + [msg]));
  }

  lemma TryFlushKeeps(s: State)
    requires Inv(s) && Enabled(s, TryFlush)
    ensures Inv(Apply(s, TryFlush))
  {
    if !s.mSending && s.mPending != [] {
      assert s.mList + s.mPending == s.mPending + s.mList;
      assert s.mPending[..0] == [];
    }
  }

  lemma FlushKeeps(s: State)
    requires Inv(s) && Enabled(s, Flush)
    ensures Inv(Apply(s, Flush))
  {
    hide Total;
    assert s.writes == [];
  }

  lemma WriteDoneKeeps(s: State, w: nat)
    requires Inv(s) && Enabled(s, WriteDone(w))
    ensures Inv(Apply(s, WriteDone(w)))
  {
    hide Total;
    assert s.writes == [s.mList] && w == 0;
    assert Without(s.writes, w) == [] && s.mList[..0] == [];
  }

  lemma WriteFailedKeeps(s: State, w: nat)
    requires Inv(s) && Enabled(s, WriteFailed(w))
    ensures Inv(Apply(s, WriteFailed(w)))
  {
    hide Total;
    assert s.writes == [s.mList] && w == 0;
    assert Without(s.writes, w) == [];
  }

  lemma HandlerKeeps(s: State, step: Step)
    requires Inv(s) && Enabled(s, step) && (step.Callback? || step.ClearList? || step.Release?)
    ensures Inv(Apply(s, step))
  {
    var t := Apply(s, step);
    if step.Callback? {
      var k := s.handler.value.next;
      assert s.mList[..k + 1] == s.mList[..k] + [s.mList[k]];
      assert t.completed == t.released + s.mList[..k + 1];
    } else if step.ClearList? {
      assert s.mList[..|s.mList|] == s.mList;
      assert t.accepted == t.released + ([] + t.mPending);
    }
  }

  /** Every step of every thread keeps the invariant. */
  lemma InvStep(s: State, step: Step)
    requires Inv(s) && Enabled(s, step)
    ensures Inv(Apply(s, step))
  {
    hide Inv, Apply;
    match step
    case Send(msg) => SendKeeps(s, msg);
    case TryFlush => TryFlushKeeps(s);
    case Flush => FlushKeeps(s);
    case WriteDone(w) => WriteDoneKeeps(s, w);
    case WriteFailed(w) => WriteFailedKeeps(s, w);
    case Callback => HandlerKeeps(s, step);
    case ClearList => HandlerKeeps(s, step);
    case Release => HandlerKeeps(s, step);
  }

  // ---------- all runs ----------

  /** The state after a run; None when a step is taken that is not enabled. */
  function After(steps: seq<Step>): Option<State> {
    if steps == [] then Some(INIT)
    else
      match After(steps[..|steps| - 1])
      case None => None
      case Some(s) => if Enabled(s, steps[|steps| - 1]) then Some(Apply(s, steps[|steps| - 1])) else None
  }

  /** The messages sent in a run, in lock order. */
  function Sent(steps: seq<Step>): seq<Msg> {
    if steps == [] then []
    else Sent(steps[..|steps| - 1]) + (match steps[|steps| - 1] case Send(msg) => [msg] case _ => [])
  }

  lemma {:induction false} RunInv(steps: seq<Step>)
    requires After(steps).Some?
    ensures Inv(After(steps).value) && After(steps).value.accepted == Sent(steps)
  {
    hide Inv, Enabled;
    if steps == [] {
      InvInit();
    } else {
      var init := steps[..|steps| - 1];
      RunInv(init);
      InvStep(After(init).value, steps[|steps| - 1]);
    }
  }

  /** The split of the accepted messages. */
  lemma Accounted(s: State)
    requires Inv(s)
    ensures s.accepted == s.completed + (Unnotified(s) + s.mPending)
  {
    hide Total;
    if s.handler.Some? && s.handler.value.Notifying? {
      var k := s.handler.value.next;
      assert s.mList == s.mList[..k] + s.mList[k..];
      assert s.released + (s.mList + s.mPending) == (s.released + s.mList[..k]) + (s.mList[k..] + s.mPending);
    }
  }

  /** The bytes of a batch whose callbacks have run but whose size is still counted. */
  function Uncounted(s: State): nat { match s.handler case Some(Cleared(bytes)) => bytes case _ => 0 }

  lemma SizeExact(s: State)
    requires Inv(s)
    ensures s.mSize == Total(s.accepted) - Total(s.released) + Uncounted(s) && s.mSize >= Uncounted(s)
  {
    TotalAppend(s.released, s.mList + s.mPending);
    TotalAppend(s.mList, s.mPending);
    assert Total([]) == 0;
  }

  /** Safety over every interleaving: the messages sent, in lock order, are those completed, those in flight and those
      pending; at most one write is outstanding, of exactly the list in flight; the size counter is exact; and pending
      messages without a write in progress have somebody who owes a flush. */
  lemma SendSafety(steps: seq<Step>)
    requires After(steps).Some?
    ensures var s := After(steps).value;
            && Sent(steps) == s.completed + (Unnotified(s) + s.mPending)
            && s.posted + |s.writes| <= 1 && (s.writes != [] ==> s.writes == [s.mList])
            && s.mSize == Total(Sent(steps)) - Total(s.released) + Uncounted(s) && s.mSize >= 0
            && (!s.mSending && s.mPending != [] ==> s.owed > 0)
  {
    RunInv(steps);
    Accounted(After(steps).value);
    SizeExact(After(steps).value);
    hide After, Sent, Total, Unnotified, Outstanding, HandlerFits;
  }

  lemma CallbackNext(s: State)
    requires Inv(s) && Enabled(s, Callback)
    ensures |s.completed| < |s.accepted| && Apply(s, Callback).completed == s.completed + [s.accepted[|s.completed|]]
  {
    hide Total;
    var k := s.handler.value.next;
    Accounted(s);
    assert Unnotified(s)[0] == s.mList[k];
  }

  /** Callbacks run one at a time, each for the next message in order, and so once each; while a write is outstanding
      its list stays as it is; the size counter does not underflow. */
  lemma StepHistory(steps: seq<Step>, step: Step)
    requires After(steps).Some? && Enabled(After(steps).value, step)
    ensures var s := After(steps).value;
            var t := Apply(s, step);
            && (t.completed == s.completed
                || (|s.completed| < |s.accepted| && t.completed == s.completed + [s.accepted[|s.completed|]]))
            && (s.writes != [] && t.writes != [] ==> t.mList == s.mList && t.writes == s.writes)
            && (step.Release? ==> s.handler.value.bytes <= s.mSize)
  {
    RunInv(steps);
    hide After, Total;
    var s := After(steps).value;
    if step.Callback? { CallbackNext(s); }
    if step.Release? { SizeExact(s); }
    if step.WriteDone? || step.WriteFailed? { assert |Without(s.writes, step.w)| == 0; }
  }

  /** Nobody owes anything any more. */
  predicate Quiescent(s: State) { s.owed == 0 && s.posted == 0 && s.writes == [] && s.handler == None }

  /** No wakeup is lost: when nobody owes anything and no write has failed, everything sent has been completed. */
  lemma NoLostWakeup(steps: seq<Step>)
    requires After(steps).Some? && Quiescent(After(steps).value) && !After(steps).value.broken
    ensures var s := After(steps).value;
            !s.mSending && s.mPending == [] && s.mList == [] && s.completed == Sent(steps) && s.mSize == 0
  {
    RunInv(steps);
    hide After, Sent;
    assert Total([]) == 0;
  }

  // ---------- draining ----------

  /** How far the batch in hand is from being accounted for. */
  function Stage(s: State): nat {
    match s.handler
    case Some(Cleared(_)) => 1
    case Some(Notifying(k, _)) => 2 + if k <= |s.mList| then |s.mList| - k else 0
    case None => |s.mList| + (if s.writes != [] then 3 else if s.posted > 0 then 4 else 0)
  }

  /** Every step but a send brings the session closer to rest. */
  predicate Closer(t: State, s: State) {
    || |t.mPending| < |s.mPending|
    || (|t.mPending| == |s.mPending| && Stage(t) < Stage(s))
    || (|t.mPending| == |s.mPending| && Stage(t) == Stage(s) && t.owed < s.owed)
  }

  lemma StepsCloser(s: State, step: Step)
    requires Inv(s) && Enabled(s, step) && !step.Send? && !Apply(s, step).broken
    ensures Closer(Apply(s, step), s)
  {
    hide Total;
    if step.WriteDone? { assert |Without(s.writes, step.w)| == 0; }
  }

  /** As long as the session is not at rest, some step other than a send is enabled. */
  lemma SomeStep(s: State) returns (step: Step)
    requires Inv(s) && !Quiescent(s)
    ensures Enabled(s, step) && !step.Send? && !step.WriteFailed?
  {
    step := if s.owed > 0 then TryFlush
            else if s.posted > 0 then Flush
            else if s.handler.None? then WriteDone(0)
            else if s.handler.value.Cleared? then Release
            else if s.handler.value.next < |s.mList| then Callback
            else ClearList;
  }

  /** From every reachable state without an error, the steps the threads and the executor owe lead to a state in which
      everything sent is completed. */
  lemma {:induction false} Drains(steps: seq<Step>) returns (more: seq<Step>)
    requires After(steps).Some? && !After(steps).value.broken
    ensures After(steps + more).Some? && Sent(steps + more) == Sent(steps)
    ensures var s := After(steps + more).value; Quiescent(s) && !s.broken && s.completed == Sent(steps)
    decreases |After(steps).value.mPending|, Stage(After(steps).value), After(steps).value.owed
  {
    hide Enabled, Apply, Inv, Quiescent, Stage;
    RunInv(steps);
    var s := After(steps).value;
    if Quiescent(s) {
      more := [];
      assert steps + more == steps;
      NoLostWakeup(steps);
    } else {
      var step := SomeStep(s);
      NoFailure(s, step);
      StepsCloser(s, step);
      var next := steps + [step];
      assert next[..|steps|] == steps;
      assert After(next) == Some(Apply(s, step)) && Sent(next) == Sent(steps) + [];
      var rest := Drains(next);
      more := [step] + rest;
      assert steps + more == next + rest;
    }
  }

  lemma NoFailure(s: State, step: Step)
    requires Enabled(s, step) && !step.WriteFailed?
    ensures Apply(s, step).broken == s.broken
  {}

  // ---------- the imperative code ----------

  /** The send side's members. `st` is the protocol state they belong to. */
  class SendSide {
    var mSending: bool
    var mPendingSendMsgList: seq<Msg>
    var mSendingMsgList: seq<Msg>
    var mBuffers: seq<seq<bv8>>
    var mSendingSize: int
    var mHighWater: nat
    var mHighWaterCallback: bool
    ghost var st: State

    ghost predicate Valid()
      reads this
    {
      && Inv(st) && st.mSending == mSending && st.mPending == mPendingSendMsgList
      && st.mList == mSendingMsgList && st.mSize == mSendingSize
    }

    constructor ()
      ensures Valid() && st == INIT && mHighWater == 0x100_0000 && !mHighWaterCallback
    {
      mSending, mPendingSendMsgList, mSendingMsgList, mBuffers, mSendingSize := false, [], [], [], 0;
      mHighWater, mHighWaterCallback := 0x100_0000, false;
      st := INIT;
    }

    /** The lock region of `send`: `owes` says that the caller must call `tryFlush`, `highWater` that the high-water
        callback is posted. */
    method SendLocked(msg: Msg) returns (owes: bool, highWater: bool)
      requires Valid()
      modifies this
      ensures Valid() && st == Apply(old(st), Send(msg))
      ensures owes == !old(mSending)
      ensures highWater == (mSendingSize > mHighWater && mHighWaterCallback)
      ensures mHighWater == old(mHighWater) && mHighWaterCallback == old(mHighWaterCallback)
              && mBuffers == old(mBuffers)
    {
      hide Inv;
      InvStep(st, Send(msg));
      st := Apply(st, Send(msg));
      mSendingSize := mSendingSize + |msg.data|;
      mPendingSendMsgList := mPendingSendMsgList + [msg];
      highWater := mSendingSize > mHighWater && mHighWaterCallback;
      owes := !mSending;
    }

    /** The lock region of `tryFlush`: `flush` says that a flush handler is dispatched. */
    method TryFlushLocked() returns (flush: bool)
      requires Valid() && st.owed > 0
      modifies this
      ensures Valid() && st == Apply(old(st), TryFlush)
      ensures flush == (!old(mSending) && old(mPendingSendMsgList) != [])
    {
      hide Inv;
      InvStep(st, TryFlush);
      st := Apply(st, TryFlush);
      if mSending || mPendingSendMsgList == [] { return false; }
      mSendingMsgList, mPendingSendMsgList := mPendingSendMsgList, mSendingMsgList;
      mSending := true;
      flush := true;
    }

    /** `flush`: gathers the buffers of the batch and starts the write. */
    method FlushBatch()
      requires Valid() && st.posted > 0
      modifies this
      ensures Valid() && st == Apply(old(st), Flush) && st.writes == [mSendingMsgList]
      ensures |mBuffers| == |mSendingMsgList|
      ensures forall i :: 0 <= i < |mBuffers| ==> mBuffers[i] == mSendingMsgList[i].data
    {
      InvStep(st, Flush);
      mBuffers := seq(|mSendingMsgList|, _ => []);
      for i := 0 to |mSendingMsgList|
        invariant Valid() && st == old(st) && mSendingMsgList == old(mSendingMsgList)
        invariant |mBuffers| == |mSendingMsgList|
        invariant forall k :: 0 <= k < i ==> mBuffers[k] == mSendingMsgList[k].data
      {
        mBuffers := mBuffers[i := mSendingMsgList[i].data];
      }
      st := Apply(st, Flush);
    }

    /** The messages that are sent while one callback runs, by the callback or by other threads. */
    method SendAll(msgs: seq<Msg>)
      requires Valid() && st.mSending
      modifies this
      ensures Valid() && mSending && mSendingMsgList == old(mSendingMsgList)
      ensures mPendingSendMsgList == old(mPendingSendMsgList) + msgs
      ensures st == old(st).(mPending := mPendingSendMsgList, accepted := old(st.accepted) + msgs,
                             mSize := mSendingSize)
    {
      hide Inv;
      for i := 0 to |msgs|
        invariant Valid() && mSending && mSendingMsgList == old(mSendingMsgList)
        invariant mPendingSendMsgList == old(mPendingSendMsgList) + msgs[..i]
        invariant st == old(st).(mPending := mPendingSendMsgList, accepted := old(st.accepted) + msgs[..i],
                                 mSize := mSendingSize)
      {
        var owes, highWater := SendLocked(msgs[i]);
        assert msgs[..i + 1] == msgs[..i] + [msgs[i]];
      }
      assert msgs[..|msgs|] == msgs;
    }

    /** `onSendCompleted` of the outstanding write, while `sends[i]` are sent during callback `i`; a write without an
        error has transferred the whole batch. After an error the batch stays where it is and the session stays busy.
        Otherwise every message of the batch is completed in order, what was sent meanwhile is pending, and the
        session is free again, owing a `tryFlush`. */
    method OnSendCompleted(ec: bool, bytesTransferred: nat, sends: seq<seq<Msg>>)
      requires Valid() && |st.writes| == 1 && |sends| == |mSendingMsgList|
      requires !ec ==> bytesTransferred == Total(mSendingMsgList)
      modifies this
      ensures Valid()
      ensures ec ==> st == Apply(old(st), WriteFailed(0)) && st.broken && mSending && st.completed == old(st.completed)
      ensures ec ==> mSendingMsgList == old(mSendingMsgList) && mPendingSendMsgList == old(mPendingSendMsgList)
      ensures !ec ==> !mSending && mSendingMsgList == [] && st.owed == old(st.owed) + 1 && st.writes == []
      ensures !ec ==> st.completed == old(st.completed) + old(mSendingMsgList)
      ensures !ec ==> mPendingSendMsgList == old(mPendingSendMsgList) + Flatten(sends)
      ensures !ec ==> st.accepted == old(st.accepted) + Flatten(sends) && mSendingSize == Total(mPendingSendMsgList)
    {
      WriteHeld(st);
      hide Total, Inv;
      ghost var step := if ec then WriteFailed(0) else WriteDone(0);
      InvStep(st, step);
      st := Apply(st, step);
      if ec { return; }
      RunCallbacks(bytesTransferred, sends);
      EndOfBatch(bytesTransferred);
    }

    /** The completion callbacks of the batch, in order. */
    method RunCallbacks(bytesTransferred: nat, sends: seq<seq<Msg>>)
      requires Valid() && st.handler == Some(Notifying(0, bytesTransferred)) && |sends| == |mSendingMsgList|
      modifies this
      ensures Valid() && mSending && mSendingMsgList == old(mSendingMsgList)
      ensures st.handler == Some(Notifying(|sends|, bytesTransferred)) && st.owed == old(st.owed)
      ensures st.writes == old(st.writes) && st.completed == old(st.completed) + old(mSendingMsgList)
      ensures mPendingSendMsgList == old(mPendingSendMsgList) + Flatten(sends)
      ensures st.accepted == old(st.accepted) + Flatten(sends)
    {
      hide Total, Inv;
      ghost var st0 := st;
      ghost var list := mSendingMsgList;
      HandlerSends(st);
      assert list[..0] == [] && sends[..0] == [] && Flatten<Msg>([]) == [];
      for i := 0 to |sends|
        invariant Valid() && mSending && mSendingMsgList == list
        invariant st.handler == Some(Notifying(i, bytesTransferred)) && st.owed == st0.owed && st.writes == st0.writes
        invariant st.completed == st0.completed + list[..i]
        invariant mPendingSendMsgList == st0.mPending + Flatten(sends[..i])
        invariant st.accepted == st0.accepted + Flatten(sends[..i])
      {
        assert list[..i + 1] == list[..i] + [list[i]];
        assert sends[..i + 1][..i] == sends[..i];
        InvStep(st, Callback);
        st := Apply(st, Callback);
        SendAll(sends[i]);
      }
      assert list[..|list|] == list && sends[..|sends|] == sends;
    }

    /** Clears the list and leaves through the lock region. */
    method EndOfBatch(bytesTransferred: nat)
      requires Valid() && st.handler == Some(Notifying(|mSendingMsgList|, bytesTransferred))
      modifies this
      ensures Valid() && !mSending && mSendingMsgList == [] && mPendingSendMsgList == old(mPendingSendMsgList)
      ensures st == Apply(Apply(old(st), ClearList), Release) && mSendingSize == Total(mPendingSendMsgList)
    {
      hide Total;
      InvStep(st, ClearList);
      st := Apply(st, ClearList);
      mSendingMsgList := [];
      InvStep(st, Release);
      st := Apply(st, Release);
      mSending := false;
      mSendingSize := mSendingSize - bytesTransferred;
      EmptyTotal();
    }
  }

  /** A completion handler runs only while the session is sending. */
  lemma HandlerSends(s: State)
    requires Inv(s) && s.handler.Some?
    ensures s.mSending
  {}

  /** The outstanding write is of the batch in hand. */
  lemma WriteHeld(s: State)
    requires Inv(s) && |s.writes| == 1
    ensures s.writes == [s.mList] && s.handler == None && s.mSending
  {}

  lemma EmptyTotal()
    ensures Total([]) == 0
  {}
}
