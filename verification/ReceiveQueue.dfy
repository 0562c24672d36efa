/** The receive side of `TcpSession` without its buffer: a queue of bytes between the socket and the data handler, and
    what every event on the executor does to it. */
module ReceiveQueue {
  import opened Options
  import opened StreamBuf

  const TWO_64: int := 0x1_0000_0000_0000_0000

  // ---------- the reader of the data handler ----------

  /** What a data handler does with its reader; an operation that throws leaves the reader as it was. */
  datatype ReaderOp = AddPos(diff: nat) | Read(size: nat) | SavePos | ConsumeAll

  /** The positions of a reader. */
  datatype Cursor = Cursor(pos: nat, saved: nat)

  /** One operation on a reader over `size` bytes; `pos + diff` is computed in `size_t` and may wrap. */
  function AfterOp(size: nat, c: Cursor, op: ReaderOp): Cursor {
    match op
    case AddPos(diff) =>
      var tmpPos := (c.pos + diff) % TWO_64;
      if tmpPos > size then c else c.(pos := tmpPos)
    case Read(n) => if c.pos + n > size then c else c.(pos := c.pos + n)
    case SavePos => c.(saved := c.pos)
    case ConsumeAll => Cursor(size, size)
  }

  function AfterOps(size: nat, ops: seq<ReaderOp>): Cursor {
    if ops == [] then Cursor(0, 0) else AfterOp(size, AfterOps(size, ops[..|ops| - 1]), ops[|ops| - 1])
  }

  /** Whatever a handler does, it moves and saves no position beyond the view. */
  lemma {:induction false} CursorInView(size: nat, ops: seq<ReaderOp>)
    ensures AfterOps(size, ops).pos <= size && AfterOps(size, ops).saved <= size
  {
    if ops != [] { CursorInView(size, ops[..|ops| - 1]); }
  }

  /** How many of `size` bytes a handler consumes. */
  function Saved(handler: Option<seq<ReaderOp>>, size: nat): (n: nat)
    ensures n <= size
  {
    match handler
    case None => 0
    case Some(ops) =>
      CursorInView(size, ops);
      AfterOps(size, ops).saved
  }

  lemma NextOp(size: nat, ops: seq<ReaderOp>, op: ReaderOp)
    ensures AfterOps(size, ops + [op]) == AfterOp(size, AfterOps(size, ops), op)
  {
    hide AfterOp;
    assert (ops + [op])[..|ops|] == ops;
  }

  /** Operations that save no position. */
  predicate SavesNothing(ops: seq<ReaderOp>) { SavePos !in ops && ConsumeAll !in ops }

  /** What is consumed is the position at the last save, or nothing without one. */
  lemma {:induction false} LastSave(size: nat, before: seq<ReaderOp>, after: seq<ReaderOp>)
    requires SavesNothing(after)
    ensures AfterOps(size, before + after).saved == AfterOps(size, before).saved
    ensures AfterOps(size, before + [SavePos] + after).saved == AfterOps(size, before).pos
    ensures AfterOps(size, before + [ConsumeAll] + after).saved == size
    ensures AfterOps(size, after).saved == 0
  {
    hide AfterOps;
    NextOp(size, before, SavePos);
    NextOp(size, before, ConsumeAll);
    if after == [] {
      assert before + after == before && before + [SavePos] + after == before + [SavePos];
      assert before + [ConsumeAll] + after == before + [ConsumeAll];
      NoOps(size);
    } else {
      var init, op := after[..|after| - 1], after[|after| - 1];
      LastSave(size, before, init);
      assert after == init + [op] && before + after == (before + init) + [op];
      assert before + [SavePos] + after == (before + [SavePos] + init) + [op];
      assert before + [ConsumeAll] + after == (before + [ConsumeAll] + init) + [op];
      NextOp(size, init, op);
      NextOp(size, before + init, op);
      NextOp(size, before + [SavePos] + init, op);
      NextOp(size, before + [ConsumeAll] + init, op);
    }
  }

  lemma NoOps(size: nat)
    ensures AfterOps(size, []) == Cursor(0, 0)
  {}

  /** Reads of `sizes` bytes, one after the other. */
  function Reads(sizes: seq<nat>): seq<ReaderOp> {
    if sizes == [] then [] else Reads(sizes[..|sizes| - 1]) + [Read(sizes[|sizes| - 1])]
  }

  function Total(sizes: seq<nat>): nat {
    if sizes == [] then 0 else Total(sizes[..|sizes| - 1]) + sizes[|sizes| - 1]
  }

  /** Reads that fit move the position by what they read; a save consumes that, and a read that does not fit nothing. */
  lemma {:induction false} ReadsConsume(size: nat, sizes: seq<nat>, more: nat)
    requires Total(sizes) <= size
    ensures AfterOps(size, Reads(sizes)).pos == Total(sizes)
    ensures Saved(Some(Reads(sizes) + [SavePos]), size) == Total(sizes)
    ensures Total(sizes) + more > size ==> Saved(Some(Reads(sizes) + [Read(more)] + [SavePos]), size) == Total(sizes)
  {
    hide AfterOps;
    if sizes == [] {
      NoOps(size);
    } else {
      ReadsConsume(size, sizes[..|sizes| - 1], 0);
      NextOp(size, Reads(sizes[..|sizes| - 1]), Read(sizes[|sizes| - 1]));
    }
    NextOp(size, Reads(sizes), SavePos);
    NextOp(size, Reads(sizes), Read(more));
    NextOp(size, Reads(sizes) + [Read(more)], SavePos);
  }

  /** Moving by a `size_t` goes forward within the view, or back by what is missing to 2^64. */
  lemma MovesBack(size: nat, c: Cursor, k: nat)
    requires c.pos <= size < TWO_64 && 0 < k <= TWO_64
    ensures k <= c.pos ==> AfterOp(size, c, AddPos(TWO_64 - k)) == c.(pos := c.pos - k)
    ensures c.pos + k <= size ==> AfterOp(size, c, AddPos(k)) == c.(pos := c.pos + k)
  {
    if k <= c.pos { assert (c.pos - k + TWO_64) % TWO_64 == c.pos - k; }
  }

  // ---------- the queue ----------

  /** All bytes received, all bytes consumed, the bytes visible, and whether a shrink is pending. */
  datatype Queue = Queue(received: seq<bv8>, consumed: seq<bv8>, unread: seq<bv8>, pending: bool)

  /** One event on the executor. A completed receive carries what the handler does with the bytes, and the growth
      increments of the two places where the buffer may grow. */
  datatype Event =
    | StartRecv(sizeDiff: nat)
    | ShrinkRequest
    | Completed(bytes: seq<bv8>, handler: Option<seq<ReaderOp>>, growDiff: nat, startDiff: nat)
    | Error

  /** The zero bytes that a shrink adds behind `n` unread ones. */
  function Surplus(n: nat): nat { if n < BUFFER_DELTA then Min(n, BUFFER_DELTA - n) else 0 }

  /** Up to 64 bytes are doubled, and up to 128 filled up; more stay. */
  lemma SurplusExactly(n: nat)
    ensures Surplus(n) == if n <= 64 then n else if n <= 128 then 128 - n else 0
  {}

  function Zeros(n: nat): seq<bv8> { seq(n, _ => 0) }

  function Arrived(q: Queue, bytes: seq<bv8>): Queue { q.(received := q.received + bytes, unread := q.unread + bytes) }

  function Consumed(q: Queue, n: nat): Queue
    requires n <= |q.unread|
  {
    q.(consumed := q.consumed + q.unread[..n], unread := q.unread[n..])
  }

  function Handled(q: Queue, handler: Option<seq<ReaderOp>>): Queue { Consumed(q, Saved(handler, |q.unread|)) }

  function Shrunk(q: Queue): Queue { q.(unread := q.unread + Zeros(Surplus(|q.unread|))) }

  function Settled(q: Queue): Queue { if q.pending then Shrunk(q).(pending := false) else q }

  /** A receive of `bytes` has completed. */
  function AfterReceive(q: Queue, bytes: seq<bv8>, handler: Option<seq<ReaderOp>>): Queue {
    Settled(Handled(Arrived(q, bytes), handler))
  }

  /** The session between two events: its queue, whether a receive is posted, the room for one, and the size up to which
      the buffer may be filled. */
  datatype Moment = Moment(q: Queue, posted: bool, room: nat, bound: nat)

  /** A completion needs a posted receive and brings no more bytes than it has room for. */
  predicate Enabled(a: Moment, e: Event) { e.Completed? ==> a.posted && |e.bytes| <= a.room }

  /** What an event does. A receive is not posted again only when the unread bytes fill the buffer, and that is of the
      maximum size or was not to grow. */
  predicate NextMoment(max: nat, a: Moment, e: Event, b: Moment) {
    && (b.posted ==> 0 < b.room)
    && if !Enabled(a, e) then b == a
       else match e
         case StartRecv(sizeDiff) =>
           && b.q == a.q && (a.posted ==> b == a)
           && (!a.posted ==> (b.posted <==> !(|a.q.unread| == a.bound && (a.bound == max || sizeDiff == 0))))
         case ShrinkRequest => b == a.(q := a.q.(pending := true))
         case Completed(bytes, handler, growDiff, startDiff) =>
           && b.q == AfterReceive(a.q, bytes, handler)
           && (b.posted || (|b.q.unread| == b.bound && (b.bound == max || startDiff == 0)))
           && (!a.q.pending && |bytes| == a.bound ==> b.bound >= Min(a.bound + growDiff, max))
         case Error => b == a.(posted := false)
  }

  /** The moments of a run over `events`. */
  predicate IsTrace(max: nat, trace: seq<Moment>, events: seq<Event>) {
    |trace| == |events| + 1
    && forall i {:trigger events[i]} :: 0 <= i < |events| ==> NextMoment(max, trace[i], events[i], trace[i + 1])
  }

  // ---------- what every run keeps ----------

  /** The bytes an event brings in from the socket. */
  function Incoming(a: Moment, e: Event): seq<bv8> { if e.Completed? && Enabled(a, e) then e.bytes else [] }

  /** The zero bytes an event puts into the queue: those of a pending shrink after the data handler. */
  function Inserted(a: Moment, e: Event): nat {
    if e.Completed? && Enabled(a, e) && a.q.pending then Surplus(|Handled(Arrived(a.q, e.bytes), e.handler).unread|)
      else 0
  }

  function Incomings(trace: seq<Moment>, events: seq<Event>): seq<bv8>
    requires |trace| == |events| + 1
  {
    if events == [] then []
    else
      var last := |events| - 1;
      Incomings(trace[..last + 1], events[..last]) + Incoming(trace[last], events[last])
  }

  /** Everything put into the queue, in order: bytes from the socket and zero bytes from shrinks. */
  function Stream(trace: seq<Moment>, events: seq<Event>): seq<bv8>
    requires |trace| == |events| + 1
  {
    if events == [] then []
    else
      var last := |events| - 1;
      var a, e := trace[last], events[last];
      Stream(trace[..last + 1], events[..last]) + (Incoming(a, e) + Zeros(Inserted(a, e)))
  }

  /** The bytes that have come out of the queue and those still in it. */
  function Through(q: Queue): seq<bv8> { q.consumed + q.unread }

  lemma ConsumeKeeps(q: Queue, n: nat)
    requires n <= |q.unread|
    ensures Through(Consumed(q, n)) == Through(q)
  {}

  lemma StepKeeps(max: nat, a: Moment, e: Event, b: Moment)
    requires NextMoment(max, a, e, b)
    ensures b.q.received == a.q.received + Incoming(a, e)
    ensures Through(b.q) == Through(a.q) + (Incoming(a, e) + Zeros(Inserted(a, e)))
  {
    if e.Completed? && Enabled(a, e) {
      var q1 := Arrived(a.q, e.bytes);
      ConsumeKeeps(q1, Saved(e.handler, |q1.unread|));
      var q2 := Handled(q1, e.handler);
      assert Through(q1) == Through(a.q) + e.bytes;
      assert Through(Settled(q2)) == Through(q2) + Zeros(Inserted(a, e));
    }
  }

  /** The queue over a run: what was received is what the socket brought, and what has come out and is visible is
      exactly what was put in, for any buffer sizes, growth, compaction and handlers. */
  lemma {:induction false} QueueExact(max: nat, trace: seq<Moment>, events: seq<Event>)
    requires IsTrace(max, trace, events)
    ensures trace[|events|].q.received == trace[0].q.received + Incomings(trace, events)
    ensures Through(trace[|events|].q) == Through(trace[0].q) + Stream(trace, events)
  {
    hide NextMoment, Through;
    if events != [] {
      var last := |events| - 1;
      QueueExact(max, trace[..last + 1], events[..last]);
      StepKeeps(max, trace[last], events[last], trace[last + 1]);
    }
  }

  /** A shrink meets an unread part of 1 to 127 bytes. */
  predicate IsRough(a: Moment, e: Event) {
    e.Completed? && Enabled(a, e) && a.q.pending
    && 1 <= |Handled(Arrived(a.q, e.bytes), e.handler).unread| < BUFFER_DELTA
  }

  predicate AnyRough(trace: seq<Moment>, events: seq<Event>)
    requires |trace| == |events| + 1
  {
    exists i {:trigger events[i]} :: 0 <= i < |events| && IsRough(trace[i], events[i])
  }

  lemma RoughSurplus(a: Moment, e: Event)
    ensures Inserted(a, e) > 0 <==> IsRough(a, e)
  {}

  /** What has been put in is what the socket brought, unless a shrink was rough; then it is longer. */
  lemma {:induction false} StreamIncomings(trace: seq<Moment>, events: seq<Event>)
    requires |trace| == |events| + 1
    ensures |Stream(trace, events)| >= |Incomings(trace, events)|
    ensures Stream(trace, events) == Incomings(trace, events) <==> !AnyRough(trace, events)
    ensures |Stream(trace, events)| == |Incomings(trace, events)| <==> !AnyRough(trace, events)
  {
    hide Inserted, IsRough, Incoming;
    if events != [] {
      var last := |events| - 1;
      StreamIncomings(trace[..last + 1], events[..last]);
      RoughSurplus(trace[last], events[last]);
      RoughLast(trace, events);
    }
  }

  lemma RoughLast(trace: seq<Moment>, events: seq<Event>)
    requires |trace| == |events| + 1 && events != []
    ensures var last := |events| - 1;
            AnyRough(trace, events) <==>
            AnyRough(trace[..last + 1], events[..last]) || IsRough(trace[last], events[last])
  {
    hide IsRough;
    var last := |events| - 1;
    forall i | 0 <= i < last ensures events[..last][i] == events[i] && trace[..last + 1][i] == trace[i] {}
  }

  /** A queue that has lost and gained nothing stays so over a run exactly when no shrink of the run meets 1 to 127
      unread bytes. */
  lemma FaithfulExactly(max: nat, trace: seq<Moment>, events: seq<Event>)
    requires IsTrace(max, trace, events) && trace[0].q.received == Through(trace[0].q)
    ensures trace[|events|].q.received == Through(trace[|events|].q) <==> !AnyRough(trace, events)
  {
    hide NextMoment, Through, AnyRough;
    QueueExact(max, trace, events);
    StreamIncomings(trace, events);
  }

  predicate NoShrink(events: seq<Event>) { forall e :: e in events ==> !e.ShrinkRequest? }

  lemma {:induction false} NeverPending(max: nat, trace: seq<Moment>, events: seq<Event>)
    requires IsTrace(max, trace, events) && !trace[0].q.pending && NoShrink(events)
    ensures forall m :: m in trace ==> !m.q.pending
  {
    hide AfterReceive;
    if events != [] {
      var last := |events| - 1;
      NeverPending(max, trace[..last + 1], events[..last]);
      assert trace[..last + 1][last] == trace[last] && events[last] in events;
      assert NextMoment(max, trace[last], events[last], trace[last + 1]);
      if events[last].Completed? { PendingKept(trace[last], events[last]); }
      assert trace == trace[..last + 1] + [trace[last + 1]];
    }
  }

  lemma PendingKept(a: Moment, e: Event)
    requires e.Completed? && !a.q.pending
    ensures !AfterReceive(a.q, e.bytes, e.handler).pending
  {}

  lemma NotPendingNotRough(a: Moment, e: Event)
    requires !a.q.pending
    ensures !IsRough(a, e)
  {}

  /** Without shrink requests the queue is faithful. */
  lemma NoShrinkFaithful(max: nat, trace: seq<Moment>, events: seq<Event>)
    requires IsTrace(max, trace, events) && trace[0].q.received == Through(trace[0].q)
    requires !trace[0].q.pending && NoShrink(events)
    ensures !AnyRough(trace, events) && trace[|events|].q.received == Through(trace[|events|].q)
  {
    hide NextMoment, Through, IsRough;
    NeverPending(max, trace, events);
    assert !AnyRough(trace, events) by {
      forall i | 0 <= i < |events| ensures !IsRough(trace[i], events[i]) {
        NotPendingNotRough(trace[i], events[i]);
      }
    }
    FaithfulExactly(max, trace, events);
  }
}
