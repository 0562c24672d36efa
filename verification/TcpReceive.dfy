/** The receive side of `TcpSession`: a growing and compacting buffer over a streambuf, with a receive position of its
    own. Handlers are serialised on the executor; the growth increment is any natural number. */
module TcpReceive {
  import opened Options
  import opened StreamBuf
  import opened ReceiveQueue

  const MIN_RECEIVE_PREPARE_SIZE: nat := 1024

  // ---------- the reader that bounds consumption ----------

  /** The cursor of a `BasePacketReader`. */
  class PacketReader {
    const mSize: nat
    var mPos: nat
    var mSavedPos: nat

    ghost predicate Valid()
      reads this
    {
      mPos <= mSize && mSavedPos <= mSize
    }

    ghost function Position(): Cursor
      reads this
    {
      Cursor(mPos, mSavedPos)
    }

    constructor (size: nat)
      ensures Valid() && mSize == size && Position() == Cursor(0, 0)
    {
      mSize, mPos, mSavedPos := size, 0, 0;
    }

    /** One operation; the result is false when it throws. */
    method Do(op: ReaderOp) returns (ok: bool)
      requires Valid()
      modifies this
      ensures Valid() && Position() == AfterOp(mSize, old(Position()), op)
      ensures !ok ==> Position() == old(Position())
    {
      ok := true;
      match op
      case AddPos(diff) =>
        var tmpPos := (mPos + diff) % TWO_64;
        if tmpPos > mSize { return false; }
        mPos := tmpPos;
      case Read(size) =>
        if mPos + size > mSize { return false; }
        mPos := mPos + size;
      case SavePos => mSavedPos := mPos;
      case ConsumeAll => mPos, mSavedPos := mSize, mSize;
    }

    /** What a handler does with a new reader; it saves no position beyond the view. */
    method DoAll(ops: seq<ReaderOp>) returns (saved: nat)
      requires Valid() && Position() == Cursor(0, 0)
      modifies this
      ensures Valid() && Position() == AfterOps(mSize, ops) && saved == mSavedPos <= mSize
    {
      for i := 0 to |ops|
        invariant Valid() && Position() == AfterOps(mSize, ops[..i])
      {
        assert ops[..i + 1][..i] == ops[..i];
        var ok := Do(ops[i]);
      }
      assert ops[..|ops|] == ops;
      saved := mSavedPos;
    }
  }

  // ---------- the session ----------

  /** How an attempt to receive ends. */
  datatype Posted = AlreadyPosted | Started(room: nat) | SizeIsZero | LengthError

  class ReceiveSide {
    const maxSize: nat
    var mReceiveBuffer: StreamBuffer
    var mReceivePos: nat
    var mRecvPosted: bool
    var mNeedShrinkReceiveBuffer: bool

    /** Every byte received and every byte consumed so far. */
    ghost var received: seq<bv8>
    ghost var consumed: seq<bv8>

    /** `maxValidReceiveBufferSize`. */
    function MaxValid(): (n: nat)
      requires mReceiveBuffer.Valid()
      reads this, mReceiveBuffer
      ensures n >= 1
    {
      Min(mReceiveBuffer.storage.Length, mReceiveBuffer.maxSize)
    }

    /** The unread bytes. */
    ghost function Unread(): seq<bv8>
      requires mReceiveBuffer.Valid()
      reads this, mReceiveBuffer, mReceiveBuffer.storage
    {
      mReceiveBuffer.Contents()
    }

    ghost function Contents(): Queue
      requires mReceiveBuffer.Valid()
      reads this, mReceiveBuffer, mReceiveBuffer.storage
    {
      Queue(received, consumed, Unread(), mNeedShrinkReceiveBuffer)
    }

    /** The session between two events. */
    ghost function Now(): Moment
      requires mReceiveBuffer.Valid()
      reads this, mReceiveBuffer, mReceiveBuffer.storage
    {
      Moment(Contents(), mRecvPosted, mReceiveBuffer.pend - mReceiveBuffer.pnext, MaxValid())
    }

    /** The buffer without regard to the receive position. */
    ghost predicate BufferOk()
      reads this, mReceiveBuffer
    {
      var b := mReceiveBuffer;
      && b.Valid() && b.maxSize == maxSize >= MIN_RECEIVE_PREPARE_SIZE
      && b.pend <= MaxValid()
      && (b.pend == MaxValid() || b.gnext == 0)
    }

    /** The receive position is the put offset, and a posted receive has all the room up to the bound. */
    ghost predicate Valid()
      reads this, mReceiveBuffer
    {
      && BufferOk()
      && mReceivePos == mReceiveBuffer.pnext
      && (mRecvPosted ==> mReceiveBuffer.pend == MaxValid() > mReceivePos)
    }

    constructor (maxRecvBufferSize: nat)
      requires maxRecvBufferSize > 0
      ensures Valid() && !mRecvPosted && Contents() == Queue([], [], [], false)
      ensures maxSize == Max(MIN_RECEIVE_PREPARE_SIZE, maxRecvBufferSize)
      ensures fresh(mReceiveBuffer) && fresh(mReceiveBuffer.storage)
    {
      maxSize := Max(MIN_RECEIVE_PREPARE_SIZE, maxRecvBufferSize);
      mReceiveBuffer := new StreamBuffer(Max(MIN_RECEIVE_PREPARE_SIZE, maxRecvBufferSize));
      mReceivePos, mRecvPosted, mNeedShrinkReceiveBuffer := 0, false, false;
      received, consumed := [], [];
    }

    /** `growReceiveBuffer`, by `sizeDiff`. */
    method Grow(sizeDiff: nat) returns (ok: bool)
      requires BufferOk()
      requires mReceiveBuffer.gnext > 0 ==> mReceiveBuffer.pnext == mReceiveBuffer.pend == MaxValid()
      modifies this`mReceivePos, mReceiveBuffer, mReceiveBuffer.storage
      ensures ok && BufferOk() && Unread() == old(Unread()) && mReceivePos == mReceiveBuffer.pnext == |Unread()|
      ensures MaxValid() >= Min(old(MaxValid()) + sizeDiff, maxSize)
              && (sizeDiff == 0 ==> MaxValid() == old(MaxValid()))
      ensures old(MaxValid()) == maxSize ==> MaxValid() == maxSize
      ensures mReceiveBuffer.storage == old(mReceiveBuffer.storage) || fresh(mReceiveBuffer.storage)
    {
      var newCapacity := Min(mReceiveBuffer.storage.Length + sizeDiff, mReceiveBuffer.maxSize);
      var data := mReceiveBuffer.Data();
      ok := mReceiveBuffer.Reserve(newCapacity - |data|);
      data := mReceiveBuffer.Data();
      mReceivePos := |data|;
    }

    /** `moveReceiveBuffer`. */
    method Move() returns (ok: bool)
      requires BufferOk() && mReceiveBuffer.pnext == MaxValid() && |Unread()| < MaxValid()
      modifies this`mReceivePos, mReceiveBuffer, mReceiveBuffer.storage
      ensures ok && BufferOk() && Unread() == old(Unread()) && mReceivePos == mReceiveBuffer.pnext == |Unread()|
      ensures MaxValid() == old(MaxValid())
      ensures mReceiveBuffer.storage == old(mReceiveBuffer.storage)
    {
      var data := mReceiveBuffer.Data();
      ok := mReceiveBuffer.Reserve(MaxValid() - |data|);
      data := mReceiveBuffer.Data();
      mReceivePos := |data|;
    }

    /** `adjustReceiveBuffer`: afterwards there is room behind the receive position, unless the unread bytes fill the
        bound and it did not grow. */
    method Adjust(sizeDiff: nat) returns (ok: bool)
      requires BufferOk() && mReceivePos == mReceiveBuffer.pnext
      modifies this`mReceivePos, mReceiveBuffer, mReceiveBuffer.storage
      ensures ok && BufferOk() && Unread() == old(Unread())
      ensures mReceivePos == if Unread() == [] then 0 else mReceiveBuffer.pnext
      ensures MaxValid() == mReceivePos <==>
              |Unread()| == old(MaxValid()) && (old(MaxValid()) == maxSize || sizeDiff == 0)
      ensures mReceivePos <= MaxValid() && old(MaxValid()) <= MaxValid()
      ensures (MaxValid() == mReceivePos ==> |Unread()| == MaxValid())
      ensures mReceiveBuffer.storage == old(mReceiveBuffer.storage) || fresh(mReceiveBuffer.storage)
    {
      var data := mReceiveBuffer.Data();
      if |data| == 0 { mReceivePos := 0; }
      if MaxValid() > mReceivePos { return true; }
      if MaxValid() == |data| {
        ok := Grow(sizeDiff);
      } else {
        ok := Move();
      }
    }

    /** `startAsyncRecv`. A receive is posted at the put offset and its room is the whole put area, which ends at the
        bound; `length_error` is never thrown, and the room is zero exactly when the unread bytes fill the bound and
        the bound is the maximum size or the growth increment is zero. */
    method StartAsyncRecv(sizeDiff: nat) returns (r: Posted)
      requires Valid()
      modifies this`mReceivePos, this`mRecvPosted, mReceiveBuffer, mReceiveBuffer.storage
      ensures Valid() && Unread() == old(Unread())
      ensures r == AlreadyPosted <==> old(mRecvPosted)
      ensures r != LengthError
      ensures r == SizeIsZero <==>
              !old(mRecvPosted) && |Unread()| == old(MaxValid()) && (old(MaxValid()) == maxSize || sizeDiff == 0)
      ensures mRecvPosted == (r != SizeIsZero) && (r == SizeIsZero ==> |Unread()| == MaxValid())
      ensures r == SizeIsZero ==> MaxValid() == maxSize || sizeDiff == 0
      ensures old(MaxValid()) <= MaxValid()
      ensures old(mRecvPosted) ==> Now() == old(Now())
      ensures r.Started? ==> r.room == MaxValid() - mReceivePos == mReceiveBuffer.pend - mReceiveBuffer.pnext > 0
      ensures mReceiveBuffer.storage == old(mReceiveBuffer.storage) || fresh(mReceiveBuffer.storage)
    {
      if mRecvPosted { return AlreadyPosted; }
      var adjusted := Adjust(sizeDiff);
      var room := MaxValid() - mReceivePos;
      var ok := mReceiveBuffer.Reserve(room);
      if !ok { return LengthError; }
      if room == 0 { return SizeIsZero; }
      mRecvPosted := true;
      return Started(room);
    }

    /** `tryProcessRecvBuffer`: the handler sees the unread bytes and consumes a prefix of them, never more. */
    method TryProcess(handler: Option<seq<ReaderOp>>) returns (consumedLen: nat)
      requires Valid() && mReceiveBuffer.pend == MaxValid()
      modifies this`consumed, mReceiveBuffer`gnext
      ensures Valid() && consumedLen == Saved(handler, |old(Unread())|) <= |old(Unread())|
      ensures Contents() == Handled(old(Contents()), handler)
    {
      if handler == None { return 0; }
      var validReadBuffer := mReceiveBuffer.Data();
      consumedLen := RunHandler(handler.value, |validReadBuffer|);
      assert consumedLen <= |validReadBuffer|;
      mReceiveBuffer.Consume(consumedLen);
      consumed := consumed + validReadBuffer[..consumedLen];
    }

    /** The handler on a reader over `size` bytes; the result is what it saved. */
    static method RunHandler(ops: seq<ReaderOp>, size: nat) returns (saved: nat)
      ensures saved == Saved(Some(ops), size) <= size
    {
      var reader := new PacketReader(size);
      saved := reader.DoAll(ops);
    }

    /** The new buffer of a shrink and what it shows. */
    static method CopyAndCommit(validReadBuffer: seq<bv8>, maxSize: nat) returns (tmp: StreamBuffer, data: seq<bv8>)
      requires BUFFER_DELTA <= maxSize && |validReadBuffer| <= maxSize
      ensures fresh(tmp) && fresh(tmp.storage) && tmp.Valid() && tmp.maxSize == maxSize && tmp.gnext == 0
      ensures tmp.Contents() == data == validReadBuffer + Zeros(Surplus(|validReadBuffer|))
    {
      tmp := new StreamBuffer(maxSize);
      var ok := tmp.Reserve(|validReadBuffer|);
      var put := tmp.Sputn(validReadBuffer);
      assert tmp.storage[..tmp.pnext] == validReadBuffer;
      tmp.Commit(put);
      data := tmp.Data();
    }

    /** `doShrinkReceiveBuffer`: a new buffer with the unread bytes. `commit` after `sputn` moves the put pointer once
        more, as far as the put area goes, so that zero bytes appear behind 1 to 127 unread bytes. */
    method DoShrink()
      requires Valid() && !mRecvPosted
      modifies this`mReceiveBuffer, this`mReceivePos
      ensures Valid() && fresh(mReceiveBuffer) && fresh(mReceiveBuffer.storage)
      ensures Contents() == Shrunk(old(Contents()))
      ensures Unread() == old(Unread()) <==> |old(Unread())| == 0 || |old(Unread())| >= BUFFER_DELTA
      ensures mReceiveBuffer.gnext == 0
    {
      var validReadBuffer := mReceiveBuffer.Data();
      var tmp, data := CopyAndCommit(validReadBuffer, mReceiveBuffer.maxSize);
      ShrunkData(validReadBuffer, data);
      mReceivePos := |data|;
      mReceiveBuffer := tmp;
    }

    /** `onRecvCompleted` without an error: `bytes` have been received into the buffer. */
    method OnRecvCompleted(bytes: seq<bv8>, handler: Option<seq<ReaderOp>>, growDiff: nat, startDiff: nat)
      returns (r: Posted)
      requires Valid() && mRecvPosted && |bytes| <= mReceiveBuffer.pend - mReceiveBuffer.pnext
      modifies this, mReceiveBuffer, mReceiveBuffer.storage
      ensures Valid() && r != LengthError
      ensures Contents() == AfterReceive(old(Contents()), bytes, handler)
      ensures mRecvPosted == (r != SizeIsZero) && (r == SizeIsZero ==> |Unread()| == MaxValid())
      ensures r == SizeIsZero ==> MaxValid() == maxSize || startDiff == 0
      ensures old(!mNeedShrinkReceiveBuffer && MaxValid() == |bytes|) ==> MaxValid() >= Min(|bytes| + growDiff, maxSize)
      ensures mReceiveBuffer == old(mReceiveBuffer) || fresh(mReceiveBuffer)
      ensures mReceiveBuffer.storage == old(mReceiveBuffer.storage) || fresh(mReceiveBuffer.storage)
    {
      hide Unread, Handled, Settled, Arrived;
      ReceiveBytes(bytes);
      var consumedLen := TryProcess(handler);
      CheckNeedShrink();
      if MaxValid() == |bytes| { GrowAgain(growDiff); }
      r := StartAsyncRecv(startDiff);
    }

    /** `checkNeedShrinkReceiveBuffer`. */
    method CheckNeedShrink()
      requires Valid() && !mRecvPosted && mReceiveBuffer.pend == MaxValid()
      modifies this`mReceiveBuffer, this`mReceivePos, this`mNeedShrinkReceiveBuffer
      ensures Valid() && Contents() == Settled(old(Contents()))
      ensures !old(mNeedShrinkReceiveBuffer) ==> mReceiveBuffer == old(mReceiveBuffer)
      ensures mReceiveBuffer.gnext == 0 || (mReceiveBuffer.pnext == old(mReceiveBuffer.pnext)
                                            && mReceiveBuffer.pend == MaxValid())
      ensures (mReceiveBuffer == old(mReceiveBuffer) && mReceiveBuffer.storage == old(mReceiveBuffer.storage))
              || (fresh(mReceiveBuffer) && fresh(mReceiveBuffer.storage))
    {
      if mNeedShrinkReceiveBuffer {
        DoShrink();
        mNeedShrinkReceiveBuffer := false;
      }
    }

    /** The growth after a receive that filled the bound. */
    method GrowAgain(growDiff: nat)
      requires Valid() && !mRecvPosted
      requires mReceiveBuffer.gnext > 0 ==> mReceiveBuffer.pnext == mReceiveBuffer.pend == MaxValid()
      modifies this`mReceivePos, mReceiveBuffer, mReceiveBuffer.storage
      ensures Valid() && Unread() == old(Unread()) && MaxValid() >= Min(old(MaxValid()) + growDiff, maxSize)
      ensures mReceiveBuffer.storage == old(mReceiveBuffer.storage) || fresh(mReceiveBuffer.storage)
    {
      var grown := Grow(growDiff);
    }

    /** The bytes arrive, and the positions move on. */
    method ReceiveBytes(bytes: seq<bv8>)
      requires Valid() && mRecvPosted && |bytes| <= mReceiveBuffer.pend - mReceiveBuffer.pnext
      modifies this`mRecvPosted, this`mReceivePos, this`received, mReceiveBuffer`pnext, mReceiveBuffer.storage
      ensures Valid() && !mRecvPosted && Contents() == Arrived(old(Contents()), bytes)
      ensures mReceiveBuffer.pend == MaxValid() && mReceivePos == old(mReceivePos) + |bytes|
    {
      mReceiveBuffer.Fill(bytes);
      ghost var b := mReceiveBuffer;
      assert b.storage[b.gnext..b.pnext + |bytes|] == old(Unread()) + bytes by {
        assert old(Unread()) == b.storage[..b.pnext][b.gnext..];
      }
      mRecvPosted := false;
      mReceiveBuffer.Commit(|bytes|);
      mReceivePos := mReceivePos + |bytes|;
      received := received + bytes;
    }

    // ---------- whole runs ----------

    /** One event on the executor. */
    method Handle(e: Event)
      requires Valid()
      modifies this, mReceiveBuffer, mReceiveBuffer.storage
      ensures Valid() && NextMoment(maxSize, old(Now()), e, Now())
      ensures mReceiveBuffer == old(mReceiveBuffer) || fresh(mReceiveBuffer)
      ensures mReceiveBuffer.storage == old(mReceiveBuffer.storage) || fresh(mReceiveBuffer.storage)
    {
      hide AfterReceive;
      match e
      case StartRecv(sizeDiff) => var r := StartAsyncRecv(sizeDiff);
      case ShrinkRequest => mNeedShrinkReceiveBuffer := true;
      case Completed(bytes, handler, growDiff, startDiff) =>
        if mRecvPosted && |bytes| <= mReceiveBuffer.pend - mReceiveBuffer.pnext {
          var r := OnRecvCompleted(bytes, handler, growDiff, startDiff);
        }
      case Error => mRecvPosted := false;
    }

    /** Over every run of events the session goes through the moments of its queue, with the receive position at the put
        offset and the put area within the bound. What it received is what the enabled completions brought; and if
        nothing was lost or added before, the bytes received are the bytes consumed and the bytes visible exactly when
        no shrink has met 1 to 127 unread bytes. */
    method Run(events: seq<Event>) returns (ghost trace: seq<Moment>)
      requires Valid()
      modifies this, mReceiveBuffer, mReceiveBuffer.storage
      ensures Valid() && mReceivePos == mReceiveBuffer.pnext && mReceiveBuffer.pend <= MaxValid()
      ensures mRecvPosted ==> mReceiveBuffer.pend == MaxValid() > mReceivePos
      ensures IsTrace(maxSize, trace, events) && trace[0] == old(Now()) && trace[|events|] == Now()
      ensures received == old(received) + Incomings(trace, events)
      ensures consumed + Unread() == old(consumed + Unread()) + Stream(trace, events)
      ensures old(received == consumed + Unread()) ==> (received == consumed + Unread() <==> !AnyRough(trace, events))
    {
      hide NextMoment, Unread, AnyRough;
      trace := [Now()];
      for i := 0 to |events|
        invariant Valid()
        invariant mReceiveBuffer == old(mReceiveBuffer) || fresh(mReceiveBuffer)
        invariant mReceiveBuffer.storage == old(mReceiveBuffer.storage) || fresh(mReceiveBuffer.storage)
        invariant IsTrace(maxSize, trace, events[..i]) && trace[0] == old(Now()) && trace[i] == Now()
      {
        Handle(events[i]);
        TraceGrows(maxSize, trace, events, i, Now());
        trace := trace + [Now()];
      }
      assert events[..|events|] == events;
      QueueExact(maxSize, trace, events);
      if trace[0].q.received == Through(trace[0].q) { FaithfulExactly(maxSize, trace, events); }
    }
  }

  lemma TraceGrows(max: nat, trace: seq<Moment>, events: seq<Event>, i: nat, b: Moment)
    requires i < |events| && IsTrace(max, trace, events[..i]) && NextMoment(max, trace[i], events[i], b)
    ensures IsTrace(max, trace + [b], events[..i + 1])
  {
    hide NextMoment;
    var longer, part := trace + [b], events[..i + 1];
    forall k | 0 <= k < |part| ensures NextMoment(max, longer[k], part[k], longer[k + 1]) {
      if k < i { assert events[..i][k] == part[k]; }
    }
  }

  lemma ShrunkData(unread: seq<bv8>, data: seq<bv8>)
    requires data == unread + Zeros(Surplus(|unread|))
    ensures data == unread <==> Surplus(|unread|) == 0
    ensures Surplus(|unread|) == 0 <==> |unread| == 0 || |unread| >= BUFFER_DELTA
  {}
}
