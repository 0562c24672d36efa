/** `asio::buffers_iterator`: a random-access cursor over a list of buffers, some of which may be empty. */
module BuffersIterator {
  import opened Sequences

  /** The bytes before buffer `i`. */
  function Before(bufs: seq<seq<bv8>>, i: nat): nat
    requires i <= |bufs|
  {
    if i == 0 then 0 else Before(bufs, i - 1) + |bufs[i - 1]|
  }

  lemma {:induction false} FlatPrefix(bufs: seq<seq<bv8>>, i: nat)
    requires i <= |bufs|
    ensures |Flatten(bufs[..i])| == Before(bufs, i)
  {
    if i > 0 {
      assert bufs[..i][..i - 1] == bufs[..i - 1];
      FlatPrefix(bufs, i - 1);
    }
  }

  lemma {:induction false} BeforeMonotone(bufs: seq<seq<bv8>>, i: nat, j: nat)
    requires i <= j <= |bufs|
    ensures Before(bufs, i) <= Before(bufs, j)
    ensures i < j ==> Before(bufs, i) + |bufs[i]| <= Before(bufs, j)
  {
    if i < j { BeforeMonotone(bufs, i, j - 1); }
  }

  /** The byte at an offset in a buffer is a byte of the flat sequence. */
  lemma {:induction false} FlatAt(bufs: seq<seq<bv8>>, i: nat, k: nat)
    requires i < |bufs| && k < |bufs[i]|
    ensures Before(bufs, i) + k < |Flatten(bufs)| && Flatten(bufs)[Before(bufs, i) + k] == bufs[i][k]
    decreases |bufs|
  {
    var init := bufs[..|bufs| - 1];
    FlatPrefix(bufs, |bufs| - 1);
    if i < |bufs| - 1 {
      FlatAt(init, i, k);
      BeforePrefix(bufs, |bufs| - 1, i);
    }
  }

  lemma {:induction false} BeforePrefix(bufs: seq<seq<bv8>>, n: nat, i: nat)
    requires i <= n <= |bufs|
    ensures Before(bufs[..n], i) == Before(bufs, i)
  {
    if i > 0 { BeforePrefix(bufs, n, i - 1); }
  }

  /** A cursor: the buffer it is in, the offset there, and its position. */
  datatype Cursor = Cursor(current: nat, offset: nat, position: nat)

  /** The position is the bytes before the current buffer and the offset; the cursor is on a byte, or at the end. */
  predicate Canonical(bufs: seq<seq<bv8>>, c: Cursor) {
    && c.current <= |bufs| && c.position == Before(bufs, c.current) + c.offset
    && if c.current < |bufs| then c.offset < |bufs[c.current]| else c.offset == 0
  }

  /** A position has only one cursor. */
  lemma CanonicalUnique(bufs: seq<seq<bv8>>, c: Cursor, d: Cursor)
    requires Canonical(bufs, c) && Canonical(bufs, d) && c.position == d.position
    ensures c == d
  {
    if c.current < d.current {
      BeforeMonotone(bufs, c.current, d.current);
    } else if d.current < c.current {
      BeforeMonotone(bufs, d.current, c.current);
    }
  }

  lemma CanonicalInRange(bufs: seq<seq<bv8>>, c: Cursor)
    requires Canonical(bufs, c)
    ensures c.position <= |Flatten(bufs)| && (c.current == |bufs| <==> c.position == |Flatten(bufs)|)
  {
    FlatPrefix(bufs, |bufs|);
    assert bufs[..|bufs|] == bufs;
    BeforeMonotone(bufs, c.current, |bufs|);
  }

  /** The first non-empty buffer from `i` on. */
  function NonEmptyFrom(bufs: seq<seq<bv8>>, i: nat): (j: nat)
    requires i <= |bufs|
    ensures i <= j <= |bufs| && (j < |bufs| ==> bufs[j] != []) && forall k :: i <= k < j ==> bufs[k] == []
    decreases |bufs| - i
  {
    if i == |bufs| || bufs[i] != [] then i else NonEmptyFrom(bufs, i + 1)
  }

  lemma {:induction false} SameBefore(bufs: seq<seq<bv8>>, i: nat, j: nat)
    requires i <= j <= |bufs| && forall k :: i <= k < j ==> bufs[k] == []
    ensures Before(bufs, i) == Before(bufs, j)
  {
    if i < j { SameBefore(bufs, i, j - 1); }
  }

  /** One step forward. */
  function Next(bufs: seq<seq<bv8>>, c: Cursor): (d: Cursor)
    requires Canonical(bufs, c) && c.current < |bufs|
    ensures Canonical(bufs, d) && d.position == c.position + 1
  {
    if c.offset + 1 < |bufs[c.current]| then Cursor(c.current, c.offset + 1, c.position + 1)
    else
      var j := NonEmptyFrom(bufs, c.current + 1);
      SameBefore(bufs, c.current + 1, j);
      Cursor(j, 0, c.position + 1)
  }

  /** The last non-empty buffer before `i`. */
  function NonEmptyBefore(bufs: seq<seq<bv8>>, i: nat): (j: nat)
    requires i <= |bufs| && Before(bufs, i) > 0
    ensures j < i && bufs[j] != [] && forall k :: j < k < i ==> bufs[k] == []
  {
    if bufs[i - 1] != [] then i - 1 else NonEmptyBefore(bufs, i - 1)
  }

  /** One step back. */
  function Prev(bufs: seq<seq<bv8>>, c: Cursor): (d: Cursor)
    requires Canonical(bufs, c) && c.position > 0
    ensures Canonical(bufs, d) && d.position == c.position - 1
  {
    if c.offset > 0 then Cursor(c.current, c.offset - 1, c.position - 1)
    else
      var j := NonEmptyBefore(bufs, c.current);
      SameBefore(bufs, j + 1, c.current);
      Cursor(j, |bufs[j]| - 1, c.position - 1)
  }

  /** `n` single steps, forward or back. */
  function Walk(bufs: seq<seq<bv8>>, c: Cursor, n: int): (d: Cursor)
    requires Canonical(bufs, c) && 0 <= c.position + n <= |Flatten(bufs)|
    ensures Canonical(bufs, d) && d.position == c.position + n
    decreases if n < 0 then -n else n
  {
    if n == 0 then c
    else if n > 0 then
      var d := Walk(bufs, c, n - 1);
      CanonicalInRange(bufs, d);
      Next(bufs, d)
    else
      CanonicalInRange(bufs, c);
      Prev(bufs, Walk(bufs, c, n + 1))
  }

  class BufferCursor {
    const buffers: seq<seq<bv8>>
    var currentBuffer: seq<bv8>
    var currentBufferPosition: nat
    var current: nat
    var position: nat

    function View(): Cursor
      reads this
    {
      Cursor(current, currentBufferPosition, position)
    }

    /** At the end the current buffer may be a stale one. */
    ghost predicate Valid()
      reads this
    {
      Canonical(buffers, View()) && (current < |buffers| ==> currentBuffer == buffers[current])
    }

    constructor (buffers: seq<seq<bv8>>)
      ensures this.buffers == buffers && View() == Cursor(0, 0, 0) && currentBuffer == []
    {
      this.buffers := buffers;
      currentBuffer, currentBufferPosition, current, position := [], 0, 0, 0;
    }

    /** An iterator to the first byte. */
    static method Begin(buffers: seq<seq<bv8>>) returns (it: BufferCursor)
      ensures fresh(it) && it.Valid() && it.buffers == buffers && it.position == 0
    {
      it := new BufferCursor(buffers);
      while it.current != |buffers|
        invariant it.current <= |buffers| && it.position == 0 && it.currentBufferPosition == 0
        invariant Before(buffers, it.current) == 0
        decreases |buffers| - it.current
      {
        it.currentBuffer := buffers[it.current];
        if |it.currentBuffer| > 0 { break; }
        it.current := it.current + 1;
      }
    }

    /** An iterator behind the last byte. */
    static method End(buffers: seq<seq<bv8>>) returns (it: BufferCursor)
      ensures fresh(it) && it.Valid() && it.buffers == buffers && it.position == |Flatten(buffers)|
    {
      it := new BufferCursor(buffers);
      while it.current != |buffers|
        invariant it.current <= |buffers| && it.position == Before(buffers, it.current) && it.currentBufferPosition == 0
        decreases |buffers| - it.current
      {
        var buffer := buffers[it.current];
        it.position := it.position + |buffer|;
        it.current := it.current + 1;
      }
      FlatPrefix(buffers, |buffers|);
      assert buffers[..|buffers|] == buffers;
    }

    /** The byte at the position in the flat sequence. */
    method Dereference() returns (b: bv8)
      requires Valid() && position < |Flatten(buffers)|
      ensures b == Flatten(buffers)[position]
    {
      CanonicalInRange(buffers, View());
      FlatAt(buffers, current, currentBufferPosition);
      b := currentBuffer[currentBufferPosition];
    }

    method Increment()
      requires Valid() && position < |Flatten(buffers)|
      modifies this
      ensures Valid() && position == old(position) + 1
    {
      CanonicalInRange(buffers, View());
      ghost var c := View();
      assert current != |buffers|; // "iterator out of bounds"
      position := position + 1;
      currentBufferPosition := currentBufferPosition + 1;
      if currentBufferPosition != |currentBuffer| { return; }
      current := current + 1;
      currentBufferPosition := 0;
      while current != |buffers|
        invariant c.current < current <= |buffers| && currentBufferPosition == 0
        invariant position == c.position + 1 == Before(buffers, current)
        decreases |buffers| - current
      {
        currentBuffer := buffers[current];
        if |currentBuffer| > 0 { return; }
        current := current + 1;
      }
    }

    method Decrement()
      requires Valid() && position > 0
      modifies this
      ensures Valid() && position == old(position) - 1
    {
      position := position - 1;
      if currentBufferPosition != 0 {
        currentBufferPosition := currentBufferPosition - 1;
        return;
      }
      ghost var p := position;
      var iter: nat := current;
      while iter != 0
        invariant iter <= current <= |buffers| && position == p && p + 1 == Before(buffers, iter)
        decreases iter
      {
        iter := iter - 1;
        var buffer := buffers[iter];
        var bufferSize := |buffer|;
        if bufferSize > 0 {
          current := iter;
          currentBuffer := buffer;
          currentBufferPosition := bufferSize - 1;
          return;
        }
      }
      assert false; // there is a non-empty buffer before a positive position
    }

    /** `advance` by a positive distance. */
    method Forward(distance: nat)
      requires Valid() && distance > 0 && position + distance <= |Flatten(buffers)|
      modifies this
      ensures Valid() && position == old(position) + distance
    {
      CanonicalInRange(buffers, View());
      FlatPrefix(buffers, |buffers|);
      assert buffers[..|buffers|] == buffers;
      assert current != |buffers|; // "iterator out of bounds"
      ghost var goal := position + distance;
      var n := distance;
      while true
        invariant current < |buffers| && currentBuffer == buffers[current]
        invariant currentBufferPosition <= |currentBuffer|
        invariant position == Before(buffers, current) + currentBufferPosition && position + n == goal && n >= 0
        decreases |buffers| - current
      {
        var balance := |currentBuffer| - currentBufferPosition;
        if balance > n {
          position := position + n;
          currentBufferPosition := currentBufferPosition + n;
          return;
        }
        n := n - balance;
        position := position + balance;
        current := current + 1;
        if current == |buffers| {
          assert n == 0; // "iterator out of bounds"
          currentBuffer := [];
          currentBufferPosition := 0;
          return;
        }
        currentBuffer := buffers[current];
        currentBufferPosition := 0;
      }
    }

    /** `advance` by a negative distance. */
    method Backward(distance: nat)
      requires Valid() && 0 < distance <= position
      modifies this
      ensures Valid() && position == old(position) - distance
    {
      ghost var goal := position - distance;
      var absN := distance;
      while true
        invariant current <= |buffers| && 0 < absN <= position && position - absN == goal
        invariant position == Before(buffers, current) + currentBufferPosition
        invariant if current < |buffers| then currentBuffer == buffers[current]
                  && currentBufferPosition <= |currentBuffer|
                  else currentBufferPosition == 0
        decreases current
      {
        if currentBufferPosition >= absN {
          position := position - absN;
          currentBufferPosition := currentBufferPosition - absN;
          return;
        }
        absN := absN - currentBufferPosition;
        position := position - currentBufferPosition;
        assert current != 0; // "iterator out of bounds"
        var iter: nat := current;
        while iter != 0
          invariant iter <= current && position == Before(buffers, iter)
          decreases iter
        {
          iter := iter - 1;
          var buffer := buffers[iter];
          var bufferSize := |buffer|;
          if bufferSize > 0 {
            current := iter;
            currentBuffer := buffer;
            currentBufferPosition := bufferSize;
            break;
          }
        }
      }
    }

    /** `advance`: terminates, and equals that many single steps. */
    method Advance(n: int)
      requires Valid() && 0 <= position + n <= |Flatten(buffers)|
      modifies this
      ensures Valid() && View() == Walk(buffers, old(View()), n)
    {
      ghost var c := View();
      if n > 0 {
        Forward(n);
      } else if n < 0 {
        Backward(-n);
      }
      CanonicalUnique(buffers, View(), Walk(buffers, c, n));
    }

    /** `operator[]`. */
    method At(difference: int) returns (b: bv8)
      requires Valid() && 0 <= position + difference < |Flatten(buffers)|
      ensures b == Flatten(buffers)[position + difference]
    {
      var tmp := new BufferCursor(buffers);
      tmp.currentBuffer, tmp.currentBufferPosition := currentBuffer, currentBufferPosition;
      tmp.current, tmp.position := current, position;
      tmp.Advance(difference);
      b := tmp.Dereference();
    }

    method DistanceTo(other: BufferCursor) returns (d: int)
      requires Valid() && other.Valid() && buffers == other.buffers
      ensures 0 <= position + d <= |Flatten(buffers)| && Walk(buffers, View(), d) == other.View()
    {
      CanonicalInRange(buffers, View());
      CanonicalInRange(buffers, other.View());
      d := other.position - position;
      CanonicalUnique(buffers, other.View(), Walk(buffers, View(), d));
    }
  }
}
