/** `asio::basic_streambuf`: a get area and a put area in one vector. The pointers are offsets into the storage. The
    vector's capacity never shrinks, is at least its size, and stays when the new size fits. */
module StreamBuf {

  const BUFFER_DELTA: nat := 128

  function Min(a: nat, b: nat): nat { if a <= b then a else b }
  function Max(a: nat, b: nat): nat { if a >= b then a else b }

  class StreamBuffer {
    const maxSize: nat
    /** The vector's memory, as long as its capacity; the first `size` bytes are its elements. */
    var storage: array<bv8>
    var size: nat
    var gnext: nat
    var pnext: nat
    var pend: nat

    ghost predicate Valid()
      reads this
    {
      && 1 <= maxSize
      && 1 <= size <= storage.Length && size == pend
      && gnext <= pnext <= pend <= maxSize
    }

    /** The input sequence: what `data()` shows. */
    ghost function Contents(): (s: seq<bv8>)
      requires Valid()
      reads this, storage
      ensures |s| == pnext - gnext
    {
      storage[gnext..pnext]
    }

    method Data() returns (s: seq<bv8>)
      requires Valid()
      ensures s == Contents()
    {
      s := storage[gnext..pnext];
    }

    constructor (maximumSize: nat)
      requires maximumSize >= 1
      ensures Valid() && maxSize == maximumSize && fresh(storage)
      ensures gnext == 0 && pnext == 0 && pend == Min(maximumSize, BUFFER_DELTA)
      ensures forall k :: 0 <= k < size ==> storage[k] == 0
    {
      maxSize := maximumSize;
      pend := Min(maximumSize, BUFFER_DELTA);
      size := Min(maximumSize, BUFFER_DELTA);
      gnext, pnext := 0, 0;
      var n := Min(maximumSize, BUFFER_DELTA);
      var capacity :| capacity >= n;
      storage := new bv8[capacity](_ => 0);
    }

    /** `buffer_.resize(n)` to a larger size: the elements stay, the new ones are zero. */
    method Resize(n: nat)
      requires 1 <= size <= storage.Length && size <= n
      modifies this`size, this`storage, storage
      ensures size == n <= storage.Length && old(storage.Length) <= storage.Length
      ensures n <= old(storage.Length) ==> storage == old(storage)
      ensures storage == old(storage) || fresh(storage)
      ensures storage[..old(size)] == old(storage[..size])
      ensures forall k :: old(size) <= k < n ==> storage[k] == 0
    {
      var from := size;
      if n > storage.Length {
        var capacity :| capacity >= n;
        var elements := storage;
        var bigger := new bv8[capacity];
        for i := 0 to from
          modifies bigger
          invariant forall k :: 0 <= k < i ==> bigger[k] == elements[k]
        {
          bigger[i] := elements[i];
        }
        storage := bigger;
      }
      var elements := storage;
      ghost var kept := elements[..from];
      for i := from to n
        modifies elements
        invariant elements[..from] == kept
        invariant forall k :: from <= k < i ==> elements[k] == 0
      {
        elements[i] := 0;
      }
      size := n;
    }

    /** `memmove(&buffer_[0], &buffer_[gnext], n)`. */
    method MoveToFront(n: nat)
      requires gnext + n <= storage.Length
      modifies storage
      ensures storage[..n] == old(storage[gnext..gnext + n])
    {
      ghost var was := storage[..];
      for i := 0 to n
        invariant forall k :: 0 <= k < i ==> storage[k] == was[gnext + k]
        invariant forall k :: i <= k < storage.Length ==> storage[k] == was[k]
      {
        storage[i] := storage[gnext + i];
      }
    }

    /** `reserve`: makes room for `n` more bytes, moving the contents to the front if they do not fit behind them; the
        result is false when `length_error` is thrown. */
    method Reserve(n: nat) returns (ok: bool)
      requires Valid()
      modifies this`size, this`storage, this`gnext, this`pnext, this`pend, storage
      ensures Valid()
      ensures ok == (n <= old(pend - pnext) || n + old(pnext - gnext) <= maxSize)
      ensures storage == old(storage) || fresh(storage)
      ensures old(storage.Length) <= storage.Length && (pend <= old(storage.Length) ==> storage == old(storage))
      ensures ok ==> Contents() == old(Contents()) && n <= pend - pnext
      ensures ok && n <= old(pend - pnext) ==> gnext == old(gnext) && pnext == old(pnext) && pend == old(pend)
      ensures ok && n > old(pend - pnext) ==> gnext == 0 && pend == Max(old(pend), old(pnext - gnext) + n)
      ensures old(gnext) == 0 ==> storage[..old(pend)] == old(storage[..pend])
      ensures forall k :: old(pend) <= k < pend ==> storage[k] == 0
    {
      var g, p, e := gnext, pnext, pend;
      ghost var contents := Contents();
      if n <= e - p { return true; }
      if g > 0 {
        p := p - g;
        MoveToFront(p);
      } else {
        assert storage[..p] == contents;
      }
      assert storage[..p] == contents;
      if n > e - p {
        if n <= maxSize && p <= maxSize - n {
          ghost var moved := storage[..size];
          e := p + n;
          Resize(Max(e, 1));
          PrefixKept(storage[..e], moved, p, contents);
        } else {
          return false;
        }
      }
      gnext, pnext, pend := 0, p, e;
      ok := true;
    }

    /** `commit`: moves up to `n` bytes from the put area to the get area. */
    method Commit(n: nat)
      requires Valid()
      modifies this`pnext
      ensures Valid() && pnext == old(pnext) + Min(n, pend - old(pnext))
    {
      pnext := pnext + Min(n, pend - pnext);
    }

    /** `consume`: removes up to `n` bytes from the front of the get area. */
    method Consume(n: nat)
      requires Valid()
      modifies this`gnext
      ensures Valid() && Contents() == old(Contents())[Min(n, |old(Contents())|)..]
    {
      gnext := gnext + (if gnext + n > pnext then pnext - gnext else n);
    }

    /** `sputn` of bytes for which there is room: copies them and moves the put pointer. */
    method Sputn(bytes: seq<bv8>) returns (n: nat)
      requires Valid() && |bytes| <= pend - pnext
      modifies this`pnext, storage
      ensures Valid() && n == |bytes| && pnext == old(pnext) + n
      ensures Contents() == old(Contents()) + bytes
      ensures forall k :: pnext <= k < storage.Length ==> storage[k] == old(storage[k])
    {
      ghost var before := Contents();
      for i := 0 to |bytes|
        modifies storage
        invariant storage[gnext..pnext] == before && storage[pnext..pnext + i] == bytes[..i]
        invariant forall k :: pnext + i <= k < storage.Length ==> storage[k] == old(storage[k])
      {
        storage[pnext + i] := bytes[i];
        assert storage[pnext..pnext + i + 1] == storage[pnext..pnext + i] + [bytes[i]];
      }
      assert storage[gnext..pnext + |bytes|] == storage[gnext..pnext] + storage[pnext..pnext + |bytes|];
      pnext := pnext + |bytes|;
      n := |bytes|;
    }

    /** Bytes written into the put area from outside. */
    method Fill(bytes: seq<bv8>)
      requires Valid() && |bytes| <= pend - pnext
      modifies storage
      ensures storage[..pnext] == old(storage[..pnext]) && storage[pnext..pnext + |bytes|] == bytes
    {
      for i := 0 to |bytes|
        invariant storage[..pnext] == old(storage[..pnext]) && storage[pnext..pnext + i] == bytes[..i]
      {
        storage[pnext + i] := bytes[i];
        assert storage[pnext..pnext + i + 1] == storage[pnext..pnext + i] + [bytes[i]];
      }
    }
  }

  lemma PrefixKept(s: seq<bv8>, moved: seq<bv8>, p: nat, contents: seq<bv8>)
    requires p <= |moved| <= |s| && s[..|moved|] == moved && moved[..p] == contents
    ensures s[..p] == contents
  {}
}
