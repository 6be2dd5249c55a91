/**
 * NimBLEStream::ByteRingBuffer: a byte array that wraps, proved to behave like
 * a bounded FIFO.  An allocation that failed leaves no array, and then every
 * operation moves zero bytes, as the failed lock makes it do.
 */
module RingBuffer {
  import opened Base

  /** The last `n` elements of `s`. */
  function LastN<T>(s: seq<T>, n: nat): (r: seq<T>)
    requires n <= |s|
    ensures |r| == n
  {
    s[|s| - n..]
  }

  lemma WrapOnce(x: nat, cap: nat)
    requires 0 < cap && x < 2 * cap
    ensures x % cap == if x < cap then x else x - cap
  {
    if x >= cap { assert x == 1 * cap + (x - cap); }
  }

  class ByteRingBuffer {
    const capacity: nat
    const buf: array?<Byte>
    var head: nat
    var tail: nat
    var size: nat
    var locks: nat   // depth of the recursive mutex
    ghost var fifo: seq<Byte>   // the buffered bytes, oldest first

    predicate IsValid() { buf != null }

    ghost predicate Valid()
      reads `head, `tail, `size, `fifo, buf
    {
      && capacity > 0
      && (buf != null ==> buf.Length == capacity)
      && tail < capacity && size <= capacity
      && head == (if tail + size < capacity then tail + size else tail + size - capacity)
      && (buf == null ==> size == 0)
      && |fifo| == size
      && (forall k :: 0 <= k < |fifo| ==> fifo[k] == buf[Slot(tail + k)])
    }

    /** The array index `x` places from the start, once around at most. */
    ghost function Slot(x: nat): (i: int) {
      if x < capacity then x else x - capacity
    }

    constructor (capacity: nat, memory: bool)
      requires capacity > 0
      ensures Valid() && fifo == [] && this.capacity == capacity && locks == 0
      ensures IsValid() == memory && (buf != null ==> fresh(buf))
    {
      this.capacity := capacity;
      if memory { buf := new Byte[capacity](_ => 0); } else { buf := null; }
      head, tail, size, locks, fifo := 0, 0, 0, 0, [];
    }

    // ---- the recursive mutex ---------------------------------------------------

    method Lock() returns (locked: bool)
      modifies `locks
      ensures locked == IsValid() && locks == old(locks) + if locked then 1 else 0
    {
      locked := IsValid();
      if locked { locks := locks + 1; }
    }

    method Unlock()
      requires locks > 0
      modifies `locks
      ensures locks == old(locks) - 1
    {
      locks := locks - 1;
    }

    // ---- queries ---------------------------------------------------------------

    method Size() returns (n: nat)
      requires Valid()
      modifies `locks
      ensures locks == old(locks) && n == |fifo|
    {
      var g := Lock();
      n := if g then size else 0;
      if g { Unlock(); }
    }

    method FreeSize() returns (n: nat)
      requires Valid()
      modifies `locks
      ensures locks == old(locks) && n == if IsValid() then capacity - |fifo| else 0
    {
      var g := Lock();
      n := if g then capacity - size else 0;
      if g { Unlock(); }
    }

    // ---- the FIFO operations -----------------------------------------------------

    /** Both halves of `write`'s copy, in place. */
    method CopyIn(data: seq<Byte>)
      requires Valid() && buf != null && |data| <= capacity - size
      modifies buf
      ensures forall k :: 0 <= k < capacity ==>
                buf[k] == (var i := if k >= head then k - head else k - head + capacity;
                           if i < |data| then data[i] else old(buf[k]))
    {
      var count := |data|;
      var first := Min(count, capacity - head);
      forall i | 0 <= i < first { buf[head + i] := data[i]; }
      var remain := count - first;
      if remain > 0 {
        forall i | 0 <= i < remain { buf[i] := data[first + i]; }
      }
    }

    method Append(data: seq<Byte>)
      requires Valid() && buf != null && |data| <= capacity - size
      modifies `head, `size, `fifo, buf
      ensures Valid() && fifo == old(fifo) + data
    {
      CopyIn(data);
      WrapOnce(head + |data|, capacity);
      head := (head + |data|) % capacity;
      size := size + |data|;
      fifo := fifo + data;
    }

    method Write(data: seq<Byte>) returns (n: nat)
      requires Valid()
      modifies `head, `size, `fifo, `locks, buf
      ensures Valid() && locks == old(locks)
      ensures n == if IsValid() then Min(|data|, capacity - |old(fifo)|) else 0
      ensures fifo == old(fifo) + data[..n]
    {
      if |data| == 0 { return 0; }
      var g := Lock();
      if !g { return 0; }
      if size >= capacity {
        Unlock();
        return 0;
      }
      n := Min(|data|, capacity - size);
      Append(data[..n]);
      Unlock();
    }

    /** Both halves of the copy out of `read` and `peek`. */
    method CopyOut(count: nat) returns (out: seq<Byte>)
      requires Valid() && buf != null && count <= size
      ensures out == fifo[..count]
    {
      var first := Min(count, capacity - tail);
      out := buf[tail..tail + first];
      var remain := count - first;
      if remain > 0 { out := out + buf[..remain]; }
    }

    method Peek(len: nat) returns (out: seq<Byte>)
      requires Valid()
      modifies `locks
      ensures locks == old(locks) && out == fifo[..Min(len, |fifo|)]
    {
      out := [];
      if len == 0 { return; }
      var g := Lock();
      if !g { return; }
      if size > 0 { out := CopyOut(Min(len, size)); }
      Unlock();
    }

    method Read(len: nat) returns (out: seq<Byte>)
      requires Valid()
      modifies `tail, `size, `fifo, `locks
      ensures Valid() && locks == old(locks)
      ensures out == old(fifo)[..Min(len, |old(fifo)|)]
      ensures fifo == old(fifo)[Min(len, |old(fifo)|)..]
    {
      out := [];
      if len == 0 { return; }
      var g := Lock();
      if !g { return; }
      if size > 0 {
        var count := Min(len, size);
        out := CopyOut(count);
        Advance(count);
      }
      Unlock();
    }

    method Advance(count: nat)
      requires Valid() && count <= size
      modifies `tail, `size, `fifo
      ensures Valid() && fifo == old(fifo)[count..]
    {
      WrapOnce(tail + count, capacity);
      tail := (tail + count) % capacity;
      size := size - count;
      fifo := fifo[count..];
    }

    method Drop(len: nat) returns (n: nat)
      requires Valid()
      modifies `tail, `size, `fifo, `locks
      ensures Valid() && locks == old(locks) && n == Min(len, |old(fifo)|)
      ensures fifo == old(fifo)[n..]
    {
      if len == 0 { return 0; }
      var g := Lock();
      if !g { return 0; }
      n := Min(len, size);
      if size > 0 { Advance(n); }
      Unlock();
    }
  }
}
