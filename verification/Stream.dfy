/**
 * NimBLEStream over its two ring buffers: `write`, `pushRx`, and the server and
 * client forms of `send` and `flush`, which differ in one retry condition.
 */
module Stream {
  import opened Base
  import opened RingBuffer
  import opened StreamSpec
  import opened FlushSpec

  /** What the application may call. */
  datatype Call = WriteCall(data: seq<Byte>) | SendCall | FlushCall(timeoutMs: nat, timeoutTicks: UInt32, retryDelay: UInt32)

  class BleStream {
    const role: Role
    const link: Link
    const tx: ByteRingBuffer
    const rx: ByteRingBuffer?
    var calls: nat
    var sends: nat
    var now: nat
    var queries: nat
    ghost var model: Tx
    ghost var taken: seq<Byte>   // what the stack took, chunk by chunk

    ghost predicate InStep()
      reads `model, `calls, `sends, tx, tx.buf
    {
      && tx.Valid() && tx.IsValid()
      && model.buffered == tx.fifo && model.calls == calls && model.sends == sends
      && Conserved(model)
    }

    /** The bytes booked as delivered are those the stack took. */
    ghost predicate ValidTx()
      reads `model, `calls, `sends, `taken, tx, tx.buf
    {
      InStep() && taken == Handed(model.fates)
    }

    ghost predicate ValidRx()
      reads rx, if rx != null then rx.buf else null
    {
      rx != null ==> rx.Valid()
    }

    ghost predicate Separate() {
      rx != null ==> rx != tx && (rx.buf != null ==> rx.buf != tx.buf)
    }

    ghost predicate Valid()
      reads `model, `calls, `sends, `taken, tx, tx.buf, rx, if rx != null then rx.buf else null
    {
      ValidTx() && ValidRx() && Separate()
    }

    ghost function RxContents(): seq<Byte>
      reads rx
    {
      if rx == null then [] else rx.fifo
    }

    constructor (role: Role, link: Link, txSize: nat, rxSize: nat)
      requires txSize > 0
      ensures Valid() && this.role == role && this.link == link && (rx != null <==> rxSize > 0)
      ensures model == Tx([], [], [], 0, 0) && taken == [] && RxContents() == [] && fresh(tx) && (rx != null ==> fresh(rx))
    {
      this.role, this.link := role, link;
      tx := new ByteRingBuffer(txSize, true);
      if rxSize > 0 { rx := new ByteRingBuffer(rxSize, true); } else { rx := null; }
      calls, sends, now, queries := 0, 0, 0, 0;
      model, taken := Tx([], [], [], 0, 0), [];
    }

    // ---- the stack ---------------------------------------------------------------

    method TimeGet() returns (t: UInt32)
      modifies `now, `queries
      ensures now == old(now) + link.tick(old(queries)) && queries == old(queries) + 1 && t == now % WRAP
    {
      now, queries := now + link.tick(queries), queries + 1;
      t := now % WRAP;
    }

    method Delay(ticks: UInt32)
      modifies `now, `queries
      ensures now == old(now) + ticks + link.tick(old(queries)) && queries == old(queries) + 1
    {
      now, queries := now + ticks + link.tick(queries), queries + 1;
    }

    // ---- receiving -----------------------------------------------------------------

    method PushRx(data: seq<Byte>, ready: bool, action: Overflow) returns (n: nat)
      requires ValidRx() && rx != null
      modifies rx, rx.buf
      ensures ValidRx() && rx.locks == old(rx.locks)
      ensures RxContents() == if ready && rx.IsValid() then Pushed(rx.capacity, old(RxContents()), data, action)
                              else old(RxContents())
      ensures n == if !ready || !rx.IsValid() || (|old(RxContents())| + |data| > rx.capacity && action.DropNew?) then 0
                   else Min(|data|, rx.capacity)
    {
      if !ready { return 0; }
      var g := rx.Lock();
      if !g { return 0; }
      n := Store(data, action);
      rx.Unlock();
    }

    /** `pushRx` with the buffer locked; each call below locks it again. */
    method Store(data: seq<Byte>, action: Overflow) returns (n: nat)
      requires ValidRx() && rx != null && rx.IsValid() && |RxContents()| <= rx.capacity
      modifies rx, rx.buf
      ensures ValidRx() && rx.locks == old(rx.locks)
      ensures RxContents() == Pushed(rx.capacity, old(RxContents()), data, action)
      ensures n == if |old(RxContents())| + |data| > rx.capacity && action.DropNew? then 0
                   else Min(|data|, rx.capacity)
    {
      var freeSize := rx.FreeSize();
      if |data| <= freeSize {
        n := rx.Write(data);
        return;
      }
      if action != DropOlder { return 0; }
      n := StoreOver(data, freeSize);
    }

    method StoreOver(data: seq<Byte>, freeSize: nat) returns (n: nat)
      requires ValidRx() && rx != null && rx.IsValid()
      requires freeSize == rx.capacity - |rx.fifo| && |data| > freeSize
      modifies rx, rx.buf
      ensures ValidRx() && rx.locks == old(rx.locks)
      ensures |old(rx.fifo)| + |data| >= rx.capacity && rx.fifo == LastN(old(rx.fifo) + data, rx.capacity) && n == Min(|data|, rx.capacity)
    {
      ghost var was := rx.fifo;
      if |data| >= rx.capacity {
        var size := rx.Size();
        var dropped := rx.Drop(size);
        assert LastN(was + data, rx.capacity) == data[|data| - rx.capacity..];
        n := rx.Write(data[|data| - rx.capacity..]);
        return;
      }
      var requiredSpace := |data| - freeSize;
      var dropped := rx.Drop(requiredSpace);
      if dropped < requiredSpace { assert false; }
      assert LastN(was + data, rx.capacity) == was[dropped..] + data;
      n := rx.Write(data);
    }

    // ---- sending -------------------------------------------------------------------

    /** The server refuses empty writes and writes while nobody is subscribed. */
    method Write(data: seq<Byte>) returns (n: nat)
      requires ValidTx()
      modifies `model, `sends, tx, tx.buf
      ensures ValidTx() && n <= |data| && model.accepted == old(model).accepted + data[..n]
      ensures model == Written(tx.capacity, role, link, old(model), data)
    {
      var ready := link.ready(sends);
      sends := sends + 1;
      if role.Server? && (|data| == 0 || !ready) {
        model := model.(sends := sends);
        return 0;
      }
      n := tx.Write(data);
      model := Tx(model.buffered + data[..n], model.accepted + data[..n], model.fates, calls, sends);
    }

    /** The call into the stack. */
    method Notify(chunk: seq<Byte>) returns (ok: bool, busy: bool)
      requires InStep()
      modifies `calls, `model, `taken
      ensures InStep() && model == old(model).(calls := old(calls) + 1)
      ensures var o := link.outcome(old(calls)); ok == o.ok && busy == Busy(role, o)
      ensures taken == if ok then old(taken) + chunk else old(taken)
    {
      var o := link.outcome(calls);
      if o.ok { taken := taken + chunk; }
      calls := calls + 1;
      model := model.(calls := calls);
      ok, busy := o.ok, o.freeBlocks <= 2 || (role.Server? && o.rc == ENOMEM);
    }

    method Send() returns (retry: bool)
      requires ValidTx()
      modifies `model, `calls, `sends, `taken, tx
      ensures ValidTx() && (model, retry) == SendAll(role, link, old(model))
    {
      var ready, mtu := link.ready(sends), link.mtu(sends);
      sends := sends + 1;
      model := model.(sends := sends);
      if !ready || mtu < 23 { return false; }
      retry := SendLoop(Min(mtu - 3, CHUNK));
    }

    method SendLoop(maxDataLen: nat) returns (retry: bool)
      requires ValidTx() && maxDataLen > 0
      modifies `model, `calls, `taken, tx
      ensures ValidTx() && (model, retry) == SendChunks(role, link, maxDataLen, old(model))
    {
      ghost var goal := SendChunks(role, link, maxDataLen, model);
      var size := tx.Size();
      while size > 0
        invariant ValidTx() && size == |model.buffered|
        invariant SendChunks(role, link, maxDataLen, model) == goal
        decreases size
      {
        var ok, busy := SendOne(maxDataLen);
        if !ok { return busy; }
        size := tx.Size();
      }
      retry := false;
    }

    method SendOne(maxDataLen: nat) returns (ok: bool, busy: bool)
      requires ValidTx() && maxDataLen > 0 && model.buffered != []
      modifies `model, `calls, `taken, tx
      ensures ValidTx() && SendChunks(role, link, maxDataLen, old(model))
                        == if ok then SendChunks(role, link, maxDataLen, model) else (model, busy)
      ensures ok ==> |model.buffered| < |old(model).buffered|
    {
      var chunk := tx.Peek(maxDataLen);
      ok, busy := Notify(chunk);
      if ok { Sent(chunk); }
    }

    /** The chunk the stack has just taken leaves the buffer. */
    method Sent(chunk: seq<Byte>)
      requires InStep() && chunk <= model.buffered && taken == Handed(model.fates) + chunk
      modifies `model, tx
      ensures ValidTx()
      ensures model == old(model).(buffered := old(model).buffered[|chunk|..],
                                   fates := old(model).fates + StreamSpec.Deliver(chunk))
    {
      ghost var before := model;
      var dropped := tx.Drop(|chunk|);
      DeliverKeeps(before, chunk);
      model := model.(buffered := before.buffered[|chunk|..], fates := before.fates + StreamSpec.Deliver(chunk));
    }

    /** Whether the wait may go on, by the wrapped clock. */
    method StillWaiting(waitStart: UInt32, timeoutTicks: UInt32, ghost start: nat) returns (waiting: bool)
      requires waitStart == start % WRAP
      modifies `now, `queries
      ensures now == old(now) + link.tick(old(queries)) && queries == old(queries) + 1
      ensures waiting == (Elapsed(now, start) < timeoutTicks)
    {
      var t := TimeGet();
      waiting := (t - waitStart) % WRAP < timeoutTicks;
    }

    /** One pass of the flush loop. */
    method FlushPass(timeoutMs: nat, timeoutTicks: UInt32, retryDelay: UInt32, waitStart: UInt32, ghost f: Flushing)
      returns (again: bool, waitStart': UInt32, after: nat, ghost p: Pass)
      requires ValidTx() && model.buffered != []
      requires f == Flushing(model, now, queries, f.start) && waitStart == f.start % WRAP
      modifies `model, `calls, `sends, `taken, `now, `queries, tx
      ensures ValidTx() && p == PassOf(Setup(role, link, timeoutMs > 0, timeoutTicks, retryDelay), f) && again == p.Again?
      ensures again ==> p.next == Flushing(model, now, queries, p.next.start) && waitStart' == p.next.start % WRAP
                        && model.buffered != []
      ensures !again ==> p.last == Flushing(model, now, queries, p.last.start) && after == |model.buffered|
                         && (p.Emptied? <==> after == 0)
    {
      ghost var s := Setup(role, link, timeoutMs > 0, timeoutTicks, retryDelay);
      p, waitStart' := PassOf(s, f), waitStart;
      var before := tx.Size();
      var retry := Send();
      after := tx.Size();
      if after == 0 { return false, waitStart, 0, p; }
      if after < before {
        waitStart' := TimeGet();
        return true, waitStart', after, p;
      }
      if retry && timeoutMs > 0 {
        var waiting := StillWaiting(waitStart, timeoutTicks, f.start);
        if waiting {
          Delay(retryDelay);
          return true, waitStart, after, p;
        }
      }
      again := false;
    }

    /**
     * The requires is that the loop ends at all; `FlushEnds` gives that for every stack
     * on a steady clock.  Returns with the TX buffer empty; what the last pass could not
     * send is dropped if it gave up, and only then is the RX buffer cleared as well.
     */
    method Flush(timeoutMs: nat, timeoutTicks: UInt32, retryDelay: UInt32, ghost op: TxOp)
      requires Valid() && op.FlushOp? && op.now == now && op.queries == queries
      requires SetupOf(role, link, op) == Setup(role, link, timeoutMs > 0, timeoutTicks, retryDelay)
      requires LegalOp(role, link, model, op)
      modifies `model, `calls, `sends, `taken, `now, `queries, tx, rx
      ensures Valid() && model == TxStep(tx.capacity, role, link, old(model), op) && model.buffered == []
      ensures var gaveUp := old(model).buffered != [] && FlushLast(role, link, old(model), op).GivenUp?;
              RxContents() == if gaveUp then [] else old(RxContents())
      ensures if old(model).buffered == [] then now == old(now) && queries == old(queries)
              else var g := FlushLast(role, link, old(model), op).last; now == g.now && queries == g.queries
    {
      var size := tx.Size();
      if size == 0 { return; }
      ghost var s, first := SetupOf(role, link, op), FlushStart(link, model, now, queries);
      var waitStart := TimeGet();
      size := FlushLoop(timeoutMs, timeoutTicks, retryDelay, waitStart, s, first, op.passes);
      if size > 0 { Discard(); }
    }

    /** The loop of `flush`: n passes and a last one, which leaves this many bytes. */
    method FlushLoop(timeoutMs: nat, timeoutTicks: UInt32, retryDelay: UInt32, begun: UInt32,
                     ghost s: Setup, ghost first: Flushing, ghost n: nat) returns (size: nat)
      requires ValidTx() && model.buffered != []
      requires s == Setup(role, link, timeoutMs > 0, timeoutTicks, retryDelay)
      requires first == Flushing(model, now, queries, first.start) && begun == first.start % WRAP && EndsAt(s, first, n)
      modifies `model, `calls, `sends, `taken, `now, `queries, tx
      ensures ValidTx() && size == |model.buffered|
      ensures Last(s, first, n).last == Flushing(model, now, queries, Last(s, first, n).last.start)
    {
      var again, waitStart := true, begun;
      size := 0;
      ghost var f, left := first, n;
      while again
        invariant ValidTx()
        invariant again ==> f == Flushing(model, now, queries, f.start) && waitStart == f.start % WRAP && model.buffered != []
        invariant again ==> EndsAt(s, f, left) && Last(s, f, left) == Last(s, first, n)
        invariant !again ==> Last(s, first, n).last == Flushing(model, now, queries, Last(s, first, n).last.start)
        invariant !again ==> size == |model.buffered|
        decreases again, left
      {
        LastStep(s, f, left);
        ghost var p;
        again, waitStart, size, p := FlushPass(timeoutMs, timeoutTicks, retryDelay, waitStart, f);
        if again { f, left := p.next, left - 1; }
      }
    }

    method Discard()
      requires Valid()
      modifies `model, tx, rx
      ensures Valid() && model == GiveUp(old(model)) && RxContents() == []
    {
      ghost var m := model;
      LoseAdds(m.fates, m.buffered);
      var n := tx.Size();
      n := tx.Drop(n);
      if rx != null {
        n := rx.Size();
        n := rx.Drop(n);
      }
      model := GiveUp(model);
    }

    // ---- a session -----------------------------------------------------------------

    /** Flushes end on a steady clock, or without a timeout. */
    ghost predicate CanFlush(c: Call) {
      c.FlushCall? && c.timeoutMs > 0 ==> Steady(Setup(role, link, true, c.timeoutTicks, c.retryDelay))
    }

    /** Any one call is an operation of the abstract stream. */
    method Perform(c: Call) returns (ghost op: TxOp)
      requires Valid() && CanFlush(c)
      modifies `model, `calls, `sends, `taken, `now, `queries, tx, tx.buf, rx
      ensures Valid() && LegalOp(role, link, old(model), op) && model == TxStep(tx.capacity, role, link, old(model), op)
    {
      match c
      case WriteCall(data) =>
        var n := Write(data);
        op := WriteOp(data);
      case SendCall =>
        var retry := Send();
        op := SendOp;
      case FlushCall(timeoutMs, timeoutTicks, retryDelay) =>
        op := FlushOpOf(timeoutMs, timeoutTicks, retryDelay);
        Flush(timeoutMs, timeoutTicks, retryDelay, op);
    }

    lemma FlushOpOf(timeoutMs: nat, timeoutTicks: UInt32, retryDelay: UInt32) returns (op: TxOp)
      requires CanFlush(FlushCall(timeoutMs, timeoutTicks, retryDelay))
      ensures op.FlushOp? && op.now == now && op.queries == queries && LegalOp(role, link, model, op)
      ensures SetupOf(role, link, op) == Setup(role, link, timeoutMs > 0, timeoutTicks, retryDelay)
    {
      var s, f := Setup(role, link, timeoutMs > 0, timeoutTicks, retryDelay), FlushStart(link, model, now, queries);
      FlushEnds(s, f);
      var n: nat :| EndsAt(s, f, n);
      op := FlushOp(timeoutMs > 0, timeoutTicks, retryDelay, now, queries, n);
    }

    /**
     * So is any sequence of calls a run of it; and of all the bytes `write` accepted, the stack
     * was handed exactly those that are neither buffered nor dropped by a flush that gave up.
     */
    method PerformAll(cs: seq<Call>) returns (ghost ops: seq<TxOp>)
      requires Valid() && model == Tx([], [], [], 0, 0) && forall i :: 0 <= i < |cs| ==> CanFlush(cs[i])
      modifies `model, `calls, `sends, `taken, `now, `queries, tx, tx.buf, rx
      ensures Valid() && LegalRun(tx.capacity, role, link, old(model), ops) && model == TxRun(tx.capacity, role, link, old(model), ops)
      ensures taken == Handed(model.fates) && LostIn(model.fates) == DroppedIn(tx.capacity, role, link, old(model), ops)
      ensures DroppedIn(tx.capacity, role, link, old(model), ops) == [] ==> model.accepted == taken + model.buffered
    {
      ghost var first := model;
      ops := [];
      var i := 0;
      while i < |cs|
        invariant 0 <= i <= |cs| && Valid()
        invariant LegalRun(tx.capacity, role, link, first, ops) && model == TxRun(tx.capacity, role, link, first, ops)
      {
        ghost var t := model;
        ghost var op := Perform(cs[i]);
        RunAppend(tx.capacity, role, link, first, ops, op);
        ops, i := ops + [op], i + 1;
      }
      TxConservation(tx.capacity, role, link, first, ops);
    }
  }
}
