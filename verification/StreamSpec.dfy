/** What a BLE stream does to the bytes that pass through it, on values. */
module StreamSpec {
  import opened Base
  import opened RingBuffer

  // ---- receiving ---------------------------------------------------------------

  /** The verdict of the user's overflow callback (no callback means DropNew). */
  datatype Overflow = DropOlder | DropNew

  /** The three overflow branches of `pushRx`, in one formula. */
  function Pushed(cap: nat, buf: seq<Byte>, data: seq<Byte>, action: Overflow): (r: seq<Byte>)
    requires |buf| <= cap
    ensures |r| <= cap
  {
    if |buf| + |data| <= cap then buf + data
    else if action.DropNew? then buf
    else LastN(buf + data, cap)
  }

  datatype RxOp = Push(data: seq<Byte>, action: Overflow) | Take(len: nat)

  /** A history: pushes from the peer with the callback's verdict, reads by the application. */
  function RxRun(cap: nat, buf: seq<Byte>, ops: seq<RxOp>): (r: seq<Byte>)
    requires |buf| <= cap
    ensures |r| <= cap
    decreases |ops|
  {
    if ops == [] then buf
    else match ops[0]
      case Push(data, action) => RxRun(cap, Pushed(cap, buf, data, action), ops[1..])
      case Take(len) => RxRun(cap, buf[Min(len, |buf|)..], ops[1..])
  }

  function Received(ops: seq<RxOp>): seq<Byte> {
    if ops == [] then []
    else match ops[0]
      case Push(data, _) => data + Received(ops[1..])
      case Take(_) => Received(ops[1..])
  }

  ghost predicate IsSuffix(a: seq<Byte>, b: seq<Byte>) {
    |a| <= |b| && a == b[|b| - |a|..]
  }

  lemma SuffixTrans(a: seq<Byte>, b: seq<Byte>, c: seq<Byte>)
    requires IsSuffix(a, b) && IsSuffix(b, c)
    ensures IsSuffix(a, c)
  {}

  ghost predicate Verdict(ops: seq<RxOp>, action: Overflow) {
    forall i :: 0 <= i < |ops| && ops[i].Push? ==> ops[i].action == action
  }

  lemma VerdictTail(ops: seq<RxOp>, action: Overflow)
    requires ops != [] && Verdict(ops, action)
    ensures Verdict(ops[1..], action) && (ops[0].Push? ==> ops[0].action == action)
  {
    forall i | 0 <= i < |ops[1..]| && ops[1..][i].Push? ensures ops[1..][i].action == action { assert ops[1..][i] == ops[i + 1]; }
  }

  /** Whatever is read in between, the buffer holds a suffix of all that was ever received. */
  lemma {:induction false} RxKeepsNewest(cap: nat, buf: seq<Byte>, ops: seq<RxOp>)
    requires |buf| <= cap && Verdict(ops, DropOlder)
    ensures IsSuffix(RxRun(cap, buf, ops), buf + Received(ops))
    decreases |ops|
  {
    if ops == [] {
      assert buf + [] == buf;
    } else {
      VerdictTail(ops, DropOlder);
      match ops[0]
      case Push(data, _) =>
        var b := Pushed(cap, buf, data, DropOlder);
        var rest := Received(ops[1..]);
        RxKeepsNewest(cap, b, ops[1..]);
        assert IsSuffix(b, buf + data);
        assert IsSuffix(b + rest, (buf + data) + rest);
        assert (buf + data) + rest == buf + (data + rest);
        SuffixTrans(RxRun(cap, b, ops[1..]), b + rest, buf + Received(ops));
      case Take(len) =>
        var b := buf[Min(len, |buf|)..];
        var rest := Received(ops[1..]);
        RxKeepsNewest(cap, b, ops[1..]);
        assert IsSuffix(b + rest, buf + rest);
        SuffixTrans(RxRun(cap, b, ops[1..]), b + rest, buf + rest);
    }
  }

  ghost predicate OlderPushes(ops: seq<RxOp>) {
    forall i :: 0 <= i < |ops| ==> ops[i].Push? && ops[i].action == DropOlder
  }

  lemma PushThenRest(buf: seq<Byte>, data: seq<Byte>, rest: seq<Byte>, cap: nat)
    requires |buf| <= cap
    ensures var b, all := Pushed(cap, buf, data, DropOlder), buf + (data + rest);
            LastN(b + rest, Min(cap, |b + rest|)) == LastN(all, Min(cap, |all|))
  {
    assert (buf + data) + rest == buf + (data + rest);
  }

  /** With nobody reading it is exactly the last min(capacity, total) bytes. */
  lemma {:induction false} RxIsLastBytes(cap: nat, buf: seq<Byte>, ops: seq<RxOp>)
    requires |buf| <= cap && OlderPushes(ops)
    ensures RxRun(cap, buf, ops) == LastN(buf + Received(ops), Min(cap, |buf + Received(ops)|))
    decreases |ops|
  {
    if ops == [] {
      assert buf + [] == buf;
    } else {
      var data, rest := ops[0].data, ops[1..];
      forall i | 0 <= i < |rest| ensures rest[i].Push? && rest[i].action == DropOlder { assert rest[i] == ops[i + 1]; }
      RxIsLastBytes(cap, Pushed(cap, buf, data, DropOlder), rest);
      PushThenRest(buf, data, Received(rest), cap);
    }
  }

  /** The pushes that found room for all of their data, end to end. */
  function Fitting(cap: nat, buf: seq<Byte>, ops: seq<RxOp>): seq<Byte>
    requires |buf| <= cap
    decreases |ops|
  {
    if ops == [] then []
    else match ops[0]
      case Push(data, action) =>
        (if |buf| + |data| <= cap then data else []) + Fitting(cap, Pushed(cap, buf, data, action), ops[1..])
      case Take(len) => Fitting(cap, buf[Min(len, |buf|)..], ops[1..])
  }

  /** What the application read. */
  function Taken(cap: nat, buf: seq<Byte>, ops: seq<RxOp>): seq<Byte>
    requires |buf| <= cap
    decreases |ops|
  {
    if ops == [] then []
    else match ops[0]
      case Push(data, action) => Taken(cap, Pushed(cap, buf, data, action), ops[1..])
      case Take(len) => buf[..Min(len, |buf|)] + Taken(cap, buf[Min(len, |buf|)..], ops[1..])
  }

  /**
   * Under DROP_NEW_DATA a push that does not fit leaves no trace and one that fits loses
   * nothing: what was read, then what is buffered, is what fitted, in order.
   */
  lemma {:induction false} RxKeepsOldest(cap: nat, buf: seq<Byte>, ops: seq<RxOp>)
    requires |buf| <= cap && Verdict(ops, DropNew)
    ensures Taken(cap, buf, ops) + RxRun(cap, buf, ops) == buf + Fitting(cap, buf, ops)
    decreases |ops|
  {
    if ops == [] {
      assert buf + [] == buf == [] + buf;
    } else {
      VerdictTail(ops, DropNew);
      match ops[0]
      case Push(data, _) =>
        var b := Pushed(cap, buf, data, DropNew);
        RxKeepsOldest(cap, b, ops[1..]);
        Assoc(buf, if |buf| + |data| <= cap then data else [], Fitting(cap, b, ops[1..]));
        assert buf + [] == buf;
      case Take(len) =>
        var n := Min(len, |buf|);
        RxKeepsOldest(cap, buf[n..], ops[1..]);
        Assoc(buf[..n], Taken(cap, buf[n..], ops[1..]), RxRun(cap, buf[n..], ops[1..]));
        Assoc(buf[..n], buf[n..], Fitting(cap, buf[n..], ops[1..]));
        assert buf[..n] + buf[n..] == buf;
    }
  }

  // ---- sending -----------------------------------------------------------------

  /** Which end of the link: a server notifies, a client writes without response. */
  datatype Role = Server | Client

  /** One notify or write: its result, the status code left behind, and free mbufs. */
  datatype Outcome = Outcome(ok: bool, rc: int, freeBlocks: nat)

  /** The stack below, indexed by attempt: chunk outcomes, connection, MTU, clock steps. */
  datatype Link = Link(outcome: nat -> Outcome, ready: nat -> bool, mtu: nat -> nat, tick: nat -> nat)

  const ENOMEM := 6
  const CHUNK: nat := 255   // sizeof(m_txChunkBuf)

  /** What became of an accepted byte that has left the buffer. */
  datatype Fate = Delivered(b: Byte) | Lost(b: Byte)

  datatype Tx = Tx(buffered: seq<Byte>, accepted: seq<Byte>, fates: seq<Fate>, calls: nat, sends: nat)

  function Deliver(s: seq<Byte>): (r: seq<Fate>) {
    seq(|s|, i requires 0 <= i < |s| => Delivered(s[i]))
  }

  function Lose(s: seq<Byte>): (r: seq<Fate>) {
    seq(|s|, i requires 0 <= i < |s| => Lost(s[i]))
  }

  function Bytes(f: seq<Fate>): (r: seq<Byte>)
    ensures |r| == |f|
  {
    seq(|f|, i requires 0 <= i < |f| => f[i].b)
  }

  /** The bytes the stack took, in order. */
  function Handed(f: seq<Fate>): seq<Byte> {
    if f == [] then []
    else if f[|f| - 1].Delivered? then Handed(f[..|f| - 1]) + [f[|f| - 1].b]
    else Handed(f[..|f| - 1])
  }

  predicate Busy(role: Role, o: Outcome) {
    o.freeBlocks <= 2 || (role.Server? && o.rc == ENOMEM)
  }

  function Accept(cap: nat, t: Tx, data: seq<Byte>): Tx
    requires |t.buffered| <= cap
  {
    var n := Min(|data|, cap - |t.buffered|);
    t.(buffered := t.buffered + data[..n], accepted := t.accepted + data[..n])
  }

  /** The chunk loop of `send`; the flag asks for a retry. */
  function SendChunks(role: Role, link: Link, maxLen: nat, t: Tx): (r: (Tx, bool))
    requires maxLen > 0
    ensures |r.0.buffered| <= |t.buffered|
    decreases |t.buffered|
  {
    if t.buffered == [] then (t, false)
    else
      var n := Min(maxLen, |t.buffered|);
      var o := link.outcome(t.calls);
      if !o.ok then (t.(calls := t.calls + 1), Busy(role, o))
      else SendChunks(role, link, maxLen,
                      t.(buffered := t.buffered[n..], fates := t.fates + Deliver(t.buffered[..n]), calls := t.calls + 1))
  }

  function SendAll(role: Role, link: Link, t: Tx): (r: (Tx, bool))
    ensures |r.0.buffered| <= |t.buffered|
  {
    var t1 := t.(sends := t.sends + 1);
    var mtu := link.mtu(t.sends);
    if !link.ready(t.sends) || mtu < 23 then (t1, false)
    else SendChunks(role, link, Min(mtu - 3, CHUNK), t1)
  }

  /** The first `n` of these attempts succeed. */
  ghost predicate Takes(link: Link, from: nat, n: nat) {
    forall i: nat :: from <= i < from + n ==> link.outcome(i).ok
  }

  /** The buffered bytes up to `n` have left it as delivered, in so many attempts. */
  ghost predicate Moved(t: Tx, r: Tx, n: nat, calls: nat) {
    && n <= |t.buffered| && r.buffered == t.buffered[n..] && r.fates == t.fates + Deliver(t.buffered[..n])
    && r.calls == t.calls + calls && r.accepted == t.accepted && r.sends == t.sends
  }

  lemma DeliverSplit(f: seq<Fate>, s: seq<Byte>, k: nat, n: nat)
    requires k <= n <= |s|
    ensures f + Deliver(s[..k]) + Deliver(s[k..][..n - k]) == f + Deliver(s[..n])
    ensures s[k..][n - k..] == s[n..]
  {
    assert Deliver(s[..k]) + Deliver(s[k..][..n - k]) == Deliver(s[..n]);
    Assoc(f, Deliver(s[..k]), Deliver(s[k..][..n - k]));
  }

  /**
   * If the stack takes k chunks and refuses the next, exactly their bytes leave the buffer,
   * and the caller is asked to retry if free mbufs are down to 2 or, on a server, the code is 6.
   */
  lemma {:induction false} SendStops(role: Role, link: Link, maxLen: nat, t: Tx, k: nat)
    requires maxLen > 0 && Takes(link, t.calls, k) && !link.outcome(t.calls + k).ok && k * maxLen < |t.buffered|
    ensures var (r, retry) := SendChunks(role, link, maxLen, t);
            && Moved(t, r, k * maxLen, k + 1)
            && (retry <==> link.outcome(t.calls + k).freeBlocks <= 2 || (role == Server && link.outcome(t.calls + k).rc == 6))
    decreases k
  {
    if k == 0 {
      assert t.fates + Deliver(t.buffered[..0]) == t.fates;
    } else {
      Product(k - 1, maxLen);
      assert link.outcome(t.calls).ok;
      var t1 := AfterChunk(t, maxLen);
      SendStops(role, link, maxLen, t1, k - 1);
      MovedOn(t, SendChunks(role, link, maxLen, t1).0, maxLen, (k - 1) * maxLen, k);
    }
  }

  function AfterChunk(t: Tx, n: nat): Tx
    requires n <= |t.buffered|
  {
    t.(buffered := t.buffered[n..], fates := t.fates + Deliver(t.buffered[..n]), calls := t.calls + 1)
  }

  lemma MovedOn(t: Tx, r: Tx, n: nat, m: nat, calls: nat)
    requires n <= |t.buffered| && Moved(AfterChunk(t, n), r, m, calls)
    ensures Moved(t, r, n + m, calls + 1)
  {
    DeliverSplit(t.fates, t.buffered, n, n + m);
  }

  /** If it takes as many chunks as there are, the buffer is empty and all of it delivered. */
  lemma {:induction false} SendFinishes(role: Role, link: Link, maxLen: nat, t: Tx, k: nat)
    requires maxLen > 0 && Takes(link, t.calls, k) && |t.buffered| <= k * maxLen < |t.buffered| + maxLen
    ensures var (r, retry) := SendChunks(role, link, maxLen, t);
            Moved(t, r, |t.buffered|, k) && r.buffered == [] && !retry
    decreases k
  {
    if k == 0 {
      assert t.fates + Deliver(t.buffered[..0]) == t.fates;
    } else {
      Product(k - 1, maxLen);
      assert link.outcome(t.calls).ok;
      var n := Min(maxLen, |t.buffered|);
      var t1 := AfterChunk(t, n);
      SendFinishes(role, link, maxLen, t1, k - 1);
      MovedOn(t, SendChunks(role, link, maxLen, t1).0, n, |t1.buffered|, k - 1);
    }
  }

  /** The chunks up to the first one refused, or all there are. */
  lemma {:induction false} ChunksTaken(link: Link, maxLen: nat, from: nat, size: nat) returns (k: nat)
    requires maxLen > 0
    ensures Takes(link, from, k) && k * maxLen < size + maxLen
    ensures size <= k * maxLen || !link.outcome(from + k).ok
    decreases size
  {
    k := 0;
    if size > 0 && link.outcome(from).ok {
      var l := ChunksTaken(link, maxLen, from + 1, Max(size - maxLen, 0));
      k := l + 1;
      Product(l, maxLen);
    }
  }

  /** The stack took k chunks, and that was all there was, or it refused the next one. */
  ghost predicate SentUpTo(role: Role, link: Link, maxLen: nat, t: Tx, r: Tx, retry: bool, k: nat) {
    && Takes(link, t.calls, k)
    && if |t.buffered| <= k * maxLen then Moved(t, r, |t.buffered|, k) && !retry
       else && Moved(t, r, k * maxLen, k + 1) && !link.outcome(t.calls + k).ok
            && (retry <==> link.outcome(t.calls + k).freeBlocks <= 2 || (role == Server && link.outcome(t.calls + k).rc == 6))
  }

  lemma ChunksExactly(role: Role, link: Link, maxLen: nat, t: Tx) returns (k: nat)
    requires maxLen > 0
    ensures var (r, retry) := SendChunks(role, link, maxLen, t); SentUpTo(role, link, maxLen, t, r, retry, k)
  {
    k := ChunksTaken(link, maxLen, t.calls, |t.buffered|);
    if |t.buffered| <= k * maxLen {
      SendFinishes(role, link, maxLen, t, k);
    } else {
      SendStops(role, link, maxLen, t, k);
    }
  }

  /**
   * One `send` in full: without a peer, or with an MTU below 23, nothing happens; else the
   * stack is handed chunks of min(MTU - 3, 255) bytes until it refuses one or there are no more.
   */
  lemma SendAllExactly(role: Role, link: Link, t: Tx) returns (k: nat)
    ensures var (r, retry) := SendAll(role, link, t);
            if !link.ready(t.sends) || link.mtu(t.sends) < 23 then r == t.(sends := t.sends + 1) && !retry
            else SentUpTo(role, link, Min(link.mtu(t.sends) - 3, 255), t.(sends := t.sends + 1), r, retry, k)
  {
    k := 0;
    if link.ready(t.sends) && link.mtu(t.sends) >= 23 {
      k := ChunksExactly(role, link, Min(link.mtu(t.sends) - 3, 255), t.(sends := t.sends + 1));
    }
  }

  /** With a peer there, an MTU of at least 23 and a stack that takes everything, `send` delivers all that is buffered. */
  lemma SendDelivers(role: Role, link: Link, t: Tx)
    requires link.ready(t.sends) && link.mtu(t.sends) >= 23 && forall i: nat :: i >= t.calls ==> link.outcome(i).ok
    ensures var (r, retry) := SendAll(role, link, t);
            r.buffered == [] && !retry && r.fates == t.fates + Deliver(t.buffered)
  {
    var maxLen, t1 := Min(link.mtu(t.sends) - 3, 255), t.(sends := t.sends + 1);
    var k := ChunksExactly(role, link, maxLen, t1);
    assert link.outcome(t.calls + k).ok;
    assert t.buffered[..|t.buffered|] == t.buffered;
  }

  function GiveUp(t: Tx): Tx {
    t.(buffered := [], fates := t.fates + Lose(t.buffered))
  }

  /** `write`: a server refuses empty writes, and all of them while nobody is subscribed. */
  function Written(cap: nat, role: Role, link: Link, t: Tx, data: seq<Byte>): (r: Tx)
    requires |t.buffered| <= cap
    ensures |r.buffered| <= cap
  {
    var t1 := t.(sends := t.sends + 1);
    if role.Server? && (data == [] || !link.ready(t.sends)) then t1 else Accept(cap, t1, data)
  }

  /** A write the server refuses leaves no trace; any other fills the buffer as far as the data goes. */
  lemma WriteFills(cap: nat, role: Role, link: Link, t: Tx, data: seq<Byte>)
    requires |t.buffered| <= cap
    ensures var r := Written(cap, role, link, t, data);
            var n := if role == Server && (data == [] || !link.ready(t.sends)) then 0 else Min(|data|, cap - |t.buffered|);
            && r.accepted == t.accepted + data[..n] && r.buffered == t.buffered + data[..n] && r.fates == t.fates
            && (n < |data| ==> |r.buffered| == cap || (role == Server && !link.ready(t.sends)))
  {
    assert t.accepted + data[..0] == t.accepted && t.buffered + data[..0] == t.buffered;
  }

  /** Every accepted byte has met exactly one fate or is still buffered, in order. */
  ghost predicate Conserved(t: Tx) {
    t.accepted == Bytes(t.fates) + t.buffered
  }

  /** The bytes that were dropped, in order. */
  function LostIn(f: seq<Fate>): seq<Byte> {
    if f == [] then []
    else if f[|f| - 1].Lost? then LostIn(f[..|f| - 1]) + [f[|f| - 1].b]
    else LostIn(f[..|f| - 1])
  }

  lemma {:induction false} DeliverAdds(f: seq<Fate>, s: seq<Byte>)
    ensures Bytes(f + Deliver(s)) == Bytes(f) + s
    ensures Handed(f + Deliver(s)) == Handed(f) + s && LostIn(f + Deliver(s)) == LostIn(f)
  {
    if s == [] {
      assert f + Deliver(s) == f;
    } else {
      var n := |s| - 1;
      var front := f + Deliver(s[..n]);
      DeliverAdds(f, s[..n]);
      assert f + Deliver(s) == front + [Delivered(s[n])];
      assert (front + [Delivered(s[n])])[..|front|] == front;
      assert s == s[..n] + [s[n]];
    }
  }

  lemma {:induction false} LoseAdds(f: seq<Fate>, s: seq<Byte>)
    ensures Bytes(f + Lose(s)) == Bytes(f) + s
    ensures Handed(f + Lose(s)) == Handed(f) && LostIn(f + Lose(s)) == LostIn(f) + s
  {
    if s == [] {
      assert f + Lose(s) == f;
    } else {
      var n := |s| - 1;
      var front := f + Lose(s[..n]);
      LoseAdds(f, s[..n]);
      assert f + Lose(s) == front + [Lost(s[n])];
      assert (front + [Lost(s[n])])[..|front|] == front;
      assert s == s[..n] + [s[n]];
    }
  }

  /** What `send` keeps: the accepted bytes, that they are accounted for, and what was lost. */
  ghost predicate Keeps(t: Tx, r: Tx) {
    Conserved(r) && r.accepted == t.accepted && LostIn(r.fates) == LostIn(t.fates)
  }

  lemma DeliverKeeps(t: Tx, chunk: seq<Byte>)
    requires Conserved(t) && chunk <= t.buffered
    ensures var r := t.(buffered := t.buffered[|chunk|..], fates := t.fates + Deliver(chunk));
            Conserved(r) && Handed(r.fates) == Handed(t.fates) + chunk
  {
    DeliverAdds(t.fates, chunk);
    assert t.buffered == chunk + t.buffered[|chunk|..];
  }

  lemma {:induction false} SendConserves(role: Role, link: Link, maxLen: nat, t: Tx)
    requires maxLen > 0 && Conserved(t)
    ensures Keeps(t, SendChunks(role, link, maxLen, t).0)
    decreases |t.buffered|
  {
    if t.buffered != [] && link.outcome(t.calls).ok {
      var n := Min(maxLen, |t.buffered|);
      var t1 := t.(buffered := t.buffered[n..], fates := t.fates + Deliver(t.buffered[..n]), calls := t.calls + 1);
      DeliverAdds(t.fates, t.buffered[..n]);
      assert t.buffered == t.buffered[..n] + t.buffered[n..];
      SendConserves(role, link, maxLen, t1);
    }
  }

  lemma SendAllConserves(role: Role, link: Link, t: Tx)
    requires Conserved(t)
    ensures Keeps(t, SendAll(role, link, t).0)
  {
    var mtu := link.mtu(t.sends);
    if mtu >= 23 { SendConserves(role, link, Min(mtu - 3, CHUNK), t.(sends := t.sends + 1)); }
  }

  lemma {:induction false} NoneLost(f: seq<Fate>)
    ensures LostIn(f) == [] ==> Handed(f) == Bytes(f)
    decreases |f|
  {
    if f != [] {
      NoneLost(f[..|f| - 1]);
      assert Bytes(f) == Bytes(f[..|f| - 1]) + [f[|f| - 1].b];
    }
  }
}
