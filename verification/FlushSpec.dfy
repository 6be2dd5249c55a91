/**
 * `flush` as passes of its loop: when it ends, when it gives up, and what a run of
 * writes, sends and flushes makes of the bytes that were accepted.
 */
module FlushSpec {
  import opened Base
  import opened StreamSpec

  /** What a call of `flush` works with; `timed` is a timeout above 0, the rest is in ticks. */
  datatype Setup = Setup(role: Role, link: Link, timed: bool, timeout: UInt32, delay: UInt32)

  /** The state in front of a pass: the clock, how often it was asked, and when the wait began. */
  datatype Flushing = Flushing(tx: Tx, now: nat, queries: nat, start: nat)

  datatype Pass = Again(next: Flushing) | Emptied(last: Flushing) | GivenUp(last: Flushing)

  /** The wrapped clock still shows less than the timeout. */
  predicate InTime(s: Setup, now: nat, start: nat) { Elapsed(now, start) < s.timeout }

  /** One pass: send; then progress restarts the wait, and a stack that is busy is waited for while in time. */
  function PassOf(s: Setup, f: Flushing): (p: Pass)
    ensures p.Emptied? ==> p.last.tx.buffered == []
    ensures p.GivenUp? ==> p.last.tx.buffered != []
  {
    var (t, retry) := SendAll(s.role, s.link, f.tx);
    var now := f.now + s.link.tick(f.queries);
    if t.buffered == [] then Emptied(f.(tx := t))
    else if |t.buffered| < |f.tx.buffered| then Again(Flushing(t, now, f.queries + 1, now))
    else if !retry || !s.timed then GivenUp(f.(tx := t))
    else if InTime(s, now, f.start) then
      Again(Flushing(t, now + s.delay + s.link.tick(f.queries + 1), f.queries + 2, f.start))
    else GivenUp(Flushing(t, now, f.queries + 1, f.start))
  }

  /** The state in front of pass n, if the loop gets there. */
  function Before(s: Setup, f: Flushing, n: nat): Option<Flushing>
    decreases n
  {
    if n == 0 then Some(f)
    else
      match PassOf(s, f)
      case Again(g) => Before(s, g, n - 1)
      case _ => None
  }

  /** Pass n is reached and is the last. */
  predicate EndsAt(s: Setup, f: Flushing, n: nat) {
    Before(s, f, n).Some? && !PassOf(s, Before(s, f, n).value).Again?
  }

  function Last(s: Setup, f: Flushing, n: nat): (r: Pass)
    requires EndsAt(s, f, n)
    ensures !r.Again?
    ensures r.Emptied? <==> r.last.tx.buffered == []
  {
    PassOf(s, Before(s, f, n).value)
  }

  /** What the last pass leaves: an empty buffer, if need be by dropping what is in it. */
  function Ended(p: Pass): (t: Tx)
    requires !p.Again?
    ensures p.GivenUp? || p.last.tx.buffered == [] ==> t.buffered == []
  {
    if p.GivenUp? then GiveUp(p.last.tx) else p.last.tx
  }

  lemma LastStep(s: Setup, f: Flushing, n: nat)
    requires EndsAt(s, f, n)
    ensures PassOf(s, f).Again? ==>
              n > 0 && EndsAt(s, PassOf(s, f).next, n - 1) && Last(s, f, n) == Last(s, PassOf(s, f).next, n - 1)
    ensures !PassOf(s, f).Again? ==> Last(s, f, n) == PassOf(s, f)
  {}

  lemma {:induction false} EndsOnce(s: Setup, f: Flushing, m: nat, n: nat)
    requires EndsAt(s, f, m) && EndsAt(s, f, n)
    ensures m == n
    decreases m
  {
    if m > 0 && n > 0 { EndsOnce(s, PassOf(s, f).next, m - 1, n - 1); }
  }

  // ---- what a flush does to the bytes --------------------------------------------------

  lemma PassKeeps(s: Setup, f: Flushing)
    requires Conserved(f.tx)
    ensures var p := PassOf(s, f); Keeps(f.tx, if p.Again? then p.next.tx else p.last.tx)
  {
    SendAllConserves(s.role, s.link, f.tx);
  }

  /** Up to the end of the loop nothing is lost. */
  lemma {:induction false} LastKeeps(s: Setup, f: Flushing, n: nat)
    requires Conserved(f.tx) && EndsAt(s, f, n)
    ensures Keeps(f.tx, Last(s, f, n).last.tx)
    decreases n
  {
    PassKeeps(s, f);
    if n > 0 { LastKeeps(s, PassOf(s, f).next, n - 1); }
  }

  /** A flush gives up in a pass that sends nothing, when the stack is not just busy, or no time is given, or it is over. */
  lemma GivesUpExactly(s: Setup, f: Flushing)
    ensures var (t, retry) := SendAll(s.role, s.link, f.tx);
            PassOf(s, f).GivenUp? <==>
              t.buffered != [] && |t.buffered| == |f.tx.buffered|
              && !(retry && s.timed && InTime(s, f.now + s.link.tick(f.queries), f.start))
  {}

  /** With a peer there, an MTU of at least 23 and a stack that takes everything, the first pass delivers all of it. */
  lemma FlushDelivers(s: Setup, f: Flushing)
    requires s.link.ready(f.tx.sends) && s.link.mtu(f.tx.sends) >= 23
    requires forall i: nat :: i >= f.tx.calls ==> s.link.outcome(i).ok
    ensures EndsAt(s, f, 0) && Last(s, f, 0).Emptied? && Last(s, f, 0).last.tx.fates == f.tx.fates + Deliver(f.tx.buffered)
  {
    SendDelivers(s.role, s.link, f.tx);
  }

  /** A pass that sends something, but not all, restarts the wait; one that sends nothing and goes on has slept and has not. */
  lemma WaitRestarts(s: Setup, f: Flushing)
    requires PassOf(s, f).Again?
    ensures var g, now := PassOf(s, f).next, f.now + s.link.tick(f.queries);
            if |g.tx.buffered| < |f.tx.buffered| then g.start == now == g.now
            else g.start == f.start && g.now == now + s.delay + s.link.tick(f.queries + 1)
  {}

  // ---- when a flush ends -----------------------------------------------------------------

  /**
   * One pass reads the clock once and sleeps once at most.  On such a clock it cannot
   * skip the window between the timeout and the wrap of the tick counter.
   */
  ghost predicate Steady(s: Setup) {
    s.delay >= 1 && forall k: nat :: s.delay + s.link.tick(k) + s.link.tick(k + 1) + s.timeout <= WRAP
  }

  /** `left` counts down the wait: timeout + 1 before the first sleep, then what remains. */
  ghost predicate Waiting(s: Setup, f: Flushing, left: int) {
    && 1 <= left <= s.timeout + 1 && f.start <= f.now
    && (left == s.timeout + 1 ==> f.now == f.start)
    && (left <= s.timeout ==> f.queries > 0 && f.now == f.start + (s.timeout - left) + s.delay + s.link.tick(f.queries - 1))
  }

  /** A pass that sleeps leaves less to wait. */
  lemma WaitShrinks(s: Setup, f: Flushing, left: int) returns (left': int)
    requires Steady(s) && Waiting(s, f, left) && PassOf(s, f).Again?
    requires |PassOf(s, f).next.tx.buffered| == |f.tx.buffered|
    ensures left' < left && Waiting(s, PassOf(s, f).next, left')
  {
    var q := f.queries;
    var now := f.now + s.link.tick(q);
    assert s.delay + s.link.tick(q) + s.link.tick(q + 1) + s.timeout <= WRAP;
    if left <= s.timeout {
      assert s.delay + s.link.tick(q - 1) + s.link.tick(q - 1 + 1) + s.timeout <= WRAP;
    }
    ElapsedExact(now, f.start);
    assert now - f.start < WRAP;
    left' := s.timeout - (now - f.start);
  }

  /** Bytes buffered, then what is left of the wait: the flush ends, whatever the stack answers. */
  lemma {:induction false} EndsFrom(s: Setup, f: Flushing, left: int) returns (n: nat)
    requires s.timed ==> Steady(s) && Waiting(s, f, left)
    ensures EndsAt(s, f, n)
    decreases |f.tx.buffered|, left
  {
    match PassOf(s, f)
    case Again(g) =>
      var l := s.timeout + 1;
      if |g.tx.buffered| == |f.tx.buffered| { l := WaitShrinks(s, f, left); }
      var m := EndsFrom(s, g, l);
      n := m + 1;
    case _ => n := 0;
  }

  /** On a steady clock, or without a timeout, every flush ends. */
  lemma FlushEnds(s: Setup, f: Flushing)
    requires (s.timed ==> Steady(s)) && f.now == f.start
    ensures exists n :: EndsAt(s, f, n)
  {
    var n := EndsFrom(s, f, s.timeout + 1);
  }

  /** A stack that is there, takes nothing and stays short of buffers. */
  ghost predicate StaysBusy(link: Link) {
    forall k: nat :: link.ready(k) && link.mtu(k) >= 23 && !link.outcome(k).ok && link.outcome(k).freeBlocks <= 2
  }

  /** What pass n reads off the clock if all passes before it slept. */
  function Reading(s: Setup, now: nat, queries: nat, n: nat): nat
    decreases n
  {
    if n == 0 then now + s.link.tick(queries)
    else Reading(s, now + s.link.tick(queries) + s.delay + s.link.tick(queries + 1), queries + 2, n - 1)
  }

  lemma BusyPass(s: Setup, f: Flushing)
    requires StaysBusy(s.link) && s.timed && f.tx.buffered != []
    ensures var now, p := f.now + s.link.tick(f.queries), PassOf(s, f);
            && (p.Again? <==> InTime(s, now, f.start))
            && (p.Again? ==> p.next.now == now + s.delay + s.link.tick(f.queries + 1) && p.next.queries == f.queries + 2
                             && p.next.start == f.start && p.next.tx.buffered == f.tx.buffered)
  {
    var mtu := s.link.mtu(f.tx.sends);
    assert s.link.ready(f.tx.sends) && mtu >= 23;
    assert !s.link.outcome(f.tx.calls).ok;
  }

  predicate ReadsInTime(s: Setup, f: Flushing, k: nat) { InTime(s, Reading(s, f.now, f.queries, k), f.start) }

  /** With such a stack pass n is reached if and only if each pass before it read the clock in time. */
  lemma {:induction false} BusyExactly(s: Setup, f: Flushing, n: nat)
    requires StaysBusy(s.link) && s.timed && f.tx.buffered != []
    ensures Before(s, f, n).Some? <==> forall k: nat :: k < n ==> ReadsInTime(s, f, k)
    decreases n
  {
    if n > 0 {
      BusyPass(s, f);
      assert PassOf(s, f).Again? <==> ReadsInTime(s, f, 0);
      if PassOf(s, f).Again? {
        var g := PassOf(s, f).next;
        BusyExactly(s, g, n - 1);
        forall k: nat | k < n && k > 0 ensures ReadsInTime(s, f, k) <==> ReadsInTime(s, g, k - 1) {}
        assert forall k: nat :: k < n - 1 ==> (ReadsInTime(s, g, k) <==> ReadsInTime(s, f, k + 1));
      }
    }
  }

  /** So the flush ends if and only if some pass reads the clock at the timeout or behind it. */
  lemma BusyEnds(s: Setup, f: Flushing)
    requires StaysBusy(s.link) && s.timed && f.tx.buffered != []
    ensures (exists n :: EndsAt(s, f, n)) <==> exists k: nat :: !ReadsInTime(s, f, k)
  {
    if n: nat :| EndsAt(s, f, n) {
      BeforeNext(s, f, n);
      BusyExactly(s, f, n + 1);
    }
    if k: nat :| !ReadsInTime(s, f, k) {
      BusyExactly(s, f, k + 1);
      var n := EndsBelow(s, f, k + 1);
    }
  }

  lemma {:induction false} BeforeNext(s: Setup, f: Flushing, n: nat)
    ensures Before(s, f, n + 1).Some? <==> Before(s, f, n).Some? && PassOf(s, Before(s, f, n).value).Again?
    decreases n
  {
    if n > 0 {
      match PassOf(s, f)
      case Again(g) => BeforeNext(s, g, n - 1);
      case _ =>
    }
  }

  lemma {:induction false} EndsBelow(s: Setup, f: Flushing, n: nat) returns (m: nat)
    requires Before(s, f, n).None?
    ensures EndsAt(s, f, m)
    decreases n
  {
    match PassOf(s, f)
    case Again(g) =>
      var l := EndsBelow(s, g, n - 1);
      m := l + 1;
    case _ => m := 0;
  }

  // ---- the clocks on which every flush ends ------------------------------------------------

  /** Wherever a wait begins on this clock, some pass reads the timeout or more. */
  ghost predicate RunsOut(s: Setup) {
    forall now: nat, q: nat :: Late(s, now, q)
  }

  ghost predicate Late(s: Setup, now: nat, q: nat) {
    exists k: nat :: !InTime(s, Reading(s, now, q, k), now)
  }

  ghost predicate Ends(s: Setup, f: Flushing) { exists n :: EndsAt(s, f, n) }

  ghost predicate SameClock(s: Setup, link: Link) { link.tick == s.link.tick }

  /** Bytes buffered, then the number of passes to the late reading. */
  lemma {:induction false} EndsByClock(s: Setup, f: Flushing, k: nat) returns (n: nat)
    requires s.timed && RunsOut(s) && !ReadsInTime(s, f, k)
    ensures EndsAt(s, f, n)
    decreases |f.tx.buffered|, k
  {
    match PassOf(s, f)
    case Again(g) =>
      var l: nat;
      if |g.tx.buffered| < |f.tx.buffered| {
        assert Late(s, g.now, g.queries);
        l :| !InTime(s, Reading(s, g.now, g.queries, l), g.now);
      } else {
        l := k - 1;
      }
      var m := EndsByClock(s, g, l);
      n := m + 1;
    case _ => n := 0;
  }

  lemma EndsOnClock(s: Setup, f: Flushing)
    requires s.timed && RunsOut(s) && f.now == f.start
    ensures Ends(s, f)
  {
    assert Late(s, f.now, f.queries);
    var k: nat :| !InTime(s, Reading(s, f.now, f.queries, k), f.now);
    var n := EndsByClock(s, f, k);
  }

  /** The link with the same clock that is there and never takes anything. */
  function BusyLink(tick: nat -> nat): Link {
    Link(_ => Outcome(false, 0, 0), _ => true, _ => 23, tick)
  }

  lemma {:induction false} SameReading(s: Setup, link: Link, now: nat, q: nat, k: nat)
    requires link.tick == s.link.tick
    ensures Reading(s.(link := link), now, q, k) == Reading(s, now, q, k)
    decreases k
  {
    if k > 0 { SameReading(s, link, now + s.link.tick(q) + s.delay + s.link.tick(q + 1), q + 2, k - 1); }
  }

  lemma {:induction false} SameClockRunsOut(s: Setup, link: Link)
    requires SameClock(s, link) && RunsOut(s)
    ensures RunsOut(s.(link := link))
  {
    forall now: nat, q: nat ensures Late(s.(link := link), now, q) {
      assert Late(s, now, q);
      var k: nat :| !InTime(s, Reading(s, now, q, k), now);
      SameReading(s, link, now, q, k);
    }
  }

  /** If a busy stack on this clock is given up on in the end, the clock runs out. */
  lemma BusyRunsOut(s: Setup, now: nat, q: nat)
    requires s.timed && Ends(s.(link := BusyLink(s.link.tick)), Flushing(Tx([0], [0], [], 0, 0), now, q, now))
    ensures Late(s, now, q)
  {
    var t, f := s.(link := BusyLink(s.link.tick)), Flushing(Tx([0], [0], [], 0, 0), now, q, now);
    assert StaysBusy(t.link);
    BusyEnds(t, f);
    var k: nat :| !ReadsInTime(t, f, k);
    SameReading(s, t.link, now, q, k);
  }

  /**
   * A flush with a timeout ends for every stack on this clock if and only if, wherever its
   * wait begins, some pass reads the timeout or more.
   */
  lemma FlushEndsExactly(s: Setup)
    requires s.timed
    ensures (forall link: Link, f: Flushing :: SameClock(s, link) && f.now == f.start ==> Ends(s.(link := link), f)) <==> RunsOut(s)
  {
    if RunsOut(s) {
      forall link: Link, f: Flushing | SameClock(s, link) && f.now == f.start ensures Ends(s.(link := link), f) {
        SameClockRunsOut(s, link);
        EndsOnClock(s.(link := link), f);
      }
    }
    if forall link: Link, f: Flushing :: SameClock(s, link) && f.now == f.start ==> Ends(s.(link := link), f) {
      forall now: nat, q: nat ensures Late(s, now, q) {
        assert SameClock(s, BusyLink(s.link.tick));
        BusyRunsOut(s, now, q);
      }
    }
  }

  /** From the q-th on, readings of the clock take no time and sleeps a full turn of the tick counter. */
  ghost predicate FullTurns(s: Setup, q: nat) {
    forall k: nat :: k >= q ==> s.link.tick(k) == if (k - q) % 2 == 0 then 0 else WRAP - s.delay
  }

  /** On such a clock each pass reads it in time, and a flush to a busy stack never ends. */
  lemma OverrunNeverEnds(s: Setup, f: Flushing)
    requires StaysBusy(s.link) && s.timed && f.tx.buffered != [] && s.timeout > 0 && f.now == f.start
    requires FullTurns(s, f.queries)
    ensures !exists n :: EndsAt(s, f, n)
  {
    forall k: nat ensures ReadsInTime(s, f, k) {
      TurnsRead(s, f.now, f.queries, k);
      ElapsedExact(f.now + k * WRAP, f.start);
      ModShift(0, k);
    }
    BusyEnds(s, f);
  }

  lemma {:induction false} TurnsRead(s: Setup, now: nat, q: nat, n: nat)
    requires FullTurns(s, q)
    ensures Reading(s, now, q, n) == now + n * WRAP
    decreases n
  {
    if n > 0 { TurnsRead(s, now + WRAP, q + 2, n - 1); }
  }

  // ---- whole runs ---------------------------------------------------------------------------

  /** A flush is given with the number of passes it makes. */
  datatype TxOp =
    | WriteOp(data: seq<Byte>)
    | SendOp
    | FlushOp(timed: bool, timeout: UInt32, delay: UInt32, now: nat, queries: nat, passes: nat)

  function SetupOf(role: Role, link: Link, op: TxOp): Setup
    requires op.FlushOp?
  {
    Setup(role, link, op.timed, op.timeout, op.delay)
  }

  /** The loop of `flush` starts with a reading of the clock. */
  function FlushStart(link: Link, t: Tx, now: nat, queries: nat): Flushing {
    var start := now + link.tick(queries);
    Flushing(t, start, queries + 1, start)
  }

  predicate LegalOp(role: Role, link: Link, t: Tx, op: TxOp) {
    op.FlushOp? && t.buffered != [] ==>
      EndsAt(SetupOf(role, link, op), FlushStart(link, t, op.now, op.queries), op.passes)
  }

  /** What a flush ends with: Emptied, or GivenUp with what it drops. */
  function FlushLast(role: Role, link: Link, t: Tx, op: TxOp): (p: Pass)
    requires op.FlushOp? && t.buffered != [] && LegalOp(role, link, t, op)
    ensures !p.Again?
  {
    Last(SetupOf(role, link, op), FlushStart(link, t, op.now, op.queries), op.passes)
  }

  /** The bytes an operation drops. */
  function Dropped(role: Role, link: Link, t: Tx, op: TxOp): seq<Byte>
    requires LegalOp(role, link, t, op)
  {
    if op.FlushOp? && t.buffered != [] && FlushLast(role, link, t, op).GivenUp?
    then FlushLast(role, link, t, op).last.tx.buffered
    else []
  }

  function TxStep(cap: nat, role: Role, link: Link, t: Tx, op: TxOp): (r: Tx)
    requires |t.buffered| <= cap && LegalOp(role, link, t, op)
    ensures |r.buffered| <= cap
  {
    match op
    case WriteOp(data) => Written(cap, role, link, t, data)
    case SendOp => SendAll(role, link, t).0
    case FlushOp(_, _, _, _, _, _) => if t.buffered == [] then t else Ended(FlushLast(role, link, t, op))
  }

  lemma FlushKeeps(cap: nat, role: Role, link: Link, t: Tx, op: TxOp)
    requires op.FlushOp? && |t.buffered| <= cap && LegalOp(role, link, t, op) && Conserved(t)
    ensures var r := TxStep(cap, role, link, t, op);
            Conserved(r) && r.buffered == [] && r.accepted == t.accepted
            && LostIn(r.fates) == LostIn(t.fates) + Dropped(role, link, t, op)
  {
    if t.buffered != [] {
      LastKeeps(SetupOf(role, link, op), FlushStart(link, t, op.now, op.queries), op.passes);
      var last := FlushLast(role, link, t, op).last.tx;
      LoseAdds(last.fates, last.buffered);
    }
  }

  /** No operation loses a byte, but for a flush that gives up, and that loses what it drops; each keeps the account. */
  lemma StepConserves(cap: nat, role: Role, link: Link, t: Tx, op: TxOp)
    requires |t.buffered| <= cap && LegalOp(role, link, t, op) && Conserved(t)
    ensures var r := TxStep(cap, role, link, t, op);
            && Conserved(r)
            && LostIn(r.fates) == LostIn(t.fates) + Dropped(role, link, t, op)
            && (if op.WriteOp? then t.accepted <= r.accepted else r.accepted == t.accepted)
  {
    match op
    case WriteOp(data) =>
    case SendOp => SendAllConserves(role, link, t);
    case FlushOp(_, _, _, _, _, _) => FlushKeeps(cap, role, link, t, op);
  }

  predicate LegalRun(cap: nat, role: Role, link: Link, t: Tx, ops: seq<TxOp>)
    requires |t.buffered| <= cap
    decreases |ops|
  {
    ops == []
    || (LegalOp(role, link, t, ops[0]) && LegalRun(cap, role, link, TxStep(cap, role, link, t, ops[0]), ops[1..]))
  }

  function TxRun(cap: nat, role: Role, link: Link, t: Tx, ops: seq<TxOp>): (r: Tx)
    requires |t.buffered| <= cap && LegalRun(cap, role, link, t, ops)
    ensures |r.buffered| <= cap
    decreases |ops|
  {
    if ops == [] then t else TxRun(cap, role, link, TxStep(cap, role, link, t, ops[0]), ops[1..])
  }

  /** The bytes the flushes of a run dropped, in order. */
  function DroppedIn(cap: nat, role: Role, link: Link, t: Tx, ops: seq<TxOp>): seq<Byte>
    requires |t.buffered| <= cap && LegalRun(cap, role, link, t, ops)
    decreases |ops|
  {
    if ops == [] then []
    else Dropped(role, link, t, ops[0]) + DroppedIn(cap, role, link, TxStep(cap, role, link, t, ops[0]), ops[1..])
  }

  /**
   * Over any run of writes, sends and flushes, each byte `write` reported as accepted is
   * still buffered or met one fate, in order; the bytes lost are those the flushes that
   * gave up dropped; and if none did, what the stack was handed followed by what is
   * buffered is exactly what was accepted.
   */
  lemma {:induction false} TxConservation(cap: nat, role: Role, link: Link, t: Tx, ops: seq<TxOp>)
    requires |t.buffered| <= cap && Conserved(t) && LegalRun(cap, role, link, t, ops)
    ensures var r, dropped := TxRun(cap, role, link, t, ops), LostIn(t.fates) + DroppedIn(cap, role, link, t, ops);
            && Conserved(r) && t.accepted <= r.accepted && LostIn(r.fates) == dropped
            && (dropped == [] ==> r.accepted == Handed(r.fates) + r.buffered)
    decreases |ops|
  {
    if ops == [] {
      NoneLost(t.fates);
    } else {
      var t1 := TxStep(cap, role, link, t, ops[0]);
      StepConserves(cap, role, link, t, ops[0]);
      TxConservation(cap, role, link, t1, ops[1..]);
      Regroup(LostIn(t.fates), Dropped(role, link, t, ops[0]), DroppedIn(cap, role, link, t1, ops[1..]));
    }
  }

  lemma Regroup(a: seq<Byte>, b: seq<Byte>, c: seq<Byte>)
    ensures a + b + c == a + (b + c)
  {}

  /** One operation more. */
  lemma {:induction false} RunAppend(cap: nat, role: Role, link: Link, t: Tx, ops: seq<TxOp>, op: TxOp)
    requires |t.buffered| <= cap && LegalRun(cap, role, link, t, ops) && LegalOp(role, link, TxRun(cap, role, link, t, ops), op)
    ensures LegalRun(cap, role, link, t, ops + [op])
    ensures TxRun(cap, role, link, t, ops + [op]) == TxStep(cap, role, link, TxRun(cap, role, link, t, ops), op)
    decreases |ops|
  {
    if ops == [] {
      assert [op][1..] == [];
    } else {
      ConsConcat(ops, [op]);
      RunAppend(cap, role, link, TxStep(cap, role, link, t, ops[0]), ops[1..], op);
    }
  }
}
