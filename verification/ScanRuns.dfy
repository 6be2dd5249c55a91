/** Whole runs of the scanner, from power-up through any sequence of events. */
module ScanRuns {
  import opened Base
  import opened ScanSpec
  import opened ScanTheorems
  import opened ScanJournal
  import opened ScanTimer

  ghost predicate Boot<K>(s: State<K>) {
    s.results == [] && s.devices == map[] && s.waiting == [] && s.callout.timer.Idle? && !s.callout.ready && s.journal == []
  }

  ghost predicate Good<K>(s: State<K>) {
    Core(s) && SentOk(s)
  }

  /** `active` demands that the scan mode is active whenever an event arrives. */
  ghost predicate LegalRun<K>(active: bool, env: Env, s: State<K>, es: seq<Event<K>>)
    requires Keyed(s)
    decreases |es|
  {
    es == [] ||
    (Legal(s, es[0]) && (active ==> !s.config.passive) && LegalRun(active, env, Step(env, s, es[0]), es[1..]))
  }

  ghost function Run<K>(env: Env, s: State<K>, es: seq<Event<K>>): (r: State<K>)
    requires Keyed(s)
    ensures Keyed(r)
    decreases |es|
  {
    if es == [] then s else Run(env, Step(env, s, es[0]), es[1..])
  }

  lemma {:induction false} RunKeeps<K>(active: bool, env: Env, s: State<K>, es: seq<Event<K>>)
    requires Good(s) && LegalRun(active, env, s, es)
    ensures Good(Run(env, s, es)) && Follows(active, s, Run(env, s, es))
    ensures active && TimerOk(s) ==> TimerOk(Run(env, s, es))
    decreases |es|
  {
    if es == [] {
      FollowsSame(active, s, s);
    } else {
      var s1 := Step(env, s, es[0]);
      CoreStep(env, s, es[0]);
      SentStep(env, s, es[0]);
      FollowsStep(active, env, s, es[0]);
      if active && TimerOk(s) { TimerStep(env, s, es[0]); }
      RunKeeps(active, env, s1, es[1..]);
      FollowsTrans(active, s, s1, Run(env, s1, es[1..]));
    }
  }

  /**
   * After any run the waiting list is sound, and it is exactly what the journal
   * of entries, moves and departures replays to.  In an active run no waiting
   * device was ever reported, and the timer is right for the head.
   */
  lemma WholeRun<K>(active: bool, env: Env, s: State<K>, es: seq<Event<K>>)
    requires Boot(s) && LegalRun(active, env, s, es)
    ensures var t := Run(env, s, es);
            Core(t) && Replay(active, [], t.journal) == Some(t.waiting) && (active ==> TimerOk(t))
  {
    RunKeeps(active, env, s, es);
    var t := Run(env, s, es);
    assert t.journal[|s.journal|..] == t.journal;
  }

  // ---- counting stays --------------------------------------------------------

  ghost function Entries<K>(l: seq<Entry<K>>, d: K): nat {
    if l == [] then 0 else (if l[0] == Entered(d) then 1 else 0) + Entries(l[1..], d)
  }

  ghost function Ends<K>(l: seq<Entry<K>>, d: K): nat {
    if l == [] then 0 else (if l[0].Left? && l[0].dev == d then 1 else 0) + Ends(l[1..], d)
  }

  ghost function ReportedEnds<K>(l: seq<Entry<K>>, d: K): nat {
    if l == [] then 0
    else (if l[0].Left? && l[0].dev == d && Reporting(l[0].cause) then 1 else 0) + ReportedEnds(l[1..], d)
  }

  ghost function Reports<K>(l: seq<Entry<K>>, d: K): nat {
    if l == [] then 0 else (if l[0] == Reported(d) then 1 else 0) + Reports(l[1..], d)
  }

  ghost function Present<K>(w: seq<K>, d: K): nat { if d in w then 1 else 0 }

  /** In a replayable journal every stay that began has ended once, or is going on now. */
  lemma {:induction false} StaysBalance<K>(strict: bool, w: seq<K>, l: seq<Entry<K>>, d: K)
    requires NoDup(w) && Replay(strict, w, l).Some?
    ensures Present(w, d) + Entries(l, d) == Ends(l, d) + Present(Replay(strict, w, l).value, d)
    ensures ReportedEnds(l, d) <= Reports(l, d)
    decreases |l|
  {
    if l != [] {
      match l[0]
      case Entered(x) => StaysBalance(strict, w + [x], l[1..], d);
      case Requeued(x) =>
        WithoutKeepsNoDup(w, x);
        StaysBalance(strict, Without(w, x) + [x], l[1..], d);
      case Left(x, c) =>
        WithoutKeepsNoDup(w, x);
        if Reporting(c) {
          StaysBalance(strict, Without(w, x), l[2..], d);
          assert l[1..][1..] == l[2..];
        } else {
          StaysBalance(strict, Without(w, x), l[1..], d);
        }
      case _ => StaysBalance(strict, w, l[1..], d);
    }
  }

  /** A stay that ends by response, timeout or completion is reported in the very next entry. */
  ghost predicate ReportedAt<K>(l: seq<Entry<K>>, i: nat)
    requires i < |l|
  {
    l[i].Left? && Reporting(l[i].cause) ==> i + 1 < |l| && l[i + 1] == Reported(l[i].dev)
  }

  lemma {:induction false} EndsReported<K>(strict: bool, w: seq<K>, l: seq<Entry<K>>, i: nat)
    requires Replay(strict, w, l).Some? && i < |l|
    ensures ReportedAt(l, i)
    decreases |l|
  {
    if i > 0 {
      match l[0]
      case Entered(x) => EndsReported(strict, w + [x], l[1..], i - 1);
      case Requeued(x) => EndsReported(strict, Without(w, x) + [x], l[1..], i - 1);
      case Left(x, c) =>
        if !Reporting(c) {
          EndsReported(strict, Without(w, x), l[1..], i - 1);
        } else if i > 1 {
          EndsReported(strict, Without(w, x), l[2..], i - 2);
        }
      case _ => EndsReported(strict, w, l[1..], i - 1);
    }
  }

  /** Whoever is reported in a strict replay is not waiting. */
  lemma NotWhileWaiting<K>(l: seq<Entry<K>>, i: nat)
    requires Replay(true, [], l).Some? && i < |l| && Replay(true, [], l[..i]).Some? && l[i].Reported?
    ensures l[i].dev !in Replay(true, [], l[..i]).value
  {
    ReplayConcat(true, [], l[..i], l[i..]);
    assert l[..i] + l[i..] == l;
  }

  /**
   * Over any run each stay in the list that began has ended once or is going on; each end
   * by response, timeout or completion is followed at once by an `onResult` for the device,
   * and in an active run there is no other while a device waits.
   */
  lemma StaysEndOnce<K>(active: bool, env: Env, s: State<K>, es: seq<Event<K>>, d: K)
    requires Boot(s) && LegalRun(active, env, s, es)
    ensures var t := Run(env, s, es);
            && Entries(t.journal, d) == Ends(t.journal, d) + Present(t.waiting, d)
            && (forall i: nat :: i < |t.journal| ==> ReportedAt(t.journal, i))
            && (forall i: nat :: i < |t.journal| && active && t.journal[i].Reported? && Replay(true, [], t.journal[..i]).Some? ==>
                  t.journal[i].dev !in Replay(true, [], t.journal[..i]).value)
  {
    WholeRun(active, env, s, es);
    var l := Run(env, s, es).journal;
    StaysBalance(active, [], l, d);
    forall i: nat | i < |l| ensures ReportedAt(l, i) { EndsReported(active, [], l, i); }
    forall i: nat | i < |l| && active && l[i].Reported? && Replay(true, [], l[..i]).Some?
      ensures l[i].dev !in Replay(true, [], l[..i]).value
    {
      NotWhileWaiting(l, i);
    }
  }

  // ---- completion ------------------------------------------------------------

  ghost function Farewells<K>(w: seq<K>): seq<Entry<K>> {
    if w == [] then [] else [Left(w[0], Complete), Reported(w[0])] + Farewells(w[1..])
  }

  /** The completion loop reports everybody still waiting, oldest first, and nothing else. */
  lemma {:induction false} DrainReportsAll<K>(env: Env, s: State<K>)
    requires Core(s)
    ensures Drain(env, s).journal == s.journal + Farewells(s.waiting)
    decreases |s.waiting|
  {
    if s.waiting == [] {
      assert s.journal + Farewells(s.waiting) == s.journal;
    } else {
      var d, s1 := s.waiting[0], Expire(env, s, Cause.Complete);
      ExpireNotes(env, s, Cause.Complete);
      CoreExpire(env, s, Cause.Complete);
      DrainReportsAll(env, s1);
      Regroup(s.journal, [Left(d, Complete), Reported(d)], Farewells(s.waiting[1..]));
    }
  }

  lemma Regroup<T>(a: seq<T>, b: seq<T>, c: seq<T>)
    ensures (a + b) + c == a + (b + c)
  {}
}
