/**
 * Stays in the waiting list, read off the journal alone: `Replay` is a small
 * parser for journals that knows nothing of the scanner.
 */
module ScanJournal {
  import opened Base
  import opened ScanSpec
  import opened ScanTheorems

  /**
   * Replays list movements from the list `w`.  It gives up when a device enters
   * twice, leaves without being there, leaves by timeout or completion from any
   * place but the head, or leaves by response, timeout or completion without
   * its `onResult` being the very next entry.  When `strict`, it also gives up
   * on an `onResult` for a device that is still waiting.
   */
  ghost function Replay<K>(strict: bool, w: seq<K>, l: seq<Entry<K>>): Option<seq<K>>
    decreases |l|
  {
    if l == [] then Some(w)
    else match l[0]
      case Entered(d) => if d in w then None else Replay(strict, w + [d], l[1..])
      case Requeued(d) => if d !in w then None else Replay(strict, Without(w, d) + [d], l[1..])
      case Left(d, c) =>
        if d !in w || (HeadOnly(c) && w[0] != d) then None
        else if !Reporting(c) then Replay(strict, Without(w, d), l[1..])
        else if |l| < 2 || l[1] != Reported(d) then None
        else Replay(strict, Without(w, d), l[2..])
      case Reported(d) => if strict && d in w then None else Replay(strict, w, l[1..])
      case _ => Replay(strict, w, l[1..])
  }

  /** Between the two states the journal grew by a piece that replays one list into the other. */
  ghost predicate Follows<K>(strict: bool, s: State<K>, t: State<K>) {
    && |s.journal| <= |t.journal|
    && t.journal[..|s.journal|] == s.journal
    && Replay(strict, s.waiting, t.journal[|s.journal|..]) == Some(t.waiting)
  }

  lemma {:induction false} ReplayConcat<K>(strict: bool, w: seq<K>, l1: seq<Entry<K>>, l2: seq<Entry<K>>)
    requires Replay(strict, w, l1).Some?
    ensures Replay(strict, w, l1 + l2) == Replay(strict, Replay(strict, w, l1).value, l2)
    decreases |l1|
  {
    if l1 == [] {
      assert l1 + l2 == l2;
    } else {
      var n := if l1[0].Left? && Reporting(l1[0].cause) then 2 else 1;
      var w' := match l1[0]
        case Entered(d) => w + [d]
        case Requeued(d) => Without(w, d) + [d]
        case Left(d, c) => Without(w, d)
        case _ => w;
      assert (l1 + l2)[n..] == l1[n..] + l2;
      ReplayConcat(strict, w', l1[n..], l2);
    }
  }

  lemma FollowsTrans<K>(strict: bool, a: State<K>, b: State<K>, c: State<K>)
    requires Follows(strict, a, b) && Follows(strict, b, c)
    ensures Follows(strict, a, c)
  {
    var l1, l2 := b.journal[|a.journal|..], c.journal[|b.journal|..];
    ReplayConcat(strict, a.waiting, l1, l2);
    assert c.journal[|a.journal|..] == l1 + l2;
    assert c.journal[..|a.journal|] == c.journal[..|b.journal|][..|a.journal|];
  }

  lemma FollowsSame<K>(strict: bool, s: State<K>, t: State<K>)
    requires t.journal == s.journal && t.waiting == s.waiting
    ensures Follows(strict, s, t)
  {
    assert t.journal[|s.journal|..] == [];
  }

  /** A single entry, or a pair, appended to the journal. */
  lemma FollowsBy<K>(strict: bool, s: State<K>, t: State<K>, l: seq<Entry<K>>)
    requires t.journal == s.journal + l
    requires Replay(strict, s.waiting, l) == Some(t.waiting)
    ensures Follows(strict, s, t)
  {
    assert t.journal[|s.journal|..] == l;
  }

  lemma {:induction false} DeparturesReplay<K>(strict: bool, w: seq<K>)
    requires NoDup(w)
    ensures Replay(strict, w, Departures(w)) == Some([])
  {
    if w != [] {
      WithoutAt(w, 0);
      assert w[..0] + w[1..] == w[1..];
      assert Departures(w)[1..] == Departures(w[1..]);
      DeparturesReplay(strict, w[1..]);
    }
  }

  lemma FollowsClear<K>(strict: bool, s: State<K>)
    requires NoDup(s.waiting)
    ensures Follows(strict, s, ClearWaiting(s))
  {
    DeparturesReplay(strict, s.waiting);
    FollowsBy(strict, s, ClearWaiting(s), Departures(s.waiting));
  }

  lemma FollowsErase<K>(strict: bool, env: Env, s: State<K>, d: K)
    requires Keyed(s)
    ensures Follows(strict, s, EraseKey(env, s, d))
  {
    var r := EraseKey(env, s, d);
    if d in s.results && d in s.waiting {
      FollowsBy(strict, s, r, [Left(d, Cause.Erased)]);
    } else {
      if d !in s.waiting { WithoutAbsent(s.waiting, d); }
      FollowsSame(strict, s, r);
    }
  }

  /** A reported departure: the stay and its `onResult`, nothing between them. */
  lemma FollowsReported<K>(strict: bool, s: State<K>, t: State<K>, d: K, c: Cause)
    requires d in s.waiting && Reporting(c) && (HeadOnly(c) ==> s.waiting[0] == d)
    requires t.journal == s.journal + [Left(d, c)] + [Reported(d)] && t.waiting == Without(s.waiting, d)
    ensures Follows(strict, s, t)
  {
    var l := [Left(d, c), Reported(d)];
    assert l[2..] == [];
    assert s.journal + [Left(d, c)] + [Reported(d)] == s.journal + l;
    FollowsBy(strict, s, t, l);
  }

  lemma FollowsExpire<K>(strict: bool, env: Env, s: State<K>, c: Cause)
    requires Core(s) && s.waiting != [] && Reporting(c)
    ensures Follows(strict, s, Expire(env, s, c))
  {
    var d := s.waiting[0];
    FollowsReported(strict, s, Expire(env, s, c), d, c);
  }

  lemma {:induction false} FollowsDrain<K>(strict: bool, env: Env, s: State<K>)
    requires Core(s)
    ensures Follows(strict, s, Drain(env, s))
    decreases |s.waiting|
  {
    if s.waiting == [] {
      FollowsSame(strict, s, s);
    } else {
      var s1 := Expire(env, s, Cause.Complete);
      FollowsExpire(strict, env, s, Cause.Complete);
      CoreExpire(env, s, Cause.Complete);
      FollowsDrain(strict, env, s1);
      FollowsTrans(strict, s, s1, Drain(env, s1));
    }
  }

  // ---- the advertisement path ------------------------------------------------

  /** A waiting device has had `onDiscovered`; its counter is 1, or 2 after a passive repeat. */
  ghost predicate SentOk<K>(s: State<K>)
    requires Keyed(s)
  {
    forall d :: d in s.waiting ==> 1 <= s.devices[d].callbackSent <= 2
  }

  ghost predicate SentOkBut<K>(s: State<K>, but: K)
    requires Keyed(s)
  {
    forall d :: d in s.waiting && d != but ==> 1 <= s.devices[d].callbackSent <= 2
  }

  /** `onResult` is called at once exactly in these three situations. */
  ghost predicate ReportsAtOnce<K>(s: State<K>, d: K, evType: Byte)
    requires Keyed(s) && d in s.results
  {
    s.config.passive || !Scannable(s.devices[d]) || evType == SCAN_RSP
  }

  lemma FollowsDiscover<K>(strict: bool, s: State<K>, d: K)
    requires d in s.devices
    ensures Follows(strict, s, DiscoverOnce(s, d))
  {
    if s.devices[d].callbackSent == 0 {
      FollowsBy(strict, s, DiscoverOnce(s, d), [Discovered(d)]);
    } else {
      FollowsSame(strict, s, DiscoverOnce(s, d));
    }
  }

  lemma FollowsAwait<K>(strict: bool, env: Env, s: State<K>, d: K)
    requires Keyed(s) && d in s.results
    ensures Follows(strict, s, Await(env, s, d))
  {
    if d in s.waiting {
      FollowsSame(strict, s, Await(env, s, d));
    } else {
      FollowsBy(strict, s, Await(env, s, d), [Entered(d)]);
    }
  }

  lemma FollowsAnnounce<K>(strict: bool, env: Env, s: State<K>, d: K, evType: Byte)
    requires Keyed(s) && d in s.results
    requires strict && ReportsAtOnce(s, d, evType) ==> d !in s.waiting
    ensures Follows(strict, s, Announce(env, s, d, evType))
  {
    var s1 := DiscoverOnce(s, d);
    FollowsDiscover(strict, s, d);
    if ReportsAtOnce(s1, d, evType) {
      FollowsBy(strict, s1, ReportNow(s1, d), [Reported(d)]);
    } else {
      FollowsAwait(strict, env, s1, d);
    }
    FollowsTrans(strict, s, s1, Announce(env, s, d, evType));
  }

  lemma FollowsDeliver<K>(strict: bool, env: Env, s: State<K>, d: K, evType: Byte)
    requires Keyed(s) && d in s.results
    requires Follows(strict, s, Announce(env, s, d, evType))
    ensures Follows(strict, s, Deliver(env, s, d, evType))
  {
    var s1 := Announce(env, s, d, evType);
    FollowsErase(strict, env, s1, d);
    FollowsSame(strict, s1, s1);
    FollowsTrans(strict, s, s1, DropReported(env, s1, d));
  }

  lemma FollowsRefresh<K>(strict: bool, env: Env, s: State<K>, d: K)
    requires Keyed(s) && d in s.results
    ensures Follows(strict, s, Refresh(env, s, d))
  {
    RefreshShape(env, s, d);
    if !Scannable(s.devices[d]) {
      FollowsSame(strict, s, Refresh(env, s, d));
    } else if d in s.waiting {
      FollowsBy(strict, s, Refresh(env, s, d), [Requeued(d)]);
    } else {
      WithoutAbsent(s.waiting, d);
      FollowsBy(strict, s, Refresh(env, s, d), [Entered(d)]);
    }
  }

  /** The scan response: the stay ends and the very next entry is its `onResult`. */
  lemma FollowsResponse<K>(strict: bool, env: Env, s: State<K>, d: K)
    requires Keyed(s) && d in s.results && SentOk(s)
    ensures var s1 := EndStay(env, ReadClock(env, s), d, Cause.ScanResponse);
            Follows(strict, s, Announce(env, s1, d, SCAN_RSP))
  {
    var s0 := ReadClock(env, s);
    var s1 := EndStay(env, s0, d, Cause.ScanResponse);
    if d in s.waiting {
      FollowsReported(strict, s, Announce(env, s1, d, SCAN_RSP), d, Cause.ScanResponse);
    } else {
      WithoutAbsent(s.waiting, d);
      FollowsSame(strict, s, s1);
      FollowsAnnounce(strict, env, s1, d, SCAN_RSP);
      FollowsTrans(strict, s, s1, Announce(env, s1, d, SCAN_RSP));
    }
  }

  lemma FollowsNew<K>(strict: bool, env: Env, s: State<K>, e: Event<K>)
    requires Core(s) && e.Advertised? && e.key.Some? && Legal(s, e)
    requires strict ==> !s.config.passive
    ensures Follows(strict, s, Deliver(env, NewDevice(env, s, e.address, e.evType, e.key.value), e.key.value, e.evType))
  {
    var s1 := NewDevice(env, s, e.address, e.evType, e.key.value);
    FollowsSame(strict, s, s1);
    FollowsAnnounce(strict, env, s1, e.key.value, e.evType);
    FollowsDeliver(strict, env, s1, e.key.value, e.evType);
    FollowsTrans(strict, s, s1, Deliver(env, s1, e.key.value, e.evType));
  }

  lemma FollowsRepeat<K>(strict: bool, env: Env, s: State<K>, d: K, evType: Byte)
    requires Core(s) && d in s.results && evType != SCAN_RSP
    requires strict ==> !s.config.passive
    ensures Follows(strict, s, Deliver(env, Refresh(env, s, d), d, evType))
  {
    var s1 := Refresh(env, s, d);
    RefreshShape(env, s, d);
    FollowsRefresh(strict, env, s, d);
    FollowsAnnounce(strict, env, s1, d, evType);
    FollowsDeliver(strict, env, s1, d, evType);
    FollowsTrans(strict, s, s1, Deliver(env, s1, d, evType));
  }

  lemma FollowsAnswered<K>(strict: bool, env: Env, s: State<K>, d: K)
    requires Keyed(s) && d in s.results && SentOk(s)
    ensures var s1 := EndStay(env, ReadClock(env, s), d, Cause.ScanResponse);
            Follows(strict, s, Deliver(env, s1, d, SCAN_RSP))
  {
    var s1 := EndStay(env, ReadClock(env, s), d, Cause.ScanResponse);
    var s2 := Announce(env, s1, d, SCAN_RSP);
    FollowsResponse(strict, env, s, d);
    FollowsErase(strict, env, s2, d);
    FollowsSame(strict, s2, s2);
    FollowsTrans(strict, s, s2, DropReported(env, s2, d));
  }

  lemma FollowsHeard<K>(strict: bool, env: Env, s: State<K>, e: Event<K>)
    requires Core(s) && SentOk(s) && e.Advertised? && Legal(s, e)
    requires strict ==> !s.config.passive
    ensures Follows(strict, s, Heard(env, s, e))
  {
    FollowsSame(strict, s, s);
    match Find(s, e.address)
    case None => if e.key.Some? { FollowsNew(strict, env, s, e); }
    case Some(d) =>
      if e.evType == SCAN_RSP {
        FollowsAnswered(strict, env, s, d);
      } else {
        FollowsRepeat(strict, env, s, d, e.evType);
      }
  }

  lemma FollowsOnTimer<K>(strict: bool, env: Env, s: State<K>)
    requires Core(s)
    ensures Follows(strict, s, OnTimer(env, s))
  {
    if s.waiting == [] {
      FollowsSame(strict, s, OnTimer(env, s));
    } else {
      var d, s1 := s.waiting[0], ReadClock(env, s);
      FollowsSame(strict, s, s1);
      ListedLater(s.results, s.devices, s.waiting, s.clock.now, s1.clock.now);
      if Elapsed(s1.clock.now, s1.devices[d].stamp) < s1.config.timeout {
        FollowsSame(strict, s, OnTimer(env, s));
      } else {
        var s2 := Expire(env, s1, Cause.Timeout);
        FollowsExpire(strict, env, s1, Cause.Timeout);
        FollowsTrans(strict, s, s1, s2);
        FollowsErase(strict, env, s2, d);
        if s2.config.maxResults == 0 { FollowsTrans(strict, s, s2, OnTimer(env, s)); }
      }
    }
  }

  lemma FollowsClearAll<K>(strict: bool, s: State<K>)
    requires NoDup(s.waiting)
    ensures Follows(strict, s, ClearAll(s))
  {
    FollowsClear(strict, s);
    FollowsSame(strict, s, s);
  }

  lemma FollowsComplete<K>(strict: bool, env: Env, s: State<K>)
    requires Core(s)
    ensures Follows(strict, s, OnComplete(env, s))
  {
    var s0 := StopTimer(s);
    var s1 := Drain(env, s0);
    FollowsSame(strict, s, s0);
    FollowsDrain(strict, env, s0);
    FollowsTrans(strict, s, s0, s1);
    CoreDrain(env, s0);
    FollowsClearAll(strict, s1);
    FollowsSame(strict, s1, s1);
    var s2 := if s1.config.maxResults == 0 then ClearAll(s1) else s1;
    FollowsTrans(strict, s, s1, s2);
    FollowsBy(strict, s2, Note(s2, ScanEnded), [ScanEnded]);
    FollowsTrans(strict, s, s2, Note(s2, ScanEnded));
  }

  lemma FollowsStop<K>(strict: bool, s: State<K>, accepted: bool)
    requires Core(s)
    ensures Follows(strict, s, OnStop(s, accepted))
  {
    FollowsSame(strict, s, s);
    if accepted {
      var s0 := s.(config := s.config.(scanning := false));
      var s1 := ClearWaiting(s0);
      FollowsClear(strict, s0);
      FollowsClearAll(strict, s1);
      if s1.config.maxResults == 0 { FollowsTrans(strict, s0, s1, ClearAll(s1)); }
      assert Follows(strict, s0, OnStop(s, accepted));
    }
  }

  lemma FollowsStep<K>(strict: bool, env: Env, s: State<K>, e: Event<K>)
    requires Core(s) && SentOk(s) && Legal(s, e)
    requires strict ==> !s.config.passive
    ensures Follows(strict, s, Step(env, s, e))
  {
    FollowsSame(strict, s, s);
    match e
    case Advertised(_, _, _, _) => FollowsHeard(strict, env, s, e);
    case TimerExpires => FollowsSame(strict, s, Step(env, s, e));
    case TimerCallback =>
      if s.callout.pending { FollowsOnTimer(strict, env, s.(callout := s.callout.(pending := false))); }
    case ScanComplete => FollowsComplete(strict, env, s);
    case Erase(d) => FollowsErase(strict, env, s, d);
    case EraseAddress(a) => if Find(s, a).Some? { FollowsErase(strict, env, s, Find(s, a).value); }
    case Stop(accepted) => FollowsStop(strict, s, accepted);
    case ClearResults => FollowsClearAll(strict, s);
    case HostDeinit => FollowsClear(strict, s);
    case _ => FollowsSame(strict, s, Step(env, s, e));
  }

  // ---- the callback counter --------------------------------------------------

  lemma SentErase<K>(env: Env, s: State<K>, d: K)
    requires Keyed(s) && SentOk(s)
    ensures SentOk(EraseKey(env, s, d))
  {}

  lemma SentAnnounce<K>(env: Env, s: State<K>, d: K, evType: Byte)
    requires Keyed(s) && d in s.results && SentOkBut(s, d)
    requires s.devices[d].callbackSent == 0 || (evType == SCAN_RSP && d !in s.waiting)
    ensures SentOk(Announce(env, s, d, evType))
  {
    assert s.devices[d].callbackSent == 0 ==> DiscoverOnce(s, d).devices[d].callbackSent == 1;
  }

  lemma SentDeliver<K>(env: Env, s: State<K>, d: K, evType: Byte)
    requires Keyed(s) && d in s.results && SentOkBut(s, d)
    requires s.devices[d].callbackSent == 0 || (evType == SCAN_RSP && d !in s.waiting)
    ensures SentOk(Deliver(env, s, d, evType))
  {
    SentAnnounce(env, s, d, evType);
    SentErase(env, Announce(env, s, d, evType), d);
  }

  lemma SentRefresh<K>(env: Env, s: State<K>, d: K)
    requires Keyed(s) && SentOk(s) && d in s.results
    ensures SentOkBut(Refresh(env, s, d), d) && Refresh(env, s, d).devices[d].callbackSent == 0
  {
    RefreshShape(env, s, d);
  }

  lemma SentHeard<K>(env: Env, s: State<K>, e: Event<K>)
    requires Core(s) && SentOk(s) && e.Advertised? && Legal(s, e)
    ensures SentOk(Heard(env, s, e))
  {
    match Find(s, e.address)
    case None =>
      if e.key.Some? {
        SentDeliver(env, NewDevice(env, s, e.address, e.evType, e.key.value), e.key.value, e.evType);
      }
    case Some(d) =>
      if e.evType == SCAN_RSP {
        SentDeliver(env, EndStay(env, ReadClock(env, s), d, Cause.ScanResponse), d, e.evType);
      } else {
        SentRefresh(env, s, d);
        SentDeliver(env, Refresh(env, s, d), d, e.evType);
      }
  }

  lemma SentExpire<K>(env: Env, s: State<K>, c: Cause)
    requires Keyed(s) && SentOk(s) && s.waiting != []
    ensures SentOk(Expire(env, s, c))
  {}

  lemma SentOnTimer<K>(env: Env, s: State<K>)
    requires Keyed(s) && SentOk(s)
    ensures SentOk(OnTimer(env, s))
  {
    if s.waiting != [] {
      SentExpire(env, ReadClock(env, s), Cause.Timeout);
      SentErase(env, Expire(env, ReadClock(env, s), Cause.Timeout), s.waiting[0]);
    }
  }

  lemma SentStep<K>(env: Env, s: State<K>, e: Event<K>)
    requires Core(s) && SentOk(s) && Legal(s, e)
    ensures SentOk(Step(env, s, e))
  {
    match e
    case Advertised(_, _, _, _) => SentHeard(env, s, e);
    case TimerCallback => SentOnTimer(env, s.(callout := s.callout.(pending := false)));
    case ScanComplete => CoreComplete(env, s);
    case Erase(d) => SentErase(env, s, d);
    case EraseAddress(a) => if Find(s, a).Some? { SentErase(env, s, Find(s, a).value); }
    case _ =>
  }
}
