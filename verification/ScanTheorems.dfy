/**
 * What every step of the scanner keeps, and what follows for whole runs.
 */
module ScanTheorems {
  import opened Base
  import opened ScanSpec

  // ---- the list invariant ----------------------------------------------------

  /** Waiting devices are live, scannable, distinct and in advertisement order. */
  ghost predicate Listed<K>(results: seq<K>, devices: map<K, Device>, waiting: seq<K>, now: nat) {
    && NoDup(results)
    && NoDup(waiting)
    && devices.Keys == (set d | d in results)
    && (forall d :: d in waiting ==> d in results && Scannable(devices[d]))
    && (forall d :: d in results ==> devices[d].stamp <= now)
    && Sorted(devices, waiting)
  }

  ghost predicate Sorted<K>(devices: map<K, Device>, waiting: seq<K>) {
    && (forall d :: d in waiting ==> d in devices)
    && forall i, j :: 0 <= i < j < |waiting| ==> devices[waiting[i]].stamp <= devices[waiting[j]].stamp
  }

  ghost predicate Core<K>(s: State<K>) {
    Keyed(s) && ArmedBefore(s) && Listed(s.results, s.devices, s.waiting, s.clock.now)
  }

  lemma ListedWithout<K>(results: seq<K>, devices: map<K, Device>, waiting: seq<K>, now: nat, d: K)
    requires Listed(results, devices, waiting, now)
    ensures Listed(results, devices, Without(waiting, d), now)
  {
    WithoutKeepsNoDup(waiting, d);
    if d in waiting {
      var k :| 0 <= k < |waiting| && waiting[k] == d;
      WithoutAt(waiting, k);
      SortedGap(devices, waiting, k);
    } else {
      WithoutAbsent(waiting, d);
    }
  }

  lemma SortedGap<K>(devices: map<K, Device>, waiting: seq<K>, k: nat)
    requires Sorted(devices, waiting) && k < |waiting|
    ensures Sorted(devices, waiting[..k] + waiting[k + 1..])
  {
    var w := waiting[..k] + waiting[k + 1..];
    forall i, j | 0 <= i < j < |w|
      ensures devices[w[i]].stamp <= devices[w[j]].stamp
    {
      var i', j' := if i < k then i else i + 1, if j < k then j else j + 1;
      assert w[i] == waiting[i'] && w[j] == waiting[j'];
    }
  }

  lemma ListedLater<K>(results: seq<K>, devices: map<K, Device>, waiting: seq<K>, now: nat, later: nat)
    requires Listed(results, devices, waiting, now) && now <= later
    ensures Listed(results, devices, waiting, later)
  {}

  /** A device stamped with the present may be appended. */
  lemma ListedAppend<K>(results: seq<K>, devices: map<K, Device>, waiting: seq<K>, now: nat, d: K)
    requires Listed(results, devices, waiting, now)
    requires d in results && d !in waiting && Scannable(devices[d]) && devices[d].stamp == now
    ensures Listed(results, devices, waiting + [d], now)
  {
    var w := waiting + [d];
    forall i, j | 0 <= i < j < |w|
      ensures devices[w[i]].stamp <= devices[w[j]].stamp && w[i] != w[j]
    {
      assert w[i] == waiting[i] && (j < |waiting| ==> w[j] == waiting[j]);
    }
  }

  /** The record of a device that is not waiting, or only its counter, may change freely. */
  lemma ListedRecord<K>(results: seq<K>, devices: map<K, Device>, waiting: seq<K>, now: nat, d: K, v: Device)
    requires Listed(results, devices, waiting, now) && d in results
    requires v.stamp <= now && v.advType == devices[d].advType
    requires d !in waiting || v.stamp == devices[d].stamp
    ensures Listed(results, devices[d := v], waiting, now)
  {
    assert devices[d := v].Keys == devices.Keys;
  }

  lemma CoreReset<K>(env: Env, s: State<K>)
    requires Core(s)
    ensures Core(ResetTimer(env, s))
  {
    ListedLater(s.results, s.devices, s.waiting, s.clock.now, ResetTimer(env, s).clock.now);
  }

  lemma CoreRemove<K>(env: Env, s: State<K>, d: K)
    requires Core(s)
    ensures Core(RemoveWaiting(env, s, d))
  {
    ListedWithout(s.results, s.devices, s.waiting, s.clock.now, d);
    ListedLater(s.results, s.devices, Without(s.waiting, d), s.clock.now, RemoveWaiting(env, s, d).clock.now);
  }

  lemma ListedErase<K>(results: seq<K>, devices: map<K, Device>, waiting: seq<K>, now: nat, d: K)
    requires Listed(results, devices, waiting, now) && d in results && d !in waiting
    ensures Listed(Without(results, d), devices - {d}, waiting, now)
  {
    WithoutKeepsNoDup(results, d);
    assert (devices - {d}).Keys == (set x | x in Without(results, d));
  }

  lemma CoreErase<K>(env: Env, s: State<K>, d: K)
    requires Core(s)
    ensures Core(EraseKey(env, s, d))
  {
    if d in s.results {
      CoreRemove(env, s, d);
      var s1 := EndStay(env, s, d, Cause.Erased);
      ListedErase(s1.results, s1.devices, s1.waiting, s1.clock.now, d);
    }
  }

  lemma CoreExpire<K>(env: Env, s: State<K>, c: Cause)
    requires Core(s) && s.waiting != []
    ensures Core(Expire(env, s, c)) && Expire(env, s, c).waiting == s.waiting[1..]
  {
    var d := s.waiting[0];
    CoreRemove(env, s, d);
    WithoutAt(s.waiting, 0);
    var s1 := EndStay(env, s, d, c);
    ListedRecord(s1.results, s1.devices, s1.waiting, s1.clock.now, d, s1.devices[d].(callbackSent := 2));
  }

  lemma {:induction false} CoreDrain<K>(env: Env, s: State<K>)
    requires Core(s)
    ensures Core(Drain(env, s)) && Drain(env, s).waiting == []
    decreases |s.waiting|
  {
    if s.waiting != [] {
      CoreExpire(env, s, Cause.Complete);
      CoreDrain(env, Expire(env, s, Cause.Complete));
    }
  }

  lemma CoreSetSent<K>(s: State<K>, d: K, sent: Byte)
    requires Core(s) && d in s.results
    ensures Core(SetSent(s, d, sent))
  {
    ListedRecord(s.results, s.devices, s.waiting, s.clock.now, d, s.devices[d].(callbackSent := sent));
  }

  lemma CoreAwait<K>(env: Env, s: State<K>, d: K)
    requires Core(s) && d in s.results
    requires d in s.waiting || (Scannable(s.devices[d]) && s.devices[d].stamp == s.clock.now)
    ensures Core(Await(env, s, d))
  {
    if d !in s.waiting {
      ListedAppend(s.results, s.devices, s.waiting, s.clock.now, d);
    }
    var s1 := AddWaiting(if d in s.waiting then s else Note(s, Entered(d)), d);
    CoreReset(env, s1);
  }

  /** On the way to the list the device was either already there or stamped just now. */
  ghost predicate Placed<K>(s: State<K>, d: K, evType: Byte)
    requires Keyed(s)
  {
    d in s.results &&
    (evType == SCAN_RSP || !Scannable(s.devices[d]) || d in s.waiting || s.devices[d].stamp == s.clock.now)
  }

  lemma CoreDiscover<K>(s: State<K>, d: K, evType: Byte)
    requires Core(s) && Placed(s, d, evType)
    ensures Core(DiscoverOnce(s, d)) && Placed(DiscoverOnce(s, d), d, evType)
  {
    CoreSetSent(s, d, 1);
  }

  lemma CoreAnnounce<K>(env: Env, s: State<K>, d: K, evType: Byte)
    requires Core(s) && Placed(s, d, evType)
    ensures Core(Announce(env, s, d, evType))
  {
    CoreDiscover(s, d, evType);
    var s1 := DiscoverOnce(s, d);
    if s1.config.passive || !Scannable(s1.devices[d]) || evType == SCAN_RSP {
      CoreSetSent(s1, d, (s1.devices[d].callbackSent + 1) % 256);
    } else {
      CoreAwait(env, s1, d);
    }
  }

  lemma CoreDeliver<K>(env: Env, s: State<K>, d: K, evType: Byte)
    requires Core(s) && Placed(s, d, evType)
    ensures Core(Deliver(env, s, d, evType))
  {
    CoreAnnounce(env, s, d, evType);
    CoreErase(env, Announce(env, s, d, evType), d);
  }

  lemma RefreshShape<K>(env: Env, s: State<K>, d: K)
    requires Keyed(s) && d in s.results
    ensures var r := Refresh(env, s, d);
            r.waiting == (if Scannable(s.devices[d]) then Without(s.waiting, d) + [d] else s.waiting)
    ensures var r := Refresh(env, s, d);
            r.devices == Restamped(env, s, d).devices && s.clock.now <= r.devices[d].stamp <= r.clock.now
            && r.config.passive == s.config.passive
  {}

  lemma CoreRefresh<K>(env: Env, s: State<K>, d: K, evType: Byte)
    requires Core(s) && d in s.results
    ensures Core(Refresh(env, s, d)) && Placed(Refresh(env, s, d), d, evType)
  {
    RefreshShape(env, s, d);
    var r := Refresh(env, s, d);
    var stamp := r.devices[d].stamp;
    var w := Without(s.waiting, d);
    ListedWithout(s.results, s.devices, s.waiting, s.clock.now, d);
    ListedLater(s.results, s.devices, w, s.clock.now, stamp);
    ListedRecord(s.results, s.devices, w, stamp, d, r.devices[d]);
    if Scannable(s.devices[d]) {
      ListedAppend(s.results, r.devices, w, stamp, d);
    } else {
      WithoutAbsent(s.waiting, d);
    }
    ListedLater(s.results, r.devices, r.waiting, stamp, r.clock.now);
  }

  lemma CoreNew<K>(env: Env, s: State<K>, e: Event<K>)
    requires Core(s) && e.Advertised? && e.key.Some? && Legal(s, e)
    ensures var r := NewDevice(env, s, e.address, e.evType, e.key.value);
            Core(r) && Placed(r, e.key.value, e.evType)
  {
    var r := NewDevice(env, s, e.address, e.evType, e.key.value);
    ListedLater(s.results, s.devices, s.waiting, s.clock.now, r.clock.now);
    assert r.devices.Keys == (set d | d in r.results);
  }

  /** The only assumption on the environment: a new object is not one already held. */
  ghost predicate Legal<K>(s: State<K>, e: Event<K>) {
    e.Advertised? && e.key.Some? ==> e.key.value !in s.results
  }

  lemma CoreHeard<K>(env: Env, s: State<K>, e: Event<K>)
    requires Core(s) && e.Advertised? && Legal(s, e)
    ensures Core(Heard(env, s, e))
  {
    match Find(s, e.address)
    case None =>
      if e.key.None? { return; }
      CoreNew(env, s, e);
      CoreDeliver(env, NewDevice(env, s, e.address, e.evType, e.key.value), e.key.value, e.evType);
    case Some(d) =>
      if e.evType == SCAN_RSP {
        var s1 := ReadClock(env, s);
        ListedLater(s.results, s.devices, s.waiting, s.clock.now, s1.clock.now);
        CoreRemove(env, s1, d);
        CoreDeliver(env, EndStay(env, s1, d, Cause.ScanResponse), d, e.evType);
      } else {
        CoreRefresh(env, s, d, e.evType);
        CoreDeliver(env, Refresh(env, s, d), d, e.evType);
      }
  }

  lemma CoreOnTimer<K>(env: Env, s: State<K>)
    requires Core(s)
    ensures Core(OnTimer(env, s))
  {
    if s.waiting != [] {
      var s1 := ReadClock(env, s);
      ListedLater(s.results, s.devices, s.waiting, s.clock.now, s1.clock.now);
      CoreReset(env, s1);
      CoreExpire(env, s1, Cause.Timeout);
      CoreErase(env, Expire(env, s1, Cause.Timeout), s.waiting[0]);
    }
  }

  lemma CoreComplete<K>(env: Env, s: State<K>)
    requires Core(s)
    ensures Core(OnComplete(env, s)) && OnComplete(env, s).waiting == []
  {
    CoreDrain(env, StopTimer(s));
  }

  lemma CoreExpires<K>(s: State<K>)
    requires Core(s) && s.callout.timer.Armed?
    ensures Core(s.(clock := s.clock.(now := Max(s.clock.now, s.callout.timer.at + s.callout.timer.wait)),
                    callout := s.callout.(timer := Idle, pending := true)))
  {
    ListedLater(s.results, s.devices, s.waiting, s.clock.now, Max(s.clock.now, s.callout.timer.at + s.callout.timer.wait));
  }

  lemma CoreClearAll<K>(s: State<K>)
    requires Core(s)
    ensures Core(ClearWaiting(s)) && Core(ClearAll(s))
  {}

  lemma CoreStop<K>(s: State<K>, accepted: bool)
    requires Core(s)
    ensures Core(OnStop(s, accepted))
  {
    CoreClearAll(s.(config := s.config.(scanning := false)));
    CoreClearAll(ClearWaiting(s.(config := s.config.(scanning := false))));
  }

  /** The list invariant holds after every step, in either scan mode. */
  lemma CoreStep<K>(env: Env, s: State<K>, e: Event<K>)
    requires Core(s) && Legal(s, e)
    ensures Core(Step(env, s, e))
  {
    match e
    case Advertised(_, _, _, _) => CoreHeard(env, s, e);
    case TimerExpires => if s.callout.timer.Armed? { CoreExpires(s); }
    case TimerCallback => CoreOnTimer(env, s.(callout := s.callout.(pending := false)));
    case ScanComplete => CoreComplete(env, s);
    case Erase(d) => CoreErase(env, s, d);
    case EraseAddress(a) => if Find(s, a).Some? { CoreErase(env, s, Find(s, a).value); }
    case Stop(accepted) => CoreStop(s, accepted);
    case ClearResults => CoreClearAll(s);
    case SetTimeout(ticks) => CoreReset(env, s.(config := s.config.(timeout := ticks)));
    case HostDeinit => CoreClearAll(s);
    case _ =>
  }

  lemma ExpireNotes<K>(env: Env, s: State<K>, c: Cause)
    requires Keyed(s) && s.waiting != []
    ensures Expire(env, s, c).journal == s.journal + [Left(s.waiting[0], c), Reported(s.waiting[0])]
  {}

  lemma ErasedLeavesList<K>(env: Env, s: State<K>, d: K)
    requires Keyed(s) && d !in s.waiting
    ensures EraseKey(env, s, d).waiting == s.waiting
  {}

  /**
   * A timeout of 0 is documented to switch the wait for scan responses off.  An expiry that is
   * still queued then reports the head nevertheless; otherwise the callback leaves the list alone.
   */
  lemma TimeoutOffExactly<K>(env: Env, s: State<K>)
    requires Core(s) && s.config.timeout == 0
    ensures var t := Step(env, s, TimerCallback);
            && (t.waiting != s.waiting <==> s.callout.pending && s.waiting != [])
            && (s.callout.pending && s.waiting != [] ==>
                  t.waiting == s.waiting[1..] && Reported(s.waiting[0]) in t.journal[|s.journal|..])
  {
    if s.callout.pending && s.waiting != [] {
      var s0, d := s.(callout := s.callout.(pending := false)), s.waiting[0];
      var s1 := ReadClock(env, s0);
      ListedLater(s.results, s.devices, s.waiting, s.clock.now, s1.clock.now);
      CoreExpire(env, s1, Cause.Timeout);
      ErasedLeavesList(env, Expire(env, s1, Cause.Timeout), d);
      ExpireNotes(env, s1, Cause.Timeout);
    }
  }
}
