/**
 * One timer serves every waiting device.  In an active scan it is always set
 * for the head, and the head is always the device that is due first.
 */
module ScanTimer {
  import opened Base
  import opened ScanSpec
  import opened ScanTheorems

  ghost predicate ArmedFor<K>(s: State<K>, d: K)
    requires d in s.devices
  {
    && s.callout.timer.Armed?
    && s.devices[d].stamp <= s.callout.timer.at <= s.clock.now
    && s.callout.timer.wait == WaitFor(s.callout.timer.at, s.devices[d].stamp, s.config.timeout)
  }

  /** A non-empty list has its expiry queued, or the callout armed for its head. */
  ghost predicate TimerOk<K>(s: State<K>)
    requires Keyed(s)
  {
    s.config.timeout > 0 && s.callout.ready && s.waiting != [] ==> s.callout.pending || ArmedFor(s, s.waiting[0])
  }

  /** After a repeat advertisement the one device that may lack a timer is `d`, if it is now the head. */
  ghost predicate TimerOkBut<K>(s: State<K>, d: K)
    requires Keyed(s)
  {
    TimerOk(s) || (s.waiting != [] && s.waiting[0] == d)
  }

  lemma ResetArms<K>(env: Env, s: State<K>)
    requires Core(s)
    ensures TimerOk(ResetTimer(env, s))
  {}

  /** Taking a device out re-arms for the new head, or leaves head and timer alone. */
  lemma RemoveArms<K>(env: Env, s: State<K>, d: K)
    requires Core(s) && TimerOk(s)
    ensures TimerOk(RemoveWaiting(env, s, d))
  {
    if d in s.waiting && s.waiting[0] == d {
      ListedWithout(s.results, s.devices, s.waiting, s.clock.now, d);
      ResetArms(env, s.(waiting := Without(s.waiting, d)));
    }
  }

  lemma EraseArms<K>(env: Env, s: State<K>, d: K)
    requires Core(s) && TimerOk(s)
    ensures TimerOk(EraseKey(env, s, d))
  {
    RemoveArms(env, s, d);
  }

  /** Nothing the timer depends on changes when the list grows behind its head. */
  lemma SameHead<K>(s: State<K>, t: State<K>)
    requires Keyed(s) && Keyed(t) && TimerOk(s)
    requires t.waiting != [] ==> s.waiting != [] && t.waiting[0] == s.waiting[0]
    requires t.waiting != [] ==> t.devices[t.waiting[0]].stamp == s.devices[s.waiting[0]].stamp
    requires t.callout == s.callout && t.config.timeout == s.config.timeout && s.clock.now <= t.clock.now
    ensures TimerOk(t)
  {}

  lemma RefreshHead<K>(env: Env, s: State<K>, d: K)
    requires Core(s) && s.waiting != [] && s.waiting[0] == d
    ensures TimerOkBut(Refresh(env, s, d), d)
    ensures s.waiting != [d] ==> TimerOk(Refresh(env, s, d))
  {
    var s2, w := Restamped(env, s, d), Without(s.waiting, d);
    // The record of `d` no longer matters once it has left the list.
    ListedWithout(s.results, s.devices, s.waiting, s.clock.now, d);
    ListedLater(s.results, s.devices, w, s.clock.now, s2.clock.now);
    ListedRecord(s.results, s.devices, w, s2.clock.now, d, s2.devices[d]);
    if |s.waiting| > 1 {
      assert s.waiting[1] in w;
      ResetArms(env, s2.(waiting := w));
      SameHead(RemoveWaiting(env, s2, d), Refresh(env, s, d));
    }
  }

  lemma RefreshArms<K>(env: Env, s: State<K>, d: K)
    requires Core(s) && TimerOk(s) && d in s.results
    ensures TimerOkBut(Refresh(env, s, d), d)
    ensures (s.waiting != [] && s.waiting != [d]) || !Scannable(s.devices[d]) ==> TimerOk(Refresh(env, s, d))
  {
    if d in s.waiting && s.waiting[0] == d {
      RefreshHead(env, s, d);
    } else if s.waiting != [] {
      var w := Without(s.waiting, d);
      assert w[0] == s.waiting[0];
      RefreshShape(env, s, d);
      SameHead(s, Refresh(env, s, d));
    }
  }

  /** In an active scan a scannable advertiser that became the head gets the timer. */
  lemma AwaitArms<K>(env: Env, s: State<K>, d: K)
    requires Core(s) && Placed(s, d, ADV_IND) && Scannable(s.devices[d]) && TimerOkBut(s, d)
    ensures TimerOk(Await(env, s, d))
  {
    var s1 := AddWaiting(if d in s.waiting then s else Note(s, Entered(d)), d);
    CoreAwait(env, s, d);
    if s1.waiting[0] == d {
      if d !in s.waiting { ListedAppend(s.results, s.devices, s.waiting, s.clock.now, d); }
      ResetArms(env, s1);
    } else {
      assert s1.waiting[0] == s.waiting[0];
    }
  }

  lemma AnnounceArms<K>(env: Env, s: State<K>, d: K, evType: Byte)
    requires Core(s) && Placed(s, d, evType) && TimerOkBut(s, d) && (s.config.passive ==> TimerOk(s))
    requires evType == SCAN_RSP || !Scannable(s.devices[d]) ==> d !in s.waiting
    ensures TimerOk(Announce(env, s, d, evType))
  {
    CoreDiscover(s, d, evType);
    var s1 := DiscoverOnce(s, d);
    assert TimerOkBut(s1, d);
    if !(s1.config.passive || !Scannable(s1.devices[d]) || evType == SCAN_RSP) {
      AwaitArms(env, s1, d);
    }
  }

  lemma DeliverArms<K>(env: Env, s: State<K>, d: K, evType: Byte)
    requires Core(s) && Placed(s, d, evType) && TimerOkBut(s, d) && (s.config.passive ==> TimerOk(s))
    requires evType == SCAN_RSP || !Scannable(s.devices[d]) ==> d !in s.waiting
    ensures TimerOk(Deliver(env, s, d, evType))
  {
    AnnounceArms(env, s, d, evType);
    CoreAnnounce(env, s, d, evType);
    EraseArms(env, Announce(env, s, d, evType), d);
  }

  lemma AnsweredArms<K>(env: Env, s: State<K>, d: K)
    requires Core(s) && TimerOk(s) && d in s.results
    ensures TimerOk(Deliver(env, EndStay(env, ReadClock(env, s), d, Cause.ScanResponse), d, SCAN_RSP))
  {
    var s1 := ReadClock(env, s);
    ListedLater(s.results, s.devices, s.waiting, s.clock.now, s1.clock.now);
    CoreRemove(env, s1, d);
    RemoveArms(env, s1, d);
    var s2 := EndStay(env, s1, d, Cause.ScanResponse);
    assert Core(s2) && TimerOk(s2);
    DeliverArms(env, s2, d, SCAN_RSP);
  }

  lemma RepeatArms<K>(env: Env, s: State<K>, d: K, evType: Byte)
    requires Core(s) && TimerOk(s) && d in s.results && evType != SCAN_RSP
    requires s.config.passive && Scannable(s.devices[d]) ==> s.waiting != [] && s.waiting != [d]
    ensures TimerOk(Deliver(env, Refresh(env, s, d), d, evType))
  {
    CoreRefresh(env, s, d, evType);
    RefreshArms(env, s, d);
    RefreshShape(env, s, d);
    DeliverArms(env, Refresh(env, s, d), d, evType);
  }

  lemma HeardArms<K>(env: Env, s: State<K>, e: Event<K>)
    requires Core(s) && TimerOk(s) && e.Advertised? && Legal(s, e)
    requires s.config.passive ==> !LoneRepeat(s, e)
    ensures TimerOk(Heard(env, s, e))
  {
    if !s.config.scanning || e.connected { return; }
    match Find(s, e.address)
    case None =>
      if e.key.None? { return; }
      CoreNew(env, s, e);
      DeliverArms(env, NewDevice(env, s, e.address, e.evType, e.key.value), e.key.value, e.evType);
    case Some(d) =>
      if e.evType == SCAN_RSP {
        AnsweredArms(env, s, d);
      } else {
        RepeatArms(env, s, d, e.evType);
      }
  }

  /** The callback consumed its expiry, so it must arm again whatever it finds. */
  lemma OnTimerArms<K>(env: Env, s: State<K>)
    requires Core(s)
    ensures TimerOk(OnTimer(env, s))
  {
    if s.waiting != [] {
      var d, s1 := s.waiting[0], ReadClock(env, s);
      ListedLater(s.results, s.devices, s.waiting, s.clock.now, s1.clock.now);
      ResetArms(env, s1);
      ExpireArms(env, s1, Cause.Timeout);
      CoreExpire(env, s1, Cause.Timeout);
      EraseArms(env, Expire(env, s1, Cause.Timeout), d);
    }
  }

  lemma ExpireArms<K>(env: Env, s: State<K>, c: Cause)
    requires Core(s) && s.waiting != []
    ensures TimerOk(Expire(env, s, c))
  {
    var w := Without(s.waiting, s.waiting[0]);
    ListedWithout(s.results, s.devices, s.waiting, s.clock.now, s.waiting[0]);
    ResetArms(env, s.(waiting := w));
  }

  /** A repeat advertisement that finds the list empty, or holding its own sender alone. */
  ghost predicate LoneRepeat<K>(s: State<K>, e: Event<K>)
    requires Keyed(s)
  {
    && e.Advertised? && e.evType != SCAN_RSP && s.config.scanning && !e.connected
    && Find(s, e.address).Some?
    && var d := Find(s, e.address).value;
       Scannable(s.devices[d]) && (s.waiting == [] || s.waiting == [d])
  }

  /** Every step keeps the timer right, except a lone repeat heard in passive mode. */
  lemma TimerStep<K>(env: Env, s: State<K>, e: Event<K>)
    requires Core(s) && TimerOk(s) && Legal(s, e)
    requires s.config.passive ==> !LoneRepeat(s, e)
    ensures TimerOk(Step(env, s, e))
  {
    match e
    case Advertised(_, _, _, _) => HeardArms(env, s, e);
    case TimerCallback => OnTimerArms(env, s.(callout := s.callout.(pending := false)));
    case ScanComplete => CoreComplete(env, s);
    case Erase(d) => EraseArms(env, s, d);
    case EraseAddress(a) => if Find(s, a).Some? { EraseArms(env, s, Find(s, a).value); }
    case SetTimeout(ticks) => ResetArms(env, s.(config := s.config.(timeout := ticks)));
    case _ =>
  }

  ghost predicate SameTimer<K>(s: State<K>, r: State<K>) {
    && r.callout == s.callout && r.config == s.config
  }

  lemma PassiveDeliver<K>(env: Env, s: State<K>, d: K, evType: Byte)
    requires Keyed(s) && d in s.results && s.config.passive && s.config.maxResults != 0
    ensures var r := Deliver(env, s, d, evType);
            SameTimer(s, r) && r.waiting == s.waiting && r.devices[d].stamp == s.devices[d].stamp && r.clock == s.clock
  {}

  lemma LoneRefresh<K>(env: Env, s: State<K>, d: K)
    requires Core(s) && d in s.results && Scannable(s.devices[d]) && (s.waiting == [] || s.waiting == [d])
    ensures var r := Refresh(env, s, d);
            SameTimer(s, r) && r.waiting == [d]
            && r.devices[d].stamp == r.clock.now == s.clock.now + env.tick(s.clock.queries)
  {
    assert Without(s.waiting, d) == [];
  }

  lemma LoneDropped<K>(env: Env, s: State<K>, d: K, evType: Byte)
    requires Keyed(s) && d in s.results && s.waiting == [d] && s.devices[d].callbackSent == 0
    requires s.config.passive && s.config.maxResults == 0
    ensures Deliver(env, s, d, evType).waiting == []
  {}

  lemma LoneStep<K>(env: Env, s: State<K>, e: Event<K>, d: K)
    requires Core(s) && LoneRepeat(s, e) && Find(s, e.address) == Some(d)
    ensures d in s.results && Step(env, s, e) == Deliver(env, Refresh(env, s, d), d, e.evType)
    ensures Refresh(env, s, d).devices[d].callbackSent == 0
  {}

  /** When the timer that was there is still the right one for a device just stamped. */
  ghost predicate StillRight<K>(env: Env, s: State<K>) {
    || s.config.timeout == 0 || !s.callout.ready || s.callout.pending || s.config.maxResults == 0
    || (env.tick(s.clock.queries) == 0 && s.callout.timer == Armed(s.clock.now, s.config.timeout))
  }

  /** A device stamped just now waits alone, and the callout is the old one. */
  lemma LoneTimer<K>(env: Env, s: State<K>, t: State<K>, d: K)
    requires ArmedBefore(s) && Keyed(t) && SameTimer(s, t) && t.waiting == [d] && s.config.maxResults != 0
    requires t.devices[d].stamp == t.clock.now == s.clock.now + env.tick(s.clock.queries)
    ensures TimerOk(t) <==> StillRight(env, s)
  {}

  /**
   * The exception is real.  On a passive lone repeat the device is re-stamped and re-listed
   * but the callout is not touched: the timer is right afterwards if and only if it does not
   * matter, or the device is dropped, or the timer was armed in this very tick.
   */
  lemma PassiveRepeatExactly<K>(env: Env, s: State<K>, e: Event<K>)
    requires Core(s) && LoneRepeat(s, e) && s.config.passive
    ensures TimerOk(Step(env, s, e)) <==> StillRight(env, s)
  {
    var d := Find(s, e.address).value;
    LoneStep(env, s, e, d);
    LoneRefresh(env, s, d);
    if s.config.maxResults == 0 {
      LoneDropped(env, Refresh(env, s, d), d, e.evType);
    } else {
      PassiveDeliver(env, Refresh(env, s, d), d, e.evType);
      LoneTimer(env, s, Step(env, s, e), d);
    }
  }

  /** So of all steps exactly these can lose the timer. */
  lemma TimerExactly<K>(env: Env, s: State<K>, e: Event<K>)
    requires Core(s) && TimerOk(s) && Legal(s, e)
    ensures TimerOk(Step(env, s, e)) <==> (s.config.passive && LoneRepeat(s, e) ==> StillRight(env, s))
  {
    if s.config.passive && LoneRepeat(s, e) {
      PassiveRepeatExactly(env, s, e);
    } else {
      TimerStep(env, s, e);
    }
  }

  // ---- what being armed means ------------------------------------------------

  /**
   * The delay is computed from a wrapped subtraction.  The deadline is the one
   * intended, the device's due time or one tick from arming if that is past,
   * exactly when the device has waited less than 2^32 ticks or its wrapped age
   * still reads as (all but) due.
   */
  lemma DeadlineExact(at: nat, stamp: nat, timeout: UInt32)
    requires stamp <= at && timeout > 0
    ensures at + WaitFor(at, stamp, timeout) == Max(at + 1, stamp + timeout)
       <==> at - stamp < WRAP || (at - stamp) % WRAP + 1 >= timeout
  {
    ElapsedExact(at, stamp);
  }

  /** The head is due no later than anyone else, so the one timer serves them all. */
  lemma HeadDueFirst<K>(s: State<K>, k: nat)
    requires Core(s) && TimerOk(s) && k < |s.waiting|
    requires s.config.timeout > 0 && s.callout.ready && !s.callout.pending
    requires s.callout.timer.Armed? ==> s.callout.timer.at - s.devices[s.waiting[0]].stamp < WRAP
    ensures s.callout.timer.Armed? && s.devices[s.waiting[0]].stamp <= s.devices[s.waiting[k]].stamp
    ensures s.callout.timer.at + s.callout.timer.wait == Max(s.callout.timer.at + 1, s.devices[s.waiting[0]].stamp + s.config.timeout)
    ensures s.callout.timer.at + s.callout.timer.wait <= Max(s.callout.timer.at + 1, s.devices[s.waiting[k]].stamp + s.config.timeout)
  {
    DeadlineExact(s.callout.timer.at, s.devices[s.waiting[0]].stamp, s.config.timeout);
  }

  /**
   * A stay never times out early: when the callback shortens the list, it has
   * taken the head only, and the head has waited the full timeout.
   */
  lemma NeverEarly<K>(env: Env, s: State<K>)
    requires Core(s) && s.waiting != [] && OnTimer(env, s).waiting != s.waiting
    ensures OnTimer(env, s).waiting == s.waiting[1..]
    ensures ReadClock(env, s).clock.now - s.devices[s.waiting[0]].stamp >= s.config.timeout
  {
    var s1, head := ReadClock(env, s), s.waiting[0];
    ElapsedExact(s1.clock.now, s.devices[head].stamp);
    ListedLater(s.results, s.devices, s.waiting, s.clock.now, s1.clock.now);
    CoreExpire(env, s1, Cause.Timeout);
    WithoutAbsent(s.waiting[1..], head);
  }
}
