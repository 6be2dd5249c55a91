/**
 * What an advertisement, the timer and the end of the scan tell the user: the
 * journal entries of each step in full, and what they add up to over runs.
 */
module ScanReports {
  import opened Base
  import opened BleAddress
  import opened ScanSpec
  import opened ScanTheorems
  import opened ScanTimer
  import opened ScanRuns

  // ---- which device an advertisement is about --------------------------------

  /** `k` is the first place in the results that holds the address. */
  ghost predicate FirstAt<K>(s: State<K>, a: Address, k: nat)
    requires Keyed(s)
  {
    && k < |s.results| && s.devices[s.results[k]].address == a
    && forall j :: 0 <= j < k ==> s.devices[s.results[j]].address != a
  }

  lemma {:induction false} FindFromAt<K>(s: State<K>, a: Address, i: nat, k: nat)
    requires Keyed(s) && i <= k && FirstAt(s, a, k)
    ensures FindFrom(s, a, i) == Some(s.results[k])
    decreases k - i
  {
    if i < k { FindFromAt(s, a, i + 1, k); }
  }

  lemma {:induction false} FindFromNone<K>(s: State<K>, a: Address, i: nat)
    requires Keyed(s) && i <= |s.results|
    requires forall j :: i <= j < |s.results| ==> s.devices[s.results[j]].address != a
    ensures FindFrom(s, a, i).None?
    decreases |s.results| - i
  {
    if i < |s.results| { FindFromNone(s, a, i + 1); }
  }

  /** An advertisement is about the first result with its address, and about none only if none has it. */
  lemma FindIsFirst<K>(s: State<K>, a: Address)
    requires Keyed(s)
    ensures forall k: nat :: FirstAt(s, a, k) ==> Find(s, a) == Some(s.results[k])
    ensures (forall j :: 0 <= j < |s.results| ==> s.devices[s.results[j]].address != a) <==> Find(s, a).None?
  {
    forall k: nat | FirstAt(s, a, k) ensures Find(s, a) == Some(s.results[k]) { FindFromAt(s, a, 0, k); }
    if forall j :: 0 <= j < |s.results| ==> s.devices[s.results[j]].address != a {
      FindFromNone(s, a, 0);
    } else {
      var k := FirstPlace(s, a, 0);
      assert FirstAt(s, a, k);
    }
  }

  lemma {:induction false} FirstPlace<K>(s: State<K>, a: Address, i: nat) returns (k: nat)
    requires Keyed(s) && i <= |s.results|
    requires forall j :: 0 <= j < i ==> s.devices[s.results[j]].address != a
    requires exists j :: i <= j < |s.results| && s.devices[s.results[j]].address == a
    ensures FirstAt(s, a, k)
    decreases |s.results| - i
  {
    if s.devices[s.results[i]].address == a { k := i; } else { k := FirstPlace(s, a, i + 1); }
  }

  /** Listening, and the advertiser is not connected. */
  ghost predicate Listens<K>(s: State<K>, e: Event<K>) {
    e.Advertised? && s.config.scanning && !e.connected
  }

  /** An unknown address, and room for one result more: 0 and 255 are no limits. */
  ghost predicate Adds<K>(s: State<K>, e: Event<K>, d: K)
    requires Keyed(s)
  {
    && Listens(s, e) && Find(s, e.address).None? && e.key == Some(d)
    && (s.config.maxResults == 0 || s.config.maxResults == 255 || |s.results| < s.config.maxResults)
  }

  ghost predicate Hears<K>(s: State<K>, e: Event<K>, d: K)
    requires Keyed(s)
  {
    Listens(s, e) && Find(s, e.address) == Some(d)
  }

  ghost predicate Concerns<K>(s: State<K>, e: Event<K>, d: K)
    requires Keyed(s)
  {
    Adds(s, e, d) || Hears(s, e, d)
  }

  function TypeOf<K>(devices: map<K, Device>, d: K, evType: Byte): Byte {
    if d in devices then devices[d].advType else evType
  }

  /** No scan response is to be waited for: the scan is passive, the advertiser is not scannable, or here it is. */
  predicate NoWait(passive: bool, advType: Byte, evType: Byte) {
    passive || (advType != 0 && advType != 2) || evType == 4
  }

  // ---- the entries of one advertisement --------------------------------------

  lemma AnnounceOnce<K>(env: Env, s: State<K>, d: K, evType: Byte)
    requires Keyed(s) && d in s.results && NoWait(s.config.passive, s.devices[d].advType, evType)
    ensures var t := Announce(env, s, d, evType);
            && t.journal == s.journal + (if s.devices[d].callbackSent == 0 then [Discovered(d), Reported(d)] else [Reported(d)])
            && t.waiting == s.waiting && t.config == s.config
            && t.devices[d].callbackSent == (if s.devices[d].callbackSent == 0 then 2 else (s.devices[d].callbackSent + 1) % 256)
  {}

  lemma AnnounceWait<K>(env: Env, s: State<K>, d: K, evType: Byte)
    requires Keyed(s) && d in s.results && !NoWait(s.config.passive, s.devices[d].advType, evType)
    requires s.devices[d].callbackSent == 0
    ensures var t := Announce(env, s, d, evType);
            && t.journal == s.journal + (if d in s.waiting then [Discovered(d)] else [Discovered(d), Entered(d)])
            && t.waiting == (if d in s.waiting then s.waiting else s.waiting + [d])
            && t.config == s.config && t.devices[d].callbackSent == 1
  {}

  lemma DropEntries<K>(env: Env, s: State<K>, d: K)
    requires Keyed(s) && d in s.results
    ensures var t := DropReported(env, s, d);
            if s.config.maxResults == 0 && s.devices[d].callbackSent >= 2
            then && t.journal == s.journal + (if d in s.waiting then [Left(d, Cause.Erased)] else [])
                 && t.waiting == Without(s.waiting, d) && t.results == Without(s.results, d)
            else t.journal == s.journal && t.waiting == s.waiting && t.results == s.results
  {
    if d !in s.waiting { WithoutAbsent(s.waiting, d); }
  }

  lemma {:induction false} WithoutAbsentLast<T>(s: seq<T>, x: T)
    requires x !in s
    ensures Without(s + [x], x) == s
  {
    if s == [] {
      assert ([x])[1..] == [];
    } else {
      ConsConcat(s, [x]);
      WithoutAbsentLast(s[1..], x);
    }
  }

  /** A first advertisement: `onDiscovered`, and then `onResult` or a place at the tail of the list. */
  lemma FirstHeard<K>(env: Env, s: State<K>, e: Event<K>, d: K)
    requires Core(s) && Legal(s, e) && Adds(s, e, d)
    ensures var t := Step(env, s, e);
            if NoWait(s.config.passive, e.evType, e.evType)
            then && t.journal == s.journal + [Discovered(d), Reported(d)] && t.waiting == s.waiting
                 && t.results == (if s.config.maxResults == 0 then s.results else s.results + [d])
            else && t.journal == s.journal + [Discovered(d), Entered(d)] && t.waiting == s.waiting + [d]
                 && t.results == s.results + [d]
  {
    var s1 := NewDevice(env, s, e.address, e.evType, d);
    var s2 := Announce(env, s1, d, e.evType);
    if NoWait(s.config.passive, e.evType, e.evType) {
      AnnounceOnce(env, s1, d, e.evType);
    } else {
      AnnounceWait(env, s1, d, e.evType);
    }
    DropEntries(env, s2, d);
    WithoutAbsentLast(s.results, d);
    WithoutAbsent(s.waiting, d);
  }

  /** A repeat: a scannable device moves to the tail, `onDiscovered`, and `onResult` if there is nothing to wait for. */
  lemma RepeatHeard<K>(env: Env, s: State<K>, e: Event<K>, d: K)
    requires Core(s) && Hears(s, e, d) && e.evType != 4
    ensures var t, scannable := Step(env, s, e), s.devices[d].advType == 0 || s.devices[d].advType == 2;
            var moved := if !scannable then [] else if d in s.waiting then [Requeued(d)] else [Entered(d)];
            if NoWait(s.config.passive, s.devices[d].advType, e.evType)
            then && t.journal == s.journal + moved + [Discovered(d), Reported(d)]
                       + (if s.config.maxResults == 0 && scannable then [Left(d, Cause.Erased)] else [])
                 && t.waiting == (if scannable && s.config.maxResults != 0 then Without(s.waiting, d) + [d] else Without(s.waiting, d))
                 && t.results == (if s.config.maxResults == 0 then Without(s.results, d) else s.results)
            else && t.journal == s.journal + moved + [Discovered(d)]
                 && t.waiting == Without(s.waiting, d) + [d] && t.results == s.results
  {
    var s1 := Refresh(env, s, d);
    RefreshShape(env, s, d);
    RefreshEntries(env, s, d);
    var s2 := Announce(env, s1, d, e.evType);
    if d !in s.waiting { WithoutAbsent(s.waiting, d); }
    if NoWait(s.config.passive, s.devices[d].advType, e.evType) {
      AnnounceOnce(env, s1, d, e.evType);
    } else {
      AnnounceWait(env, s1, d, e.evType);
    }
    DropEntries(env, s2, d);
    WithoutAbsentLast(Without(s.waiting, d), d);
  }

  lemma RefreshEntries<K>(env: Env, s: State<K>, d: K)
    requires Keyed(s) && d in s.results
    ensures var r, scannable := Refresh(env, s, d), s.devices[d].advType == 0 || s.devices[d].advType == 2;
            && r.journal == s.journal + (if !scannable then [] else if d in s.waiting then [Requeued(d)] else [Entered(d)])
            && r.devices[d].callbackSent == 0 && r.devices[d].advType == s.devices[d].advType && r.config == s.config
  {}

  /** A scan response ends the wait, if there was one, and `onResult` follows; `onDiscovered` only if it was still due. */
  lemma ResponseHeard<K>(env: Env, s: State<K>, e: Event<K>, d: K)
    requires Core(s) && Hears(s, e, d) && e.evType == 4
    ensures var t := Step(env, s, e);
            && t.journal == s.journal + (if d in s.waiting then [Left(d, Cause.ScanResponse)] else [])
                  + (if s.devices[d].callbackSent == 0 then [Discovered(d), Reported(d)] else [Reported(d)])
            && t.waiting == Without(s.waiting, d)
            && t.results == (if s.config.maxResults == 0 && s.devices[d].callbackSent != 255 then Without(s.results, d) else s.results)
  {
    var s1 := EndStay(env, ReadClock(env, s), d, Cause.ScanResponse);
    ResponseEntries(env, s, d);
    DeliverResponse(env, s1, d);
  }

  lemma ResponseEntries<K>(env: Env, s: State<K>, d: K)
    requires Keyed(s) && d in s.results
    ensures var r := EndStay(env, ReadClock(env, s), d, Cause.ScanResponse);
            && r.journal == s.journal + (if d in s.waiting then [Left(d, Cause.ScanResponse)] else [])
            && r.waiting == Without(s.waiting, d) && r.results == s.results && r.devices == s.devices && r.config == s.config
  {
    if d !in s.waiting { WithoutAbsent(s.waiting, d); }
  }

  lemma DeliverResponse<K>(env: Env, s: State<K>, d: K)
    requires Keyed(s) && d in s.results && d !in s.waiting
    ensures var t, sent := Deliver(env, s, d, 4), s.devices[d].callbackSent;
            && t.journal == s.journal + (if sent == 0 then [Discovered(d), Reported(d)] else [Reported(d)])
            && t.waiting == s.waiting
            && t.results == (if s.config.maxResults == 0 && sent != 255 then Without(s.results, d) else s.results)
  {
    AnnounceOnce(env, s, d, 4);
    DropEntries(env, Announce(env, s, d, 4), d);
    WithoutAbsent(s.waiting, d);
  }

  // ---- the entries of every other event --------------------------------------

  /** The queued expiry finds a head whose time is over. */
  ghost predicate HeadDue<K>(env: Env, s: State<K>)
    requires Keyed(s)
  {
    && s.callout.pending && s.waiting != []
    && Elapsed(s.clock.now + env.tick(s.clock.queries), s.devices[s.waiting[0]].stamp) >= s.config.timeout
  }

  /** The timer callback gives up on the head exactly if it is due: `onResult` without a response. */
  lemma TimerEntries<K>(env: Env, s: State<K>)
    requires Core(s)
    ensures var t := Step(env, s, TimerCallback);
            if HeadDue(env, s)
            then && t.journal == s.journal + [Left(s.waiting[0], Timeout), Reported(s.waiting[0])] && t.waiting == s.waiting[1..]
                 && t.results == (if s.config.maxResults == 0 then Without(s.results, s.waiting[0]) else s.results)
            else t.journal == s.journal && t.waiting == s.waiting && t.results == s.results
  {
    if HeadDue(env, s) {
      var s1 := ReadClock(env, s.(callout := s.callout.(pending := false)));
      ListedLater(s.results, s.devices, s.waiting, s.clock.now, s1.clock.now);
      GivesUp(env, s1, s.waiting[0]);
      DueStep(env, s, s1);
    }
  }

  lemma DueStep<K>(env: Env, s: State<K>, s1: State<K>)
    requires Keyed(s) && HeadDue(env, s) && s1 == ReadClock(env, s.(callout := s.callout.(pending := false)))
    ensures var r := Expire(env, s1, Cause.Timeout);
            Step(env, s, TimerCallback) == if r.config.maxResults == 0 then EraseKey(env, r, s.waiting[0]) else r
  {}

  lemma GivesUp<K>(env: Env, s: State<K>, d: K)
    requires Core(s) && s.waiting != [] && s.waiting[0] == d
    ensures var r := Expire(env, s, Cause.Timeout);
            && r.journal == s.journal + [Left(d, Timeout), Reported(d)] && r.waiting == s.waiting[1..]
            && r.results == s.results && r.config == s.config
            && EraseKey(env, r, d).journal == r.journal && EraseKey(env, r, d).waiting == r.waiting
            && EraseKey(env, r, d).results == Without(s.results, d)
  {
    var r := Expire(env, s, Cause.Timeout);
    CoreExpire(env, s, Cause.Timeout);
    ExpireNotes(env, s, Cause.Timeout);
    ErasedEntries(env, r, d);
    WithoutAbsent(r.waiting, d);
  }

  lemma EraseStep<K>(env: Env, s: State<K>, d: K)
    requires Keyed(s)
    ensures Step(env, s, Erase(d)) == EraseKey(env, s, d)
  {}

  /** Erasing by address takes out the first result that has it. */
  lemma AddressEntries<K>(env: Env, s: State<K>, a: Address, k: nat)
    requires Core(s)
    ensures FirstAt(s, a, k) ==>
              var t := Step(env, s, EraseAddress(a));
              t.results == Without(s.results, s.results[k]) && t.waiting == Without(s.waiting, s.results[k])
    ensures (forall j :: 0 <= j < |s.results| ==> s.devices[s.results[j]].address != a) ==> Step(env, s, EraseAddress(a)) == s
  {
    FindIsFirst(s, a);
    AddressStep(env, s, a);
    if FirstAt(s, a, k) { ErasedEntries(env, s, s.results[k]); }
  }

  lemma AddressStep<K>(env: Env, s: State<K>, a: Address)
    requires Keyed(s)
    ensures Step(env, s, EraseAddress(a)) == if Find(s, a).Some? then EraseKey(env, s, Find(s, a).value) else s
  {}

  /** Erasing takes the device out of the results, and out of the list if it waits. */
  lemma ErasedEntries<K>(env: Env, s: State<K>, d: K)
    requires Core(s)
    ensures var t := EraseKey(env, s, d);
            && t.journal == s.journal + (if d in s.waiting then [Left(d, Cause.Erased)] else [])
            && t.waiting == Without(s.waiting, d) && t.results == Without(s.results, d)
  {
    if d !in s.waiting { WithoutAbsent(s.waiting, d); }
    if d !in s.results { WithoutAbsent(s.results, d); }
  }

  lemma {:induction false} DrainKeeps<K>(env: Env, s: State<K>)
    requires Keyed(s)
    ensures Drain(env, s).results == s.results && Drain(env, s).config == s.config
    decreases |s.waiting|
  {
    if s.waiting != [] {
      ExpireKeeps(env, s);
      DrainKeeps(env, Expire(env, s, Cause.Complete));
    }
  }

  lemma ExpireKeeps<K>(env: Env, s: State<K>)
    requires Keyed(s) && s.waiting != []
    ensures var r := Expire(env, s, Cause.Complete);
            r.results == s.results && r.config == s.config && |r.waiting| < |s.waiting|
  {}

  /** The end of the scan reports all who wait, oldest first, and then `onScanEnd`. */
  lemma CompleteEntries<K>(env: Env, s: State<K>)
    requires Core(s)
    ensures var t := Step(env, s, ScanComplete);
            && t.journal == s.journal + Farewells(s.waiting) + [ScanEnded] && t.waiting == []
            && t.results == (if s.config.maxResults == 0 && !s.config.scanning then [] else s.results)
  {
    DrainReportsAll(env, StopTimer(s));
    DrainKeeps(env, StopTimer(s));
    CoreDrain(env, StopTimer(s));
  }

  /** A stop the stack accepts ends the scan and every wait, without an `onResult`. */
  lemma StopEntries<K>(env: Env, s: State<K>, accepted: bool)
    requires Core(s)
    ensures var t := Step(env, s, Stop(accepted));
            if !accepted then t == s
            else && t.journal == s.journal + Departures(s.waiting) && t.waiting == [] && !t.config.scanning
                 && t.results == (if s.config.maxResults == 0 then [] else s.results)
  {}

  /** `clearResults` does nothing while the radio scans, and else forgets everybody. */
  lemma ClearEntries<K>(env: Env, s: State<K>)
    requires Core(s)
    ensures var t := Step(env, s, ClearResults);
            if s.config.scanning then t == s
            else t.journal == s.journal + Departures(s.waiting) && t.waiting == [] && t.results == [] && t.devices == map[]
  {}

  /** So does the host's shutdown with the list; the timer is gone afterwards. */
  lemma DeinitEntries<K>(env: Env, s: State<K>)
    requires Core(s)
    ensures var t := Step(env, s, HostDeinit);
            && t.journal == s.journal + Departures(s.waiting) && t.waiting == [] && t.results == s.results
            && t.callout.timer.Idle? && !t.callout.ready
  {}

  // ---- what the settings decide ------------------------------------------------

  /** After `setActiveScan` a scannable stranger is reported at once exactly if the scan is passive. */
  lemma ActiveDecides<K>(env: Env, s: State<K>, active: bool, e: Event<K>, d: K)
    requires Core(s) && Legal(s, e) && Adds(s, e, d) && (e.evType == 0 || e.evType == 2)
    ensures var t := Step(env, Step(env, s, SetActiveScan(active)), e);
            t.journal == s.journal + (if active then [Discovered(d), Entered(d)] else [Discovered(d), Reported(d)])
  {
    var s1 := Step(env, s, SetActiveScan(active));
    assert Find(s1, e.address).None? by { FindIsFirst(s, e.address); FindIsFirst(s1, e.address); }
    FirstHeard(env, s1, e, d);
  }

  /** A stranger is heard of exactly while the radio scans. */
  lemma RadioDecides<K>(env: Env, s: State<K>, active: bool, e: Event<K>, d: K)
    requires Core(s) && Legal(s, e) && e.Advertised? && !e.connected && Find(s, e.address).None? && e.key == Some(d)
    requires s.config.maxResults == 0 || s.config.maxResults == 255 || |s.results| < s.config.maxResults
    ensures var t := Step(env, Step(env, s, Radio(active)), e); (t.journal != s.journal) == active
  {
    var s1 := Step(env, s, Radio(active));
    assert Find(s1, e.address).None? by { FindIsFirst(s, e.address); FindIsFirst(s1, e.address); }
    if active { FirstHeard(env, s1, e, d); }
  }

  /** `setScanResponseTimeout` sets the time `TimerEntries` asks for, and leaves everybody in place. */
  lemma TimeoutSet<K>(env: Env, s: State<K>, ticks: UInt32)
    requires Core(s)
    ensures var u := Step(env, s, SetTimeout(ticks));
            && Core(u) && u.config == s.config.(timeout := ticks) && u.waiting == s.waiting && u.devices == s.devices
            && u.journal == s.journal && u.callout.pending == s.callout.pending
  {
    CoreStep(env, s, SetTimeout(ticks));
  }

  /** After `setMaxResults` a stranger is heard of exactly if that leaves room for it. */
  lemma MaxDecides<K>(env: Env, s: State<K>, max: Byte, e: Event<K>, d: K)
    requires Core(s) && Legal(s, e) && Listens(s, e) && Find(s, e.address).None? && e.key == Some(d)
    ensures var t := Step(env, Step(env, s, SetMaxResults(max)), e);
            (t.journal != s.journal) == (max == 0 || max == 255 || |s.results| < max)
  {
    var s1 := Step(env, s, SetMaxResults(max));
    assert Find(s1, e.address).None? by { FindIsFirst(s, e.address); FindIsFirst(s1, e.address); }
    if max == 0 || max == 255 || |s.results| < max {
      FirstHeard(env, s1, e, d);
    }
  }

  // ---- reports over a run --------------------------------------------------------

  /** An advertisement of `d` after which nothing is waited for. */
  ghost predicate AtOnce<K>(s: State<K>, e: Event<K>, d: K)
    requires Keyed(s)
  {
    Concerns(s, e, d) && NoWait(s.config.passive, TypeOf(s.devices, d, e.evType), e.evType)
  }

  ghost function Direct<K>(env: Env, s: State<K>, es: seq<Event<K>>, d: K): nat
    requires Keyed(s)
    decreases |es|
  {
    if es == [] then 0 else (if AtOnce(s, es[0], d) then 1 else 0) + Direct(env, Step(env, s, es[0]), es[1..], d)
  }

  /** The stays of `d` that ended by timeout or at the end of the scan. */
  ghost function GivenUp<K>(l: seq<Entry<K>>, d: K): nat {
    if l == [] then 0
    else (if l[0] == Left(d, Timeout) || l[0] == Left(d, Complete) then 1 else 0) + GivenUp(l[1..], d)
  }

  /** What an entry adds to the reports of `d` beyond the stays given up. */
  ghost function Weight<K>(e: Entry<K>, d: K): int {
    if e == Reported(d) then 1 else if e == Left(d, Timeout) || e == Left(d, Complete) then -1 else 0
  }

  ghost function Beyond<K>(l: seq<Entry<K>>, d: K): int {
    if l == [] then 0 else Weight(l[0], d) + Beyond(l[1..], d)
  }

  lemma {:induction false} BeyondIs<K>(l: seq<Entry<K>>, d: K)
    ensures Beyond(l, d) == Reports(l, d) - GivenUp(l, d)
  {
    if l != [] { BeyondIs(l[1..], d); }
  }

  lemma {:induction false} BeyondConcat<K>(l: seq<Entry<K>>, m: seq<Entry<K>>, d: K)
    ensures Beyond(l + m, d) == Beyond(l, d) + Beyond(m, d)
    decreases |l|
  {
    if l == [] {
      assert l + m == m;
    } else {
      ConsConcat(l, m);
      BeyondConcat(l[1..], m, d);
    }
  }

  /** One entry more. */
  lemma BeyondOne<K>(l: seq<Entry<K>>, e: Entry<K>, d: K)
    ensures Beyond(l + [e], d) == Beyond(l, d) + Weight(e, d)
  {
    assert [e][1..] == [];
    BeyondConcat(l, [e], d);
  }

  lemma BeyondTwo<K>(l: seq<Entry<K>>, e: Entry<K>, f: Entry<K>, d: K)
    ensures Beyond(l + [e, f], d) == Beyond(l, d) + Weight(e, d) + Weight(f, d)
  {
    assert l + [e, f] == l + [e] + [f];
    BeyondOne(l, e, d);
    BeyondOne(l + [e], f, d);
  }

  lemma {:induction false} BeyondFarewells<K>(l: seq<Entry<K>>, w: seq<K>, d: K)
    ensures Beyond(l + Farewells(w), d) == Beyond(l, d)
    decreases |w|
  {
    if w == [] {
      assert l + Farewells(w) == l;
    } else {
      Assoc(l, [Left(w[0], Complete), Reported(w[0])], Farewells(w[1..]));
      BeyondTwo<K>(l, Left(w[0], Complete), Reported(w[0]), d);
      BeyondFarewells(l + [Left(w[0], Complete), Reported(w[0])], w[1..], d);
    }
  }

  lemma {:induction false} BeyondDepartures<K>(l: seq<Entry<K>>, w: seq<K>, d: K)
    ensures Beyond(l + Departures(w), d) == Beyond(l, d)
    decreases |w|
  {
    if w == [] {
      assert l + Departures(w) == l;
    } else {
      Assoc(l, [Left(w[0], Cleared)], Departures(w[1..]));
      BeyondOne<K>(l, Left(w[0], Cleared), d);
      BeyondDepartures(l + [Left(w[0], Cleared)], w[1..], d);
    }
  }

  /** Entries about `x`: whether it moved, its callbacks, and whether it was listed or dropped. */
  ghost predicate Pieces<K>(moved: seq<Entry<K>>, calls: seq<Entry<K>>, last: seq<Entry<K>>, x: K) {
    && (moved == [] || moved == [Requeued(x)] || moved == [Entered(x)] || moved == [Left(x, Cause.ScanResponse)])
    && (calls == [Discovered(x)] || calls == [Reported(x)] || calls == [Discovered(x), Reported(x)])
    && (last == [] || last == [Left(x, Cause.Erased)] || last == [Entered(x)])
  }

  /**
   * Every advertisement adds such pieces.  `onResult` is among them exactly if nothing is
   * waited for, and if it is not, the device waits; nobody else comes or goes.
   */
  lemma HeardPieces<K>(env: Env, s: State<K>, e: Event<K>, x: K)
    returns (moved: seq<Entry<K>>, calls: seq<Entry<K>>, last: seq<Entry<K>>)
    requires Core(s) && Legal(s, e) && Concerns(s, e, x)
    ensures Pieces(moved, calls, last, x) && Step(env, s, e).journal == s.journal + moved + calls + last
    ensures calls == [Discovered(x)] <==> !AtOnce(s, e, x)
    ensures calls == [Discovered(x)] ==> x in Step(env, s, e).waiting && (last == [] || last == [Entered(x)])
    ensures x in Step(env, s, e).waiting && !s.config.passive ==> calls == [Discovered(x)]
    ensures forall y :: y != x ==> (y in Step(env, s, e).waiting <==> y in s.waiting)
  {
    if Find(s, e.address).None? {
      moved, calls, last := FirstPieces(env, s, e, x);
    } else if e.evType == 4 {
      moved, calls, last := ResponsePieces(env, s, e, x);
    } else {
      moved, calls, last := RepeatPieces(env, s, e, x);
    }
  }

  lemma FirstPieces<K>(env: Env, s: State<K>, e: Event<K>, x: K)
    returns (moved: seq<Entry<K>>, calls: seq<Entry<K>>, last: seq<Entry<K>>)
    requires Core(s) && Legal(s, e) && Adds(s, e, x)
    ensures Pieces(moved, calls, last, x) && Step(env, s, e).journal == s.journal + moved + calls + last
    ensures calls == [Discovered(x)] <==> !AtOnce(s, e, x)
    ensures calls == [Discovered(x)] <==> x in Step(env, s, e).waiting
    ensures calls == [Discovered(x)] ==> last == [Entered(x)]
    ensures forall y :: y != x ==> (y in Step(env, s, e).waiting <==> y in s.waiting)
  {
    FirstHeard(env, s, e, x);
    moved, calls, last := FirstShape(s.journal, NoWait(s.config.passive, e.evType, e.evType), x);
  }

  lemma FirstShape<K>(l: seq<Entry<K>>, once: bool, x: K)
    returns (moved: seq<Entry<K>>, calls: seq<Entry<K>>, last: seq<Entry<K>>)
    ensures Pieces(moved, calls, last, x)
    ensures l + moved + calls + last == l + if once then [Discovered(x), Reported(x)] else [Discovered(x), Entered(x)]
    ensures (calls == [Discovered(x)] <==> !once) && (calls == [Discovered(x)] ==> last == [Entered(x)])
  {
    moved, calls, last := [], if once then [Discovered(x), Reported(x)] else [Discovered(x)], if once then [] else [Entered(x)];
    assert l + moved + calls + last == l + (calls + last);
  }

  lemma ResponsePieces<K>(env: Env, s: State<K>, e: Event<K>, x: K)
    returns (moved: seq<Entry<K>>, calls: seq<Entry<K>>, last: seq<Entry<K>>)
    requires Core(s) && Hears(s, e, x) && e.evType == 4
    ensures Pieces(moved, calls, last, x) && Step(env, s, e).journal == s.journal + moved + calls + last
    ensures calls != [Discovered(x)] && AtOnce(s, e, x)
    ensures x !in Step(env, s, e).waiting && forall y :: y != x ==> (y in Step(env, s, e).waiting <==> y in s.waiting)
  {
    ResponseHeard(env, s, e, x);
    moved := if x in s.waiting then [Left(x, Cause.ScanResponse)] else [];
    calls := if s.devices[x].callbackSent == 0 then [Discovered(x), Reported(x)] else [Reported(x)];
    last := [];
    assert s.journal + moved + calls + last == s.journal + moved + calls;
  }

  lemma RepeatPieces<K>(env: Env, s: State<K>, e: Event<K>, x: K)
    returns (moved: seq<Entry<K>>, calls: seq<Entry<K>>, last: seq<Entry<K>>)
    requires Core(s) && Hears(s, e, x) && e.evType != 4
    ensures Pieces(moved, calls, last, x) && Step(env, s, e).journal == s.journal + moved + calls + last
    ensures calls == [Discovered(x)] <==> !AtOnce(s, e, x)
    ensures calls == [Discovered(x)] ==> x in Step(env, s, e).waiting && last == []
    ensures x in Step(env, s, e).waiting && !s.config.passive ==> calls == [Discovered(x)]
    ensures forall y :: y != x ==> (y in Step(env, s, e).waiting <==> y in s.waiting)
  {
    var once := NoWait(s.config.passive, s.devices[x].advType, e.evType);
    RepeatHeard(env, s, e, x);
    var scannable := s.devices[x].advType == 0 || s.devices[x].advType == 2;
    moved := if !scannable then [] else if x in s.waiting then [Requeued(x)] else [Entered(x)];
    calls := if once then [Discovered(x), Reported(x)] else [Discovered(x)];
    last := if once && s.config.maxResults == 0 && scannable then [Left(x, Cause.Erased)] else [];
    assert s.journal + moved + calls + [] == s.journal + moved + calls;
  }

  lemma BeyondPieces<K>(l: seq<Entry<K>>, moved: seq<Entry<K>>, calls: seq<Entry<K>>, last: seq<Entry<K>>, x: K, d: K)
    requires Pieces(moved, calls, last, x)
    ensures Beyond(l + moved + calls + last, d) == Beyond(l, d) + if calls != [Discovered(x)] && x == d then 1 else 0
  {
    if moved == [] { assert l + moved == l; } else { BeyondOne(l, moved[0], d); }
    var m := l + moved;
    if |calls| == 1 { BeyondOne(m, calls[0], d); } else { BeyondTwo(m, calls[0], calls[1], d); }
    var n := m + calls;
    if last == [] { assert n + last == n; } else { BeyondOne(n, last[0], d); }
  }

  lemma BeyondHeard<K>(env: Env, s: State<K>, e: Event<K>, d: K)
    requires Core(s) && Legal(s, e) && e.Advertised?
    ensures Beyond(Step(env, s, e).journal, d) == Beyond(s.journal, d) + if AtOnce(s, e, d) then 1 else 0
  {
    if x :| Concerns(s, e, x) {
      var moved, calls, last := HeardPieces(env, s, e, x);
      BeyondPieces(s.journal, moved, calls, last, x, d);
    } else {
      Ignored(env, s, e);
    }
  }

  /** Nothing happens when nobody is listening, or there is no room. */
  lemma Ignored<K>(env: Env, s: State<K>, e: Event<K>)
    requires Core(s) && e.Advertised? && forall x: K :: !Concerns(s, e, x)
    ensures Step(env, s, e) == s
  {
    if Listens(s, e) {
      match Find(s, e.address)
      case None => if e.key.Some? { assert !Concerns(s, e, e.key.value); }
      case Some(x) => assert Concerns(s, e, x);
    }
  }

  lemma BeyondTimer<K>(env: Env, s: State<K>, d: K)
    requires Core(s)
    ensures Beyond(Step(env, s, TimerCallback).journal, d) == Beyond(s.journal, d)
  {
    TimerEntries(env, s);
    if HeadDue(env, s) { BeyondTwo<K>(s.journal, Left(s.waiting[0], Timeout), Reported(s.waiting[0]), d); }
  }

  lemma BeyondComplete<K>(env: Env, s: State<K>, d: K)
    requires Core(s)
    ensures Beyond(Step(env, s, ScanComplete).journal, d) == Beyond(s.journal, d)
  {
    CompleteEntries(env, s);
    BeyondFarewells(s.journal, s.waiting, d);
    BeyondOne<K>(s.journal + Farewells(s.waiting), ScanEnded, d);
  }

  lemma BeyondStep<K>(env: Env, s: State<K>, e: Event<K>, d: K)
    requires Core(s) && Legal(s, e)
    ensures Beyond(Step(env, s, e).journal, d) == Beyond(s.journal, d) + if AtOnce(s, e, d) then 1 else 0
  {
    match e
    case Advertised(_, _, _, _) => BeyondHeard(env, s, e, d);
    case TimerCallback => BeyondTimer(env, s, d);
    case ScanComplete => BeyondComplete(env, s, d);
    case Erase(x) => BeyondErase(env, s, x, d);
    case EraseAddress(a) => if Find(s, a).Some? { BeyondErase(env, s, Find(s, a).value, d); }
    case Stop(accepted) =>
      StopEntries(env, s, accepted);
      BeyondDepartures(s.journal, s.waiting, d);
    case ClearResults =>
      ClearEntries(env, s);
      BeyondDepartures(s.journal, s.waiting, d);
    case HostDeinit => BeyondDepartures(s.journal, s.waiting, d);
    case _ =>
  }

  lemma BeyondErase<K>(env: Env, s: State<K>, x: K, d: K)
    requires Core(s)
    ensures Beyond(EraseKey(env, s, x).journal, d) == Beyond(s.journal, d)
  {
    ErasedEntries(env, s, x);
    assert s.journal + [] == s.journal;
    BeyondOne<K>(s.journal, Left(x, Cause.Erased), d);
  }

  lemma {:induction false} BeyondRun<K>(env: Env, s: State<K>, es: seq<Event<K>>, d: K)
    requires Core(s) && LegalRun(false, env, s, es)
    ensures Beyond(Run(env, s, es).journal, d) == Beyond(s.journal, d) + Direct(env, s, es, d)
    decreases |es|
  {
    if es != [] {
      CoreStep(env, s, es[0]);
      BeyondStep(env, s, es[0], d);
      BeyondRun(env, Step(env, s, es[0]), es[1..], d);
    }
  }

  /**
   * Over any run from power-up the user is called exactly once for each advertisement of a
   * device that needs no scan response, and once for each stay given up, and never else.
   */
  lemma ReportsExactly<K>(env: Env, s: State<K>, es: seq<Event<K>>, d: K)
    requires Boot(s) && LegalRun(false, env, s, es)
    ensures var l := Run(env, s, es).journal;
            Reports(l, d) == Direct(env, s, es, d) + GivenUp(l, d)
  {
    BeyondRun(env, s, es, d);
    BeyondIs(Run(env, s, es).journal, d);
  }

  // ---- nobody is forgotten --------------------------------------------------------

  /** The last word about `d` was `onDiscovered`: its `onResult` is still due. */
  ghost predicate Owed<K>(l: seq<Entry<K>>, d: K) {
    if l == [] then false
    else match l[|l| - 1]
      case Discovered(x) => x == d || Owed(l[..|l| - 1], d)
      case Reported(x) => x != d && Owed(l[..|l| - 1], d)
      case Left(x, c) => !(x == d && (c.Erased? || c.Cleared?)) && Owed(l[..|l| - 1], d)
      case _ => Owed(l[..|l| - 1], d)
  }

  lemma OwedOne<K>(l: seq<Entry<K>>, e: Entry<K>, d: K)
    ensures Owed(l + [e], d) == match e
      case Discovered(x) => x == d || Owed(l, d)
      case Reported(x) => x != d && Owed(l, d)
      case Left(x, c) => !(x == d && (c.Erased? || c.Cleared?)) && Owed(l, d)
      case _ => Owed(l, d)
  {
    assert (l + [e])[..|l|] == l;
  }

  lemma OwedTwo<K>(l: seq<Entry<K>>, e: Entry<K>, x: K, d: K)
    requires e.Discovered? || e.Left?
    requires e.dev == x
    ensures Owed(l + [e, Reported(x)], d) == (x != d && Owed(l, d))
  {
    assert l + [e, Reported(x)] == l + [e] + [Reported(x)];
    OwedOne(l, e, d);
    OwedOne<K>(l + [e], Reported(x), d);
  }

  lemma OwedPieces<K>(l: seq<Entry<K>>, moved: seq<Entry<K>>, calls: seq<Entry<K>>, last: seq<Entry<K>>, x: K, d: K)
    requires Pieces(moved, calls, last, x) && (calls == [Discovered(x)] ==> last == [] || last == [Entered(x)])
    ensures Owed(l + moved + calls + last, d) == if x == d then calls == [Discovered(x)] else Owed(l, d)
  {
    if moved == [] { assert l + moved == l; } else { OwedOne(l, moved[0], d); }
    var m := l + moved;
    if |calls| == 1 { OwedOne(m, calls[0], d); } else { OwedTwo(m, calls[0], x, d); }
    var n := m + calls;
    if last == [] { assert n + last == n; } else { OwedOne(n, last[0], d); }
  }

  lemma {:induction false} OwedFarewells<K>(l: seq<Entry<K>>, w: seq<K>, d: K)
    ensures Owed(l + Farewells(w), d) == (d !in w && Owed(l, d))
    decreases |w|
  {
    if w == [] {
      assert l + Farewells(w) == l;
    } else {
      var m := l + [Left(w[0], Complete), Reported(w[0])];
      Assoc(l, [Left(w[0], Complete), Reported(w[0])], Farewells(w[1..]));
      OwedTwo<K>(l, Left(w[0], Complete), w[0], d);
      OwedFarewells(m, w[1..], d);
    }
  }

  lemma {:induction false} OwedDepartures<K>(l: seq<Entry<K>>, w: seq<K>, d: K)
    ensures Owed(l + Departures(w), d) == (d !in w && Owed(l, d))
    decreases |w|
  {
    if w == [] {
      assert l + Departures(w) == l;
    } else {
      Assoc(l, [Left(w[0], Cleared)], Departures(w[1..]));
      OwedOne<K>(l, Left(w[0], Cleared), d);
      OwedDepartures(l + [Left(w[0], Cleared)], w[1..], d);
    }
  }

  /** Whoever is owed an `onResult` waits for it; in active scans that is what waiting means. */
  ghost predicate Settled<K>(active: bool, s: State<K>, d: K) {
    (Owed(s.journal, d) ==> d in s.waiting) && (active && d in s.waiting ==> Owed(s.journal, d))
  }

  lemma SettledHeard<K>(active: bool, env: Env, s: State<K>, e: Event<K>, d: K)
    requires Core(s) && Legal(s, e) && e.Advertised? && Settled(active, s, d) && (active ==> !s.config.passive)
    ensures Settled(active, Step(env, s, e), d)
  {
    if x :| Concerns(s, e, x) {
      var moved, calls, last := HeardPieces(env, s, e, x);
      OwedPieces(s.journal, moved, calls, last, x, d);
    } else {
      Ignored(env, s, e);
    }
  }

  lemma SettledTimer<K>(active: bool, env: Env, s: State<K>, d: K)
    requires Core(s) && Settled(active, s, d)
    ensures Settled(active, Step(env, s, TimerCallback), d)
  {
    TimerEntries(env, s);
    if HeadDue(env, s) {
      OwedTwo<K>(s.journal, Left(s.waiting[0], Timeout), s.waiting[0], d);
      assert s.waiting == [s.waiting[0]] + s.waiting[1..];
    }
  }

  lemma SettledErase<K>(active: bool, env: Env, s: State<K>, x: K, d: K)
    requires Core(s) && Settled(active, s, d)
    ensures Settled(active, EraseKey(env, s, x), d)
  {
    ErasedEntries(env, s, x);
    assert s.journal + [] == s.journal;
    OwedOne<K>(s.journal, Left(x, Cause.Erased), d);
  }

  lemma SettledStep<K>(active: bool, env: Env, s: State<K>, e: Event<K>, d: K)
    requires Core(s) && Legal(s, e) && Settled(active, s, d) && (active ==> !s.config.passive)
    ensures Settled(active, Step(env, s, e), d)
  {
    match e
    case Advertised(_, _, _, _) => SettledHeard(active, env, s, e, d);
    case TimerCallback => SettledTimer(active, env, s, d);
    case ScanComplete =>
      CompleteEntries(env, s);
      OwedFarewells(s.journal, s.waiting, d);
      OwedOne<K>(s.journal + Farewells(s.waiting), ScanEnded, d);
    case Erase(x) => SettledErase(active, env, s, x, d);
    case EraseAddress(a) => if Find(s, a).Some? { SettledErase(active, env, s, Find(s, a).value, d); }
    case Stop(accepted) =>
      StopEntries(env, s, accepted);
      OwedDepartures(s.journal, s.waiting, d);
    case ClearResults =>
      ClearEntries(env, s);
      OwedDepartures(s.journal, s.waiting, d);
    case HostDeinit => OwedDepartures(s.journal, s.waiting, d);
    case _ =>
  }

  lemma {:induction false} SettledRun<K>(active: bool, env: Env, s: State<K>, es: seq<Event<K>>, d: K)
    requires Core(s) && LegalRun(active, env, s, es) && Settled(active, s, d)
    ensures Settled(active, Run(env, s, es), d) && Core(Run(env, s, es))
    decreases |es|
  {
    if es != [] {
      CoreStep(env, s, es[0]);
      SettledStep(active, env, s, es[0], d);
      SettledRun(active, env, Step(env, s, es[0]), es[1..], d);
    }
  }

  /**
   * After any run nobody who was discovered and not erased or cleared is forgotten: it has
   * had its `onResult`, or it waits.  In an active run those who wait are just those still owed one.
   */
  lemma NobodyForgotten<K>(active: bool, env: Env, s: State<K>, es: seq<Event<K>>, d: K)
    requires Boot(s) && LegalRun(active, env, s, es)
    ensures var t := Run(env, s, es);
            (Owed(t.journal, d) ==> d in t.waiting) && (active ==> (Owed(t.journal, d) <==> d in t.waiting))
  {
    SettledRun(active, env, s, es, d);
  }

  /** And once the scan is complete nobody is owed anything. */
  lemma CompleteSettles<K>(env: Env, s: State<K>, es: seq<Event<K>>, d: K)
    requires Boot(s) && LegalRun(false, env, s, es)
    ensures !Owed(Step(env, Run(env, s, es), ScanComplete).journal, d)
  {
    SettledRun(false, env, s, es, d);
    var t := Run(env, s, es);
    SettledStep(false, env, t, ScanComplete, d);
    CompleteEntries(env, t);
  }

  // ---- one advertisement in a run -------------------------------------------------

  lemma {:induction false} ReportsIn<K>(l: seq<Entry<K>>, m: seq<Entry<K>>, d: K)
    ensures Reports(l + m, d) == Reports(l, d) + Reports(m, d)
    decreases |l|
  {
    if l == [] {
      assert l + m == m;
    } else {
      ConsConcat(l, m);
      ReportsIn(l[1..], m, d);
    }
  }

  lemma ReportsThen<K>(l: seq<Entry<K>>, e: Entry<K>, d: K)
    ensures Reports(l + [e], d) == Reports(l, d) + if e == Reported(d) then 1 else 0
  {
    assert [e][1..] == [];
    ReportsIn(l, [e], d);
  }

  lemma PiecesReport<K>(l: seq<Entry<K>>, moved: seq<Entry<K>>, calls: seq<Entry<K>>, last: seq<Entry<K>>, d: K)
    requires Pieces(moved, calls, last, d)
    ensures Reports(l + moved + calls + last, d) == Reports(l, d) + if calls == [Discovered(d)] then 0 else 1
  {
    if moved == [] { assert l + moved == l; } else { ReportsThen(l, moved[0], d); }
    var m := l + moved;
    ReportsThen(m, calls[0], d);
    if |calls| == 2 {
      assert m + calls == m + [calls[0]] + [calls[1]];
      ReportsThen(m + [calls[0]], calls[1], d);
    }
    var n := m + calls;
    if last == [] { assert n + last == n; } else { ReportsThen(n, last[0], d); }
  }

  /**
   * Between `s` and `t` the device had exactly one `onResult` if the scan is passive, or its
   * type is neither 0 nor 2, or this is the response; else it had none, and waits.
   */
  ghost predicate CalledOrWaits<K>(s: State<K>, t: State<K>, d: K, evType: Byte) {
    var advType := TypeOf(s.devices, d, evType);
    if s.config.passive || (advType != 0 && advType != 2) || evType == 4
    then Reports(t.journal, d) == Reports(s.journal, d) + 1
    else Reports(t.journal, d) == Reports(s.journal, d) && d in t.waiting
  }

  lemma CallsOf<K>(s: State<K>, e: Event<K>, d: K)
    requires Keyed(s) && Concerns(s, e, d)
    ensures var advType := TypeOf(s.devices, d, e.evType);
            AtOnce(s, e, d) <==> s.config.passive || (advType != 0 && advType != 2) || e.evType == 4
  {}

  /** So it is for every advertisement heard of a device, first or not. */
  lemma HeardReports<K>(env: Env, s: State<K>, e: Event<K>, d: K)
    requires Core(s) && Legal(s, e) && Concerns(s, e, d)
    ensures CalledOrWaits(s, Step(env, s, e), d, e.evType)
  {
    var moved, calls, last := HeardPieces(env, s, e, d);
    PiecesReport(s.journal, moved, calls, last, d);
    CallsOf(s, e, d);
  }

  lemma RunCons<K>(active: bool, env: Env, s: State<K>, e: Event<K>, es: seq<Event<K>>)
    requires Core(s) && LegalRun(active, env, s, [e] + es)
    ensures Core(Step(env, s, e)) && LegalRun(active, env, Step(env, s, e), es)
  {
    assert ([e] + es)[0] == e && ([e] + es)[1..] == es;
    CoreStep(env, s, e);
  }

  lemma {:induction false} RunSplit<K>(active: bool, env: Env, s: State<K>, es: seq<Event<K>>, fs: seq<Event<K>>)
    requires Core(s) && LegalRun(active, env, s, es + fs)
    ensures Core(Run(env, s, es)) && LegalRun(active, env, Run(env, s, es), fs)
    decreases |es|
  {
    if es == [] {
      assert es + fs == fs;
    } else {
      var e, rest := es[0], es[1..];
      assert es + fs == [e] + (rest + fs);
      RunCons(active, env, s, e, rest + fs);
      RunSplit(active, env, Step(env, s, e), rest, fs);
    }
  }

  /** So wherever it stands in a run. */
  lemma RunReports<K>(active: bool, env: Env, s: State<K>, es: seq<Event<K>>, k: nat, d: K)
    requires Boot(s) && LegalRun(active, env, s, es) && k < |es|
    ensures var r := Run(env, s, es[..k]);
            Concerns(r, es[k], d) ==> CalledOrWaits(r, Step(env, r, es[k]), d, es[k].evType)
  {
    assert es[..k] + es[k..] == es;
    RunSplit(active, env, s, es[..k], es[k..]);
    var r := Run(env, s, es[..k]);
    assert es[k..][0] == es[k];
    if Concerns(r, es[k], d) { HeardReports(env, r, es[k], d); }
  }

  // ---- the timer brings the report ------------------------------------------------

  /** When the callout runs out, the head has waited its time. */
  lemma RingsDue<K>(env: Env, s: State<K>, later: nat)
    requires Core(s) && TimerOk(s) && s.waiting != [] && s.config.timeout > 0 && s.callout.ready && !s.callout.pending
    requires later >= Step(env, s, TimerExpires).clock.now && later - s.devices[s.waiting[0]].stamp < WRAP
    ensures s.callout.timer.Armed? && Elapsed(later, s.devices[s.waiting[0]].stamp) >= s.config.timeout
  {
    DeadlineExact(s.callout.timer.at, s.devices[s.waiting[0]].stamp, s.config.timeout);
    ElapsedExact(later, s.devices[s.waiting[0]].stamp);
  }

  /**
   * If the callback reads the clock within 2^32 ticks of the head's last advertisement,
   * the head is reported, and nobody else.
   */
  lemma ExpiryReports<K>(env: Env, s: State<K>)
    requires Core(s) && TimerOk(s) && s.waiting != [] && s.config.timeout > 0 && s.callout.ready && !s.callout.pending
    requires Step(env, s, TimerExpires).clock.now + env.tick(s.clock.queries) - s.devices[s.waiting[0]].stamp < WRAP
    ensures var t := Step(env, Step(env, s, TimerExpires), TimerCallback);
            t.journal == s.journal + [Left(s.waiting[0], Timeout), Reported(s.waiting[0])] && t.waiting == s.waiting[1..]
  {
    RingsDue(env, s, Step(env, s, TimerExpires).clock.now + env.tick(s.clock.queries));
    CoreStep(env, s, TimerExpires);
    TimerEntries(env, Step(env, s, TimerExpires));
  }

  // ---- and there is a timer -------------------------------------------------------

  /** The callout exists while somebody waits and waiting is limited. */
  ghost predicate Ready<K>(s: State<K>) {
    s.config.timeout > 0 && s.waiting != [] ==> s.callout.ready
  }

  /** The same but for `d`, if it is the head. */
  ghost predicate ReadyBut<K>(s: State<K>, d: K) {
    Ready(s) || (s.waiting != [] && s.waiting[0] == d)
  }

  ghost predicate InitWorks(env: Env) { forall q :: !env.initFails(q) }

  lemma ReadyReset<K>(env: Env, s: State<K>)
    requires Keyed(s) && InitWorks(env)
    ensures Ready(ResetTimer(env, s)) && (s.callout.ready ==> ResetTimer(env, s).callout.ready)
  {}

  lemma ReadyErase<K>(env: Env, s: State<K>, d: K)
    requires Keyed(s) && Ready(s) && InitWorks(env)
    ensures Ready(EraseKey(env, s, d))
  {
    ReadyReset(env, s.(waiting := Without(s.waiting, d)));
  }

  lemma ReadyRefresh<K>(env: Env, s: State<K>, d: K)
    requires Keyed(s) && Ready(s) && InitWorks(env) && d in s.results
    ensures ReadyBut(Refresh(env, s, d), d)
  {
    RefreshShape(env, s, d);
    var s1 := Restamped(env, s, d);
    ReadyReset(env, s1.(waiting := Without(s1.waiting, d)));
  }

  lemma ReadyAnnounce<K>(env: Env, s: State<K>, d: K, evType: Byte)
    requires Keyed(s) && InitWorks(env) && d in s.results && ReadyBut(s, d)
    requires NoWait(s.config.passive, s.devices[d].advType, evType) ==> d !in s.waiting
    ensures Ready(Announce(env, s, d, evType))
  {
    var s1 := DiscoverOnce(s, d);
    ReadyReset(env, AddWaiting(if d in s1.waiting then s1 else Note(s1, Entered(d)), d));
  }

  lemma ReadyDeliver<K>(env: Env, s: State<K>, d: K, evType: Byte)
    requires Keyed(s) && InitWorks(env) && d in s.results && ReadyBut(s, d)
    requires NoWait(s.config.passive, s.devices[d].advType, evType) ==> d !in s.waiting
    ensures Ready(Deliver(env, s, d, evType))
  {
    ReadyAnnounce(env, s, d, evType);
    ReadyErase(env, Announce(env, s, d, evType), d);
  }

  lemma ReadyAnswered<K>(env: Env, s: State<K>, d: K)
    requires Keyed(s) && Ready(s) && InitWorks(env) && d in s.results
    ensures Ready(Deliver(env, EndStay(env, ReadClock(env, s), d, Cause.ScanResponse), d, 4))
  {
    var s1 := ReadClock(env, s);
    ReadyReset(env, s1.(waiting := Without(s1.waiting, d)));
    ReadyDeliver(env, EndStay(env, s1, d, Cause.ScanResponse), d, 4);
  }

  lemma ReadyHeard<K>(env: Env, s: State<K>, e: Event<K>)
    requires Core(s) && Ready(s) && InitWorks(env) && e.Advertised? && Legal(s, e) && !s.config.passive
    ensures Ready(Step(env, s, e))
  {
    if x :| Concerns(s, e, x) {
      if Find(s, e.address).None? {
        ReadyDeliver(env, NewDevice(env, s, e.address, e.evType, x), x, e.evType);
      } else if e.evType == 4 {
        ReadyAnswered(env, s, x);
      } else {
        ReadyRefresh(env, s, x);
        RefreshShape(env, s, x);
        ReadyDeliver(env, Refresh(env, s, x), x, e.evType);
      }
    } else {
      Ignored(env, s, e);
    }
  }

  lemma ReadyTimer<K>(env: Env, s: State<K>)
    requires Core(s) && Ready(s) && InitWorks(env)
    ensures Ready(OnTimer(env, s))
  {
    if s.waiting != [] {
      var s1 := ReadClock(env, s);
      ReadyReset(env, s1);
      ReadyReset(env, s1.(waiting := Without(s1.waiting, s1.waiting[0])));
      ReadyErase(env, Expire(env, s1, Cause.Timeout), s.waiting[0]);
    }
  }

  lemma ReadyStep<K>(env: Env, s: State<K>, e: Event<K>)
    requires Core(s) && Ready(s) && InitWorks(env) && Legal(s, e) && !s.config.passive
    ensures Ready(Step(env, s, e))
  {
    match e
    case Advertised(_, _, _, _) => ReadyHeard(env, s, e);
    case TimerCallback => ReadyTimer(env, s.(callout := s.callout.(pending := false)));
    case ScanComplete => CompleteEntries(env, s);
    case Erase(d) => ReadyErase(env, s, d);
    case EraseAddress(a) => if Find(s, a).Some? { ReadyErase(env, s, Find(s, a).value); }
    case SetTimeout(ticks) => ReadyReset(env, s.(config := s.config.(timeout := ticks)));
    case _ =>
  }

  lemma {:induction false} ReadyRun<K>(env: Env, s: State<K>, es: seq<Event<K>>)
    requires Core(s) && Ready(s) && TimerOk(s) && InitWorks(env) && LegalRun(true, env, s, es)
    ensures Ready(Run(env, s, es)) && TimerOk(Run(env, s, es))
    decreases |es|
  {
    if es != [] {
      CoreStep(env, s, es[0]);
      ReadyStep(env, s, es[0]);
      TimerStep(env, s, es[0]);
      ReadyRun(env, Step(env, s, es[0]), es[1..]);
    }
  }

  /**
   * So in an active run in which the callout can be had, with a timeout set, somebody who
   * waits is never without a timer: it runs for the head, or its event is queued.
   */
  lemma WaitingHasTimer<K>(env: Env, s: State<K>, es: seq<Event<K>>)
    requires Boot(s) && InitWorks(env) && LegalRun(true, env, s, es)
    ensures var t := Run(env, s, es);
            t.waiting != [] && t.config.timeout > 0 ==> t.callout.ready && (t.callout.pending || ArmedFor(t, t.waiting[0]))
  {
    RunKeeps(true, env, s, es);
    ReadyRun(env, s, es);
  }
}
