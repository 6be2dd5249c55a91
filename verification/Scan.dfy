/**
 * NimBLEScan.cpp as it is written: an intrusive singly linked list threaded
 * through the device objects, head and tail pointers, a result vector and one
 * callout.  Every handler is proved to do exactly what ScanSpec says: the ghost
 * field `model` is the abstract state and `Valid` ties the real fields to it.
 */
module Scan {
  import opened Base
  import opened BleAddress
  import S = ScanSpec

  class AdvertisedDevice {
    const address: Address
    const advType: Byte
    var callbackSent: Byte
    var time: UInt32
    var nextWaiting: AdvertisedDevice?  // pointing at itself means "not in the list"

    constructor (address: Address, advType: Byte)
      ensures this.address == address && this.advType == advType
      ensures callbackSent == 0 && time == 0 && nextWaiting == this
    {
      this.address, this.advType := address, advType;
      callbackSent, time := 0, 0;
      nextWaiting := this;
    }

    predicate IsScannable() {
      advType == S.ADV_IND || advType == S.SCAN_IND
    }

    ghost predicate Stores(r: S.Device)
      reads `callbackSent, `time
    {
      address == r.address && advType == r.advType && callbackSent == r.callbackSent && time == r.stamp % WRAP
    }
  }

  class Scanner {
    const env: S.Env
    var results: seq<AdvertisedDevice>
    var head: AdvertisedDevice?
    var tail: AdvertisedDevice?
    var srTimer: S.Callout
    var config: S.Config
    var clock: S.Clock                  // the stack's, only ever read through TimeGet
    ghost var waiting: seq<AdvertisedDevice>
    ghost var live: set<AdvertisedDevice>  // the objects not yet deleted
    ghost var model: S.State<AdvertisedDevice>

    /** The links spell out `waiting`; every other device points at itself. */
    ghost predicate Linked()
      reads `head, `tail, `waiting, `live, live`nextWaiting
    {
      && (forall d :: d in waiting ==> d in live)
      && NoDup(waiting)
      && head == (if waiting == [] then null else waiting[0])
      && tail == (if waiting == [] then null else waiting[|waiting| - 1])
      && (tail != null ==> tail in live && tail.nextWaiting == null)
      && (forall i {:trigger waiting[i].nextWaiting} :: 0 <= i < |waiting| - 1 ==>
            waiting[i] in live && waiting[i].nextWaiting == waiting[i + 1])
      && (forall d :: d in live && d !in waiting ==> d.nextWaiting == d)
    }

    /** The vector holds the live devices, and each of them stores its record. */
    ghost predicate RecordedAs(devices: map<AdvertisedDevice, S.Device>)
      reads `results, `live, live`callbackSent, live`time
    {
      && NoDup(results)
      && live == (set d | d in results)
      && (forall d :: d in live ==> d in devices && d.Stores(devices[d]))
    }

    ghost predicate Recorded()
      reads `results, `live, `model, live`callbackSent, live`time
    {
      results == model.results && S.Keyed(model) && RecordedAs(model.devices)
    }

    ghost predicate Timed()
      reads this
    {
      srTimer == model.callout && config == model.config && clock == model.clock
    }

    ghost predicate Valid()
      reads this, live
    {
      Linked() && Recorded() && Timed() && waiting == model.waiting
    }

    // ---- the list ----------------------------------------------------------------

    method AddWaitingDevice(d: AdvertisedDevice)
      requires Linked() && d in live
      modifies this`head, this`tail, this`waiting, live`nextWaiting
      ensures Linked() && waiting == if d in old(waiting) then old(waiting) else old(waiting) + [d]
    {
      if d.nextWaiting != d { return; }
      d.nextWaiting := null;
      if tail == null {
        head, tail := d, d;
      } else {
        tail.nextWaiting := d;
        tail := d;
      }
      waiting := waiting + [d];
    }

    /** Lines 145-155: walk to the device in front of `d` and unlink `d` behind it. */
    method UnlinkInner(d: AdvertisedDevice, ghost k: nat, ghost p: AdvertisedDevice)
      requires Linked() && 0 < k < |waiting| && waiting[k] == d && waiting[k - 1] == p && p in live
      modifies this`tail, p`nextWaiting
      ensures p.nextWaiting == old(d.nextWaiting)
      ensures tail == if k == |waiting| - 1 then p else old(tail)
    {
      var current := head;
      ghost var i := 0;
      while current != null
        invariant 0 <= i < k && current == waiting[i]
        decreases k - i
      {
        assert current.nextWaiting == waiting[i + 1];
        if current.nextWaiting == d {
          current.nextWaiting := d.nextWaiting;
          if tail == d { tail := current; }
          return;
        }
        current, i := current.nextWaiting, i + 1;
      }
    }

    method Unlink(d: AdvertisedDevice) returns (newHead: bool)
      requires Linked() && d in live
      modifies this`head, this`tail, this`waiting, live`nextWaiting
      ensures Linked() && waiting == Without(old(waiting), d)
      ensures newHead <==> old(waiting) != [] && old(waiting)[0] == d && waiting != []
    {
      newHead := false;
      SelfMeansAbsent(d);
      if d.nextWaiting == d {
        WithoutAbsent(waiting, d);
        return;
      }
      ghost var k :| 0 <= k < |waiting| && waiting[k] == d;
      if head == d {
        newHead := UnlinkHead(d);
      } else {
        UnlinkBehind(d, k);
      }
    }

    method UnlinkHead(d: AdvertisedDevice) returns (newHead: bool)
      requires Linked() && waiting != [] && d == head
      modifies this`head, this`tail, this`waiting, d`nextWaiting
      ensures Linked() && waiting == Without(old(waiting), d)
      ensures newHead <==> waiting != []
    {
      newHead := false;
      head := d.nextWaiting;
      if head == null {
        tail := null;
      } else {
        newHead := true;
      }
      d.nextWaiting := d;
      Spliced(waiting, 0);
      waiting := Without(waiting, d);
    }

    method UnlinkBehind(d: AdvertisedDevice, ghost k: nat)
      requires Linked() && 0 < k < |waiting| && waiting[k] == d
      modifies this`tail, this`waiting, live`nextWaiting
      ensures Linked() && waiting == Without(old(waiting), d)
    {
      assert waiting[k - 1] in live;
      UnlinkInner(d, k, waiting[k - 1]);
      d.nextWaiting := d;
      Spliced(waiting, k);
      waiting := Without(waiting, d);
    }

    static lemma Spliced(w: seq<AdvertisedDevice>, k: nat)
      requires NoDup(w) && k < |w|
      ensures var r := Without(w, w[k]);
              NoDup(r) && |r| == |w| - 1
              && forall i {:trigger r[i]} :: 0 <= i < |r| ==> r[i] == if i < k then w[i] else w[i + 1]
    {
      WithoutAt(w, k);
      WithoutKeepsNoDup(w, w[k]);
    }

    /** A listed device never points at itself. */
    lemma SelfMeansAbsent(d: AdvertisedDevice)
      requires Linked() && d in live
      ensures d.nextWaiting == d <==> d !in waiting
    {
      if d in waiting {
        var k :| 0 <= k < |waiting| && waiting[k] == d;
        assert k < |waiting| - 1 ==> d.nextWaiting == waiting[k + 1];
      }
    }

    method UnlinkAll()
      requires Linked()
      modifies this`head, this`tail, this`waiting, live`nextWaiting
      ensures Linked() && waiting == []
    {
      var current := head;
      ghost var i := 0;
      while current != null
        invariant unchanged(this)
        invariant 0 <= i <= |waiting| && current == if i == |waiting| then null else waiting[i]
        invariant i < |waiting| ==> waiting[|waiting| - 1].nextWaiting == null
        invariant forall j {:trigger waiting[j].nextWaiting} :: i <= j < |waiting| - 1 ==> waiting[j].nextWaiting == waiting[j + 1]
        invariant forall j {:trigger waiting[j].nextWaiting} :: 0 <= j < i ==> waiting[j].nextWaiting == waiting[j]
        invariant forall d :: d in live && d !in waiting ==> d.nextWaiting == d
        decreases |waiting| - i
      {
        var next := current.nextWaiting;
        assert waiting[i] in live;
        current.nextWaiting := current;
        current, i := next, i + 1;
      }
      head, tail, waiting := null, null, [];
    }

    // ---- the callout -------------------------------------------------------------

    method TimeGet() returns (t: UInt32)
      requires Valid()
      modifies `clock, `model
      ensures Valid() && model == S.ReadClock(env, old(model)) && t == clock.now % WRAP
    {
      clock := S.Clock(clock.now + env.tick(clock.queries), clock.queries + 1);
      model := model.(clock := clock);
      t := clock.now % WRAP;
    }

    method CalloutStop()
      requires Valid()
      modifies `srTimer, `model
      ensures Valid() && model == old(model).(callout := old(srTimer).(timer := S.Idle))
    {
      srTimer := srTimer.(timer := S.Idle);
      model := model.(callout := srTimer);
    }

    method CalloutInit() returns (rc: int)
      requires Valid() && !srTimer.ready
      modifies `srTimer, `clock, `model
      ensures Valid() && (rc == 0 <==> !env.initFails(old(clock).queries))
      ensures model == old(model).(callout := old(srTimer).(ready := rc == 0),
                                   clock := old(clock).(queries := old(clock).queries + 1))
    {
      rc := if env.initFails(clock.queries) then -1 else 0;
      srTimer, clock := srTimer.(ready := rc == 0), clock.(queries := clock.queries + 1);
      model := model.(callout := srTimer, clock := clock);
    }

    method ArmForHead()
      requires Valid() && head != null && srTimer.ready && config.timeout != 0
      modifies `srTimer, `clock, `model
      ensures Valid() && model == S.ResetTimer(env, old(model))
    {
      ghost var before := model;
      var t := TimeGet();
      var elapsed := (t - head.time) % WRAP;
      var nextTime := if elapsed >= config.timeout then 1 else config.timeout - elapsed;
      srTimer := srTimer.(timer := S.Armed(clock.now, nextTime));
      model := model.(callout := srTimer);
    }

    method ResetWaitingTimer()
      requires Valid()
      modifies `srTimer, `clock, `model
      ensures Valid() && model == S.ResetTimer(env, old(model))
    {
      if config.timeout == 0 || head == null {
        if srTimer.ready { CalloutStop(); }
        return;
      }
      if !srTimer.ready {
        var rc := CalloutInit();
        if rc != 0 { return; }
      }
      ArmForHead();
    }

    /** `removeWaitingDevice` up to its last statement. */
    method TakeOut(d: AdvertisedDevice) returns (newHead: bool)
      requires Valid() && d in live
      modifies this`head, this`tail, this`waiting, this`model, live`nextWaiting
      ensures Valid() && model == old(model).(waiting := Without(old(waiting), d))
      ensures newHead <==> old(waiting) != [] && old(waiting)[0] == d && waiting != []
    {
      newHead := Unlink(d);
      KeyedShrunk(model, waiting);
      model := model.(waiting := waiting);
    }

    static lemma KeyedShrunk(s: S.State<AdvertisedDevice>, w: seq<AdvertisedDevice>)
      requires S.Keyed(s) && forall d :: d in w ==> d in s.waiting
      ensures S.Keyed(s.(waiting := w))
    {}

    method RemoveWaitingDevice(d: AdvertisedDevice)
      requires Valid() && d in live
      modifies this`head, this`tail, this`waiting, this`srTimer, this`clock, this`model
      modifies live`nextWaiting
      ensures Valid() && model == S.RemoveWaiting(env, old(model), d)
    {
      if d !in waiting { WithoutAbsent(waiting, d); }
      var newHead := TakeOut(d);
      if newHead { ResetWaitingTimer(); }
    }

    /** The journal is ghost: entries are added beside the code. */
    method Record(ghost entries: seq<S.Entry<AdvertisedDevice>>)
      requires Valid()
      modifies `model
      ensures Valid() && model == old(model).(journal := old(model).journal + entries)
    {
      model := model.(journal := model.journal + entries);
    }

    /** The list call and its entry in the journal. */
    method EndStay(d: AdvertisedDevice, ghost c: S.Cause)
      requires Valid() && d in live
      modifies `head, `tail, `waiting, `srTimer, `clock, `model, live`nextWaiting
      ensures Valid() && model == S.EndStay(env, old(model), d, c)
    {
      ghost var was := d in waiting;
      RemoveWaitingDevice(d);
      Record(if was then [S.Left(d, c)] else []);
    }

    method ClearWaitingList()
      requires Valid()
      modifies `head, `tail, `waiting, `srTimer, `model, live`nextWaiting
      ensures Valid() && model == S.ClearWaiting(old(model))
    {
      ghost var w := waiting;
      StopTimer();
      UnlinkList();
      Record(S.Departures(w));
    }

    method StopTimer()
      requires Valid()
      modifies `srTimer, `model
      ensures Valid() && model == S.StopTimer(old(model))
    {
      if srTimer.ready { CalloutStop(); }
    }

    method UnlinkList()
      requires Valid()
      modifies `head, `tail, `waiting, `model, live`nextWaiting
      ensures Valid() && model == old(model).(waiting := [])
    {
      UnlinkAll();
      KeyedShrunk(model, []);
      model := model.(waiting := []);
    }

    // ---- the result vector -------------------------------------------------------

    /** `delete` and `vector::erase` for a device that is no longer listed. */
    method DeleteAt(i: nat)
      requires Valid() && i < |results| && results[i] !in waiting
      modifies `results, `live, `model
      ensures Valid() && results == old(results)[..i] + old(results)[i + 1..]
      ensures model == old(model).(results := Without(old(results), old(results)[i]),
                                   devices := old(model).devices - {old(results)[i]})
    {
      ghost var d := results[i];
      RemoveAt(i, d, model.devices);
      Forget(d);
    }

    /** The same in the model. */
    ghost method Forget(d: AdvertisedDevice)
      requires Linked() && Timed() && waiting == model.waiting && d !in waiting && S.Keyed(model)
      requires RecordedAs(model.devices - {d}) && results == Without(model.results, d)
      modifies `model
      ensures Valid() && model == old(model).(results := results, devices := old(model).devices - {d})
    {
      KeyedWithout(model, d);
      model := model.(results := results, devices := model.devices - {d});
    }

    method RemoveAt(i: nat, ghost d: AdvertisedDevice, ghost ds: map<AdvertisedDevice, S.Device>)
      requires Linked() && RecordedAs(ds) && i < |results| && d == results[i] && d !in waiting
      modifies `results, `live
      ensures Linked() && RecordedAs(ds - {d})
      ensures results == old(results)[..i] + old(results)[i + 1..] == Without(old(results), d)
    {
      Dropped(results, i);
      results, live := results[..i] + results[i + 1..], live - {d};
    }

    static lemma KeyedWithout(s: S.State<AdvertisedDevice>, d: AdvertisedDevice)
      requires S.Keyed(s) && d !in s.waiting
      ensures S.Keyed(s.(results := Without(s.results, d), devices := s.devices - {d}))
    {}

    static lemma Dropped(rs: seq<AdvertisedDevice>, i: nat)
      requires NoDup(rs) && i < |rs|
      ensures var r := rs[..i] + rs[i + 1..];
              r == Without(rs, rs[i]) && NoDup(r) && (set d | d in r) == (set d | d in rs) - {rs[i]}
    {
      WithoutAt(rs, i);
      WithoutKeepsNoDup(rs, rs[i]);
    }

    method EraseDevice(d: AdvertisedDevice)
      requires Valid()
      modifies `results, `live, `head, `tail, `waiting, `srTimer, `clock, `model, live`nextWaiting
      ensures Valid() && live <= old(live) && model == S.EraseKey(env, old(model), d)
    {
      var i := 0;
      while i < |results|
        invariant 0 <= i <= |results| && d !in results[..i]
      {
        if results[i] == d {
          EndStay(d, S.Cause.Erased);
          DeleteAt(i);
          return;
        }
        i := i + 1;
      }
    }

    method FindDevice(a: Address) returns (r: AdvertisedDevice?)
      requires Valid()
      ensures S.Find(model, a) == if r == null then None else Some(r)
      ensures r != null ==> r in live
    {
      var i := 0;
      while i < |results|
        invariant 0 <= i <= |results| && S.FindFrom(model, a, i) == S.Find(model, a)
      {
        assert results[i] in live;
        if results[i].address == a { return results[i]; }
        i := i + 1;
      }
      r := null;
    }

    method EraseByAddress(a: Address)
      requires Valid()
      modifies `results, `live, `head, `tail, `waiting, `srTimer, `clock, `model, live`nextWaiting
      ensures Valid() && model == S.Step(env, old(model), S.EraseAddress(a))
    {
      var d := FindDevice(a);
      if d != null { EraseDevice(d); }
    }

    method ClearResults()
      requires Valid()
      modifies `results, `live, `head, `tail, `waiting, `srTimer, `model, live`nextWaiting
      ensures Valid() && model == S.ClearAll(old(model))
    {
      if config.scanning { return; }
      ClearWaitingList();
      results, live := [], {};
      model := model.(results := [], devices := map[]);
    }

    // ---- reporting ---------------------------------------------------------------

    method SetSent(d: AdvertisedDevice, sent: Byte)
      requires Valid() && d in live
      modifies `model, d`callbackSent
      ensures Valid() && model == S.SetSent(old(model), d, sent)
    {
      d.callbackSent := sent;
      model := S.SetSent(model, d, sent);
    }

    method OnDiscovered(d: AdvertisedDevice)
      requires Valid() && d in live
      modifies `model, d`callbackSent
      ensures Valid() && model == S.DiscoverOnce(old(model), d)
    {
      if d.callbackSent == 0 {
        SetSent(d, 1);
        Record([S.Discovered(d)]);
      }
    }

    method OnResult(d: AdvertisedDevice)
      requires Valid() && d in live
      modifies `model, d`callbackSent
      ensures Valid() && model == S.ReportNow(old(model), d)
    {
      SetSent(d, (d.callbackSent + 1) % 256);
      Record([S.Reported(d)]);
    }

    /** The list call and its entry in the journal. */
    method Append(d: AdvertisedDevice, ghost entries: seq<S.Entry<AdvertisedDevice>>)
      requires Valid() && d in live
      modifies `head, `tail, `waiting, `model, live`nextWaiting
      ensures Valid()
      ensures model == S.AddWaiting(old(model), d).(journal := old(model).journal + entries)
    {
      AddWaitingDevice(d);
      KeyedGrown(model, d);
      model := model.(waiting := waiting, journal := model.journal + entries);
    }

    static lemma KeyedGrown(s: S.State<AdvertisedDevice>, d: AdvertisedDevice)
      requires S.Keyed(s) && d in s.results
      ensures S.Keyed(s.(waiting := s.waiting + [d]))
    {}

    method AwaitResponse(d: AdvertisedDevice)
      requires Valid() && d in live
      modifies `head, `tail, `waiting, `srTimer, `clock, `model, live`nextWaiting
      ensures Valid() && model == S.Await(env, old(model), d)
    {
      Append(d, if d in waiting then [] else [S.Entered(d)]);
      if head == d { ResetWaitingTimer(); }
    }

    method Announce(d: AdvertisedDevice, evType: Byte)
      requires Valid() && d in live
      modifies `head, `tail, `waiting, `srTimer, `clock, `model, live`nextWaiting, d`callbackSent
      ensures Valid() && model == S.Announce(env, old(model), d, evType)
    {
      OnDiscovered(d);
      if config.passive || !d.IsScannable() {
        OnResult(d);
      } else if evType == S.SCAN_RSP {
        OnResult(d);
      } else {
        AwaitResponse(d);
      }
    }

    method Deliver(d: AdvertisedDevice, evType: Byte)
      requires Valid() && d in live
      modifies `results, `live, `head, `tail, `waiting, `srTimer, `clock, `model, live`nextWaiting, d`callbackSent
      ensures Valid() && model == S.Deliver(env, old(model), d, evType)
    {
      Announce(d, evType);
      if config.maxResults == 0 && d.callbackSent >= 2 { EraseDevice(d); }
    }

    // ---- the GAP event handler ---------------------------------------------------

    /** A first advertisement: a new record at the end of the vector. */
    method Register(a: Address, evType: Byte) returns (d: AdvertisedDevice)
      requires Valid()
      modifies `results, `live, `clock, `model
      ensures Valid() && fresh(d) && d in live && live == old(live) + {d}
      ensures d !in old(results) && model == S.NewDevice(env, old(model), a, evType, d)
    {
      d := new AdvertisedDevice(a, evType);
      assert d !in results by { assert forall x :: x in results ==> x in live; }
      Inserts(env, model, a, evType, d);
      Insert(d);
      Touch(d);
    }

    /** The time of the last advertisement. */
    method Touch(d: AdvertisedDevice)
      requires Valid() && d in live
      modifies `clock, `model, d`time
      ensures Valid()
      ensures var s := S.ReadClock(env, old(model));
              model == s.(devices := s.devices[d := s.devices[d].(stamp := s.clock.now)])
    {
      var t := TimeGet();
      Stamp(d, t);
    }

    method Insert(d: AdvertisedDevice)
      requires Valid() && d !in live && d !in results
      requires d.callbackSent == 0 && d.time == 0 && d.nextWaiting == d
      modifies `results, `live, `model
      ensures Valid() && d in live && live == old(live) + {d}
      ensures model == old(model).(results := old(results) + [d],
                devices := old(model).devices[d := S.Device(d.address, d.advType, 0, 0)])
    {
      Grown(results, d);
      results, live := results + [d], live + {d};
      model := model.(results := results, devices := model.devices[d := S.Device(d.address, d.advType, 0, 0)]);
    }

    static lemma Grown(rs: seq<AdvertisedDevice>, d: AdvertisedDevice)
      requires NoDup(rs) && d !in rs
      ensures NoDup(rs + [d]) && (set x | x in rs + [d]) == (set x | x in rs) + {d}
    {}

    static lemma Restamps(env: S.Env, s: S.State<AdvertisedDevice>, d: AdvertisedDevice)
      requires S.Keyed(s) && d in s.results
      ensures var t := S.ReadClock(env, S.SetSent(s, d, 0));
              t.(devices := t.devices[d := t.devices[d].(stamp := t.clock.now)]) == S.Restamped(env, s, d)
    {}

    static lemma Inserts(env: S.Env, s: S.State<AdvertisedDevice>, a: Address, evType: Byte, d: AdvertisedDevice)
      requires S.Keyed(s)
      ensures var t := S.ReadClock(env, s.(results := s.results + [d], devices := s.devices[d := S.Device(a, evType, 0, 0)]));
              t.(devices := t.devices[d := t.devices[d].(stamp := t.clock.now)]) == S.NewDevice(env, s, a, evType, d)
    {}

    method Stamp(d: AdvertisedDevice, t: UInt32)
      requires Valid() && d in live && t == clock.now % WRAP
      modifies `model, d`time
      ensures Valid()
      ensures model == old(model).(devices := old(model).devices[d := old(model).devices[d].(stamp := clock.now)])
    {
      d.time := t;
      model := model.(devices := model.devices[d := model.devices[d].(stamp := clock.now)]);
    }

    /** A repeat: `update` and lines 295-310. */
    method Refresh(d: AdvertisedDevice)
      requires Valid() && d in live
      modifies `head, `tail, `waiting, `srTimer, `clock, `model, live`nextWaiting, d`callbackSent, d`time
      ensures Valid() && model == S.Refresh(env, old(model), d)
    {
      ghost var entry := if d in waiting then S.Requeued(d) else S.Entered(d);
      Restamp(d);
      if d.IsScannable() { Requeue(d, entry); }
      if !config.filterDuplicates { ResetSent(d); }
    }

    /** To the tail. */
    method Requeue(d: AdvertisedDevice, ghost entry: S.Entry<AdvertisedDevice>)
      requires Valid() && d in live
      modifies `head, `tail, `waiting, `srTimer, `clock, `model, live`nextWaiting
      ensures Valid() && model == S.Note(S.AddWaiting(S.RemoveWaiting(env, old(model), d), d), entry)
    {
      RemoveWaitingDevice(d);
      Append(d, [entry]);
    }

    /** Already so since the restamp. */
    method ResetSent(d: AdvertisedDevice)
      requires Valid() && d in live && d.callbackSent == 0
      modifies d`callbackSent
      ensures Valid() && d.callbackSent == 0
    {
      d.callbackSent := 0;
    }

    method Restamp(d: AdvertisedDevice)
      requires Valid() && d in live
      modifies `clock, `model, d`callbackSent, d`time
      ensures Valid() && d.callbackSent == 0 && model == S.Restamped(env, old(model), d)
    {
      Restamps(env, model, d);
      SetSent(d, 0);
      Touch(d);
    }

    method OnAdvertisement(a: Address, evType: Byte, connected: bool)
      returns (ghost key: Option<AdvertisedDevice>)
      requires Valid()
      modifies `results, `live, `head, `tail, `waiting, `srTimer, `clock, `model, live`nextWaiting, live`callbackSent, live`time
      ensures Valid() && model == S.Heard(env, old(model), S.Advertised(a, evType, key, connected))
      ensures key.Some? ==> fresh(key.value)
      ensures key.None? ==> !old(config).scanning || connected || S.Find(old(model), a).Some? || S.Full(old(model))
    {
      key := None;
      if !config.scanning || connected { return; }
      var d := FindDevice(a);
      if d == null {
        if 0 < config.maxResults < S.UNLIMITED && |results| >= config.maxResults { return; }
        ghost var s := model;
        var n := Admit(a, evType);
        Admits(env, s, a, evType, n);
        key := Some(n);
      } else {
        Repeats(env, model, a, evType, d);
        Repeated(d, evType);
      }
    }

    /** What a step is for an address that is not known, or known. */
    static lemma Admits(env: S.Env, s: S.State<AdvertisedDevice>, a: Address, evType: Byte, n: AdvertisedDevice)
      requires S.Keyed(s) && s.config.scanning && S.Find(s, a).None? && !S.Full(s)
      ensures S.Heard(env, s, S.Advertised(a, evType, Some(n), false))
              == S.Deliver(env, S.NewDevice(env, s, a, evType, n), n, evType)
    {}

    static lemma Repeats(env: S.Env, s: S.State<AdvertisedDevice>, a: Address, evType: Byte, d: AdvertisedDevice)
      requires S.Keyed(s) && s.config.scanning && S.Find(s, a) == Some(d)
      ensures S.Heard(env, s, S.Advertised(a, evType, None, false))
              == if evType == S.SCAN_RSP
                 then S.Deliver(env, S.EndStay(env, S.ReadClock(env, s), d, S.Cause.ScanResponse), d, evType)
                 else S.Deliver(env, S.Refresh(env, s, d), d, evType)
    {}

    method Admit(a: Address, evType: Byte) returns (n: AdvertisedDevice)
      requires Valid()
      modifies `results, `live, `head, `tail, `waiting, `srTimer, `clock, `model, live`nextWaiting
      ensures Valid() && fresh(n) && model == S.Deliver(env, S.NewDevice(env, old(model), a, evType, n), n, evType)
    {
      n := Register(a, evType);
      Deliver(n, evType);
    }

    /** A scan response, or the advertisement once more. */
    method Repeated(d: AdvertisedDevice, evType: Byte)
      requires Valid() && d in live
      modifies `results, `live, `head, `tail, `waiting, `srTimer, `clock, `model, live`nextWaiting, d`callbackSent, d`time
      ensures Valid()
      ensures evType == S.SCAN_RSP ==>
                model == S.Deliver(env, S.EndStay(env, S.ReadClock(env, old(model)), d, S.Cause.ScanResponse), d, evType)
      ensures evType != S.SCAN_RSP ==> model == S.Deliver(env, S.Refresh(env, old(model), d), d, evType)
    {
      if evType == S.SCAN_RSP {
        var t := TimeGet();
        EndStay(d, S.Cause.ScanResponse);
      } else {
        Refresh(d);
      }
      Deliver(d, evType);
    }

    /** A stay ends without a response: the device is reported with what it has. */
    method Expire(ghost c: S.Cause)
      requires Valid() && head != null
      modifies `head, `tail, `waiting, `srTimer, `clock, `model, live`nextWaiting, head`callbackSent
      ensures Valid() && model == S.Expire(env, old(model), c)
    {
      var d := head;
      EndStay(d, c);
      SetSent(d, 2);
      Record([S.Reported(d)]);
    }

    method TakeExpiry()
      requires Valid()
      modifies `srTimer, `model
      ensures Valid() && model == old(model).(callout := old(srTimer).(pending := false))
    {
      srTimer := srTimer.(pending := false);
      model := model.(callout := srTimer);
    }

    method OnTimer()
      requires Valid()
      modifies `results, `live, `head, `tail, `waiting, `srTimer, `clock, `model, live`nextWaiting, live`callbackSent
      ensures Valid() && model == S.OnTimer(env, old(model))
    {
      var d := head;
      if d == null {
        CalloutStop();
        return;
      }
      var early := Early(d);
      if early {
        ResetWaitingTimer();
        return;
      }
      GiveUpOn(d);
    }

    method Early(d: AdvertisedDevice) returns (early: bool)
      requires Valid() && d in live
      modifies `clock, `model
      ensures Valid() && model == S.ReadClock(env, old(model))
      ensures early <==> Elapsed(model.clock.now, model.devices[d].stamp) < model.config.timeout
    {
      var t := TimeGet();
      early := (t - d.time) % WRAP < config.timeout;
    }

    /** The head has waited its time. */
    method GiveUpOn(d: AdvertisedDevice)
      requires Valid() && d == head
      modifies `results, `live, `head, `tail, `waiting, `srTimer, `clock, `model, live`nextWaiting, d`callbackSent
      ensures Valid()
      ensures var s := S.Expire(env, old(model), S.Cause.Timeout);
              model == if s.config.maxResults == 0 then S.EraseKey(env, s, d) else s
    {
      Expire(S.Cause.Timeout);
      if config.maxResults == 0 { EraseDevice(d); }
    }

    /** `srTimerCb`, run by the host task for a queued expiry. */
    method SrTimerCb()
      requires Valid() && srTimer.pending
      modifies this, live
      ensures Valid() && model == S.Step(env, old(model), S.TimerCallback)
    {
      TakeExpiry();
      OnTimer();
    }

    method DrainList()
      requires Valid()
      modifies `head, `tail, `waiting, `srTimer, `clock, `model, live`nextWaiting, live`callbackSent
      ensures Valid() && model == S.Drain(env, old(model))
    {
      while head != null
        invariant Valid() && live == old(live) && S.Drain(env, model) == S.Drain(env, old(model))
        decreases |model.waiting|
      {
        Expire(S.Cause.Complete);
      }
    }

    method OnScanEnd()
      requires Valid()
      modifies `model
      ensures Valid() && model == S.Note(old(model), S.ScanEnded)
    {
      Record([S.ScanEnded]);
    }

    /** BLE_GAP_EVENT_DISC_COMPLETE */
    method OnDiscoveryComplete()
      requires Valid()
      modifies `results, `live, `head, `tail, `waiting, `srTimer, `clock, `model, live`nextWaiting, live`callbackSent
      ensures Valid() && model == S.Step(env, old(model), S.ScanComplete)
    {
      Completes(env, model, S.Drain(env, S.StopTimer(model)));
      StopTimer();
      DrainList();
      Finish();
    }

    static lemma Completes(env: S.Env, s: S.State<AdvertisedDevice>, t: S.State<AdvertisedDevice>)
      requires S.Keyed(s) && t == S.Drain(env, S.StopTimer(s))
      ensures S.Step(env, s, S.ScanComplete) == S.Note(if t.config.maxResults == 0 then S.ClearAll(t) else t, S.ScanEnded)
    {}

    method Finish()
      requires Valid()
      modifies `results, `live, `head, `tail, `waiting, `srTimer, `model, live`nextWaiting
      ensures Valid()
      ensures model == S.Note(if old(model).config.maxResults == 0 then S.ClearAll(old(model)) else old(model), S.ScanEnded)
    {
      if config.maxResults == 0 { ClearResults(); }
      OnScanEnd();
    }

    // ---- the rest of the interface -----------------------------------------------

    constructor (env: S.Env, timeout: UInt32)
      ensures Valid() && this.env == env && model.results == [] && model.waiting == [] && model.devices == map[]
      ensures model.journal == [] && model.callout == S.Callout(S.Idle, false, false)
      ensures model.config == S.Config(timeout, S.UNLIMITED, true, true, false)
    {
      this.env := env;
      results, head, tail := [], null, null;
      srTimer, clock := S.Callout(S.Idle, false, false), S.Clock(0, 0);
      config := S.Config(timeout, S.UNLIMITED, true, true, false);
      waiting, live := [], {};
      model := S.State([], map[], [], S.Callout(S.Idle, false, false), S.Clock(0, 0),
                       S.Config(timeout, S.UNLIMITED, true, true, false), []);
    }

    method Stop(accepted: bool) returns (ok: bool)
      requires Valid()
      modifies this, live
      ensures Valid() && ok == accepted && model == S.Step(env, old(model), S.Stop(accepted))
    {
      if !accepted { return false; }
      Configure(config.(scanning := false));
      ClearWaitingList();
      if config.maxResults == 0 { ClearResults(); }
      ok := true;
    }

    method Configure(c: S.Config)
      requires Valid()
      modifies `config, `model
      ensures Valid() && config == c && model == old(model).(config := c)
    {
      config := c;
      model := model.(config := c);
    }

    method SetScanResponseTimeout(ticks: UInt32)
      requires Valid()
      modifies this
      ensures Valid() && model == S.Step(env, old(model), S.SetTimeout(ticks))
    {
      Configure(config.(timeout := ticks));
      ResetWaitingTimer();
    }

    method SetActiveScan(active: bool)
      requires Valid()
      modifies this
      ensures Valid() && model == S.Step(env, old(model), S.SetActiveScan(active))
    {
      Configure(config.(passive := !active));
    }

    method SetDuplicateFilter(enabled: bool)
      requires Valid()
      modifies this
      ensures Valid() && model == S.Step(env, old(model), S.SetDuplicateFilter(enabled))
    {
      Configure(config.(filterDuplicates := enabled));
    }

    method SetMaxResults(maxResults: Byte)
      requires Valid()
      modifies this
      ensures Valid() && model == S.Step(env, old(model), S.SetMaxResults(maxResults))
    {
      Configure(config.(maxResults := maxResults));
    }

    // ---- what the stack below does ---------------------------------------------------

    /** The radio starts or stops scanning. */
    method Radio(active: bool)
      requires Valid()
      modifies this
      ensures Valid() && model == S.Step(env, old(model), S.Radio(active))
    {
      Configure(config.(scanning := active));
    }

    /** The callout runs out: its event goes into the host's queue. */
    method TimerExpires()
      requires Valid()
      modifies `srTimer, `clock, `model
      ensures Valid() && model == S.Step(env, old(model), S.TimerExpires)
    {
      if srTimer.timer.Idle? { return; }
      clock := clock.(now := Max(clock.now, srTimer.timer.at + srTimer.timer.wait));
      srTimer := srTimer.(timer := S.Idle, pending := true);
      model := model.(clock := clock, callout := srTimer);
    }

    method OnHostDeinit()
      requires Valid()
      modifies this, live
      ensures Valid() && model == S.Step(env, old(model), S.HostDeinit)
    {
      ClearWaitingList();
      CalloutDeinit();
    }

    method CalloutDeinit()
      requires Valid()
      modifies `srTimer, `model
      ensures Valid() && model == old(model).(callout := old(srTimer).(timer := S.Idle, ready := false))
    {
      srTimer := srTimer.(timer := S.Idle, ready := false);
      model := model.(callout := srTimer);
    }
  }
}
