/**
 * The scanner of NimBLEScan.cpp as a transition system on values.  A device is
 * named by a key of type `K` (the class in Scan.dfy uses the object itself), so
 * every history the heap can go through is a history of this system.
 *
 * Time is the real tick count, a `nat`; the code only ever sees it modulo
 * 2^32, and `Elapsed` is where that truncation happens.
 */
module ScanSpec {
  import opened Base
  import opened BleAddress

  /** What the device record stores and the scanner looks at. */
  datatype Device = Device(address: Address, advType: Byte, callbackSent: Byte, stamp: nat)

  /** The one callout shared by every waiting device; `at` is the arming time. */
  datatype Timer = Idle | Armed(at: nat, wait: nat)

  /** `ready`: initialised; `pending`: its expiry event sits in the host's queue. */
  datatype Callout = Callout(timer: Timer, ready: bool, pending: bool)

  /** The tick counter, and how often the environment has been asked anything. */
  datatype Clock = Clock(now: nat, queries: nat)

  /** How a stay in the waiting list ends. */
  datatype Cause = ScanResponse | Timeout | Complete | Erased | Cleared

  /** The ghost journal: list movements and user callbacks, in order. */
  datatype Entry<K> =
    | Entered(dev: K)
    | Requeued(dev: K)
    | Left(dev: K, cause: Cause)
    | Discovered(dev: K)
    | Reported(dev: K)
    | ScanEnded

  /** The environment: clock increments and timer-allocation outcomes, one per query. */
  datatype Env = Env(tick: nat -> nat, initFails: nat -> bool)

  /** The caller's settings, and whether the radio is scanning (`ble_gap_disc_active`). */
  datatype Config = Config(
    timeout: UInt32,
    maxResults: Byte,
    passive: bool,
    filterDuplicates: bool,
    scanning: bool)

  datatype State<K> = State(
    results: seq<K>,
    devices: map<K, Device>,
    waiting: seq<K>,
    callout: Callout,
    clock: Clock,
    config: Config,
    journal: seq<Entry<K>>)

  datatype Event<K> =
    | Advertised(address: Address, evType: Byte, key: Option<K>, connected: bool)  // key: the new object, if one is made
    | TimerExpires
    | TimerCallback
    | ScanComplete
    | Erase(dev: K)
    | EraseAddress(address: Address)
    | Stop(accepted: bool)
    | ClearResults
    | SetTimeout(ticks: UInt32)
    | SetActiveScan(active: bool)
    | SetDuplicateFilter(enabled: bool)
    | SetMaxResults(max: Byte)
    | HostDeinit
    | Radio(active: bool)

  const ADV_IND: Byte := 0
  const SCAN_IND: Byte := 2
  const SCAN_RSP: Byte := 4
  const UNLIMITED: Byte := 0xFF

  predicate Scannable(dev: Device) { dev.advType == ADV_IND || dev.advType == SCAN_IND }

  predicate Reporting(c: Cause) { c.ScanResponse? || c.Timeout? || c.Complete? }

  predicate HeadOnly(c: Cause) { c.Timeout? || c.Complete? }

  /** The delay `resetWaitingTimer` hands to the callout. */
  function WaitFor(now: nat, stamp: nat, timeout: UInt32): nat {
    var e := Elapsed(now, stamp);
    if e >= timeout then 1 else timeout - e
  }

  // ---- steps ---------------------------------------------------------------

  ghost function ReadClock<K>(env: Env, s: State<K>): State<K> {
    s.(clock := Clock(s.clock.now + env.tick(s.clock.queries), s.clock.queries + 1))
  }

  ghost function StopTimer<K>(s: State<K>): State<K> {
    if s.callout.ready then s.(callout := s.callout.(timer := Idle)) else s
  }

  ghost function Note<K>(s: State<K>, e: Entry<K>): State<K> {
    s.(journal := s.journal + [e])
  }

  ghost predicate KeyedIn<K>(results: seq<K>, devices: map<K, Device>, waiting: seq<K>) {
    && (forall d :: d in results ==> d in devices)
    && (forall d :: d in waiting ==> d in results)
  }

  ghost predicate Keyed<K>(s: State<K>) { KeyedIn(s.results, s.devices, s.waiting) }

  /** The callout was armed in the past. */
  ghost predicate ArmedBefore<K>(s: State<K>) {
    s.callout.timer.Armed? ==> s.callout.timer.at <= s.clock.now
  }

  /** The two states differ in nothing but the callout and the clock. */
  ghost predicate OnlyTimer<K>(s: State<K>, r: State<K>) {
    && r.results == s.results && r.devices == s.devices && r.waiting == s.waiting && r.journal == s.journal
    && r.config == s.config && r.callout.pending == s.callout.pending && s.clock.now <= r.clock.now
    && (ArmedBefore(s) ==> ArmedBefore(r))
  }

  ghost function ResetTimer<K>(env: Env, s: State<K>): (r: State<K>)
    requires Keyed(s)
    ensures OnlyTimer(s, r)
  {
    if s.config.timeout == 0 || s.waiting == [] then StopTimer(s)
    else if !s.callout.ready && env.initFails(s.clock.queries) then s.(clock := s.clock.(queries := s.clock.queries + 1))
    else
      var s0 := if s.callout.ready then s else s.(callout := s.callout.(ready := true), clock := s.clock.(queries := s.clock.queries + 1));
      var s1 := ReadClock(env, s0);
      s1.(callout := s1.callout.(timer := Armed(s1.clock.now, WaitFor(s1.clock.now, s.devices[s.waiting[0]].stamp, s.config.timeout))))
  }

  ghost function AddWaiting<K>(s: State<K>, d: K): State<K> {
    if d in s.waiting then s else s.(waiting := s.waiting + [d])
  }

  ghost function RemoveWaiting<K>(env: Env, s: State<K>, d: K): (r: State<K>)
    requires Keyed(s)
    ensures OnlyTimer(s.(waiting := Without(s.waiting, d)), r)
  {
    if d !in s.waiting then WithoutAbsent(s.waiting, d); s
    else
      var s1 := s.(waiting := Without(s.waiting, d));
      if s.waiting[0] == d && s1.waiting != [] then ResetTimer(env, s1) else s1
  }

  /** `removeWaitingDevice` as seen in the journal: a stay ends for this cause. */
  ghost function EndStay<K>(env: Env, s: State<K>, d: K, c: Cause): (r: State<K>)
    requires Keyed(s)
    ensures Keyed(r) && r.results == s.results && r.devices == s.devices
  {
    var s1 := RemoveWaiting(env, s, d);
    if d in s.waiting then Note(s1, Left(d, c)) else s1
  }

  ghost function Departures<K>(w: seq<K>): seq<Entry<K>> {
    if w == [] then [] else [Left(w[0], Cleared)] + Departures(w[1..])
  }

  ghost function ClearWaiting<K>(s: State<K>): State<K> {
    StopTimer(s).(waiting := [], journal := s.journal + Departures(s.waiting))
  }

  ghost function EraseKey<K>(env: Env, s: State<K>, d: K): (r: State<K>)
    requires Keyed(s)
    ensures Keyed(r)
  {
    if d !in s.results then s
    else
      var s1 := EndStay(env, s, d, Cause.Erased);
      s1.(results := Without(s1.results, d), devices := s1.devices - {d})
  }

  ghost function ClearAll<K>(s: State<K>): State<K> {
    if s.config.scanning then s
    else ClearWaiting(s).(results := [], devices := map[])
  }

  ghost function SetSent<K>(s: State<K>, d: K, sent: Byte): State<K>
    requires d in s.devices
  {
    s.(devices := s.devices[d := s.devices[d].(callbackSent := sent)])
  }

  /** One `onResult` from the advertisement path, where the counter is a uint8_t `++`. */
  ghost function ReportNow<K>(s: State<K>, d: K): (r: State<K>)
    requires d in s.devices
    ensures Keyed(s) ==> Keyed(r)
    ensures r.results == s.results
  {
    Note(SetSent(s, d, (s.devices[d].callbackSent + 1) % 256), Reported(d))
  }

  ghost function DiscoverOnce<K>(s: State<K>, d: K): (r: State<K>)
    requires d in s.devices
    ensures Keyed(s) ==> Keyed(r)
    ensures r.results == s.results
  {
    if s.devices[d].callbackSent == 0 then Note(SetSent(s, d, 1), Discovered(d)) else s
  }

  /** The waiting-list branch at the end of the advertisement path. */
  ghost function Await<K>(env: Env, s: State<K>, d: K): (r: State<K>)
    requires Keyed(s) && d in s.results
    ensures Keyed(r) && r.results == s.results && r.devices == s.devices
  {
    var s1 := AddWaiting(if d in s.waiting then s else Note(s, Entered(d)), d);
    if s1.waiting[0] == d then ResetTimer(env, s1) else s1
  }

  /** Lines 319-340: the callbacks and the list entry after the record was updated. */
  ghost function Announce<K>(env: Env, s: State<K>, d: K, evType: Byte): (r: State<K>)
    requires Keyed(s) && d in s.results
    ensures Keyed(r) && r.results == s.results
  {
    var s1 := DiscoverOnce(s, d);
    if s1.config.passive || !Scannable(s1.devices[d]) || evType == SCAN_RSP
    then ReportNow(s1, d) else Await(env, s1, d)
  }

  /** Lines 342-345: a device nobody stores is dropped once it was reported. */
  ghost function DropReported<K>(env: Env, s: State<K>, d: K): (r: State<K>)
    requires Keyed(s) && d in s.results
    ensures Keyed(r)
  {
    if s.config.maxResults == 0 && s.devices[d].callbackSent >= 2 then EraseKey(env, s, d) else s
  }

  ghost function Deliver<K>(env: Env, s: State<K>, d: K, evType: Byte): (r: State<K>)
    requires Keyed(s) && d in s.results
    ensures Keyed(r)
  {
    DropReported(env, Announce(env, s, d, evType), d)
  }

  ghost function FindFrom<K>(s: State<K>, a: Address, i: nat): Option<K>
    requires Keyed(s)
    requires i <= |s.results|
    ensures FindFrom(s, a, i).Some? ==> FindFrom(s, a, i).value in s.results
    decreases |s.results| - i
  {
    if i == |s.results| then None
    else if s.devices[s.results[i]].address == a then Some(s.results[i])
    else FindFrom(s, a, i + 1)
  }

  ghost function Find<K>(s: State<K>, a: Address): (r: Option<K>)
    requires Keyed(s)
    ensures r.Some? ==> r.value in s.results
  {
    FindFrom(s, a, 0)
  }

  ghost predicate Full<K>(s: State<K>) {
    0 < s.config.maxResults < UNLIMITED && |s.results| >= s.config.maxResults
  }

  ghost function NewDevice<K>(env: Env, s: State<K>, a: Address, evType: Byte, key: K): (r: State<K>)
    requires Keyed(s)
    ensures Keyed(r) && key in r.results
  {
    var s1 := ReadClock(env, s);
    s1.(results := s.results + [key], devices := s.devices[key := Device(a, evType, 0, s1.clock.now)])
  }

  /** A repeat advertisement restarts the device's clock and its callbacks ... */
  ghost function Restamped<K>(env: Env, s: State<K>, d: K): (r: State<K>)
    requires Keyed(s) && d in s.results
    ensures Keyed(r) && r.results == s.results
  {
    var s1 := ReadClock(env, s);
    s1.(devices := s1.devices[d := s1.devices[d].(callbackSent := 0, stamp := s1.clock.now)])
  }

  /** ... and moves a scannable device to the tail, or puts it there. */
  ghost function Refresh<K>(env: Env, s: State<K>, d: K): (r: State<K>)
    requires Keyed(s) && d in s.results
    ensures Keyed(r) && r.results == s.results
  {
    var s2 := Restamped(env, s, d);
    if !Scannable(s2.devices[d]) then s2
    else Note(AddWaiting(RemoveWaiting(env, s2, d), d), if d in s.waiting then Requeued(d) else Entered(d))
  }

  ghost function Heard<K>(env: Env, s: State<K>, e: Event<K>): (r: State<K>)
    requires Keyed(s) && e.Advertised?
    ensures Keyed(r)
  {
    if !s.config.scanning || e.connected then s
    else
      match Find(s, e.address)
      case None =>
        if Full(s) || e.key.None? then s
        else Deliver(env, NewDevice(env, s, e.address, e.evType, e.key.value), e.key.value, e.evType)
      case Some(d) =>
        if e.evType == SCAN_RSP
        then Deliver(env, EndStay(env, ReadClock(env, s), d, Cause.ScanResponse), d, e.evType)
        else Deliver(env, Refresh(env, s, d), d, e.evType)
  }

  /** A stay that ends by timeout or completion is reported with the counter forced to 2. */
  ghost function Expire<K>(env: Env, s: State<K>, c: Cause): (r: State<K>)
    requires Keyed(s) && s.waiting != []
    ensures Keyed(r) && r.results == s.results
  {
    var d := s.waiting[0];
    Note(SetSent(EndStay(env, s, d, c), d, 2), Reported(d))
  }

  ghost function OnTimer<K>(env: Env, s: State<K>): (r: State<K>)
    requires Keyed(s)
    ensures Keyed(r)
  {
    if s.waiting == [] then s.(callout := s.callout.(timer := Idle))
    else
      var d := s.waiting[0];
      var s1 := ReadClock(env, s);
      if Elapsed(s1.clock.now, s1.devices[d].stamp) < s1.config.timeout then ResetTimer(env, s1)
      else
        var s2 := Expire(env, s1, Cause.Timeout);
        if s2.config.maxResults == 0 then EraseKey(env, s2, d) else s2
  }

  ghost function Drain<K>(env: Env, s: State<K>): (r: State<K>)
    requires Keyed(s)
    decreases |s.waiting|
    ensures Keyed(r)
  {
    if s.waiting == [] then s
    else
      Drain(env, Expire(env, s, Cause.Complete))
  }

  ghost function OnComplete<K>(env: Env, s: State<K>): (r: State<K>)
    requires Keyed(s)
    ensures Keyed(r)
  {
    var s1 := Drain(env, StopTimer(s));
    Note(if s1.config.maxResults == 0 then ClearAll(s1) else s1, ScanEnded)
  }

  ghost function OnStop<K>(s: State<K>, accepted: bool): State<K> {
    if !accepted then s
    else
      var s1 := ClearWaiting(s.(config := s.config.(scanning := false)));
      if s1.config.maxResults == 0 then ClearAll(s1) else s1
  }

  ghost function Step<K>(env: Env, s: State<K>, e: Event<K>): (r: State<K>)
    requires Keyed(s)
    ensures Keyed(r)
  {
    match e
    case Advertised(_, _, _, _) => Heard(env, s, e)
    case TimerExpires =>
      if s.callout.timer.Idle? then s
      else s.(clock := s.clock.(now := Max(s.clock.now, s.callout.timer.at + s.callout.timer.wait)),
             callout := s.callout.(timer := Idle, pending := true))
    case TimerCallback => if s.callout.pending then OnTimer(env, s.(callout := s.callout.(pending := false))) else s
    case ScanComplete => OnComplete(env, s)
    case Erase(d) => EraseKey(env, s, d)
    case EraseAddress(a) => (match Find(s, a) case None => s case Some(d) => EraseKey(env, s, d))
    case Stop(accepted) => OnStop(s, accepted)
    case ClearResults => ClearAll(s)
    case SetTimeout(ticks) => ResetTimer(env, s.(config := s.config.(timeout := ticks)))
    case SetActiveScan(active) => s.(config := s.config.(passive := !active))
    case SetDuplicateFilter(enabled) => s.(config := s.config.(filterDuplicates := enabled))
    case SetMaxResults(max) => s.(config := s.config.(maxResults := max))
    case HostDeinit => ClearWaiting(s).(callout := s.callout.(timer := Idle, ready := false))
    case Radio(active) => s.(config := s.config.(scanning := active))
  }
}
