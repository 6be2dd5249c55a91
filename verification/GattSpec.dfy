/**
 * Attribute handles of the GATT server: a tree of services, characteristics and
 * descriptors, the tables built from it, and the replay of the stack's
 * registrations that gives each node its handle.
 */
module GattSpec {
  import opened Base
  import opened BleUuid

  datatype Descriptor = Descriptor(uuid: Uuid, removed: Removal, handle: nat)

  datatype Characteristic = Characteristic(uuid: Uuid, removed: Removal, handle: nat, descs: seq<Descriptor>)

  /** `table` is the null-terminated array the definition points at, empty for a null pointer. */
  datatype Service = Service(uuid: Uuid, removed: Removal, handle: nat, chars: seq<Characteristic>, table: seq<ChrDef>)

  datatype Removal = Shown | Hide | Delete

  /** Table entries; no UUID marks the terminator. */
  datatype ChrDef = ChrDef(uuid: Option<Uuid>, descs: seq<DscDef>)

  datatype DscDef = DscDef(uuid: Option<Uuid>)

  // ---- filling the open places of a list in order -----------------------------------------

  /** The nodes a predicate selects, in order. */
  function Filtered<T>(ts: seq<T>, keep: T -> bool): (r: seq<T>)
    ensures |r| <= |ts|
    ensures forall i :: 0 <= i < |r| ==> r[i] in ts && keep(r[i])
  {
    if ts == [] then []
    else if keep(ts[0]) then [ts[0]] + Filtered(ts[1..], keep)
    else Filtered(ts[1..], keep)
  }

  /** Where the first open node is. */
  function FirstOpen<T>(ts: seq<T>, open: T -> bool): (k: nat)
    ensures k <= |ts| && (k < |ts| ==> open(ts[k]))
    ensures forall i :: 0 <= i < k ==> !open(ts[i])
  {
    if ts == [] || open(ts[0]) then 0 else
      var k := FirstOpen(ts[1..], open);
      assert forall i :: 0 < i < k + 1 ==> ts[i] == ts[1..][i - 1];
      k + 1
  }

  /** The i-th open node takes the i-th item; the others stay. */
  function Fill<T, R>(ts: seq<T>, rs: seq<R>, open: T -> bool, put: (T, R) -> T): (r: seq<T>)
    ensures |r| == |ts|
  {
    if ts == [] || rs == [] then ts
    else if open(ts[0]) then [put(ts[0], rs[0])] + Fill(ts[1..], rs[1..], open, put)
    else [ts[0]] + Fill(ts[1..], rs, open, put)
  }

  /** Filling one by one: the first open node takes the first item and is open no more. */
  lemma {:induction false} FillStep<T, R>(ts: seq<T>, rs: seq<R>, open: T -> bool, put: (T, R) -> T, k: nat, t: T)
    requires rs != [] && k == FirstOpen(ts, open) && k < |ts| && t == put(ts[k], rs[0]) && !open(t)
    ensures Fill(ts[k := t], rs[1..], open, put) == Fill(ts, rs, open, put)
  {
    if k == 0 {
      FillSkip(ts[0 := t], rs[1..], open, put);
      assert ts[0 := t][1..] == ts[1..];
    } else {
      FillSkip(ts, rs, open, put);
      FillSkip(ts[k := t], rs[1..], open, put);
      assert ts[k := t][1..] == ts[1..][k - 1 := t];
      FillStep(ts[1..], rs, open, put, k - 1, t);
    }
  }

  lemma FillSkip<T, R>(ts: seq<T>, rs: seq<R>, open: T -> bool, put: (T, R) -> T)
    requires ts != [] && !open(ts[0])
    ensures Fill(ts, rs, open, put) == [ts[0]] + Fill(ts[1..], rs, open, put)
  {
    assert ts == [ts[0]] + ts[1..];
  }

  /** Closing the first open node takes the head off the open ones. */
  lemma {:induction false} FilteredStep<T>(ts: seq<T>, open: T -> bool, k: nat, t: T)
    requires k == FirstOpen(ts, open) && k < |ts| && !open(t)
    ensures Filtered(ts, open) != [] && Filtered(ts, open)[0] == ts[k]
    ensures Filtered(ts[k := t], open) == Filtered(ts, open)[1..]
  {
    if k == 0 {
      assert ts[0 := t][1..] == ts[1..];
    } else {
      assert ts[k := t][1..] == ts[1..][k - 1 := t];
      FilteredStep(ts[1..], open, k - 1, t);
    }
  }

  lemma {:induction false} FilteredNone<T>(ts: seq<T>, open: T -> bool)
    ensures FirstOpen(ts, open) == |ts| <==> Filtered(ts, open) == []
  {
    if ts != [] { FilteredNone(ts[1..], open); }
  }

  /** How many nodes in front of the i-th are open. */
  function Rank<T>(ts: seq<T>, i: nat, open: T -> bool): (n: nat)
    requires i <= |ts|
  {
    if i == 0 then 0 else (if open(ts[0]) then 1 else 0) + Rank(ts[1..], i - 1, open)
  }

  /** What `Fill` comes to, node by node. */
  lemma {:induction false} FillAt<T, R>(ts: seq<T>, rs: seq<R>, open: T -> bool, put: (T, R) -> T, i: nat)
    requires i < |ts| && |rs| == |Filtered(ts, open)|
    ensures open(ts[i]) ==> Rank(ts, i, open) < |rs| && Filtered(ts, open)[Rank(ts, i, open)] == ts[i]
    ensures Fill(ts, rs, open, put)[i] == if open(ts[i]) then put(ts[i], rs[Rank(ts, i, open)]) else ts[i]
  {
    if open(ts[0]) {
      if i > 0 { FillAt(ts[1..], rs[1..], open, put, i - 1); }
    } else if rs != [] {
      if i > 0 { FillAt(ts[1..], rs, open, put, i - 1); }
    } else {
      FilteredNone(ts, open);
    }
  }

  // ---- registrations ---------------------------------------------------------------------------

  /** The stack's registrations, one per table entry, with the handles it gave. */
  datatype DscReg = DscReg(uuid: Uuid, handle: nat)

  datatype ChrReg = ChrReg(uuid: Uuid, handle: nat, descs: seq<DscReg>)

  datatype SvcReg = SvcReg(uuid: Uuid, handle: nat, chars: seq<ChrReg>)

  /** The calls of the registration callback, services before their characteristics and those before their descriptors. */
  datatype Event = SvcEvent(uuid: Uuid, handle: nat) | ChrEvent(uuid: Uuid, handle: nat) | DscEvent(uuid: Uuid, handle: nat)

  function DscEvents(rs: seq<DscReg>): seq<Event> {
    if rs == [] then [] else [DscEvent(rs[0].uuid, rs[0].handle)] + DscEvents(rs[1..])
  }

  function ChrEvents(rs: seq<ChrReg>): seq<Event> {
    if rs == [] then []
    else [ChrEvent(rs[0].uuid, rs[0].handle)] + DscEvents(rs[0].descs) + ChrEvents(rs[1..])
  }

  function SvcEvents(rs: seq<SvcReg>): seq<Event> {
    if rs == [] then []
    else [SvcEvent(rs[0].uuid, rs[0].handle)] + ChrEvents(rs[0].chars) + SvcEvents(rs[1..])
  }

  /** `gattRegisterCallbackArgs`: the pointers as positions in the tree. */
  datatype State = State(svcs: seq<Service>, svc: Option<nat>, chr: Option<(nat, nat)>)

  predicate Current(st: State) {
    && (st.svc.Some? ==> st.svc.value < |st.svcs|)
    && (st.chr.Some? ==>
          st.chr.value.0 < |st.svcs| && st.chr.value.1 < |st.svcs[st.chr.value.0].chars|)
  }

  /** What the callback looks for: shown, without a handle yet, and with an equal UUID. */
  predicate Sought(removed: Removal, handle: nat, own: Uuid, uuid: Uuid) {
    removed == Shown && handle == 0 && Equal(own, uuid)
  }

  function SoughtSvc(uuid: Uuid): Service -> bool { (s: Service) => Sought(s.removed, s.handle, s.uuid, uuid) }

  function SoughtChr(uuid: Uuid): Characteristic -> bool {
    (c: Characteristic) => Sought(c.removed, c.handle, c.uuid, uuid)
  }

  function SoughtDsc(uuid: Uuid): Descriptor -> bool {
    (d: Descriptor) => Sought(d.removed, d.handle, d.uuid, uuid)
  }

  function OpenDsc(d: Descriptor): bool { d.removed == Shown && d.handle == 0 }

  function OpenChr(c: Characteristic): bool { c.removed == Shown && c.handle == 0 }

  function OpenSvc(s: Service): bool { s.removed == Shown && s.handle == 0 }

  function WithChars(svcs: seq<Service>, i: nat, cs: seq<Characteristic>): seq<Service>
    requires i < |svcs|
  {
    svcs[i := svcs[i].(chars := cs)]
  }

  function WithDescs(svcs: seq<Service>, i: nat, j: nat, ds: seq<Descriptor>): seq<Service>
    requires i < |svcs| && j < |svcs[i].chars|
  {
    WithChars(svcs, i, svcs[i].chars[j := svcs[i].chars[j].(descs := ds)])
  }

  lemma WithCharsFacts(svcs: seq<Service>, i: nat, a: seq<Characteristic>, b: seq<Characteristic>)
    requires i < |svcs|
    ensures WithChars(svcs, i, svcs[i].chars) == svcs
    ensures WithChars(svcs, i, a)[i].chars == a && WithChars(WithChars(svcs, i, a), i, b) == WithChars(svcs, i, b)
  {
    assert svcs[i].(chars := svcs[i].chars) == svcs[i];
  }

  lemma WithDescsFacts(svcs: seq<Service>, i: nat, j: nat, a: seq<Descriptor>, b: seq<Descriptor>)
    requires i < |svcs| && j < |svcs[i].chars|
    ensures WithDescs(svcs, i, j, svcs[i].chars[j].descs) == svcs
    ensures WithDescs(svcs, i, j, a)[i].chars[j].descs == a
    ensures WithDescs(WithDescs(svcs, i, j, a), i, j, b) == WithDescs(svcs, i, j, b)
  {
    var cs := svcs[i].chars;
    assert cs[j].(descs := cs[j].descs) == cs[j] && cs[j := cs[j]] == cs;
    var ca, cb := cs[j].(descs := a), cs[j].(descs := b);
    assert cs[j := ca][j := cb] == cs[j := cb];
    WithCharsFacts(svcs, i, cs[j := ca], cs[j := cb]);
  }

  function OnSvc(st: State, uuid: Uuid, h: nat): (r: State)
    requires Current(st)
    ensures Current(r)
  {
    var k := FirstOpen(st.svcs, SoughtSvc(uuid));
    if k == |st.svcs| then st.(svc := None)
    else st.(svcs := st.svcs[k := st.svcs[k].(handle := h)], svc := Some(k))
  }

  function OnChr(st: State, uuid: Uuid, h: nat): (r: State)
    requires Current(st) && st.svc.Some?
    ensures Current(r)
  {
    var i := st.svc.value;
    var cs := st.svcs[i].chars;
    var k := FirstOpen(cs, SoughtChr(uuid));
    if k == |cs| then st.(chr := None)
    else st.(svcs := WithChars(st.svcs, i, cs[k := cs[k].(handle := h)]), chr := Some((i, k)))
  }

  function OnDsc(st: State, uuid: Uuid, h: nat): (r: State)
    requires Current(st) && st.chr.Some?
    ensures Current(r)
  {
    var (i, j) := st.chr.value;
    var ds := st.svcs[i].chars[j].descs;
    var k := FirstOpen(ds, SoughtDsc(uuid));
    if k == |ds| then st
    else st.(svcs := WithDescs(st.svcs, i, j, ds[k := ds[k].(handle := h)]))
  }

  /** `gattRegisterCallback` */
  function Step(st: State, ev: Event): (r: State)
    requires Current(st)
    ensures Current(r)
  {
    match ev
    case SvcEvent(u, h) => OnSvc(st, u, h)
    case ChrEvent(u, h) => if st.svc.None? then st else OnChr(st, u, h)
    case DscEvent(u, h) => if st.svc.None? || st.chr.None? then st else OnDsc(st, u, h)
  }

  function Replay(st: State, evs: seq<Event>): (r: State)
    requires Current(st)
    ensures Current(r)
    decreases |evs|
  {
    if evs == [] then st else Replay(Step(st, evs[0]), evs[1..])
  }

  lemma {:induction false} ReplayConcat(st: State, a: seq<Event>, b: seq<Event>)
    requires Current(st)
    ensures Replay(st, a + b) == Replay(Replay(st, a), b)
    decreases |a|
  {
    if a == [] {
      assert a + b == b;
    } else {
      ReplayConcat(Step(st, a[0]), a[1..], b);
      ConsConcat(a, b);
      ReplayStep(st, a);
      ReplayStep(st, a + b);
    }
  }

  lemma ReplayStep(st: State, evs: seq<Event>)
    requires Current(st) && evs != []
    ensures Replay(st, evs) == Replay(Step(st, evs[0]), evs[1..])
  {}

  // ---- descriptors ---------------------------------------------------------------------------

  function PutDsc(d: Descriptor, r: DscReg): Descriptor { d.(handle := r.handle) }

  function FillDscs(ds: seq<Descriptor>, rs: seq<DscReg>): seq<Descriptor> { Fill(ds, rs, OpenDsc, PutDsc) }

  /** The registrations are those of the open descriptors, in order. */
  predicate DscsMatch(ds: seq<Descriptor>, rs: seq<DscReg>) {
    && |rs| == |Filtered(ds, OpenDsc)|
    && forall n :: 0 <= n < |rs| ==> rs[n].uuid == Filtered(ds, OpenDsc)[n].uuid != [] && rs[n].handle > 0
  }

  /** The search lands on the first open node when that has the UUID. */
  lemma SearchHits<T>(ts: seq<T>, open: T -> bool, sought: T -> bool)
    requires forall t :: sought(t) ==> open(t)
    requires FirstOpen(ts, open) < |ts| && sought(ts[FirstOpen(ts, open)])
    ensures FirstOpen(ts, sought) == FirstOpen(ts, open)
  {}

  lemma DscStep(ds: seq<Descriptor>, rs: seq<DscReg>) returns (k: nat)
    requires DscsMatch(ds, rs) && rs != []
    ensures k == FirstOpen(ds, SoughtDsc(rs[0].uuid)) < |ds|
    ensures var ds' := ds[k := ds[k].(handle := rs[0].handle)];
            DscsMatch(ds', rs[1..]) && FillDscs(ds', rs[1..]) == FillDscs(ds, rs)
  {
    k := FirstOpen(ds, OpenDsc);
    FilteredNone(ds, OpenDsc);
    var d := PutDsc(ds[k], rs[0]);
    FilteredStep(ds, OpenDsc, k, d);
    FillStep(ds, rs, OpenDsc, PutDsc, k, d);
    SearchHits(ds, OpenDsc, SoughtDsc(rs[0].uuid));
  }

  lemma {:induction false} ReplayDscs(st: State, rs: seq<DscReg>)
    requires Current(st) && st.svc.Some? && st.chr.Some?
    requires var (i, j) := st.chr.value; DscsMatch(st.svcs[i].chars[j].descs, rs)
    ensures var (i, j) := st.chr.value;
            Replay(st, DscEvents(rs)) == st.(svcs := WithDescs(st.svcs, i, j, FillDscs(st.svcs[i].chars[j].descs, rs)))
    decreases |rs|
  {
    var (i, j) := st.chr.value;
    var ds := st.svcs[i].chars[j].descs;
    if rs == [] {
      WithDescsFacts(st.svcs, i, j, ds, ds);
    } else {
      var k := DscStep(ds, rs);
      var ds' := ds[k := ds[k].(handle := rs[0].handle)];
      WithDescsFacts(st.svcs, i, j, ds', FillDscs(ds, rs));
      ReplayDscs(Step(st, DscEvent(rs[0].uuid, rs[0].handle)), rs[1..]);
    }
  }

  // ---- characteristics -----------------------------------------------------------------------

  function PutChr(c: Characteristic, r: ChrReg): Characteristic {
    c.(handle := r.handle, descs := FillDscs(c.descs, r.descs))
  }

  function FillChrs(cs: seq<Characteristic>, rs: seq<ChrReg>): seq<Characteristic> { Fill(cs, rs, OpenChr, PutChr) }

  predicate ChrMatches(c: Characteristic, r: ChrReg) {
    r.uuid == c.uuid != [] && r.handle > 0 && DscsMatch(c.descs, r.descs)
  }

  predicate ChrsMatch(cs: seq<Characteristic>, rs: seq<ChrReg>) {
    && |rs| == |Filtered(cs, OpenChr)|
    && forall n :: 0 <= n < |rs| ==> ChrMatches(Filtered(cs, OpenChr)[n], rs[n])
  }

  lemma ChrStep(cs: seq<Characteristic>, rs: seq<ChrReg>) returns (k: nat)
    requires ChrsMatch(cs, rs) && rs != []
    ensures k == FirstOpen(cs, SoughtChr(rs[0].uuid)) < |cs| && DscsMatch(cs[k].descs, rs[0].descs)
    ensures var cs' := cs[k := PutChr(cs[k], rs[0])];
            ChrsMatch(cs', rs[1..]) && FillChrs(cs', rs[1..]) == FillChrs(cs, rs)
  {
    k := FirstOpen(cs, OpenChr);
    FilteredNone(cs, OpenChr);
    var c := PutChr(cs[k], rs[0]);
    FilteredStep(cs, OpenChr, k, c);
    FillStep(cs, rs, OpenChr, PutChr, k, c);
    SearchHits(cs, OpenChr, SoughtChr(rs[0].uuid));
  }

  /** One characteristic with its descriptors. */
  lemma ReplayChr(st: State, k: nat, r: ChrReg) returns (st': State)
    requires Current(st) && st.svc.Some?
    requires var cs := st.svcs[st.svc.value].chars;
             k == FirstOpen(cs, SoughtChr(r.uuid)) < |cs| && DscsMatch(cs[k].descs, r.descs)
    ensures Current(st') && Replay(st, [ChrEvent(r.uuid, r.handle)] + DscEvents(r.descs)) == st'
    ensures st'.svc == st.svc
    ensures var i := st.svc.value;
            var cs := st.svcs[i].chars;
            st'.svcs == WithChars(st.svcs, i, cs[k := PutChr(cs[k], r)])
  {
    var i := st.svc.value;
    var cs := st.svcs[i].chars;
    var evs := [ChrEvent(r.uuid, r.handle)] + DscEvents(r.descs);
    assert evs[1..] == DscEvents(r.descs);
    var mid := Step(st, evs[0]);
    var c := cs[k].(handle := r.handle);
    WithCharsFacts(st.svcs, i, cs[k := c], cs[k := PutChr(cs[k], r)]);
    ReplayDscs(mid, r.descs);
    st' := Replay(st, evs);
    assert cs[k := c][k := c.(descs := FillDscs(c.descs, r.descs))] == cs[k := PutChr(cs[k], r)];
  }

  lemma {:induction false} ReplayChrs(st: State, rs: seq<ChrReg>) returns (st': State)
    requires Current(st) && st.svc.Some? && ChrsMatch(st.svcs[st.svc.value].chars, rs)
    ensures Current(st') && Replay(st, ChrEvents(rs)) == st' && st'.svc == st.svc
    ensures st'.svcs == WithChars(st.svcs, st.svc.value, FillChrs(st.svcs[st.svc.value].chars, rs))
    decreases |rs|
  {
    var i := st.svc.value;
    var cs := st.svcs[i].chars;
    if rs == [] {
      st' := st;
      assert WithChars(st.svcs, i, cs) == st.svcs;
    } else {
      var k := ChrStep(cs, rs);
      var mid := ReplayChr(st, k, rs[0]);
      var cs' := cs[k := PutChr(cs[k], rs[0])];
      assert mid.svcs[i].chars == cs';
      st' := ReplayChrs(mid, rs[1..]);
      ReplayConcat(st, [ChrEvent(rs[0].uuid, rs[0].handle)] + DscEvents(rs[0].descs), ChrEvents(rs[1..]));
      assert WithChars(mid.svcs, i, FillChrs(cs', rs[1..])) == WithChars(st.svcs, i, FillChrs(cs, rs));
    }
  }

  // ---- services ---------------------------------------------------------------------------------

  function PutSvc(s: Service, r: SvcReg): Service {
    s.(handle := r.handle, chars := FillChrs(s.chars, r.chars))
  }

  function FillSvcs(svcs: seq<Service>, rs: seq<SvcReg>): seq<Service> { Fill(svcs, rs, OpenSvc, PutSvc) }

  predicate SvcMatches(s: Service, r: SvcReg) {
    r.uuid == s.uuid != [] && r.handle > 0 && ChrsMatch(s.chars, r.chars)
  }

  predicate SvcsMatch(svcs: seq<Service>, rs: seq<SvcReg>) {
    && |rs| == |Filtered(svcs, OpenSvc)|
    && forall n :: 0 <= n < |rs| ==> SvcMatches(Filtered(svcs, OpenSvc)[n], rs[n])
  }

  lemma SvcStep(svcs: seq<Service>, rs: seq<SvcReg>) returns (k: nat)
    requires SvcsMatch(svcs, rs) && rs != []
    ensures k == FirstOpen(svcs, SoughtSvc(rs[0].uuid)) < |svcs| && ChrsMatch(svcs[k].chars, rs[0].chars)
    ensures var svcs' := svcs[k := PutSvc(svcs[k], rs[0])];
            SvcsMatch(svcs', rs[1..]) && FillSvcs(svcs', rs[1..]) == FillSvcs(svcs, rs)
  {
    k := FirstOpen(svcs, OpenSvc);
    FilteredNone(svcs, OpenSvc);
    var s := PutSvc(svcs[k], rs[0]);
    FilteredStep(svcs, OpenSvc, k, s);
    FillStep(svcs, rs, OpenSvc, PutSvc, k, s);
    SearchHits(svcs, OpenSvc, SoughtSvc(rs[0].uuid));
  }

  lemma ReplaySvc(st: State, k: nat, r: SvcReg) returns (st': State)
    requires Current(st)
    requires k == FirstOpen(st.svcs, SoughtSvc(r.uuid)) < |st.svcs| && ChrsMatch(st.svcs[k].chars, r.chars)
    ensures Current(st') && Replay(st, [SvcEvent(r.uuid, r.handle)] + ChrEvents(r.chars)) == st'
    ensures st'.svcs == st.svcs[k := PutSvc(st.svcs[k], r)]
  {
    var evs := [SvcEvent(r.uuid, r.handle)] + ChrEvents(r.chars);
    assert evs[1..] == ChrEvents(r.chars);
    var mid := Step(st, evs[0]);
    st' := ReplayChrs(mid, r.chars);
    assert st'.svcs == st.svcs[k := PutSvc(st.svcs[k], r)];
  }

  /**
   * The replay of the registrations of the open services gives each open node, at
   * every level, the handle of its own registration.  UUIDs may repeat: the first
   * node still open is always the one whose registration comes next.
   */
  lemma {:induction false} ReplaySvcs(st: State, rs: seq<SvcReg>)
    requires Current(st) && SvcsMatch(st.svcs, rs)
    ensures Replay(st, SvcEvents(rs)).svcs == FillSvcs(st.svcs, rs)
    decreases |rs|
  {
    if rs != [] {
      var k := SvcStep(st.svcs, rs);
      var mid := ReplaySvc(st, k, rs[0]);
      ReplaySvcs(mid, rs[1..]);
      ReplayConcat(st, [SvcEvent(rs[0].uuid, rs[0].handle)] + ChrEvents(rs[0].chars), SvcEvents(rs[1..]));
    }
  }
}
