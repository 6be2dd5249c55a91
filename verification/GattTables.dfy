/** Resetting the tree, the null-terminated tables, and what a whole start assigns. */
module GattTables {
  import opened Base
  import opened BleUuid
  import opened GattSpec

  function Mapped<T, U>(ts: seq<T>, f: T -> U): (r: seq<U>)
    ensures |r| == |ts| && forall i :: 0 <= i < |ts| ==> r[i] == f(ts[i])
  {
    if ts == [] then [] else [f(ts[0])] + Mapped(ts[1..], f)
  }

  lemma {:induction false} FilteredSame<T>(ts: seq<T>, p: T -> bool, q: T -> bool)
    requires forall i :: 0 <= i < |ts| ==> p(ts[i]) == q(ts[i])
    ensures Filtered(ts, p) == Filtered(ts, q)
  {
    if ts != [] {
      assert forall i :: 0 <= i < |ts| - 1 ==> ts[1..][i] == ts[i + 1];
      FilteredSame(ts[1..], p, q);
    }
  }

  // ---- resetting ------------------------------------------------------------------------

  function KeptDsc(d: Descriptor): bool { d.removed != Delete }

  function KeptChr(c: Characteristic): bool { c.removed != Delete }

  function ResetDsc(d: Descriptor): Descriptor { d.(handle := 0) }

  function ResetDscs(ds: seq<Descriptor>): seq<Descriptor> { Mapped(Filtered(ds, KeptDsc), ResetDsc) }

  function ResetChr(c: Characteristic): Characteristic { c.(handle := 0, descs := ResetDscs(c.descs)) }

  function ResetChrs(cs: seq<Characteristic>): seq<Characteristic> { Mapped(Filtered(cs, KeptChr), ResetChr) }

  /** The characteristics are reset first; a shown service then has its table built anew. */
  function ResetSvc(s: Service): Service {
    var cs := ResetChrs(s.chars);
    s.(handle := 0, chars := cs, table := if s.removed == Shown then TableOf(cs) else s.table)
  }

  /** A service the stack refuses keeps its handle, and so do all behind it. */
  function Refused(s: Service): Service { s.(chars := ResetChrs(s.chars), table := []) }

  /** `resetGATT`, where `ok(i)` says whether the stack takes the table of the i-th service kept. */
  function ResetFrom(svcs: seq<Service>, ok: nat -> bool, i: nat): (r: (seq<Service>, bool)) {
    if svcs == [] then ([], true)
    else if svcs[0].removed == Delete then ResetFrom(svcs[1..], ok, i)
    else if svcs[0].removed == Shown && !ok(i) then ([Refused(svcs[0])] + svcs[1..], false)
    else
      var (rest, all) := ResetFrom(svcs[1..], ok, i + 1);
      ([ResetSvc(svcs[0])] + rest, all)
  }

  function KeptSvc(s: Service): bool { s.removed != Delete }

  /** A reset that goes through drops the deleted services and resets all others, in order. */
  lemma {:induction false} ResetAll(svcs: seq<Service>, ok: nat -> bool, i: nat)
    requires ResetFrom(svcs, ok, i).1
    ensures ResetFrom(svcs, ok, i).0 == Mapped(Filtered(svcs, KeptSvc), ResetSvc)
  {
    if svcs != [] {
      if svcs[0].removed == Delete {
        ResetAll(svcs[1..], ok, i);
      } else {
        ResetAll(svcs[1..], ok, i + 1);
        assert Filtered(svcs, KeptSvc) == [svcs[0]] + Filtered(svcs[1..], KeptSvc);
      }
    }
  }

  /** The stack takes the table of every shown service; they are numbered with the hidden ones, past those that go. */
  ghost predicate AllTaken(svcs: seq<Service>, ok: nat -> bool, i: nat) {
    forall j: nat :: j < |svcs| ==> Taken(svcs, ok, i, j)
  }

  predicate Taken(svcs: seq<Service>, ok: nat -> bool, i: nat, j: nat)
    requires j < |svcs|
  {
    svcs[j].removed == Shown ==> ok(i + Rank(svcs, j, KeptSvc))
  }

  lemma TakenNext(svcs: seq<Service>, ok: nat -> bool, i: nat, n: nat, j: nat)
    requires j + 1 < |svcs| && n == if KeptSvc(svcs[0]) then i + 1 else i
    ensures Taken(svcs, ok, i, j + 1) <==> Taken(svcs[1..], ok, n, j)
  {}

  lemma AllTakenStep(svcs: seq<Service>, ok: nat -> bool, i: nat, n: nat)
    requires svcs != [] && n == if KeptSvc(svcs[0]) then i + 1 else i
    ensures AllTaken(svcs, ok, i) <==> (svcs[0].removed == Shown ==> ok(i)) && AllTaken(svcs[1..], ok, n)
  {
    assert Taken(svcs, ok, i, 0) <==> (svcs[0].removed == Shown ==> ok(i));
    if AllTaken(svcs, ok, i) {
      forall j: nat | j < |svcs[1..]| ensures Taken(svcs[1..], ok, n, j) { TakenNext(svcs, ok, i, n, j); }
    } else {
      var j: nat :| j < |svcs| && !Taken(svcs, ok, i, j);
      if j > 0 { TakenNext(svcs, ok, i, n, j - 1); }
    }
  }

  /** A reset goes through if and only if it is so. */
  lemma {:induction false} ResetExactly(svcs: seq<Service>, ok: nat -> bool, i: nat)
    ensures ResetFrom(svcs, ok, i).1 <==> AllTaken(svcs, ok, i)
  {
    if svcs != [] {
      var n := if KeptSvc(svcs[0]) then i + 1 else i;
      AllTakenStep(svcs, ok, i, n);
      ResetExactly(svcs[1..], ok, n);
    }
  }

  lemma ResetFirst(x: Service, t: seq<Service>, ok: nat -> bool, i: nat)
    ensures ResetFrom([x] + t, ok, i)
            == if x.removed == Delete then ResetFrom(t, ok, i)
               else if x.removed == Shown && !ok(i) then ([Refused(x)] + t, false)
               else ([ResetSvc(x)] + ResetFrom(t, ok, i + 1).0, ResetFrom(t, ok, i + 1).1)
  {
    assert ([x] + t)[1..] == t;
  }

  /** Services that are reset are out of the way of those behind them. */
  lemma {:induction false} ResetOn(a: seq<Service>, b: seq<Service>, ok: nat -> bool, i: nat)
    requires ResetFrom(a, ok, i).1
    ensures var done := ResetFrom(a, ok, i).0;
            var (rest, all) := ResetFrom(b, ok, i + |done|);
            ResetFrom(a + b, ok, i) == (done + rest, all)
    decreases |a|
  {
    if a == [] {
      assert a + b == b;
      assert [] + ResetFrom(b, ok, i).0 == ResetFrom(b, ok, i).0;
    } else {
      var x, t := a[0], a[1..];
      assert a == [x] + t && a + b == [x] + (t + b);
      ResetFirst(x, t, ok, i);
      ResetFirst(x, t + b, ok, i);
      if x.removed == Delete {
        ResetOn(t, b, ok, i);
      } else {
        ResetOn(t, b, ok, i + 1);
        var done := ResetFrom(t, ok, i + 1).0;
        Assoc([ResetSvc(x)], done, ResetFrom(b, ok, i + 1 + |done|).0);
      }
    }
  }

  /**
   * Otherwise it stops at the first service whose table is refused: those before it are
   * reset, it is left without a table, and all behind it are as they were.
   */
  lemma ResetStops(before: seq<Service>, s: Service, after: seq<Service>, ok: nat -> bool, i: nat)
    requires AllTaken(before, ok, i) && s.removed == Shown && !ok(i + |Filtered(before, KeptSvc)|)
    ensures ResetFrom(before + ([s] + after), ok, i)
            == (Mapped(Filtered(before, KeptSvc), ResetSvc) + ([s.(chars := ResetChrs(s.chars), table := [])] + after), false)
  {
    ResetExactly(before, ok, i);
    ResetAll(before, ok, i);
    StopsBehind(before, s, after, ok, i, Mapped(Filtered(before, KeptSvc), ResetSvc));
  }

  lemma StopsBehind(before: seq<Service>, s: Service, after: seq<Service>, ok: nat -> bool, i: nat, done: seq<Service>)
    requires ResetFrom(before, ok, i) == (done, true) && s.removed == Shown && !ok(i + |done|)
    ensures ResetFrom(before + ([s] + after), ok, i) == (done + ([Refused(s)] + after), false)
  {
    ResetOn(before, [s] + after, ok, i);
    ResetFirst(s, after, ok, i + |done|);
  }

  // ---- tables ------------------------------------------------------------------------------

  const NO_DSC := DscDef(None)
  const NO_CHR := ChrDef(None, [])

  /** What the stack reads from a table: the entries in front of the first one without a UUID. */
  datatype Entry = Entry(uuid: Uuid, descs: seq<Uuid>)

  function ReadDscs(t: seq<DscDef>): seq<Uuid> {
    if t == [] || t[0].uuid.None? then [] else [t[0].uuid.value] + ReadDscs(t[1..])
  }

  function ReadChrs(t: seq<ChrDef>): seq<Entry> {
    if t == [] || t[0].uuid.None? then []
    else [Entry(t[0].uuid.value, ReadDscs(t[0].descs))] + ReadChrs(t[1..])
  }

  function ShownDsc(d: Descriptor): bool { d.removed == Shown }

  function ShownChr(c: Characteristic): bool { c.removed == Shown }

  function DscDefOf(d: Descriptor): DscDef { DscDef(Some(d.uuid)) }

  /** Entries and a terminator, or no table at all. */
  function DscTable(ds: seq<Descriptor>): seq<DscDef> {
    var shown := Filtered(ds, ShownDsc);
    if shown == [] then [] else Mapped(shown, DscDefOf) + [NO_DSC]
  }

  function ChrDefOf(c: Characteristic): ChrDef { ChrDef(Some(c.uuid), DscTable(c.descs)) }

  function TableOf(cs: seq<Characteristic>): seq<ChrDef> {
    var shown := Filtered(cs, ShownChr);
    if shown == [] then [] else Mapped(shown, ChrDefOf) + [NO_CHR]
  }

  function UuidOf(d: Descriptor): Uuid { d.uuid }

  function EntryOf(c: Characteristic): Entry { Entry(c.uuid, Mapped(Filtered(c.descs, ShownDsc), UuidOf)) }

  lemma {:induction false} DscDefsRead(ds: seq<Descriptor>)
    ensures ReadDscs(Mapped(ds, DscDefOf) + [NO_DSC]) == Mapped(ds, UuidOf)
  {
    if ds != [] {
      DscDefsRead(ds[1..]);
      assert (Mapped(ds, DscDefOf) + [NO_DSC])[1..] == Mapped(ds[1..], DscDefOf) + [NO_DSC];
    }
  }

  lemma DscTableReads(ds: seq<Descriptor>)
    ensures ReadDscs(DscTable(ds)) == Mapped(Filtered(ds, ShownDsc), UuidOf)
  {
    DscDefsRead(Filtered(ds, ShownDsc));
  }

  lemma {:induction false} ChrDefsRead(cs: seq<Characteristic>)
    ensures ReadChrs(Mapped(cs, ChrDefOf) + [NO_CHR]) == Mapped(cs, EntryOf)
  {
    if cs != [] {
      ChrDefsRead(cs[1..]);
      DscTableReads(cs[0].descs);
      assert (Mapped(cs, ChrDefOf) + [NO_CHR])[1..] == Mapped(cs[1..], ChrDefOf) + [NO_CHR];
    }
  }

  /** The stack reads the shown characteristics with their shown descriptors, in order. */
  lemma TableReads(cs: seq<Characteristic>)
    ensures ReadChrs(TableOf(cs)) == Mapped(Filtered(cs, ShownChr), EntryOf)
  {
    ChrDefsRead(Filtered(cs, ShownChr));
  }

  // ---- the stack's side ------------------------------------------------------------------------

  predicate RegistersDscs(us: seq<Uuid>, rs: seq<DscReg>) {
    |rs| == |us| && forall n :: 0 <= n < |rs| ==> rs[n].uuid == us[n] && rs[n].handle > 0
  }

  predicate RegistersChrs(es: seq<Entry>, rs: seq<ChrReg>) {
    && |rs| == |es|
    && forall n :: 0 <= n < |rs| ==>
         rs[n].uuid == es[n].uuid && rs[n].handle > 0 && RegistersDscs(es[n].descs, rs[n].descs)
  }

  function ShownSvc(s: Service): bool { s.removed == Shown }

  /** One registration for each table handed over, in order, with a handle for each entry. */
  predicate Registers(svcs: seq<Service>, rs: seq<SvcReg>) {
    var shown := Filtered(svcs, ShownSvc);
    && |rs| == |shown|
    && forall n :: 0 <= n < |rs| ==>
         rs[n].uuid == shown[n].uuid && rs[n].handle > 0 && RegistersChrs(ReadChrs(shown[n].table), rs[n].chars)
  }

  /** Every node has a UUID. */
  predicate Valid(svcs: seq<Service>) {
    forall i :: 0 <= i < |svcs| ==> svcs[i].uuid != [] && ValidChrs(svcs[i].chars)
  }

  predicate ValidChrs(cs: seq<Characteristic>) {
    forall j :: 0 <= j < |cs| ==> cs[j].uuid != [] && ValidDscs(cs[j].descs)
  }

  predicate ValidDscs(ds: seq<Descriptor>) { forall k :: 0 <= k < |ds| ==> ds[k].uuid != [] }

  lemma ResetDscsMatch(ds: seq<Descriptor>, rs: seq<DscReg>)
    requires ValidDscs(ds)
    requires RegistersDscs(Mapped(Filtered(ResetDscs(ds), ShownDsc), UuidOf), rs)
    ensures DscsMatch(ResetDscs(ds), rs)
  {
    FilteredSame(ResetDscs(ds), OpenDsc, ShownDsc);
  }

  lemma ResetChrsMatch(cs: seq<Characteristic>, rs: seq<ChrReg>)
    requires ValidChrs(cs)
    requires RegistersChrs(ReadChrs(TableOf(ResetChrs(cs))), rs)
    ensures ChrsMatch(ResetChrs(cs), rs)
  {
    var after := ResetChrs(cs);
    FilteredSame(after, OpenChr, ShownChr);
    TableReads(after);
    var shown := Filtered(after, ShownChr);
    forall n | 0 <= n < |rs| ensures ChrMatches(shown[n], rs[n]) {
      var c := ResetOf(cs, shown[n]);
      ResetDscsMatch(c.descs, rs[n].descs);
    }
  }

  lemma ResetOf(cs: seq<Characteristic>, r: Characteristic) returns (c: Characteristic)
    requires r in ResetChrs(cs)
    ensures c in cs && r == ResetChr(c)
  {
    var j :| 0 <= j < |ResetChrs(cs)| && ResetChrs(cs)[j] == r;
    c := Filtered(cs, KeptChr)[j];
  }

  lemma ResetSvcOf(svcs: seq<Service>, r: Service) returns (s: Service)
    requires r in Mapped(Filtered(svcs, KeptSvc), ResetSvc)
    ensures s in svcs && r == ResetSvc(s)
  {
    var kept := Filtered(svcs, KeptSvc);
    var j :| 0 <= j < |kept| && Mapped(kept, ResetSvc)[j] == r;
    s := kept[j];
  }

  /** After a reset, the stack's registrations are those of the open nodes, level by level. */
  lemma ResetMatches(svcs: seq<Service>, ok: nat -> bool, rs: seq<SvcReg>)
    requires Valid(svcs) && ResetFrom(svcs, ok, 0).1 && Registers(ResetFrom(svcs, ok, 0).0, rs)
    ensures SvcsMatch(ResetFrom(svcs, ok, 0).0, rs)
  {
    ResetAll(svcs, ok, 0);
    var after := ResetFrom(svcs, ok, 0).0;
    FilteredSame(after, OpenSvc, ShownSvc);
    var shown := Filtered(after, ShownSvc);
    forall n | 0 <= n < |rs| ensures SvcMatches(shown[n], rs[n]) {
      var s := ResetSvcOf(svcs, shown[n]);
      ResetChrsMatch(s.chars, rs[n].chars);
    }
  }

  // ---- the built-in services --------------------------------------------------------------------

  /** The stack's own services come first; an open service with an equal UUID is taken for one of them. */
  predicate Clash(svcs: seq<Service>, bs: seq<SvcReg>) {
    exists m, k :: 0 <= m < |bs| && 0 <= k < |svcs| && OpenSvc(svcs[k]) && Equal(svcs[k].uuid, bs[m].uuid)
  }

  lemma {:induction false} SkipEvents(st: State, evs: seq<Event>)
    requires Current(st) && st.svc.None? && forall i :: 0 <= i < |evs| ==> !evs[i].SvcEvent?
    ensures Replay(st, evs) == st
  {
    if evs != [] {
      assert forall i :: 0 <= i < |evs| - 1 ==> evs[1..][i] == evs[i + 1];
      SkipEvents(st, evs[1..]);
    }
  }

  lemma {:induction false} NoSvcEvents(rs: seq<DscReg>)
    ensures forall i :: 0 <= i < |DscEvents(rs)| ==> !DscEvents(rs)[i].SvcEvent?
  {
    if rs != [] { NoSvcEvents(rs[1..]); }
  }

  lemma {:induction false} NoSvcEventsIn(rs: seq<ChrReg>)
    ensures forall i :: 0 <= i < |ChrEvents(rs)| ==> !ChrEvents(rs)[i].SvcEvent?
  {
    if rs != [] {
      NoSvcEvents(rs[0].descs);
      NoSvcEventsIn(rs[1..]);
    }
  }

  lemma SkipBuiltin(st: State, b: SvcReg)
    requires Current(st) && FirstOpen(st.svcs, SoughtSvc(b.uuid)) == |st.svcs|
    ensures Replay(st, [SvcEvent(b.uuid, b.handle)] + ChrEvents(b.chars)) == st.(svc := None)
  {
    var evs := [SvcEvent(b.uuid, b.handle)] + ChrEvents(b.chars);
    assert evs[1..] == ChrEvents(b.chars);
    NoSvcEventsIn(b.chars);
    SkipEvents(st.(svc := None), evs[1..]);
  }

  lemma {:induction false} SkipBuiltins(st: State, bs: seq<SvcReg>)
    requires Current(st) && !Clash(st.svcs, bs)
    ensures Replay(st, SvcEvents(bs)).svcs == st.svcs
    decreases |bs|
  {
    if bs != [] {
      SkipBuiltin(st, bs[0]);
      assert !Clash(st.svcs, bs[1..]) by {
        assert forall m :: 0 <= m < |bs| - 1 ==> bs[1..][m] == bs[m + 1];
      }
      SkipBuiltins(st.(svc := None), bs[1..]);
      ReplayConcat(st, [SvcEvent(bs[0].uuid, bs[0].handle)] + ChrEvents(bs[0].chars), SvcEvents(bs[1..]));
    }
  }

  /** A service's handle is set once. */
  lemma {:induction false} HandleSticks(st: State, evs: seq<Event>, k: nat)
    requires Current(st) && k < |st.svcs| && st.svcs[k].handle > 0
    ensures var st' := Replay(st, evs); k < |st'.svcs| && st'.svcs[k].handle == st.svcs[k].handle
    decreases |evs|
  {
    if evs != [] { HandleSticks(Step(st, evs[0]), evs[1..], k); }
  }

  lemma SvcEventsStep(bs: seq<SvcReg>, after: seq<Event>, head: seq<Event>)
    requires bs != [] && head == [SvcEvent(bs[0].uuid, bs[0].handle)] + ChrEvents(bs[0].chars)
    ensures SvcEvents(bs) + after == head + (SvcEvents(bs[1..]) + after)
  {
    Assoc(head, SvcEvents(bs[1..]), after);
  }

  /** The first registration of a service takes the first open one with its UUID, for good. */
  lemma FirstTakes(st: State, evs: seq<Event>, r: SvcReg, k: nat)
    requires Current(st) && evs != [] && evs[0] == SvcEvent(r.uuid, r.handle) && r.handle > 0
    requires k == FirstOpen(st.svcs, SoughtSvc(r.uuid)) && k < |st.svcs|
    ensures OpenSvc(st.svcs[k]) && Equal(st.svcs[k].uuid, r.uuid)
    ensures var st' := Replay(st, evs); k < |st'.svcs| && st'.svcs[k].handle == r.handle
  {
    ReplayStep(st, evs);
    HandleSticks(Step(st, evs[0]), evs[1..], k);
  }

  lemma {:induction false} BuiltinTakes(st: State, bs: seq<SvcReg>, after: seq<Event>) returns (m: nat, k: nat)
    requires Current(st) && Clash(st.svcs, bs) && forall i :: 0 <= i < |bs| ==> bs[i].handle > 0
    ensures m < |bs| && k < |st.svcs| && OpenSvc(st.svcs[k]) && Equal(st.svcs[k].uuid, bs[m].uuid)
    ensures var st' := Replay(st, SvcEvents(bs) + after); k < |st'.svcs| && st'.svcs[k].handle == bs[m].handle
    decreases |bs|
  {
    var head, more := [SvcEvent(bs[0].uuid, bs[0].handle)] + ChrEvents(bs[0].chars), SvcEvents(bs[1..]) + after;
    SvcEventsStep(bs, after, head);
    k := FirstOpen(st.svcs, SoughtSvc(bs[0].uuid));
    if k < |st.svcs| {
      m := 0;
      FirstTakes(st, head + more, bs[0], k);
    } else {
      SkipBuiltin(st, bs[0]);
      ReplayConcat(st, head, more);
      assert forall i :: 0 <= i < |bs| - 1 ==> bs[1..][i] == bs[i + 1];
      ClashLater(st.svcs, bs);
      m, k := BuiltinTakes(st.(svc := None), bs[1..], after);
      m := m + 1;
    }
  }

  lemma ClashLater(svcs: seq<Service>, bs: seq<SvcReg>)
    requires Clash(svcs, bs) && FirstOpen(svcs, SoughtSvc(bs[0].uuid)) == |svcs|
    ensures Clash(svcs, bs[1..])
  {
    var m, k :| 0 <= m < |bs| && 0 <= k < |svcs| && OpenSvc(svcs[k]) && Equal(svcs[k].uuid, bs[m].uuid);
    assert SoughtSvc(bs[0].uuid)(svcs[k]) <==> Equal(svcs[k].uuid, bs[0].uuid);
    assert bs[1..][m - 1] == bs[m];
  }

  /** The handles of the built-in services are theirs alone. */
  predicate Apart(bs: seq<SvcReg>, rs: seq<SvcReg>) {
    && (forall m :: 0 <= m < |bs| ==> bs[m].handle > 0)
    && forall m, n :: 0 <= m < |bs| && 0 <= n < |rs| ==> bs[m].handle != rs[n].handle
  }

  /**
   * The whole replay, built-in services first, gives every open node its own handle
   * exactly when no open service has a UUID equal to a built-in one's.
   */
  lemma ReplayIsOwn(svcs: seq<Service>, bs: seq<SvcReg>, rs: seq<SvcReg>)
    requires SvcsMatch(svcs, rs) && Apart(bs, rs)
    ensures Replay(State(svcs, None, None), SvcEvents(bs) + SvcEvents(rs)).svcs == FillSvcs(svcs, rs)
            <==> !Clash(svcs, bs)
  {
    var st := State(svcs, None, None);
    if Clash(svcs, bs) {
      var m, k := BuiltinTakes(st, bs, SvcEvents(rs));
      FillAt(svcs, rs, OpenSvc, PutSvc, k);
    } else {
      ReplayConcat(st, SvcEvents(bs), SvcEvents(rs));
      SkipBuiltins(st, bs);
      ReplaySvcs(Replay(st, SvcEvents(bs)), rs);
    }
  }

  // ---- node by node ------------------------------------------------------------------------------

  /** The i-th service of a filled list: its own registration's handle if shown, and 0 if hidden. */
  lemma SvcHandle(svcs: seq<Service>, rs: seq<SvcReg>, i: nat)
    requires SvcsMatch(svcs, rs) && i < |svcs| && svcs[i].handle == 0
    ensures var s, n := FillSvcs(svcs, rs)[i], Rank(svcs, i, OpenSvc);
            && s.uuid == svcs[i].uuid && s.removed == svcs[i].removed
            && (s.removed == Shown ==>
                  n < |rs| && rs[n].uuid == s.uuid && s.handle == rs[n].handle > 0
                  && s.chars == FillChrs(svcs[i].chars, rs[n].chars) && ChrsMatch(svcs[i].chars, rs[n].chars))
            && (s.removed != Shown ==> s.handle == 0 && s.chars == svcs[i].chars)
  {
    FillAt(svcs, rs, OpenSvc, PutSvc, i);
    if svcs[i].removed == Shown {
      assert SvcMatches(Filtered(svcs, OpenSvc)[Rank(svcs, i, OpenSvc)], rs[Rank(svcs, i, OpenSvc)]);
    }
  }

  lemma ChrHandle(cs: seq<Characteristic>, rs: seq<ChrReg>, i: nat)
    requires ChrsMatch(cs, rs) && i < |cs| && cs[i].handle == 0
    ensures var c, n := FillChrs(cs, rs)[i], Rank(cs, i, OpenChr);
            && c.uuid == cs[i].uuid && c.removed == cs[i].removed
            && (c.removed == Shown ==>
                  n < |rs| && rs[n].uuid == c.uuid && c.handle == rs[n].handle > 0
                  && c.descs == FillDscs(cs[i].descs, rs[n].descs) && DscsMatch(cs[i].descs, rs[n].descs))
            && (c.removed != Shown ==> c.handle == 0 && c.descs == cs[i].descs)
  {
    FillAt(cs, rs, OpenChr, PutChr, i);
    if cs[i].removed == Shown {
      assert ChrMatches(Filtered(cs, OpenChr)[Rank(cs, i, OpenChr)], rs[Rank(cs, i, OpenChr)]);
    }
  }

  lemma DscHandle(ds: seq<Descriptor>, rs: seq<DscReg>, i: nat)
    requires DscsMatch(ds, rs) && i < |ds| && ds[i].handle == 0
    ensures var d, n := FillDscs(ds, rs)[i], Rank(ds, i, OpenDsc);
            && d.uuid == ds[i].uuid && d.removed == ds[i].removed
            && (d.removed == Shown ==> n < |rs| && rs[n].uuid == d.uuid && d.handle == rs[n].handle > 0)
            && (d.removed != Shown ==> d.handle == 0)
  {
    FillAt(ds, rs, OpenDsc, PutDsc, i);
  }

  // ---- is everything shown served? -----------------------------------------------------------------

  /** No shown node is without a handle, down from the shown services. */
  predicate Served(svcs: seq<Service>) {
    forall i :: 0 <= i < |svcs| && svcs[i].removed == Shown ==> svcs[i].handle > 0 && ServedChrs(svcs[i].chars)
  }

  predicate ServedChrs(cs: seq<Characteristic>) {
    forall j :: 0 <= j < |cs| && cs[j].removed == Shown ==> cs[j].handle > 0 && ServedDscs(cs[j].descs)
  }

  predicate ServedDscs(ds: seq<Descriptor>) {
    forall k :: 0 <= k < |ds| && ds[k].removed == Shown ==> ds[k].handle > 0
  }

  /** All handles are zero, as after a reset. */
  predicate Blank(svcs: seq<Service>) {
    forall i :: 0 <= i < |svcs| ==> svcs[i].handle == 0 && BlankChrs(svcs[i].chars)
  }

  predicate BlankChrs(cs: seq<Characteristic>) {
    forall j :: 0 <= j < |cs| ==> cs[j].handle == 0 && forall k :: 0 <= k < |cs[j].descs| ==> cs[j].descs[k].handle == 0
  }

  lemma ResetBlank(svcs: seq<Service>, ok: nat -> bool)
    requires ResetFrom(svcs, ok, 0).1
    ensures Blank(ResetFrom(svcs, ok, 0).0)
    ensures forall i :: 0 <= i < |ResetFrom(svcs, ok, 0).0| ==> ResetFrom(svcs, ok, 0).0[i].removed != Delete
  {
    ResetAll(svcs, ok, 0);
  }

  lemma FillServesChrs(cs: seq<Characteristic>, rs: seq<ChrReg>)
    requires BlankChrs(cs) && ChrsMatch(cs, rs)
    ensures ServedChrs(FillChrs(cs, rs))
  {
    forall j | 0 <= j < |cs| && FillChrs(cs, rs)[j].removed == Shown
      ensures FillChrs(cs, rs)[j].handle > 0 && ServedDscs(FillChrs(cs, rs)[j].descs)
    {
      ChrHandle(cs, rs, j);
      var ds, n := cs[j].descs, Rank(cs, j, OpenChr);
      forall k | 0 <= k < |ds| ensures FillDscs(ds, rs[n].descs)[k].removed == Shown ==> FillDscs(ds, rs[n].descs)[k].handle > 0 {
        DscHandle(ds, rs[n].descs, k);
      }
    }
  }

  /** After a reset and its replay, everything shown is served. */
  lemma FillServes(svcs: seq<Service>, rs: seq<SvcReg>)
    requires Blank(svcs) && SvcsMatch(svcs, rs)
    ensures Served(FillSvcs(svcs, rs))
  {
    forall i | 0 <= i < |svcs| && FillSvcs(svcs, rs)[i].removed == Shown
      ensures FillSvcs(svcs, rs)[i].handle > 0 && ServedChrs(FillSvcs(svcs, rs)[i].chars)
    {
      SvcHandle(svcs, rs, i);
      FillServesChrs(svcs[i].chars, rs[Rank(svcs, i, OpenSvc)].chars);
    }
  }
}
