/**
 * NimBLEServer.cpp and NimBLEService.cpp: building the tables, resetting the tree
 * and taking the stack's registrations.  Nodes are values here: a service holds its
 * characteristics and these their descriptors, and a pointer is a position.
 */
module Gatt {
  import opened Base
  import opened BleUuid
  import opened GattSpec
  import opened GattTables

  class Server {
    var svcs: seq<Service>
    var gattsStarted: bool
    var svcChanged: bool
    // gattRegisterCallbackArgs
    var curSvc: Option<nat>
    var curChr: Option<(nat, nat)>

    constructor ()
      ensures svcs == [] && !gattsStarted && !svcChanged
    {
      svcs, gattsStarted, svcChanged, curSvc, curChr := [], false, false, None, None;
    }

    ghost function Args(): State
      reads this
    {
      State(svcs, curSvc, curChr)
    }

    // ---- services come and go -----------------------------------------------------------

    method SetServiceChanged()
      modifies `svcChanged
      ensures svcChanged == (old(svcChanged) || gattsStarted)
    {
      if gattsStarted { svcChanged := true; }
    }

    /** Unless a start is due, everything shown is served. */
    ghost predicate InSync()
      reads this
    {
      gattsStarted && !svcChanged ==> Served(svcs)
    }

    method CreateService(uuid: Uuid)
      modifies this
      ensures svcs == old(svcs) + [Service(uuid, Shown, 0, [], [])]
      ensures gattsStarted == old(gattsStarted) && InSync()
    {
      svcs := svcs + [Service(uuid, Shown, 0, [], [])];
      SetServiceChanged();
    }

    /** `hidden` is whether the stack took the service out of sight. */
    method RemoveService(i: nat, deleteSvc: bool, hidden: bool)
      requires i < |svcs|
      modifies this
      ensures gattsStarted == old(gattsStarted) && (old(InSync()) ==> InSync())
      ensures old(svcs)[i].removed != Shown ==>
                svcs == (if deleteSvc then old(svcs)[..i] + old(svcs)[i + 1..] else old(svcs))
                && svcChanged == old(svcChanged)
      ensures old(svcs)[i].removed == Shown && !hidden ==> svcs == old(svcs) && svcChanged == old(svcChanged)
      ensures old(svcs)[i].removed == Shown && hidden ==>
                svcs == old(svcs)[i := old(svcs)[i].(removed := if deleteSvc then Delete else Hide)]
                && svcChanged == (old(svcChanged) || gattsStarted)
    {
      if svcs[i].removed != Shown {
        if deleteSvc { svcs := svcs[..i] + svcs[i + 1..]; }
        return;
      }
      if !hidden { return; }
      svcs := svcs[i := svcs[i].(removed := if deleteSvc then Delete else Hide)];
      SetServiceChanged();
    }

    /** `addService` for a service that was removed and is still in the vector. */
    method RestoreService(i: nat)
      requires i < |svcs| && svcs[i].removed != Shown
      modifies this
      ensures svcs == old(svcs)[i := old(svcs)[i].(removed := Shown)]
      ensures gattsStarted == old(gattsStarted) && svcChanged == (old(svcChanged) || gattsStarted) && InSync()
    {
      svcs := svcs[i := svcs[i].(removed := Shown)];
      SetServiceChanged();
    }

    /**
     * `addService` for one that is not: it only goes into the vector.  Once the server
     * has started nothing records that a start is due, and the service stays unserved.
     */
    method AddNewService(s: Service)
      requires s.removed == Shown && s.handle == 0
      modifies this
      ensures svcs == old(svcs) + [s] && gattsStarted == old(gattsStarted) && svcChanged == old(svcChanged)
      ensures InSync() <==> !(gattsStarted && !svcChanged)
    {
      svcs := svcs + [s];
      assert svcs[|svcs| - 1] == s;
    }

    // ---- the tables ------------------------------------------------------------------------

    /** Count, allocate one more than needed, fill in: the last one stays without a UUID. */
    method BuildDescs(ds: seq<Descriptor>) returns (t: seq<DscDef>)
      ensures t == DscTable(ds)
    {
      var num := 0;
      for k := 0 to |ds|
        invariant num == |Built(ds[..k], ShownDsc, DscDefOf)|
      {
        BuiltSnoc(ds, k, ShownDsc, DscDefOf);
        if ds[k].removed != Shown { continue; }
        num := num + 1;
      }
      assert ds[..|ds|] == ds;
      if num == 0 { return []; }
      var defs := new DscDef[num + 1](_ => NO_DSC);
      FillDescs(ds, defs, num);
      t := defs[..];
      assert t == defs[..num] + [defs[num]];
    }

    method FillDescs(ds: seq<Descriptor>, defs: array<DscDef>, num: nat)
      requires num == |Built(ds, ShownDsc, DscDefOf)| && defs.Length == num + 1 && defs[num] == NO_DSC
      modifies defs
      ensures defs[..num] == Built(ds, ShownDsc, DscDefOf) && defs[num] == NO_DSC
    {
      var j := 0;
      for k := 0 to |ds|
        invariant j <= num && defs[..j] == Built(ds[..k], ShownDsc, DscDefOf) && defs[num] == NO_DSC
      {
        BuiltSnoc(ds, k, ShownDsc, DscDefOf);
        if ds[k].removed != Shown { continue; }
        ghost var front := defs[..j];
        defs[j] := DscDefOf(ds[k]);
        assert defs[..j + 1] == front + [DscDefOf(ds[k])];
        j := j + 1;
      }
      assert ds[..|ds|] == ds;
    }

    method BuildTable(cs: seq<Characteristic>) returns (t: seq<ChrDef>)
      ensures t == TableOf(cs)
    {
      var num := CountChars(cs);
      if num == 0 { return []; }
      var defs := new ChrDef[num + 1](_ => NO_CHR);
      FillChars(cs, defs, num);
      t := defs[..];
      assert t == defs[..num] + [defs[num]];
    }

    method CountChars(cs: seq<Characteristic>) returns (num: nat)
      ensures num == |Built(cs, ShownChr, ChrDefOf)|
    {
      num := 0;
      for k := 0 to |cs|
        invariant num == |Built(cs[..k], ShownChr, ChrDefOf)|
      {
        BuiltSnoc(cs, k, ShownChr, ChrDefOf);
        if cs[k].removed != Shown { continue; }
        num := num + 1;
      }
      assert cs[..|cs|] == cs;
    }

    method FillChars(cs: seq<Characteristic>, defs: array<ChrDef>, num: nat)
      requires num == |Built(cs, ShownChr, ChrDefOf)| && defs.Length == num + 1 && defs[num] == NO_CHR
      modifies defs
      ensures defs[..num] == Built(cs, ShownChr, ChrDefOf) && defs[num] == NO_CHR
    {
      var i := 0;
      for k := 0 to |cs|
        invariant i <= num && defs[..i] == Built(cs[..k], ShownChr, ChrDefOf) && defs[num] == NO_CHR
      {
        BuiltSnoc(cs, k, ShownChr, ChrDefOf);
        if cs[k].removed != Shown { continue; }
        assert i < num;
        FillChar(cs[k], defs, i, num);
        i := i + 1;
      }
      assert cs[..|cs|] == cs;
    }

    method FillChar(c: Characteristic, defs: array<ChrDef>, i: nat, num: nat)
      requires i < num < defs.Length
      modifies defs
      ensures defs[..i + 1] == old(defs[..i]) + [ChrDefOf(c)] && defs[num] == old(defs[num])
    {
      var descs := BuildDescs(c.descs);
      defs[i] := ChrDef(Some(c.uuid), descs);
    }

    static ghost function Built<T, U>(ts: seq<T>, keep: T -> bool, f: T -> U): seq<U> { Mapped(Filtered(ts, keep), f) }

    static lemma BuiltNext<T, U>(ts: seq<T>, k: nat, keep: T -> bool, f: T -> U)
      requires k < |ts|
      ensures Built(ts[..k + 1], keep, f) == Built(ts[..k], keep, f) + if keep(ts[k]) then [f(ts[k])] else []
    {
      FilteredSnoc(ts, k, keep);
      MappedSnoc(Filtered(ts[..k], keep), ts[k], f);
    }

    static lemma BuiltSnoc<T, U>(ts: seq<T>, k: nat, keep: T -> bool, f: T -> U)
      requires k < |ts|
      ensures Built(ts[..k + 1], keep, f) == Built(ts[..k], keep, f) + if keep(ts[k]) then [f(ts[k])] else []
      ensures |Built(ts[..k + 1], keep, f)| <= |Built(ts, keep, f)|
    {
      BuiltNext(ts, k, keep, f);
      FilteredPrefix(ts, k + 1, keep);
    }

    static lemma {:induction false} FilteredSnoc<T>(ts: seq<T>, k: nat, keep: T -> bool)
      requires k < |ts|
      ensures Filtered(ts[..k + 1], keep) == Filtered(ts[..k], keep) + if keep(ts[k]) then [ts[k]] else []
    {
      if k > 0 {
        FilteredSnoc(ts[1..], k - 1, keep);
        assert ts[..k + 1][1..] == ts[1..][..k] && ts[..k][1..] == ts[1..][..k - 1];
      }
    }

    static lemma {:induction false} FilteredPrefix<T>(ts: seq<T>, k: nat, keep: T -> bool)
      requires k <= |ts|
      ensures |Filtered(ts[..k], keep)| <= |Filtered(ts, keep)|
    {
      if k > 0 {
        FilteredPrefix(ts[1..], k - 1, keep);
        assert ts[..k][1..] == ts[1..][..k - 1];
      }
    }

    static lemma {:induction false} MappedSnoc<T, U>(ts: seq<T>, t: T, f: T -> U)
      ensures Mapped(ts + [t], f) == Mapped(ts, f) + [f(t)]
    {
      if ts != [] {
        MappedSnoc(ts[1..], t, f);
        assert (ts + [t])[1..] == ts[1..] + [t];
      }
    }

    // ---- reset -------------------------------------------------------------------------------

    /** How far an erasing loop is: i nodes done, the first k of the old list seen. */
    static ghost predicate Erasing<T>(now: seq<T>, was: seq<T>, i: nat, k: nat, keep: T -> bool, f: T -> T) {
      i <= |now| && k <= |was| && now[i..] == was[k..] && now[..i] == Built(was[..k], keep, f)
    }

    static lemma EraseStep<T>(now: seq<T>, was: seq<T>, i: nat, k: nat, keep: T -> bool, f: T -> T)
      requires Erasing(now, was, i, k, keep, f) && i < |now|
      ensures k < |was| && now[i] == was[k]
      ensures !keep(now[i]) ==> Erasing(now[..i] + now[i + 1..], was, i, k + 1, keep, f)
      ensures keep(now[i]) ==> Erasing(now[i := f(now[i])], was, i + 1, k + 1, keep, f)
    {
      assert now[i] == now[i..][0] == was[k..][0];
      assert now[i + 1..] == now[i..][1..] && was[k + 1..] == was[k..][1..];
      BuiltNext(was, k, keep, f);
      var a, b := now[..i] + now[i + 1..], now[i := f(now[i])];
      assert a[..i] == now[..i] && a[i..] == now[i + 1..];
      assert b[..i + 1] == now[..i] + [f(now[i])] && b[i + 1..] == now[i + 1..];
    }

    static lemma EraseEnds<T>(now: seq<T>, was: seq<T>, i: nat, k: nat, keep: T -> bool, f: T -> T)
      requires Erasing(now, was, i, k, keep, f) && i == |now|
      ensures now == Built(was, keep, f)
    {
      assert was[..k] == was && now[..i] == now;
    }

    /** The innermost loop: erase what was deleted, zero the rest. */
    method ResetDescs(descs: seq<Descriptor>) returns (ds: seq<Descriptor>)
      ensures ds == ResetDscs(descs)
    {
      ds := descs;
      var i := 0;
      ghost var k := 0;
      while i < |ds|
        invariant 0 <= k && 0 <= i && Erasing(ds, descs, i, k, KeptDsc, ResetDsc)
        decreases |descs| - k
      {
        EraseStep(ds, descs, i, k, KeptDsc, ResetDsc);
        if ds[i].removed == Delete {
          ds := ds[..i] + ds[i + 1..];
        } else {
          ds := ds[i := ds[i].(handle := 0)];
          i := i + 1;
        }
        k := k + 1;
      }
      EraseEnds(ds, descs, i, k, KeptDsc, ResetDsc);
    }

    method ResetCharacteristic(chr: Characteristic) returns (c: Characteristic)
      ensures c == ResetChr(chr)
    {
      var ds := ResetDescs(chr.descs);
      c := chr.(handle := 0, descs := ds);
    }

    method ResetCharacteristics(chars: seq<Characteristic>) returns (cs: seq<Characteristic>)
      ensures cs == ResetChrs(chars)
    {
      cs := chars;
      var i := 0;
      ghost var k := 0;
      while i < |cs|
        invariant 0 <= k && 0 <= i && Erasing(cs, chars, i, k, KeptChr, ResetChr)
        decreases |chars| - k
      {
        EraseStep(cs, chars, i, k, KeptChr, ResetChr);
        if cs[i].removed == Delete {
          cs := cs[..i] + cs[i + 1..];
        } else {
          var c := ResetCharacteristic(cs[i]);
          cs := cs[i := c];
          i := i + 1;
        }
        k := k + 1;
      }
      EraseEnds(cs, chars, i, k, KeptChr, ResetChr);
    }

    /** `start_internal` of the i-th service; `accepted` is whether the stack takes its table. */
    method StartInternal(i: nat, accepted: bool) returns (ok: bool)
      requires i < |svcs|
      modifies `svcs
      ensures ok == accepted
      ensures svcs == old(svcs)[i := old(svcs)[i].(table := if ok then TableOf(old(svcs)[i].chars) else [])]
    {
      svcs := svcs[i := svcs[i].(table := [])];
      var t := BuildTable(svcs[i].chars);
      svcs := svcs[i := svcs[i].(table := t)];
      if !accepted {
        svcs := svcs[i := svcs[i].(table := [])];
        return false;
      }
      ok := true;
    }

    /** The body of the outer loop for a service that stays. */
    method ResetService(i: nat, accepted: bool) returns (ok: bool)
      requires i < |svcs| && svcs[i].removed != Delete
      modifies `svcs
      ensures ok == (old(svcs)[i].removed == Shown ==> accepted)
      ensures svcs == old(svcs)[i := if ok then ResetSvc(old(svcs)[i]) else Refused(old(svcs)[i])]
    {
      var cs := ResetCharacteristics(svcs[i].chars);
      svcs := svcs[i := svcs[i].(chars := cs)];
      if svcs[i].removed == Shown {
        ok := StartInternal(i, accepted);
        if !ok { return; }
      }
      svcs := svcs[i := svcs[i].(handle := 0)];
      ok := true;
    }

    /** `accepts(i)`: the stack takes the table of the i-th service that is left. */
    method ResetGATT(accepts: nat -> bool) returns (ok: bool)
      modifies `svcs
      ensures svcs == ResetFrom(old(svcs), accepts, 0).0 && ok == ResetFrom(old(svcs), accepts, 0).1
      ensures ok <==> AllTaken(old(svcs), accepts, 0)
    {
      ResetExactly(svcs, accepts, 0);
      var i := 0;
      ghost var was, k := svcs, 0;
      RestNone(was, accepts);
      while i < |svcs|
        invariant 0 <= k <= |was| && i <= |svcs| && svcs[i..] == was[k..]
        invariant ResetFrom(was, accepts, 0) == Rest(svcs[..i], was[k..], accepts, i)
        decreases |was| - k
      {
        assert svcs[i] == svcs[i..][0] == was[k];
        RestStep(svcs[..i], was, k, accepts, i);
        if svcs[i].removed == Delete {
          svcs := svcs[..i] + svcs[i + 1..];
        } else {
          ghost var before := svcs;
          ok := ResetService(i, accepts(i));
          Around(before, i, svcs[i]);
          if !ok { return; }
          i := i + 1;
        }
        k := k + 1;
      }
      ok := true;
      assert svcs[..i] + [] == svcs && was[k..] == [];
    }

    static lemma Around<T>(s: seq<T>, i: nat, t: T)
      requires i < |s|
      ensures s[i := t] == s[..i] + ([t] + s[i + 1..])
      ensures s[i := t][..i + 1] == s[..i] + [t] && s[i := t][i + 1..] == s[i + 1..] == s[i..][1..]
    {}

    static lemma RestNone(svcs: seq<Service>, ok: nat -> bool)
      ensures ResetFrom(svcs, ok, 0) == Rest(svcs[..0], svcs[0..], ok, 0)
    {
      assert svcs[0..] == svcs && svcs[..0] == [];
      assert svcs[..0] + ResetFrom(svcs, ok, 0).0 == ResetFrom(svcs, ok, 0).0;
    }

    /** What a reset comes to that has these services done and those to do. */
    static ghost function Rest(done: seq<Service>, todo: seq<Service>, ok: nat -> bool, i: nat): (seq<Service>, bool) {
      (done + ResetFrom(todo, ok, i).0, ResetFrom(todo, ok, i).1)
    }

    static lemma RestStep(done: seq<Service>, was: seq<Service>, k: nat, ok: nat -> bool, i: nat)
      requires k < |was|
      ensures was[k..][1..] == was[k + 1..]
      ensures was[k].removed == Delete ==> Rest(done, was[k..], ok, i) == Rest(done, was[k + 1..], ok, i)
      ensures was[k].removed != Delete && (was[k].removed == Shown ==> ok(i)) ==>
                Rest(done, was[k..], ok, i) == Rest(done + [ResetSvc(was[k])], was[k + 1..], ok, i + 1)
      ensures was[k].removed == Shown && !ok(i) ==>
                Rest(done, was[k..], ok, i) == (done + ([Refused(was[k])] + was[k + 1..]), false)
    {
      var t := ResetFrom(was[k + 1..], ok, i + 1).0;
      assert done + ([ResetSvc(was[k])] + t) == done + [ResetSvc(was[k])] + t;
    }

    // ---- registration ----------------------------------------------------------------------------

    method GattRegisterCallback(ev: Event)
      requires Current(Args())
      modifies `svcs, `curSvc, `curChr
      ensures Current(Args()) && Args() == Step(old(Args()), ev)
    {
      match ev
      case SvcEvent(uuid, handle) => RegisterService(uuid, handle);
      case ChrEvent(uuid, handle) => if curSvc.Some? { RegisterCharacteristic(uuid, handle); }
      case DscEvent(uuid, handle) => if curSvc.Some? && curChr.Some? { RegisterDescriptor(uuid, handle); }
    }

    method RegisterService(uuid: Uuid, handle: nat)
      requires Current(Args())
      modifies `svcs, `curSvc
      ensures Args() == OnSvc(old(Args()), uuid, handle)
    {
      curSvc := None;
      ghost var k := FirstOpen(svcs, SoughtSvc(uuid));
      for i := 0 to |svcs|
        invariant svcs == old(svcs) && curSvc == None && i <= k
      {
        assert SoughtSvc(uuid)(svcs[i]) == Sought(svcs[i].removed, svcs[i].handle, svcs[i].uuid, uuid);
        if svcs[i].removed == Shown && svcs[i].handle == 0 && Equal(svcs[i].uuid, uuid) {
          svcs := svcs[i := svcs[i].(handle := handle)];
          curSvc := Some(i);
          return;
        }
      }
    }

    method RegisterCharacteristic(uuid: Uuid, handle: nat)
      requires Current(Args()) && curSvc.Some?
      modifies `svcs, `curChr
      ensures Args() == OnChr(old(Args()), uuid, handle)
    {
      curChr := None;
      var i := curSvc.value;
      var cs := svcs[i].chars;
      ghost var k := FirstOpen(cs, SoughtChr(uuid));
      for j := 0 to |cs|
        invariant svcs == old(svcs) && curChr == None && j <= k
      {
        assert SoughtChr(uuid)(cs[j]) == Sought(cs[j].removed, cs[j].handle, cs[j].uuid, uuid);
        if cs[j].removed == Shown && cs[j].handle == 0 && Equal(cs[j].uuid, uuid) {
          svcs := svcs[i := svcs[i].(chars := cs[j := cs[j].(handle := handle)])];
          curChr := Some((i, j));
          return;
        }
      }
    }

    method RegisterDescriptor(uuid: Uuid, handle: nat)
      requires Current(Args()) && curChr.Some?
      modifies `svcs
      ensures Args() == OnDsc(old(Args()), uuid, handle)
    {
      var (i, j) := curChr.value;
      var ds := svcs[i].chars[j].descs;
      ghost var k := FirstOpen(ds, SoughtDsc(uuid));
      for l := 0 to |ds|
        invariant svcs == old(svcs) && l <= k
      {
        assert SoughtDsc(uuid)(ds[l]) == Sought(ds[l].removed, ds[l].handle, ds[l].uuid, uuid);
        if ds[l].removed == Shown && ds[l].handle == 0 && Equal(ds[l].uuid, uuid) {
          svcs := WithDescs(svcs, i, j, ds[l := ds[l].(handle := handle)]);
          return;
        }
      }
    }

    /** `ble_gatts_start`, as far as the callback sees it. */
    method Deliver(evs: seq<Event>)
      requires Current(Args())
      modifies `svcs, `curSvc, `curChr
      ensures Args() == Replay(old(Args()), evs)
    {
      for i := 0 to |evs|
        invariant Current(Args()) && Replay(Args(), evs[i..]) == Replay(old(Args()), evs)
      {
        assert evs[i..][1..] == evs[i + 1..];
        GattRegisterCallback(evs[i]);
      }
    }

    /**
     * `start`.  The stack takes the tables `accepts` says, registers its own services
     * `builtins` and then `regs`, one for each table; if it fails it has reported
     * `delivered` registrations only.
     */
    method Start(connected: bool, accepts: nat -> bool, builtins: seq<SvcReg>, regs: seq<SvcReg>,
                 failed: bool, delivered: nat) returns (ok: bool)
      requires Valid(svcs) && Apart(builtins, regs)
      requires AllTaken(svcs, accepts, 0) ==> Registers(ResetFrom(svcs, accepts, 0).0, regs)
      requires delivered <= |SvcEvents(builtins) + SvcEvents(regs)|
      modifies this
      ensures var due := !old(gattsStarted) || (old(svcChanged) && !connected);
              var after, all := ResetFrom(old(svcs), accepts, 0).0, AllTaken(old(svcs), accepts, 0);
              && (ok <==> (due ==> all && !failed))
              && (!due ==> svcs == old(svcs) && gattsStarted && svcChanged == old(svcChanged))
              && (due ==> gattsStarted == ok && svcChanged == (old(svcChanged) && !ok))
              && (due && !all ==> svcs == after)
              && (due && ok && !Clash(after, builtins) ==> svcs == FillSvcs(after, regs) && SvcsMatch(after, regs))
              && (due && ok && Clash(after, builtins) ==> svcs != FillSvcs(after, regs))
      ensures var due := !old(gattsStarted) || (old(svcChanged) && !connected);
              && (due && ok && !Clash(ResetFrom(old(svcs), accepts, 0).0, builtins) ==> InSync())
              && (!due ==> InSync() == old(InSync()))
    {
      if svcChanged && !connected { gattsStarted := false; }
      if gattsStarted { return true; }
      ghost var was := svcs;
      var done := ResetGATT(accepts);
      if !done { return false; }
      ReplayServes(was, accepts, builtins, regs, svcs);
      curSvc, curChr := None, None;
      if failed {
        Deliver((SvcEvents(builtins) + SvcEvents(regs))[..delivered]);
        return false;
      }
      Deliver(SvcEvents(builtins) + SvcEvents(regs));
      svcChanged := false;
      gattsStarted := true;
      ok := true;
    }

    /** What the replay after a reset comes to. */
    static lemma ReplayServes(was: seq<Service>, accepts: nat -> bool, builtins: seq<SvcReg>, regs: seq<SvcReg>, after: seq<Service>)
      requires GattTables.Valid(was) && Apart(builtins, regs) && ResetFrom(was, accepts, 0) == (after, true)
      requires Registers(after, regs)
      ensures SvcsMatch(after, regs) && Served(FillSvcs(after, regs))
      ensures Replay(State(after, None, None), SvcEvents(builtins) + SvcEvents(regs)).svcs == FillSvcs(after, regs)
              <==> !Clash(after, builtins)
    {
      ResetMatches(was, accepts, regs);
      ResetBlank(was, accepts);
      FillServes(after, regs);
      ReplayIsOwn(after, builtins, regs);
    }
  }
}
