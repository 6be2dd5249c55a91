/**
 * NimBLEAdvertisementData.cpp: a byte vector edited in place.  Every setter is
 * proved to turn the encoding of one list of structures into the encoding of
 * the list that AdvWriterSpec gives.
 */
module AdvWriter {
  import opened Base
  import opened BleUuid
  import opened AdvFormat
  import opened AdvWriterSpec

  class AdvertisementData {
    var payload: seq<Byte>
    ghost var ads: seq<Ad>   // the structures the payload spells

    ghost predicate Valid()
      reads this
    {
      Sound(ads) && payload == Encode(ads)
    }

    constructor ()
      ensures Valid() && ads == []
    {
      payload, ads := [], [];
    }

    // ---- the byte level --------------------------------------------------------------

    method AddData(data: seq<Byte>, ghost a: Ad) returns (ok: bool)
      requires Valid() && WellTyped(a) && data == One(a)
      modifies this
      ensures Valid() && Outcome(ads, ok) == Appended(old(ads), a)
    {
      if |payload| + |data| > MAX_SIZE { return false; }
      AppendedSound(ads, a);
      EncodeSnoc(ads, a);
      payload, ads := payload + data, ads + [a];
      ok := true;
    }

    /** The byte offset of the first structure of a type, -1 if there is none. */
    method GetDataLocation(kind: Byte) returns (loc: int)
      requires Valid()
      ensures var k := First(ads, kind); loc == if k == |ads| then -1 else Offset(ads, k)
    {
      var index := 0;
      ghost var k := 0;
      while index < |payload|
        invariant 0 <= k <= |ads| && index == Offset(ads, k)
        invariant forall i :: 0 <= i < k ==> ads[i].kind != kind
        decreases |ads| - k
      {
        assert ads[..|ads|] == ads;
        EncodeAt(ads, k);
        if payload[index + 1] == kind {
          FirstIs(ads, kind, k);
          return index;
        }
        index := index + payload[index] + 1;
        k := k + 1;
      }
      loc := -1;
    }

    method RemoveData(kind: Byte) returns (ok: bool)
      requires Valid()
      modifies this
      ensures Valid() && Outcome(ads, ok) == Dropped(old(ads), kind)
    {
      var loc := GetDataLocation(kind);
      if loc == -1 { return false; }
      ghost var k := First(ads, kind);
      EncodeAt(ads, k);
      RemovedEncodes(ads, k);
      DroppedSound(ads, kind);
      var nextData := loc + payload[loc] + 1;
      payload, ads := payload[..loc] + payload[nextData..], Removed(ads, k);
      ok := true;
    }

    // ---- the typed setters -------------------------------------------------------------

    method SetAppearance(appearance: UInt16) returns (ok: bool)
      requires Valid()
      modifies this
      ensures Valid() && Outcome(ads, ok) == Apply(old(ads), Appearance(appearance))
    {
      if appearance == 0 {
        ok := RemoveData(APPEARANCE);
        return;
      }
      ok := AddData([3, APPEARANCE, appearance % 256, appearance / 256], Ad(APPEARANCE, Le16(appearance)));
    }

    method SetFlags(flag: Byte) returns (ok: bool)
      requires Valid()
      modifies this
      ensures Valid() && Outcome(ads, ok) == Apply(old(ads), Flags(flag))
    {
      var loc := GetDataLocation(FLAGS);
      if loc != -1 {
        if flag != 0 {
          OverwriteFlags(loc, WithBredr(flag));
          ok := true;
        } else {
          ok := RemoveData(FLAGS);
        }
        return;
      }
      ok := AddData([2, FLAGS, WithBredr(flag)], Ad(FLAGS, [WithBredr(flag)]));
    }

    method OverwriteFlags(loc: nat, b: Byte)
      requires Valid() && First(ads, FLAGS) < |ads| && loc == Offset(ads, First(ads, FLAGS))
      modifies this
      ensures Valid() && ads == old(ads)[First(old(ads), FLAGS) := Ad(FLAGS, [b])]
    {
      ghost var k := First(ads, FLAGS);
      assert WellTyped(ads[k]);
      ReplacedSound(ads, k, Ad(FLAGS, [b]));
      ReplacedEncodes(ads, k, Ad(FLAGS, [b]));
      EncodeSplit(ads, k);
      Poke(Encode(ads[..k]), ads[k], b, Encode(ads[k + 1..]));
      payload, ads := payload[loc + 2 := b], ads[k := Ad(FLAGS, [b])];
    }

    static lemma Poke(a: seq<Byte>, x: Ad, b: Byte, c: seq<Byte>)
      requires |x.value| == 1 && x.kind == FLAGS
      ensures (a + One(x) + c)[|a| + 2 := b] == a + One(Ad(FLAGS, [b])) + c
    {}

    method AddTxPower(power: Byte) returns (ok: bool)
      requires Valid()
      modifies this
      ensures Valid() && Outcome(ads, ok) == Apply(old(ads), TxPower(power))
    {
      ok := AddData([2, TX_POWER, power], Ad(TX_POWER, [power]));
    }

    method SetPreferredParams(minInterval: UInt16, maxInterval: UInt16) returns (ok: bool)
      requires Valid()
      modifies this
      ensures Valid() && Outcome(ads, ok) == Apply(old(ads), PreferredParams(minInterval, maxInterval))
    {
      var lo := Clamp(minInterval);
      var hi := Max(Clamp(maxInterval), lo);
      ok := AddData([5, ITVL_RANGE, lo % 256, lo / 256, hi % 256, hi / 256], ParamsAd(minInterval, maxInterval));
    }

    method SetManufacturerData(data: seq<Byte>) returns (ok: bool)
      requires Valid()
      modifies this
      ensures Valid() && Outcome(ads, ok) == Apply(old(ads), ManufacturerData(data))
    {
      if |data| > MAX_FIELD { return false; }
      ok := AddData([|data| + 1, MFG_DATA] + data, Ad(MFG_DATA, data));
    }

    method SetURI(uri: seq<Byte>) returns (ok: bool)
      requires Valid()
      modifies this
      ensures Valid() && Outcome(ads, ok) == Apply(old(ads), SetUri(uri))
    {
      if |uri| > MAX_FIELD { return false; }
      var length := 2 + |uri|;
      ok := AddData([length - 1, URI] + uri, Ad(URI, uri));
    }

    method SetName(name: seq<Byte>, isComplete: bool) returns (ok: bool)
      requires Valid()
      modifies this
      ensures Valid() && Outcome(ads, ok) == Apply(old(ads), Name(name, isComplete))
    {
      var complete := isComplete;
      if |name| > MAX_FIELD { complete := false; }
      var length := 2 + Min(|name| % 256, MAX_FIELD);
      var data := [length - 1, if complete then COMP_NAME else INCOMP_NAME] + name[..length - 2];
      ok := AddData(data, NameAd(name, isComplete));
    }

    method SetServices(complete: bool, size: Byte, uuids: seq<Uuid>) returns (ok: bool)
      requires Valid()
      modifies this
      ensures Valid() && Outcome(ads, ok) == Apply(old(ads), Services(complete, size, uuids))
    {
      if size != 16 && size != 32 && size != 128 { return false; }
      var data, all := PackServices(size / 8, uuids);
      PackedAligned(uuids, size / 8, []);
      var kind := if complete && all then ListKind(size / 8) else PartialKind(size / 8);
      ok := AddData([|data| + 1, kind] + data, Ad(kind, data));
    }

    /** The packing loop: UUIDs of other sizes are skipped, and the first that does not fit ends it. */
    method PackServices(width: nat, uuids: seq<Uuid>) returns (data: seq<Byte>, all: bool)
      requires width == 2 || width == 4 || width == 16
      ensures (data, all) == Packed(uuids, width, []) && |data| <= 28
    {
      data, all := [], true;
      var i := 0;
      while i < |uuids|
        invariant 0 <= i <= |uuids| && |data| <= 28
        invariant Packed(uuids[i..], width, data) == Packed(uuids, width, [])
      {
        assert uuids[i..][1..] == uuids[i + 1..];
        if |uuids[i]| == width {
          if 2 + |data| + width >= MAX_SIZE { return data, false; }
          data := data + uuids[i];
        }
        i := i + 1;
      }
    }

    /**
     * `sDataLen` is a uint8_t.  The requires is that the code's buffer of 31 bytes is
     * not overrun: a sum that passes the check has not wrapped.
     */
    method SetServiceData(uuid: Uuid, data: seq<Byte>) returns (ok: bool)
      requires Valid() && LegalOp(ads, ServiceData(uuid, data))
      modifies this
      ensures Valid() && Outcome(ads, ok) == Apply(old(ads), ServiceData(uuid, data))
    {
      var sDataLen := (2 + |uuid| + |data|) % 256;
      if sDataLen > MAX_SIZE { return false; }
      if |uuid| == 0 { return false; }
      var kind := DataKind(|uuid|);
      if |data| == 0 {
        ok := RemoveData(kind);
        return true;
      }
      ok := AddData([|uuid| + |data| + 1, kind] + uuid + data, Ad(kind, uuid + data));
    }

    // ---- the service UUID lists ----------------------------------------------------------

    method AddServiceUUID(uuid: Uuid) returns (ok: bool)
      requires Valid()
      modifies this
      ensures Valid() && Outcome(ads, ok) == Apply(old(ads), AddUuid(uuid))
    {
      var bytes := |uuid|;
      if bytes == 0 { return false; }
      var kind := ListKind(bytes);
      var loc := GetDataLocation(kind);
      var length := if loc == -1 then bytes + 2 else bytes;
      if length + |payload| > MAX_SIZE { return false; }
      if loc == -1 {
        ok := AddData([1 + bytes, kind] + uuid, Ad(kind, uuid));
        return;
      }
      ExtendList(First(ads, kind), loc, uuid);
      ok := true;
    }

    /** Insert behind the list's last UUID, then patch its length byte. */
    method ExtendList(ghost k: nat, loc: nat, uuid: Uuid)
      requires Valid() && |uuid| != 0 && |uuid| + |payload| <= MAX_SIZE
      requires k == First(ads, ListKind(|uuid|)) && k < |ads| && loc == Offset(ads, k)
      modifies this
      ensures Valid() && ads == old(ads)[k := Ad(old(ads)[k].kind, old(ads)[k].value + uuid)]
    {
      ghost var r := ads[k := Ad(ads[k].kind, ads[k].value + uuid)];
      ExtendedEncodes(ads, k, uuid, payload, loc, r);
      var end := loc + payload[loc] + 1;
      var longer := payload[..end] + uuid + payload[end..];
      payload, ads := longer[loc := payload[loc] + |uuid|], r;
    }

    static lemma ExtendedEncodes(ads: seq<Ad>, k: nat, u: Uuid, p: seq<Byte>, loc: nat, r: seq<Ad>)
      requires Sound(ads) && |u| != 0 && |u| + |Encode(ads)| <= MAX_SIZE
      requires k == First(ads, ListKind(|u|)) && k < |ads| && p == Encode(ads) && loc == Offset(ads, k)
      requires r == ads[k := Ad(ads[k].kind, ads[k].value + u)]
      ensures loc + p[loc] + 1 <= |p| && p[loc] + |u| < 256
      ensures var end := loc + p[loc] + 1; Sound(r) && Encode(r) == (p[..end] + u + p[end..])[loc := p[loc] + |u|]
    {
      UuidAddedSound(ads, u);
      AddedShape(ads, u);
      SizeAt(ads, k, p, loc);
      OffsetBound(ads, k);
      var a, c := PartsOut(ads, k, Ad(ads[k].kind, ads[k].value + u));
      Grow(a, ads[k], u, c, p, loc);
    }

    static lemma Grow(a: seq<Byte>, x: Ad, u: seq<Byte>, c: seq<Byte>, p: seq<Byte>, loc: nat)
      requires |x.value| + |u| <= 254 && p == a + One(x) + c && loc == |a|
      ensures loc + |x.value| + 2 <= |p| && p[loc] == |x.value| + 1
      ensures var end := loc + |x.value| + 2;
              (p[..end] + u + p[end..])[loc := |x.value| + 1 + |u|] == a + One(Ad(x.kind, x.value + u)) + c
    {
      SlicesOf(a, One(x), c);
      assert p[loc] == One(x)[0];
      GrowParts(a, x.kind, x.value, u, c, |x.value| + 1, |x.value| + 1 + |u|);
    }

    static lemma GrowParts(a: seq<Byte>, kind: Byte, v: seq<Byte>, u: seq<Byte>, c: seq<Byte>, was: Byte, now: Byte)
      ensures (a + ([was, kind] + v) + u + c)[|a| := now] == a + ([now, kind] + (v + u)) + c
    {}

    /**
     * The requires is that the search for an unlisted UUID compares inside the payload
     * only.  It finds a listed one in its list, and then the list loses it; an unlisted
     * one it may find in the bytes behind the list, and then those bytes are edited.
     */
    method RemoveServiceUUID(uuid: Uuid) returns (ok: bool)
      requires Valid()
      requires |uuid| != 0 && !UuidListed(ads, uuid) ==> SearchInside(ads, uuid)
      modifies this
      ensures ok == (|uuid| != 0)
      ensures LegalOp(old(ads), RemoveUuid(uuid)) ==> Valid() && Outcome(ads, ok) == Apply(old(ads), RemoveUuid(uuid))
      ensures |uuid| != 0 && First(old(ads), ListKind(|uuid|)) < |old(ads)| ==>
                payload == Edited(old(payload), Offset(old(ads), First(old(ads), ListKind(|uuid|))), uuid)
    {
      var bytes := |uuid|;
      if bytes == 0 { return false; }
      var kind := ListKind(bytes);
      var loc := GetDataLocation(kind);
      if loc == -1 { return true; }
      RemoveFrom(First(ads, kind), loc, uuid);
      ok := true;
    }

    /** The removal from the list at `loc`. */
    method RemoveFrom(ghost k: nat, loc: nat, uuid: Uuid)
      requires Valid() && |uuid| != 0 && k < |ads| && k == First(ads, ListKind(|uuid|)) && loc == Offset(ads, k)
      requires !UuidListed(ads, uuid) ==> ScanDefined(payload, loc + 2, uuid)
      modifies this
      ensures UuidRemoved(old(ads), uuid).ok && ads == UuidRemoved(old(ads), uuid).ads
      ensures UuidListed(old(ads), uuid) || NotBehind(old(ads), uuid) ==> Valid()
      ensures payload == Edited(old(payload), loc, uuid)
    {
      ghost var was, p := ads, payload;
      EncodeAt(ads, k);
      ListedIs(ads, uuid, k);
      ScanDefinedAt(ads, k, uuid, payload, loc);
      CutOut(loc, uuid);
      ads := UuidRemoved(ads, uuid).ads;
      RemovedOutcome(was, k, uuid, p, loc, ads);
    }

    /** A listed UUID leaves its list, on the bytes as among the structures. */
    static lemma ListedEdited(was: seq<Ad>, k: nat, uuid: Uuid, p: seq<Byte>, loc: nat, i: nat, after: seq<Ad>)
      requires Fits(was) && |uuid| != 0 && k < |was| && k == First(was, ListKind(|uuid|))
      requires IndexIn(was[k].value, uuid, 0) == Some(i) && i + |uuid| <= |was[k].value|
      requires p == Encode(was) && loc == Offset(was, k) && loc + 2 <= |p| && loc + p[loc] + 1 <= |p|
      requires after == UuidRemoved(was, uuid).ads
      ensures Fits(after) && Edited(p, loc, uuid) == Encode(after)
    {
      CutEdits(was, k, uuid, p, loc, i, after);
      HitEdits(was, k, uuid, p, loc, i, Encode(after));
    }

    static lemma ListedOutcome(was: seq<Ad>, k: nat, uuid: Uuid, p: seq<Byte>, loc: nat, after: seq<Ad>)
      requires Sound(was) && UuidListed(was, uuid) && k == First(was, ListKind(|uuid|)) && p == Encode(was)
      requires loc == Offset(was, k) && loc + 2 <= |p| && loc + p[loc] + 1 <= |p| && after == UuidRemoved(was, uuid).ads
      ensures Sound(after) && UuidRemoved(was, uuid).ok && Edited(p, loc, uuid) == Encode(after)
    {
      UuidRemovedSound(was, uuid);
      ListedEdited(was, k, uuid, p, loc, IndexIn(was[k].value, uuid, 0).value, after);
    }

    static lemma RemovedOutcome(was: seq<Ad>, k: nat, uuid: Uuid, p: seq<Byte>, loc: nat, after: seq<Ad>)
      requires Sound(was) && |uuid| != 0 && k < |was| && k == First(was, ListKind(|uuid|)) && p == Encode(was)
      requires loc == Offset(was, k) && loc + 2 <= |p| && loc + p[loc] + 1 <= |p| && after == UuidRemoved(was, uuid).ads
      ensures UuidRemoved(was, uuid).ok
      ensures UuidListed(was, uuid) || NotBehind(was, uuid) ==> Sound(after) && Edited(p, loc, uuid) == Encode(after)
    {
      RemovedShape(was, uuid, k);
      if UuidListed(was, uuid) {
        ListedOutcome(was, k, uuid, p, loc, after);
      } else {
        RemoveAbsentExactly(was, uuid, k, p, loc);
      }
    }

    /** Lines 226-245, on the list that starts at `loc`. */
    method CutOut(loc: nat, uuid: seq<Byte>)
      requires |uuid| > 0 && loc + 2 <= |payload| && loc + payload[loc] + 1 <= |payload|
      requires ScanDefined(payload, loc + 2, uuid)
      modifies `payload
      ensures payload == Edited(old(payload), loc, uuid)
    {
      var bytes := |uuid|;
      var uuidLoc := ScanFor(loc + 2, uuid);
      if uuidLoc == -1 { return; }
      if payload[loc] - bytes == 1 {
        payload := payload[..loc] + payload[loc + payload[loc] + 1..];
      } else {
        payload := payload[..uuidLoc] + payload[uuidLoc + bytes..];
        payload := payload[loc := (payload[loc] - bytes) % 256];
      }
    }

    method ScanFor(start: nat, uuid: seq<Byte>) returns (at: int)
      requires |uuid| > 0 && ScanDefined(payload, start, uuid)
      ensures at == match Scan(payload, start, uuid) case None => -1 case Some(i) => i
    {
      var i := start;
      while i < |payload|
        invariant ScanDefined(payload, i, uuid) && Scan(payload, i, uuid) == Scan(payload, start, uuid)
        decreases |payload| - i
      {
        if Here(payload, i, uuid) { return i; }
        i := i + |uuid|;
      }
      at := -1;
    }
  }

  /**
   * Adding a UUID and removing it again restores the payload byte for byte if the list
   * had to be created, and otherwise exactly if it had an entry and the UUID was not in
   * it or stood at its end.
   */
  method AddThenRemove(d: AdvertisementData, uuid: Uuid) returns (ok: bool)
    requires d.Valid()
    modifies d
    ensures d.Valid() && ok == UuidAdded(old(d.ads), uuid).ok
    ensures !ok ==> d.payload == old(d.payload)
    ensures ok ==> uuid != [] && (d.payload == old(d.payload) <==> Undone(old(d.ads), uuid))
  {
    ghost var was := d.ads;
    ok := d.AddServiceUUID(uuid);
    if !ok {
      RefusalKeeps(was, AddUuid(uuid));
      return;
    }
    AddedShape(was, uuid);
    AddedListed(was, uuid);
    var _ := d.RemoveServiceUUID(uuid);
    RemoveUndoesAdd(was, uuid);
    EncodeInjective(d.ads, was);
  }

  /**
   * A removal whose search stays inside the payload is one on structures exactly if it is
   * legal: otherwise the code leaves other bytes.
   */
  lemma LegalExactly(ads: seq<Ad>, u: Uuid, k: nat, p: seq<Byte>, loc: nat)
    requires Sound(ads) && |u| != 0 && k < |ads| && k == First(ads, ListKind(|u|)) && p == Encode(ads) && loc == Offset(ads, k)
    requires UuidListed(ads, u) || SearchInside(ads, u)
    ensures loc + 2 <= |p| && loc + p[loc] + 1 <= |p| && Fits(UuidRemoved(ads, u).ads)
    ensures LegalOp(ads, RemoveUuid(u)) <==> Edited(p, loc, u) == Encode(UuidRemoved(ads, u).ads)
  {
    SizeAt(ads, k, p, loc);
    RemovedShape(ads, u, k);
    AdvertisementData.RemovedOutcome(ads, k, u, p, loc, UuidRemoved(ads, u).ads);
    RemoveAbsentExactly(ads, u, k, p, loc);
  }

  // ---- whole runs --------------------------------------------------------------------------

  /** Any one setter. */
  method Perform(d: AdvertisementData, op: Op) returns (ok: bool)
    requires d.Valid() && LegalOp(d.ads, op)
    modifies d
    ensures d.Valid() && Outcome(d.ads, ok) == Apply(old(d.ads), op)
  {
    match op
    case Appearance(v) => ok := d.SetAppearance(v);
    case Flags(f) => ok := d.SetFlags(f);
    case TxPower(p) => ok := d.AddTxPower(p);
    case PreferredParams(lo, hi) => ok := d.SetPreferredParams(lo, hi);
    case AddUuid(u) => ok := d.AddServiceUUID(u);
    case RemoveUuid(u) => ok := d.RemoveServiceUUID(u);
    case ManufacturerData(data) => ok := d.SetManufacturerData(data);
    case SetUri(data) => ok := d.SetURI(data);
    case Name(name, complete) => ok := d.SetName(name, complete);
    case Services(complete, size, uuids) => ok := d.SetServices(complete, size, uuids);
    case ServiceData(u, data) => ok := d.SetServiceData(u, data);
    case Remove(kind) => ok := d.RemoveData(kind);
  }

  /** A run of setters leaves the bytes of what the run on structures leaves. */
  method PerformAll(d: AdvertisementData, ops: seq<Op>) returns (oks: seq<bool>)
    requires d.Valid() && LegalRun(d.ads, ops)
    modifies d
    ensures d.Valid() && d.ads == Run(old(d.ads), ops) && d.payload == Encode(Run(old(d.ads), ops))
    ensures oks == Returned(old(d.ads), ops)
  {
    oks := [];
    ghost var first := d.ads;
    for i := 0 to |ops|
      invariant d.Valid() && LegalRun(d.ads, ops[i..])
      invariant Run(d.ads, ops[i..]) == Run(first, ops)
      invariant oks + Returned(d.ads, ops[i..]) == Returned(first, ops)
    {
      RunStep(d.ads, ops, i, oks);
      var ok := Perform(d, ops[i]);
      oks := oks + [ok];
    }
  }

  lemma RunStep(ads: seq<Ad>, ops: seq<Op>, i: nat, oks: seq<bool>)
    requires Sound(ads) && i < |ops| && LegalRun(ads, ops[i..])
    ensures LegalOp(ads, ops[i]) && Sound(Apply(ads, ops[i]).ads) && LegalRun(Apply(ads, ops[i]).ads, ops[i + 1..])
    ensures Run(ads, ops[i..]) == Run(Apply(ads, ops[i]).ads, ops[i + 1..])
    ensures oks + Returned(ads, ops[i..]) == oks + [Apply(ads, ops[i]).ok] + Returned(Apply(ads, ops[i]).ads, ops[i + 1..])
  {
    assert ops[i..][0] == ops[i] && ops[i..][1..] == ops[i + 1..];
    ApplySound(ads, ops[i]);
    Assoc(oks, [Apply(ads, ops[i]).ok], Returned(Apply(ads, ops[i]).ads, ops[i + 1..]));
  }
}
