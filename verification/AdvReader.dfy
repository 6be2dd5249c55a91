/**
 * NimBLEAdvertisedDevice.cpp: the walks over a received payload.  Payloads are
 * bounded by 255 bytes where a uint8_t counter could otherwise wrap; a legacy
 * advertisement and its scan response have 62 together.
 */
module AdvReader {
  import opened Base
  import opened BleUuid
  import opened AdvFormat
  import opened AdvWriterSpec
  import opened AdvReaderSpec
  import opened AdvFields

  /** Where a walk is: its counters, and the location so far. */
  datatype Walk = Walk(index: Byte, count: Byte, loc: Option<nat>)

  class AdvertisedDevice {
    var payload: seq<Byte>
    var advLength: nat

    constructor ()
      ensures payload == [] && advLength == 0
    {
      payload, advLength := [], 0;
    }

    /** A scan response adds to what is there, everything else replaces it. */
    method Update(isScanResponse: bool, data: seq<Byte>)
      modifies this
      ensures payload == if isScanResponse then old(payload) + data else data
      ensures advLength == if isScanResponse then old(advLength) else |data|
    {
      if isScanResponse {
        payload := payload + data;
        return;
      }
      advLength := |data|;
      payload := data;
    }

    /** `findAdvField`; `want` is false for a null `data_loc`. */
    method FindAdvField(kind: Byte, index: Byte, want: bool) returns (count: Byte, loc: Option<nat>)
      ensures want ==> Found(count, loc) == Find(Fields(payload, 0), kind, index, 0, None)
      ensures !want ==> count == Tally(Fields(payload, 0), kind, 0) && loc == None
    {
      ghost var goal := Rest(Fields(payload, 0), kind, Walk(index, 0, None), want);
      count, loc := FindFrom(kind, index, want, goal);
    }

    method FindFrom(kind: Byte, index: Byte, want: bool, ghost goal: Found) returns (count: Byte, loc: Option<nat>)
      requires goal == Rest(Fields(payload, 0), kind, Walk(index, 0, None), want)
      ensures goal == Found(count, loc)
    {
      var length, data, idx := |payload|, 0, index;
      count, loc := 0, None;
      while length > 2
        invariant data + length == |payload|
        invariant Rest(Fields(payload, data), kind, Walk(idx, count, loc), want) == goal
        decreases length
      {
        var len := payload[data];
        if len >= length { break; }
        var hit;
        ghost var fs, more := Fields(payload, data), Fields(payload, data + 1 + len);
        FieldsStep(payload, data);
        hit, idx, count, loc := Pass(kind, data, idx, count, loc, want, fs, more, goal);
        if hit {
          loc := Some(data);
          return;
        }
        length := length - (1 + len);
        data := data + 1 + len;
      }
      RestEnds(payload, data, kind, Walk(idx, count, loc), want);
    }

    /** What the walk does at one structure. */
    method Pass(kind: Byte, data: nat, index: Byte, soFar: Byte, at: Option<nat>, want: bool,
                ghost fs: seq<Field>, ghost more: seq<Field>, ghost goal: Found)
      returns (hit: bool, idx: Byte, count: Byte, loc: Option<nat>)
      requires Parsable(payload, data) && fs == [FieldAt(payload, data)] + more
      requires Rest(fs, kind, Walk(index, soFar, at), want) == goal
      ensures hit ==> goal == Found(count, Some(data))
      ensures !hit ==> Rest(more, kind, Walk(idx, count, loc), want) == goal
    {
      ghost var f := FieldAt(payload, data);
      var t := payload[data + 1];
      if t == kind || (kind == COMP_NAME && t == INCOMP_NAME) {
        hit, idx, count, loc := Visit(kind, t, payload[data], data, index, soFar, at, want);
        RestVisit(f, more, payload[data], kind, Walk(index, soFar, at), Walk(idx, count, loc), want);
      } else {
        hit, idx, count, loc := false, index, soFar, at;
        RestSkip(f, more, kind, Walk(index, soFar, at), want);
      }
    }

    /** The body of the walk for a structure of the type. */
    method Visit(kind: Byte, t: Byte, len: Byte, data: nat, index: Byte, soFar: Byte, at: Option<nat>, want: bool)
      returns (hit: bool, idx: Byte, count: Byte, loc: Option<nat>)
      ensures idx == NextIndex(kind, t, index, want) && count == (soFar + Weight(kind, len)) % 256
      ensures loc == NextLoc(kind, t, data, at, want) && hit == (want && count > idx)
    {
      idx, count, loc := index, soFar, at;
      if kind == COMP_NAME && want && t == INCOMP_NAME {
        loc := Some(data);
        idx := (idx + 1) % 256;
      }
      count := (count + Weight(kind, len)) % 256;
      hit := want && count > idx;
    }

    static function NextIndex(kind: Byte, t: Byte, index: Byte, want: bool): Byte {
      if kind == COMP_NAME && want && t == INCOMP_NAME then (index + 1) % 256 else index
    }

    static function NextLoc(kind: Byte, t: Byte, data: nat, at: Option<nat>, want: bool): Option<nat> {
      if kind == COMP_NAME && want && t == INCOMP_NAME then Some(data) else at
    }

    /** What the rest of the walk will come to. */
    static ghost function Rest(fs: seq<Field>, kind: Byte, w: Walk, want: bool): Found {
      if want then Find(fs, kind, w.index, w.count, w.loc) else Found(Tally(fs, kind, w.count), w.loc)
    }

    static lemma RestEnds(p: seq<Byte>, at: nat, kind: Byte, w: Walk, want: bool)
      requires !Parsable(p, at)
      ensures Rest(Fields(p, at), kind, w, want) == Found(w.count, w.loc)
    {
      FieldsStep(p, at);
    }

    static lemma RestSkip(f: Field, fs: seq<Field>, kind: Byte, w: Walk, want: bool)
      requires !Matches(kind, f)
      ensures Rest([f] + fs, kind, w, want) == Rest(fs, kind, w, want)
    {
      assert ([f] + fs)[1..] == fs;
    }

    static lemma RestVisit(f: Field, fs: seq<Field>, len: Byte, kind: Byte, w: Walk, w': Walk, want: bool)
      requires Matches(kind, f) && |f.value| == if len <= 1 then 0 else len - 1
      requires w'.index == NextIndex(kind, f.kind, w.index, want)
      requires w'.count == (w.count + Weight(kind, len)) % 256
      requires w'.loc == NextLoc(kind, f.kind, f.at, w.loc, want)
      ensures want && w'.count > w'.index ==> Rest([f] + fs, kind, w, want) == Found(w'.count, Some(f.at))
      ensures !(want && w'.count > w'.index) ==> Rest([f] + fs, kind, w, want) == Rest(fs, kind, w', want)
    {
      WeightIs(kind, f, len);
      assert ([f] + fs)[1..] == fs;
    }

    static lemma WeightIs(kind: Byte, f: Field, len: Byte)
      requires |f.value| == (if len <= 1 then 0 else len - 1)
      ensures Matches(kind, f) ==> Entries(kind, f) == Weight(kind, len)
    {}

    /** The value of a structure: its length byte counts the type byte too. */
    method ValueAt(loc: nat) returns (data: seq<Byte>)
      requires Parsable(payload, loc)
      ensures data == FieldAt(payload, loc).value
    {
      if payload[loc] > 1 { return payload[loc + 2..loc + 1 + payload[loc]]; }
      data := [];
    }

    method GetPayloadByType(kind: Byte, index: Byte) returns (data: seq<Byte>)
      requires Written(payload, kind, index)
      ensures data == ByType(payload, kind, index)
    {
      var count, loc := FindAdvField(kind, index, true);
      FoundInside(payload, kind, index);
      if count > 0 {
        data := ValueAt(loc.value);
        return;
      }
      data := [];
    }

    method GetName() returns (name: seq<Byte>)
      requires |payload| <= 255
      ensures name == NameIn(Values(Fields(payload, 0), COMP_NAME), Values(Fields(payload, 0), INCOMP_NAME))
    {
      NameValue(payload);
      name := GetPayloadByType(COMP_NAME, 0);
    }

    method GetManufacturerData() returns (data: seq<Byte>)
      requires |payload| <= 255
      ensures data == FirstOr(Values(Fields(payload, 0), MFG_DATA))
    {
      ByTypeValue(payload, MFG_DATA, 0);
      data := GetPayloadByType(MFG_DATA, 0);
    }

    method GetURI() returns (data: seq<Byte>)
      requires |payload| <= 255
      ensures data == FirstOr(Values(Fields(payload, 0), URI))
    {
      ByTypeValue(payload, URI, 0);
      data := GetPayloadByType(URI, 0);
    }

    /** Zero unless the first appearance structure has just two bytes. */
    method GetAppearance() returns (a: UInt16)
      requires |payload| <= 255
      ensures a == AppearanceIn(FirstOr(Values(Fields(payload, 0), APPEARANCE)))
    {
      Lookup(payload, APPEARANCE, 0);
      var count, loc := FindAdvField(APPEARANCE, 0, true);
      if count > 0 {
        if payload[loc.value] == 3 {
          return payload[loc.value + 2] + 256 * (payload[loc.value + 3] as int);
        }
      }
      a := 0;
    }

    // ---- service data --------------------------------------------------------------------

    /** One type of service data: the structure with the index, or how many there are. */
    method FindOf(kind: Byte, index: Byte) returns (found: Byte, loc: Option<nat>)
      requires |payload| <= 255 && Counted(kind)
      ensures var vs := Values(Fields(payload, 0), kind);
              if index < |vs|
              then found > index && loc.Some? && Parsable(payload, loc.value) && FieldAt(payload, loc.value).value == vs[index]
              else found == |vs|
    {
      Lookup(payload, kind, index);
      found, loc := FindAdvField(kind, index, true);
    }

    method FindServiceData(index: Byte) returns (loc: Option<nat>, bytes: nat)
      requires |payload| <= 255
      ensures var r := DataValue(Fields(payload, 0), index);
              && (r.None? ==> loc == None && bytes == 0)
              && (r.Some? ==>
                    loc.Some? && Parsable(payload, loc.value) && bytes == r.value.0
                    && FieldAt(payload, loc.value).value == r.value.1)
    {
      DataCases(Fields(payload, 0), index);
      var found, at := FindOf(SVC_DATA16, index);
      if found > index { return at, 2; }
      var left := index - found;
      found, at := FindOf(SVC_DATA32, left);
      if found > left { return at, 4; }
      left := left - found;
      found, at := FindOf(SVC_DATA128, left);
      if found > left { return at, 16; }
      return None, 0;
    }

    static lemma DataCases(fs: seq<Field>, index: nat)
      ensures var n, m := |Values(fs, SVC_DATA16)|, |Values(fs, SVC_DATA32)|;
              && (index < n ==> DataValue(fs, index) == Some((2, Values(fs, SVC_DATA16)[index])))
              && (n <= index < n + m ==> DataValue(fs, index) == Some((4, Values(fs, SVC_DATA32)[index - n])))
              && (n + m <= index < n + m + |Values(fs, SVC_DATA128)| ==>
                    DataValue(fs, index) == Some((16, Values(fs, SVC_DATA128)[index - n - m])))
              && (n + m + |Values(fs, SVC_DATA128)| <= index ==> DataValue(fs, index) == None)
    {}

    /** The requires is that no UUID is read beyond the structure it should stand in. */
    method GetServiceData(uuid: Uuid) returns (data: seq<Byte>)
      requires |payload| <= 255 && WholeData(Fields(payload, 0), |uuid|)
      ensures uuid == [] ==> data == []
      ensures uuid != [] ==> data == DataFor(Values(Fields(payload, 0), DataKind(|uuid|)), uuid)
    {
      ghost var fs := Fields(payload, 0);
      var index: Byte := 0;
      var loc, bytes := FindServiceData(index);
      while loc.Some?
        invariant loc.Some? <==> DataValue(fs, index).Some?
        invariant loc.Some? ==> Parsable(payload, loc.value)
        invariant loc.Some? ==> DataValue(fs, index).value == (bytes, FieldAt(payload, loc.value).value)
        invariant NoMatchBelow(fs, uuid, index)
        decreases 255 - index
      {
        ghost var v := FieldAt(payload, loc.value).value;
        DataBounded(payload, index);
        if bytes == |uuid| {
          WholeValue(fs, bytes, index);
          var same, rest := DataBehind(loc.value, uuid);
          if same {
            DataHit(fs, uuid, index, v);
            return rest;
          }
        }
        NoMatchStep(fs, uuid, index, bytes, v);
        index := index + 1;
        loc, bytes := FindServiceData(index);
      }
      if uuid != [] { DataMiss(fs, uuid, index); }
      data := [];
    }

    static lemma NoMatchStep(fs: seq<Field>, u: seq<Byte>, n: nat, bytes: nat, v: seq<Byte>)
      requires NoMatchBelow(fs, u, n) && DataValue(fs, n) == Some((bytes, v)) && (bytes == |u| ==> !Starts(v, u))
      ensures NoMatchBelow(fs, u, n + 1)
    {}

    method DataBehind(loc: nat, uuid: Uuid) returns (same: bool, data: seq<Byte>)
      requires Parsable(payload, loc) && uuid != [] && |FieldAt(payload, loc).value| >= |uuid|
      ensures same == Starts(FieldAt(payload, loc).value, uuid)
      ensures same ==> data == FieldAt(payload, loc).value[|uuid|..]
    {
      var bytes := |uuid|;
      assert payload[loc + 2..loc + 2 + bytes] == FieldAt(payload, loc).value[..bytes];
      same, data := Equal(payload[loc + 2..loc + 2 + bytes], uuid), [];
      if same { data := payload[loc + 2 + bytes..loc + 1 + payload[loc]]; }
    }

    // ---- service UUIDs ---------------------------------------------------------------------

    method CountOf(kind: Byte) returns (count: Byte)
      requires |payload| <= 255
      ensures count == Total(Fields(payload, 0), kind)
    {
      SpanFits(payload, 0);
      TallyIsTotal(Fields(payload, 0), kind, 0);
      var c, none := FindAdvField(kind, 0, false);
      count := c;
    }

    method GetServiceUUIDCount() returns (count: Byte)
      requires |payload| <= 255
      ensures count == UuidTotal(Fields(payload, 0), INCOMP_UUIDS16)
    {
      SpanFits(payload, 0);
      UuidTotalFits(Fields(payload, 0), INCOMP_UUIDS16);
      UuidTotalIsSum(Fields(payload, 0));
      count := CountOf(INCOMP_UUIDS16);
      var c := CountOf(COMP_UUIDS16);
      count := Sum8(count, c);
      c := CountOf(INCOMP_UUIDS32);
      count := Sum8(count, c);
      c := CountOf(COMP_UUIDS32);
      count := Sum8(count, c);
      c := CountOf(INCOMP_UUIDS128);
      count := Sum8(count, c);
      c := CountOf(COMP_UUIDS128);
      count := Sum8(count, c);
    }

    static function Sum8(a: Byte, b: Byte): (c: Byte)
      ensures a + b < 256 ==> c == a + b
    {
      (a + b) % 256
    }

    static lemma UuidTotalIsSum(fs: seq<Field>)
      ensures UuidTotal(fs, INCOMP_UUIDS16)
              == Total(fs, INCOMP_UUIDS16) + Total(fs, COMP_UUIDS16) + Total(fs, INCOMP_UUIDS32)
                 + Total(fs, COMP_UUIDS32) + Total(fs, INCOMP_UUIDS128) + Total(fs, COMP_UUIDS128)
    {
      assert UuidTotal(fs, COMP_UUIDS128) == Total(fs, COMP_UUIDS128) + UuidTotal(fs, COMP_UUIDS128 + 1);
      assert UuidTotal(fs, INCOMP_UUIDS128) == Total(fs, INCOMP_UUIDS128) + UuidTotal(fs, COMP_UUIDS128);
      assert UuidTotal(fs, COMP_UUIDS32) == Total(fs, COMP_UUIDS32) + UuidTotal(fs, INCOMP_UUIDS128);
      assert UuidTotal(fs, INCOMP_UUIDS32) == Total(fs, INCOMP_UUIDS32) + UuidTotal(fs, COMP_UUIDS32);
      assert UuidTotal(fs, COMP_UUIDS16) == Total(fs, COMP_UUIDS16) + UuidTotal(fs, INCOMP_UUIDS32);
    }

    method GetServiceUUID(index: Byte) returns (uuid: Uuid)
      requires |payload| <= 255
      ensures uuid == UuidAt(Fields(payload, 0), INCOMP_UUIDS16, index)
    {
      ghost var fs := Fields(payload, 0);
      var kind: Byte, left := INCOMP_UUIDS16, index;
      while kind <= COMP_UUIDS128
        invariant INCOMP_UUIDS16 <= kind <= COMP_UUIDS128 + 1
        invariant UuidAt(fs, kind, left) == UuidAt(fs, INCOMP_UUIDS16, index)
        decreases COMP_UUIDS128 + 1 - kind
      {
        var count, loc := FindAdvField(kind, left, true);
        ListFound(payload, kind, left);
        if count > left {
          uuid := EntryOf(loc.value, count, ListWidth(kind), left, Before(fs, kind, left));
          return;
        }
        kind, left := kind + 1, left - count;
      }
      uuid := [];
    }

    static lemma ListFound(p: seq<Byte>, kind: Byte, index: Byte)
      requires |p| <= 255 && ListWidth(kind) > 0
      ensures var fs, r := Fields(p, 0), Find(Fields(p, 0), kind, index, 0, None);
              && (index >= Total(fs, kind) ==> r == Found(Total(fs, kind), None))
              && (index < Total(fs, kind) ==>
                    && r.loc.Some? && Parsable(p, r.loc.value) && p[r.loc.value] >= 2
                    && FieldAt(p, r.loc.value).value == fs[Holder(fs, kind, index)].value
                    && index < r.count == Before(fs, kind, index) + p[r.loc.value] / ListWidth(kind))
    {
      var fs := Fields(p, 0);
      SpanFits(p, 0);
      FindIsHolder(fs, kind, index, index, 0, None);
      if index < Total(fs, kind) {
        FieldsInside(p, 0);
        EntryHeld(fs, kind, index);
      }
    }

    static lemma {:induction false} EntryHeld(fs: seq<Field>, kind: Byte, index: nat)
      requires index < Total(fs, kind)
      ensures Holder(fs, kind, index) < |fs| && Entries(kind, fs[Holder(fs, kind, index)]) > 0
    {
      HolderStep(fs, kind, index);
      if Entries(kind, fs[0]) <= index { EntryHeld(fs[1..], kind, index - Entries(kind, fs[0])); }
    }

    /** Lines 441-454: the entry of the list at `loc`, with the index adjusted for the lists before. */
    method EntryOf(loc: nat, count: Byte, bytes: nat, index: Byte, ghost before: nat) returns (uuid: Uuid)
      requires Parsable(payload, loc) && payload[loc] >= 2 && (bytes == 2 || bytes == 4 || bytes == 16)
      requires before <= index < count == before + payload[loc] / bytes
      ensures uuid == EntryRead(FieldAt(payload, loc).value, bytes, before, index)
    {
      var past := index + 1;
      var length := payload[loc];
      if length < (index + 1) * bytes {
        past := past - (count - length / bytes);
      }
      uuid := EntryAtPast(loc, bytes, past);
    }

    method EntryAtPast(loc: nat, bytes: nat, past: nat) returns (uuid: Uuid)
      requires Parsable(payload, loc) && (bytes == 2 || bytes == 4 || bytes == 16) && past > 0
      ensures payload[loc] <= past * bytes ==> uuid == []
      ensures payload[loc] > past * bytes ==>
                var v := FieldAt(payload, loc).value;
                0 <= (past - 1) * bytes <= past * bytes <= |v| && uuid == v[(past - 1) * bytes..past * bytes]
    {
      if payload[loc] > past * bytes {
        InField(payload, loc, bytes, past);
        var at := loc + 2 + (past - 1) * bytes;
        return payload[at..at + bytes];
      }
      uuid := [];
    }

    static lemma InField(p: seq<Byte>, loc: nat, bytes: nat, past: nat)
      requires Parsable(p, loc) && (bytes == 2 || bytes == 4 || bytes == 16) && past > 0 && p[loc] > past * bytes
      ensures var v, at := FieldAt(p, loc).value, loc + 2 + (past - 1) * bytes;
              && 0 <= (past - 1) * bytes && past * bytes == (past - 1) * bytes + bytes <= |v|
              && at + bytes <= |p| && p[at..at + bytes] == v[(past - 1) * bytes..past * bytes]
    {
      Product(past - 1, bytes);
      SliceOf(p, loc, FieldAt(p, loc).value, (past - 1) * bytes, bytes);
    }

    static lemma SliceOf(p: seq<Byte>, loc: nat, v: seq<Byte>, from: nat, n: nat)
      requires Parsable(p, loc) && v == FieldAt(p, loc).value && n > 0 && from + n <= |v|
      ensures loc + 2 + from + n <= |p| && p[loc + 2 + from..loc + 2 + from + n] == v[from..from + n]
    {
      assert v == p[loc + 2..loc + 1 + p[loc]];
      SubSlice(p, loc + 2, loc + 1 + p[loc], from, n);
    }

    static lemma SubSlice(p: seq<Byte>, a: nat, b: nat, from: nat, n: nat)
      requires a <= b <= |p| && a + from + n <= b
      ensures p[a..b][from..from + n] == p[a + from..a + from + n]
    {
      var q := p[a..b];
      var l, r := q[from..from + n], p[a + from..a + from + n];
      forall i | 0 <= i < n ensures l[i] == r[i] { assert q[from + i] == p[a + (from + i)]; }
    }

    /**
     * With lists of whole UUIDs: some entry equals this one that is not lost to the index
     * arithmetic.  On a tidy payload: some UUID of some list does.
     */
    method IsAdvertisingService(uuid: Uuid) returns (found: bool)
      requires |payload| <= 255
      ensures found <==> Answers(Fields(payload, 0), uuid)
      ensures AllAligned(Fields(payload, 0)) ==> (found <==> ReadEntry(Fields(payload, 0), uuid))
      ensures Tidy(Fields(payload, 0)) ==> (found <==> Advertised(Uuids(Fields(payload, 0), INCOMP_UUIDS16), uuid))
    {
      ghost var fs := Fields(payload, 0);
      if AllAligned(fs) { AnswersExactly(fs, uuid); }
      if Tidy(fs) { AnswersTidy(fs, uuid); }
      found := AnyEquals(uuid, fs);
    }

    method AnyEquals(uuid: Uuid, ghost fs: seq<Field>) returns (found: bool)
      requires |payload| <= 255 && fs == Fields(payload, 0)
      ensures found <==> Answers(fs, uuid)
    {
      var count := GetServiceUUIDCount();
      var i := 0;
      while i < count
        invariant i <= count && NoneEqual(fs, uuid, i)
      {
        var u := GetServiceUUID(i);
        if Equal(uuid, u) {
          EqualAnswers(fs, uuid, i, count);
          return true;
        }
        NoneNext(fs, uuid, i, u);
        i := i + 1;
      }
      NoneAnswers(fs, uuid, count);
      found := false;
    }

    static ghost predicate NoneEqual(fs: seq<Field>, u: Uuid, n: nat) {
      forall k: nat :: k < n ==> !Equal(u, UuidAt(fs, INCOMP_UUIDS16, k))
    }

    static lemma NoneNext(fs: seq<Field>, u: Uuid, n: nat, v: Uuid)
      requires NoneEqual(fs, u, n) && v == UuidAt(fs, INCOMP_UUIDS16, n) && !Equal(u, v)
      ensures NoneEqual(fs, u, n + 1)
    {}

    static lemma NoneAnswers(fs: seq<Field>, u: Uuid, n: nat)
      requires NoneEqual(fs, u, n) && n == UuidTotal(fs, INCOMP_UUIDS16)
      ensures !Answers(fs, u)
    {}

    static lemma EqualAnswers(fs: seq<Field>, u: Uuid, i: nat, n: nat)
      requires i < n == UuidTotal(fs, INCOMP_UUIDS16) && Equal(u, UuidAt(fs, INCOMP_UUIDS16, i))
      ensures Answers(fs, u)
    {}
  }

  function AppearanceIn(v: seq<Byte>): UInt16 { if |v| == 2 then v[0] + 256 * (v[1] as int) else 0 }
}
