/** One device builds a payload with the setters, another receives it and asks the getters. */
module AdvExchange {
  import opened Base
  import opened BleUuid
  import opened AdvFormat
  import opened AdvWriterSpec
  import opened AdvWriter
  import opened AdvReaderSpec
  import opened AdvFields
  import opened AdvReader
  import opened AdvAgreement
  import opened AdvLists
  import opened AdvLimits

  method Broadcast(ops: seq<Op>) returns (r: AdvertisedDevice, oks: seq<bool>)
    requires LegalStart(ops)
    ensures fresh(r) && Sound([]) && r.payload == Encode(Run([], ops)) && |r.payload| <= MAX_SIZE
    ensures oks == Returned([], ops)
  {
    EmptySound();
    var d := new AdvertisementData();
    oks := PerformAll(d, ops);
    r := new AdvertisedDevice();
    r.Update(false, d.payload);
  }

  /** What was set is what is read: the oldest value set and not removed of each type. */
  method Exchange(ops: seq<Op>) returns (mfg: seq<Byte>, uri: seq<Byte>, appearance: UInt16, name: seq<Byte>)
    requires LegalStart(ops)
    ensures mfg == FirstOr(KeptQueue(ops, MFG_DATA)) && uri == FirstOr(KeptQueue(ops, URI))
    ensures appearance == AppearanceIn(FirstOr(KeptQueue(ops, APPEARANCE)))
    ensures NamesShow(ops) ==> name == NameIn(KeptQueue(ops, COMP_NAME), KeptQueue(ops, INCOMP_NAME))
  {
    var r, _ := Broadcast(ops);
    mfg, uri, appearance := ReadValuesOf(r, ops);
    name := ReadName(r, ops);
  }

  method ReadValuesOf(r: AdvertisedDevice, ghost ops: seq<Op>) returns (mfg: seq<Byte>, uri: seq<Byte>, appearance: UInt16)
    requires LegalStart(ops) && Sound([]) && r.payload == Encode(Run([], ops)) && |r.payload| <= MAX_SIZE
    ensures mfg == FirstOr(KeptQueue(ops, MFG_DATA)) && uri == FirstOr(KeptQueue(ops, URI))
    ensures appearance == AppearanceIn(FirstOr(KeptQueue(ops, APPEARANCE)))
  {
    Agreement(ops, MFG_DATA);
    mfg := r.GetManufacturerData();
    Agreement(ops, URI);
    uri := r.GetURI();
    Agreement(ops, APPEARANCE);
    appearance := r.GetAppearance();
  }

  method ReadName(r: AdvertisedDevice, ghost ops: seq<Op>) returns (name: seq<Byte>)
    requires LegalStart(ops) && Sound([]) && r.payload == Encode(Run([], ops)) && |r.payload| <= MAX_SIZE
    ensures NamesShow(ops) ==> name == NameIn(KeptQueue(ops, COMP_NAME), KeptQueue(ops, INCOMP_NAME))
  {
    NameAgreement(ops);
    name := r.GetName();
  }

  /** The same for a UUID's service data; and without `setServices`, for the UUIDs added and not removed. */
  method ExchangeService(ops: seq<Op>, u: Uuid) returns (data: seq<Byte>, found: bool)
    requires LegalStart(ops) && u != []
    ensures data == DataFor(KeptQueue(ops, DataKind(|u|)), u)
    ensures NoServices(ops) ==>
              (found <==> Advertised(KeptOf(ops, COMP_UUIDS16) + KeptOf(ops, COMP_UUIDS32) + KeptOf(ops, COMP_UUIDS128), u))
  {
    var r, _ := Broadcast(ops);
    WrittenWhole(Run([], ops), |u|);
    ServiceDataAgreement(ops, u);
    data := r.GetServiceData(u);
    if NoServices(ops) { ServicesAgreement(ops, ReadBack(ops)); }
    found := r.IsAdvertisingService(u);
  }

  // ---- runs that find room ----------------------------------------------------------------

  /** The appearance of the first call that sets one, 0 if none does. */
  function FirstAppearance(ops: seq<Op>): UInt16 {
    if ops == [] then 0
    else if ops[0].Appearance? && ops[0].value != 0 then ops[0].value
    else FirstAppearance(ops[1..])
  }

  lemma {:induction false} AppearanceComes(ops: seq<Op>)
    ensures AppearanceIn(FirstSet(ops, APPEARANCE)) == FirstAppearance(ops)
  {
    if ops != [] { AppearanceComes(ops[1..]); }
  }

  lemma NothingTaken(ops: seq<Op>, kind: Byte)
    requires AllAdding(ops) && DataWidth(kind) == 0
    ensures forall i :: 0 <= i < |ops| ==> !Pops(ops[i], kind)
  {
    forall i | 0 <= i < |ops| ensures !Pops(ops[i], kind) { assert Adding(ops[i]); }
  }

  lemma FirstKept(ops: seq<Op>, kind: Byte)
    requires LegalStart(ops) && AllAdding(ops) && TotalSize(ops) <= 31 && Plain(kind) && DataWidth(kind) == 0
    ensures FirstOr(KeptQueue(ops, kind)) == FirstSet(ops, kind)
  {
    NothingTaken(ops, kind);
    NeverRefused(ops);
    QueueHead([], ops, Returned([], ops), kind);
  }

  /** If all of the run finds room in 31 bytes, those are the first manufacturer data, URI and appearance of the run. */
  method ExchangeAll(ops: seq<Op>) returns (mfg: seq<Byte>, uri: seq<Byte>, appearance: UInt16)
    requires LegalStart(ops) && AllAdding(ops) && TotalSize(ops) <= 31
    ensures mfg == FirstSet(ops, 0xff) && uri == FirstSet(ops, 0x24) && appearance == FirstAppearance(ops)
  {
    FirstKept(ops, MFG_DATA);
    FirstKept(ops, URI);
    FirstKept(ops, APPEARANCE);
    AppearanceComes(ops);
    var name;
    mfg, uri, appearance, name := Exchange(ops);
  }

  predicate NoUuidRemoved(ops: seq<Op>) { forall i :: 0 <= i < |ops| ==> !ops[i].RemoveUuid? }

  predicate Adds(ops: seq<Op>, u: Uuid) { exists i :: 0 <= i < |ops| && ops[i] == AddUuid(u) }

  lemma AddsStep(ops: seq<Op>, u: Uuid)
    requires ops != []
    ensures Adds(ops, u) <==> ops[0] == AddUuid(u) || Adds(ops[1..], u)
  {
    if Adds(ops, u) && ops[0] != AddUuid(u) {
      var i :| 0 <= i < |ops| && ops[i] == AddUuid(u);
      assert ops[1..][i - 1] == AddUuid(u);
    }
    if Adds(ops[1..], u) {
      var i :| 0 <= i < |ops[1..]| && ops[1..][i] == AddUuid(u);
      assert ops[i + 1] == AddUuid(u);
    }
  }

  lemma {:induction false} KeptAdded(l: seq<Uuid>, ops: seq<Op>, oks: seq<bool>, kind: Byte, u: Uuid)
    requires oks == AllTrue(|ops|) && AllAdding(ops) && NoServices(ops) && NoUuidRemoved(ops)
    requires kind == 3 || kind == 5 || kind == 7
    ensures u in Kept(l, ops, oks, kind) <==> u in l || (u != [] && UuidType(u) == kind && Adds(ops, u))
    decreases |ops|
  {
    if ops != [] {
      AllTrueStep(|ops|);
      assert Adding(ops[0]) && !ops[0].Services? && !ops[0].RemoveUuid?;
      assert forall i :: 0 <= i < |ops| - 1 ==> ops[1..][i] == ops[i + 1];
      KeptAdded(Relisted(l, ops[0], true, kind), ops[1..], oks[1..], kind, u);
      AddsStep(ops, u);
    }
  }

  /** And without `setServices` and removals `isAdvertisingService` says exactly whether an equal UUID was added. */
  method ExchangeAllServices(ops: seq<Op>, u: Uuid) returns (found: bool)
    requires LegalStart(ops) && AllAdding(ops) && TotalSize(ops) <= 31 && NoServices(ops) && NoUuidRemoved(ops) && u != []
    ensures found <==> exists v: Uuid :: Adds(ops, v) && Equal(u, v)
  {
    AllFound(ops, u);
    var data;
    data, found := ExchangeService(ops, u);
  }

  lemma AllFound(ops: seq<Op>, u: Uuid)
    requires LegalStart(ops) && AllAdding(ops) && TotalSize(ops) <= 31 && NoServices(ops) && NoUuidRemoved(ops) && u != []
    ensures Advertised(KeptOf(ops, COMP_UUIDS16) + KeptOf(ops, COMP_UUIDS32) + KeptOf(ops, COMP_UUIDS128), u)
            <==> exists v: Uuid :: Adds(ops, v) && Equal(u, v)
  {
    NeverRefused(ops);
    var us := KeptOf(ops, COMP_UUIDS16) + KeptOf(ops, COMP_UUIDS32) + KeptOf(ops, COMP_UUIDS128);
    forall v: Uuid ensures v in us <==> v != [] && Adds(ops, v) {
      KeptAdded([], ops, AllTrue(|ops|), COMP_UUIDS16, v);
      KeptAdded([], ops, AllTrue(|ops|), COMP_UUIDS32, v);
      KeptAdded([], ops, AllTrue(|ops|), COMP_UUIDS128, v);
    }
    if v: Uuid :| Adds(ops, v) && Equal(u, v) { assert v in us; }
  }
}
