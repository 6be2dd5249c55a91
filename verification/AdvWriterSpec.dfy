/** What each setter of NimBLEAdvertisementData does to the list of AD structures. */
module AdvWriterSpec {
  import opened Base
  import opened BleUuid
  import opened AdvFormat

  datatype Op =
    | Appearance(value: UInt16)
    | Flags(flags: Byte)
    | TxPower(power: Byte)
    | PreferredParams(minItvl: UInt16, maxItvl: UInt16)
    | AddUuid(uuid: Uuid)
    | RemoveUuid(uuid: Uuid)
    | ManufacturerData(data: seq<Byte>)
    | SetUri(data: seq<Byte>)
    | Name(data: seq<Byte>, complete: bool)
    | Services(complete: bool, size: Byte, uuids: seq<Uuid>)
    | ServiceData(uuid: Uuid, data: seq<Byte>)
    | Remove(kind: Byte)

  datatype Outcome = Outcome(ads: seq<Ad>, ok: bool)

  // ---- the structures the setters build --------------------------------------------

  function Le16(x: UInt16): seq<Byte> { [x % 256, x / 256] }

  /** `flag | BLE_HS_ADV_F_BREDR_UNSUP` */
  function WithBredr(flag: Byte): Byte { if (flag / 4) % 2 == 1 then flag else flag + 4 }

  function Clamp(x: UInt16): UInt16 { Min(Max(x, 0x6), 0xC80) }

  function ParamsAd(minItvl: UInt16, maxItvl: UInt16): Ad {
    Ad(ITVL_RANGE, Le16(Clamp(minItvl)) + Le16(Max(Clamp(maxItvl), Clamp(minItvl))))
  }

  /** The width cast to uint8_t comes before the minimum, as in `std::min<uint8_t>`. */
  function NameLength(name: seq<Byte>): nat { Min(|name| % 256, MAX_FIELD) }

  function NameAd(name: seq<Byte>, complete: bool): Ad {
    Ad(if complete && |name| <= MAX_FIELD then COMP_NAME else INCOMP_NAME, name[..NameLength(name)])
  }

  /** The complete-list type for UUIDs of this many bytes. */
  function ListKind(width: nat): Byte
    requires width == 2 || width == 4 || width == 16
  {
    if width == 2 then COMP_UUIDS16 else if width == 4 then COMP_UUIDS32 else COMP_UUIDS128
  }

  function PartialKind(width: nat): Byte
    requires width == 2 || width == 4 || width == 16
  {
    if width == 2 then INCOMP_UUIDS16 else if width == 4 then INCOMP_UUIDS32 else INCOMP_UUIDS128
  }

  function DataKind(width: nat): Byte
    requires width == 2 || width == 4 || width == 16
  {
    if width == 2 then SVC_DATA16 else if width == 4 then SVC_DATA32 else SVC_DATA128
  }

  /** The UUIDs `setServices` packs, and whether the list is still complete. */
  function Packed(uuids: seq<Uuid>, width: nat, acc: seq<Byte>): (r: (seq<Byte>, bool))
    requires |acc| + 2 <= 30 && width > 0
    ensures |r.0| + 2 <= 30
  {
    if uuids == [] then (acc, true)
    else if |uuids[0]| != width then Packed(uuids[1..], width, acc)
    else if 2 + |acc| + width >= MAX_SIZE then (acc, false)
    else Packed(uuids[1..], width, acc + uuids[0])
  }

  // ---- well-typed structures -------------------------------------------------------

  /** The number of bytes each UUID takes in a list of this type; 0 for other types. */
  function ListWidth(kind: Byte): nat {
    if kind == INCOMP_UUIDS16 || kind == COMP_UUIDS16 then 2
    else if kind == INCOMP_UUIDS32 || kind == COMP_UUIDS32 then 4
    else if kind == INCOMP_UUIDS128 || kind == COMP_UUIDS128 then 16
    else 0
  }

  function DataWidth(kind: Byte): nat {
    if kind == SVC_DATA16 then 2 else if kind == SVC_DATA32 then 4 else if kind == SVC_DATA128 then 16 else 0
  }

  /** Lists hold whole UUIDs, service data holds its UUID, and fixed fields have their size. */
  predicate WellTyped(a: Ad) {
    && |a.value| <= MAX_FIELD
    && (ListWidth(a.kind) > 0 ==> |a.value| % ListWidth(a.kind) == 0)
    && |a.value| >= DataWidth(a.kind)
    && (a.kind == FLAGS || a.kind == TX_POWER ==> |a.value| == 1)
    && (a.kind == APPEARANCE ==> |a.value| == 2)
    && (a.kind == ITVL_RANGE ==> |a.value| == 4)
  }

  predicate Sound(ads: seq<Ad>) {
    (forall i :: 0 <= i < |ads| ==> WellTyped(ads[i])) && |Encode(ads)| <= MAX_SIZE
  }

  // ---- edits -----------------------------------------------------------------------

  function Appended(ads: seq<Ad>, a: Ad): Outcome
    requires Fits(ads)
  {
    if |Encode(ads)| + |a.value| + 2 > MAX_SIZE then Outcome(ads, false) else Outcome(ads + [a], true)
  }

  function Dropped(ads: seq<Ad>, kind: Byte): Outcome {
    var k := First(ads, kind);
    if k == |ads| then Outcome(ads, false) else Outcome(Removed(ads, k), true)
  }

  /** `memcmp` of the bytes at `i` with `u`. */
  predicate Here(s: seq<Byte>, i: nat, u: seq<Byte>) {
    i + |u| <= |s| && forall k :: 0 <= k < |u| ==> s[i + k] == u[k]
  }

  /** The index of the first aligned occurrence of `u` in a list value. */
  function IndexIn(value: seq<Byte>, u: seq<Byte>, i: nat): (r: Option<nat>)
    requires |u| > 0 && i <= |value|
    ensures r.Some? ==> i <= r.value && r.value + |u| <= |value|
    decreases |value| - i
  {
    if i + |u| > |value| then None
    else if Here(value, i, u) then Some(i)
    else IndexIn(value, u, i + |u|)
  }

  function UuidAdded(ads: seq<Ad>, u: Uuid): Outcome
    requires Fits(ads)
  {
    if |u| == 0 then Outcome(ads, false)
    else
      var k := First(ads, ListKind(|u|));
      if k == |ads| then Appended(ads, Ad(ListKind(|u|), u))
      else if |u| + |Encode(ads)| > MAX_SIZE then Outcome(ads, false)
      else Outcome(ads[k := Ad(ads[k].kind, ads[k].value + u)], true)
  }

  /** The k-th structure without one occurrence of `u` in it; the whole structure goes with its last UUID. */
  function CutFrom(ads: seq<Ad>, k: nat, u: seq<Byte>): Outcome
    requires k < |ads| && |u| > 0
  {
    var v := ads[k].value;
    match IndexIn(v, u, 0)
    case None => Outcome(ads, true)
    case Some(i) =>
      if |v| == |u| then Outcome(Removed(ads, k), true)
      else Outcome(ads[k := Ad(ads[k].kind, v[..i] + v[i + |u|..])], true)
  }

  /** For a UUID that is in its list, or has no list, or is not spelt behind it (`LegalOp`). */
  function UuidRemoved(ads: seq<Ad>, u: Uuid): Outcome {
    if |u| == 0 then Outcome(ads, false)
    else
      var k := First(ads, ListKind(|u|));
      if k == |ads| then Outcome(ads, true) else CutFrom(ads, k, u)
  }

  function AppearanceSet(ads: seq<Ad>, v: UInt16): Outcome
    requires Fits(ads)
  {
    if v == 0 then Dropped(ads, APPEARANCE) else Appended(ads, Ad(APPEARANCE, Le16(v)))
  }

  function FlagsSet(ads: seq<Ad>, f: Byte): Outcome
    requires Sound(ads)
  {
    var k := First(ads, FLAGS);
    if k == |ads| then Appended(ads, Ad(FLAGS, [WithBredr(f)]))
    else if f == 0 then Dropped(ads, FLAGS)
    else Outcome(ads[k := Ad(FLAGS, [WithBredr(f)])], true)
  }

  function BlobSet(ads: seq<Ad>, kind: Byte, d: seq<Byte>): Outcome
    requires Fits(ads)
  {
    if |d| > MAX_FIELD then Outcome(ads, false) else Appended(ads, Ad(kind, d))
  }

  function ServicesAd(complete: bool, width: nat, uuids: seq<Uuid>): (a: Ad)
    requires width == 2 || width == 4 || width == 16
    ensures |a.value| + 2 <= 30
  {
    var (v, all) := Packed(uuids, width, []);
    Ad(if complete && all then ListKind(width) else PartialKind(width), v)
  }

  function ServicesSet(ads: seq<Ad>, complete: bool, size: Byte, uuids: seq<Uuid>): Outcome
    requires Fits(ads)
  {
    if size != 16 && size != 32 && size != 128 then Outcome(ads, false)
    else Appended(ads, ServicesAd(complete, size / 8, uuids))
  }

  function ServiceDataSet(ads: seq<Ad>, u: Uuid, d: seq<Byte>): Outcome
    requires Fits(ads)
  {
    if 2 + |u| + |d| > MAX_SIZE || |u| == 0 then Outcome(ads, false)
    else if |d| == 0 then Outcome(Dropped(ads, DataKind(|u|)).ads, true)
    else Appended(ads, Ad(DataKind(|u|), u + d))
  }

  /**
   * The setters whose effect is one on structures.  `removeServiceUUID` looks for the UUID to
   * the end of the payload: it must find it in its list, or nowhere, and compare inside the
   * payload only.  `setServiceData` adds lengths in eight bits: a sum that passes its check
   * must not have wrapped.
   */
  predicate LegalOp(ads: seq<Ad>, op: Op)
    requires Fits(ads)
  {
    match op
    case RemoveUuid(u) => u == [] || UuidListed(ads, u) || (NotBehind(ads, u) && SearchInside(ads, u))
    case ServiceData(u, d) => u != [] && (2 + |u| + |d|) % 256 <= MAX_SIZE ==> 2 + |u| + |d| <= MAX_SIZE
    case _ => true
  }

  function Apply(ads: seq<Ad>, op: Op): Outcome
    requires Sound(ads) && LegalOp(ads, op)
  {
    match op
    case Appearance(v) => AppearanceSet(ads, v)
    case Flags(f) => FlagsSet(ads, f)
    case TxPower(p) => Appended(ads, Ad(TX_POWER, [p]))
    case PreferredParams(lo, hi) => Appended(ads, ParamsAd(lo, hi))
    case AddUuid(u) => UuidAdded(ads, u)
    case RemoveUuid(u) => UuidRemoved(ads, u)
    case ManufacturerData(d) => BlobSet(ads, MFG_DATA, d)
    case SetUri(d) => BlobSet(ads, URI, d)
    case Name(n, complete) => Appended(ads, NameAd(n, complete))
    case Services(complete, size, uuids) => ServicesSet(ads, complete, size, uuids)
    case ServiceData(u, d) => ServiceDataSet(ads, u, d)
    case Remove(kind) => Dropped(ads, kind)
  }

  // ---- every setter keeps the payload sound ------------------------------------------

  lemma AppendedSound(ads: seq<Ad>, a: Ad)
    requires Sound(ads) && WellTyped(a)
    ensures Sound(Appended(ads, a).ads)
  {
    EncodeSnoc(ads, a);
  }

  lemma RemovedEncodes(ads: seq<Ad>, k: nat)
    requires Fits(ads) && k < |ads|
    ensures Encode(Removed(ads, k)) == Encode(ads[..k]) + Encode(ads[k + 1..])
  {
    EncodeConcat(ads[..k], ads[k + 1..]);
  }

  lemma DroppedSound(ads: seq<Ad>, kind: Byte)
    requires Sound(ads)
    ensures Sound(Dropped(ads, kind).ads)
  {
    var k := First(ads, kind);
    if k < |ads| {
      RemovedEncodes(ads, k);
      EncodeSplit(ads, k);
    }
  }

  lemma ReplacedEncodes(ads: seq<Ad>, k: nat, a: Ad)
    requires Fits(ads) && k < |ads| && |a.value| <= 254
    ensures Encode(ads[k := a]) == Encode(ads[..k]) + One(a) + Encode(ads[k + 1..])
    ensures |Encode(ads[k := a])| == |Encode(ads)| - |ads[k].value| + |a.value|
  {
    assert ads[k := a] == ads[..k] + [a] + ads[k + 1..];
    EncodeAround(ads[..k], a, ads[k + 1..]);
    EncodeSplit(ads, k);
  }

  lemma ReplacedSound(ads: seq<Ad>, k: nat, a: Ad)
    requires Sound(ads) && k < |ads| && WellTyped(a)
    requires |Encode(ads)| - |ads[k].value| + |a.value| <= MAX_SIZE
    ensures Sound(ads[k := a])
  {
    ReplacedEncodes(ads, k, a);
  }

  lemma {:induction false} PackedAligned(uuids: seq<Uuid>, width: nat, acc: seq<Byte>)
    requires |acc| + 2 <= 30 && width > 0 && |acc| % width == 0
    ensures |Packed(uuids, width, acc).0| % width == 0
  {
    if uuids != [] {
      if |uuids[0]| != width {
        PackedAligned(uuids[1..], width, acc);
      } else if 2 + |acc| + width < MAX_SIZE {
        PackedAligned(uuids[1..], width, acc + uuids[0]);
      }
    }
  }

  lemma OffsetBound(ads: seq<Ad>, k: nat)
    requires Fits(ads) && k < |ads|
    ensures |ads[k].value| + 2 <= |Encode(ads)|
  {
    EncodeSplit(ads, k);
  }

  lemma FlagsSound(ads: seq<Ad>, f: Byte)
    requires Sound(ads)
    ensures Sound(FlagsSet(ads, f).ads)
  {
    var k, a := First(ads, FLAGS), Ad(FLAGS, [WithBredr(f)]);
    if k == |ads| {
      AppendedSound(ads, a);
    } else {
      DroppedSound(ads, FLAGS);
      ReplacedSound(ads, k, a);
    }
  }

  lemma ServicesSound(ads: seq<Ad>, complete: bool, size: Byte, uuids: seq<Uuid>)
    requires Sound(ads)
    ensures Sound(ServicesSet(ads, complete, size, uuids).ads)
  {
    if size == 16 || size == 32 || size == 128 {
      PackedAligned(uuids, size / 8, []);
      AppendedSound(ads, ServicesAd(complete, size / 8, uuids));
    }
  }

  lemma ServiceDataSound(ads: seq<Ad>, u: Uuid, d: seq<Byte>)
    requires Sound(ads)
    ensures Sound(ServiceDataSet(ads, u, d).ads)
  {
    if 2 + |u| + |d| <= MAX_SIZE && |u| != 0 {
      DroppedSound(ads, DataKind(|u|));
      AppendedSound(ads, Ad(DataKind(|u|), u + d));
    }
  }

  lemma UuidAddedSound(ads: seq<Ad>, u: Uuid)
    requires Sound(ads)
    ensures Sound(UuidAdded(ads, u).ads)
  {
    if |u| != 0 {
      var k := First(ads, ListKind(|u|));
      if k == |ads| {
        AppendedSound(ads, Ad(ListKind(|u|), u));
      } else if |u| + |Encode(ads)| <= MAX_SIZE {
        OffsetBound(ads, k);
        ReplacedSound(ads, k, Ad(ads[k].kind, ads[k].value + u));
      }
    }
  }

  lemma CutSound(ads: seq<Ad>, k: nat, i: nat, w: nat)
    requires Sound(ads) && k < |ads| && (w == 2 || w == 4 || w == 16) && ads[k].kind == ListKind(w)
    requires i + w <= |ads[k].value|
    ensures Sound(ads[k := Ad(ads[k].kind, ads[k].value[..i] + ads[k].value[i + w..])])
  {
    ReplacedSound(ads, k, Ad(ads[k].kind, ads[k].value[..i] + ads[k].value[i + w..]));
  }

  lemma UuidRemovedSound(ads: seq<Ad>, u: Uuid)
    requires Sound(ads)
    ensures Sound(UuidRemoved(ads, u).ads)
  {
    if |u| != 0 {
      var k := First(ads, ListKind(|u|));
      DroppedSound(ads, ListKind(|u|));
      if k < |ads| && IndexIn(ads[k].value, u, 0).Some? {
        CutSound(ads, k, IndexIn(ads[k].value, u, 0).value, |u|);
      }
    }
  }

  lemma AppearanceSound(ads: seq<Ad>, v: UInt16)
    requires Sound(ads)
    ensures Sound(AppearanceSet(ads, v).ads)
  {
    DroppedSound(ads, APPEARANCE);
    AppendedSound(ads, Ad(APPEARANCE, Le16(v)));
  }

  lemma BlobSound(ads: seq<Ad>, kind: Byte, d: seq<Byte>)
    requires Sound(ads) && (kind == MFG_DATA || kind == URI)
    ensures Sound(BlobSet(ads, kind, d).ads)
  {
    if |d| <= MAX_FIELD { AppendedSound(ads, Ad(kind, d)); }
  }

  /** Every setter leaves well-formed structures of at most 31 bytes in all. */
  lemma ApplySound(ads: seq<Ad>, op: Op)
    requires Sound(ads) && LegalOp(ads, op)
    ensures Sound(Apply(ads, op).ads)
  {
    match op
    case Appearance(v) => AppearanceSound(ads, v);
    case Flags(f) => FlagsSound(ads, f);
    case TxPower(p) => AppendedSound(ads, Ad(TX_POWER, [p]));
    case PreferredParams(lo, hi) => AppendedSound(ads, ParamsAd(lo, hi));
    case AddUuid(u) => UuidAddedSound(ads, u);
    case RemoveUuid(u) => UuidRemovedSound(ads, u);
    case ManufacturerData(d) => BlobSound(ads, MFG_DATA, d);
    case SetUri(d) => BlobSound(ads, URI, d);
    case Name(n, complete) => AppendedSound(ads, NameAd(n, complete));
    case Services(complete, size, uuids) => ServicesSound(ads, complete, size, uuids);
    case ServiceData(u, d) => ServiceDataSound(ads, u, d);
    case Remove(kind) => DroppedSound(ads, kind);
  }

  /** A setter that refuses has changed nothing. */
  lemma RefusalKeeps(ads: seq<Ad>, op: Op)
    requires Sound(ads) && LegalOp(ads, op) && !Apply(ads, op).ok
    ensures Apply(ads, op).ads == ads
  {}

  // ---- whole runs --------------------------------------------------------------------

  predicate LegalRun(ads: seq<Ad>, ops: seq<Op>)
    requires Sound(ads)
    decreases |ops|
  {
    ops == []
    || (LegalOp(ads, ops[0]) && (ApplySound(ads, ops[0]); LegalRun(Apply(ads, ops[0]).ads, ops[1..])))
  }

  /** The structures after a run of setters, refused ones included. */
  function Run(ads: seq<Ad>, ops: seq<Op>): (r: seq<Ad>)
    requires Sound(ads) && LegalRun(ads, ops)
    ensures Sound(r)
    decreases |ops|
  {
    if ops == [] then ads else
      ApplySound(ads, ops[0]);
      Run(Apply(ads, ops[0]).ads, ops[1..])
  }

  /** What each setter of the run returned. */
  function Returned(ads: seq<Ad>, ops: seq<Op>): (r: seq<bool>)
    requires Sound(ads) && LegalRun(ads, ops)
    ensures |r| == |ops|
    decreases |ops|
  {
    if ops == [] then [] else
      ApplySound(ads, ops[0]);
      [Apply(ads, ops[0]).ok] + Returned(Apply(ads, ops[0]).ads, ops[1..])
  }

  lemma RunCons(ads: seq<Ad>, op: Op, r: seq<Ad>, ops: seq<Op>)
    requires Sound(ads) && LegalOp(ads, op) && r == Apply(ads, op).ads && Sound(r) && LegalRun(r, ops)
    ensures LegalRun(ads, [op] + ops) && Run(ads, [op] + ops) == Run(r, ops)
  {
    assert ([op] + ops)[1..] == ops;
  }

  lemma EmptySound()
    ensures Sound([]) && Encode([]) == []
  {}

  /** A run on a payload that starts out empty. */
  predicate LegalStart(ops: seq<Op>) {
    EmptySound();
    LegalRun([], ops)
  }

  /** A setter that is always legal may follow. */
  lemma {:induction false} LegalSnoc(ads: seq<Ad>, ops: seq<Op>, op: Op)
    requires Sound(ads) && LegalRun(ads, ops) && LegalOp(Run(ads, ops), op)
    ensures LegalRun(ads, ops + [op])
    decreases |ops|
  {
    if ops == [] {
      assert ops + [op] == [op] && [op][1..] == [];
    } else {
      ApplySound(ads, ops[0]);
      ConsConcat(ops, [op]);
      LegalSnoc(Apply(ads, ops[0]).ads, ops[1..], op);
    }
  }

  // ---- removing what was added -----------------------------------------------------

  lemma {:induction false} IndexInAppended(v: seq<Byte>, u: seq<Byte>, i: nat)
    requires (|u| == 2 || |u| == 4 || |u| == 16) && i <= |v| && (|v| - i) % |u| == 0
    ensures IndexIn(v + u, u, i) == if IndexIn(v, u, i).Some? then IndexIn(v, u, i) else Some(|v|)
    decreases |v| - i
  {
    if i == |v| {
      assert Here(v + u, i, u);
    } else {
      AtLeastOne(|v| - i, |u|);
      assert Here(v + u, i, u) == Here(v, i, u);
      if !Here(v, i, u) { IndexInAppended(v, u, i + |u|); }
    }
  }

  lemma AtLeastOne(n: nat, w: nat)
    requires (w == 2 || w == 4 || w == 16) && 0 < n && n % w == 0
    ensures w <= n && (n - w) % w == 0
  {}

  /** Taking the first occurrence out of `v + u` again gives `v`. */
  predicate AbsentOrLast(v: seq<Byte>, u: seq<Byte>)
    requires |u| > 0
  {
    match IndexIn(v, u, 0)
    case None => true
    case Some(j) => v[j..] == v[j + |u|..] + u
  }

  /** Cutting the first occurrence out of the extended list gives the old one back, or does not. */
  lemma CutRestores(v: seq<Byte>, u: seq<Byte>)
    requires (|u| == 2 || |u| == 4 || |u| == 16) && |v| % |u| == 0
    ensures IndexIn(v + u, u, 0).Some?
    ensures var i := IndexIn(v + u, u, 0).value;
            (v + u)[..i] + (v + u)[i + |u|..] == v <==> AbsentOrLast(v, u)
  {
    IndexInAppended(v, u, 0);
    CutOut(v, u, IndexIn(v + u, u, 0).value);
  }

  lemma CutOut(v: seq<Byte>, u: seq<Byte>, i: nat)
    requires i + |u| <= |v| || i == |v|
    ensures i == |v| ==> (v + u)[..i] + (v + u)[i + |u|..] == v
    ensures i + |u| <= |v| ==> ((v + u)[..i] + (v + u)[i + |u|..] == v <==> v[i..] == v[i + |u|..] + u)
  {
    if i + |u| <= |v| {
      assert (v + u)[..i] + (v + u)[i + |u|..] == v[..i] + (v[i + |u|..] + u);
      assert v == v[..i] + v[i..];
    }
  }

  lemma TwiceAt(ads: seq<Ad>, k: nat, a: Ad, b: Ad)
    requires k < |ads|
    ensures ads[k := a][k := b] == ads[k := b] && ads[k := a][k] == a
    ensures ads[k := b] == ads <==> b == ads[k]
    ensures Removed(ads[k := a], k) != ads
  {
    assert ads[k := b][k] == b;
    assert |Removed(ads[k := a], k)| == |ads| - 1;
  }

  lemma CutFromAt(ads: seq<Ad>, k: nat, u: seq<Byte>, v: seq<Byte>, i: nat)
    requires k < |ads| && |u| > 0 && v == ads[k].value && IndexIn(v, u, 0) == Some(i)
    ensures CutFrom(ads, k, u).ok
    ensures |v| == |u| ==> CutFrom(ads, k, u).ads == Removed(ads, k)
    ensures |v| != |u| ==> CutFrom(ads, k, u).ads == ads[k := Ad(ads[k].kind, v[..i] + v[i + |u|..])]
  {}

  lemma UndoInList(ads: seq<Ad>, k: nat, u: seq<Byte>)
    requires k < |ads| && (|u| == 2 || |u| == 4 || |u| == 16) && |ads[k].value| % |u| == 0
    ensures CutFrom(ads[k := Ad(ads[k].kind, ads[k].value + u)], k, u).ads == ads <==>
            ads[k].value != [] && AbsentOrLast(ads[k].value, u)
  {
    var v := ads[k].value;
    var i := Occurrence(v, u);
    var ads' := ads[k := Ad(ads[k].kind, v + u)];
    CutFromAt(ads', k, u, v + u, i);
    TwiceAt(ads, k, Ad(ads[k].kind, v + u), Ad(ads[k].kind, (v + u)[..i] + (v + u)[i + |u|..]));
  }

  lemma Occurrence(v: seq<Byte>, u: seq<Byte>) returns (i: nat)
    requires (|u| == 2 || |u| == 4 || |u| == 16) && |v| % |u| == 0
    ensures IndexIn(v + u, u, 0) == Some(i) && i + |u| <= |v + u|
    ensures (v + u)[..i] + (v + u)[i + |u|..] == v <==> AbsentOrLast(v, u)
  {
    CutRestores(v, u);
    i := IndexIn(v + u, u, 0).value;
  }

  lemma WholeIndex(u: seq<Byte>)
    requires |u| > 0
    ensures IndexIn(u, u, 0) == Some(0)
  {
    assert Here(u, 0, u);
  }

  lemma UndoCreated(ads: seq<Ad>, u: Uuid)
    requires |u| != 0 && First(ads, ListKind(|u|)) == |ads|
    ensures UuidRemoved(ads + [Ad(ListKind(|u|), u)], u).ads == ads
  {
    var k, kind := |ads|, ListKind(|u|);
    var ads' := ads + [Ad(kind, u)];
    FirstIs(ads', kind, k);
    RemovedShape(ads', u, k);
    WholeIndex(u);
    CutFromAt(ads', k, u, u, 0);
    assert Removed(ads', k) == ads;
  }

  lemma AddedShape(ads: seq<Ad>, u: Uuid)
    requires Sound(ads) && UuidAdded(ads, u).ok
    ensures |u| != 0
    ensures var k := First(ads, ListKind(|u|));
            UuidAdded(ads, u).ads == if k == |ads| then ads + [Ad(ListKind(|u|), u)]
                                     else ads[k := Ad(ads[k].kind, ads[k].value + u)]
  {}

  lemma RemovedShape(ads: seq<Ad>, u: Uuid, k: nat)
    requires |u| != 0 && k < |ads| && k == First(ads, ListKind(|u|))
    ensures UuidRemoved(ads, u) == CutFrom(ads, k, u)
  {}

  lemma AlignedList(ads: seq<Ad>, u: Uuid, k: nat)
    requires Sound(ads) && |u| != 0 && k < |ads| && ads[k].kind == ListKind(|u|)
    ensures |ads[k].value| % |u| == 0
  {
    assert WellTyped(ads[k]);
  }

  lemma UndoExtended(ads: seq<Ad>, u: Uuid, k: nat)
    requires |u| != 0 && k < |ads| && k == First(ads, ListKind(|u|)) && |ads[k].value| % |u| == 0
    ensures UuidRemoved(ads[k := Ad(ads[k].kind, ads[k].value + u)], u).ads == ads <==>
            ads[k].value != [] && AbsentOrLast(ads[k].value, u)
  {
    var ads' := ads[k := Ad(ads[k].kind, ads[k].value + u)];
    UndoInList(ads, k, u);
    assert UuidRemoved(ads', u) == CutFrom(ads', k, u) by {
      FirstIs(ads', ListKind(|u|), k);
      RemovedShape(ads', u, k);
    }
  }

  predicate Undone(ads: seq<Ad>, u: Uuid)
    requires u != []
  {
    var k := First(ads, ListKind(|u|));
    k == |ads| || (ads[k].value != [] && AbsentOrLast(ads[k].value, u))
  }

  /**
   * `addServiceUUID` then `removeServiceUUID` gives the old structures back when
   * the list did not exist.  When it did, it gives them back exactly if the list
   * had an entry at all, and the UUID either was not in it or stood at its end.
   * (An empty list is lost: removing its only UUID removes the structure.)
   */
  lemma RemoveUndoesAdd(ads: seq<Ad>, u: Uuid)
    requires Sound(ads) && UuidAdded(ads, u).ok
    ensures u != [] && (UuidRemoved(UuidAdded(ads, u).ads, u).ads == ads <==> Undone(ads, u))
  {
    AddedShape(ads, u);
    var k := First(ads, ListKind(|u|));
    if k == |ads| {
      UndoCreated(ads, u);
    } else {
      AlignedList(ads, u, k);
      UndoExtended(ads, u, k);
    }
  }

  // ---- removal on the bytes ----------------------------------------------------------

  /** The search of `removeServiceUUID`: in UUID-sized steps to the end of the payload, past the list. */
  function Scan(p: seq<Byte>, i: nat, u: seq<Byte>): (r: Option<nat>)
    requires |u| > 0
    ensures r.Some? ==> i <= r.value && r.value + |u| <= |p|
    decreases |p| - i
  {
    if i + |u| > |p| then None
    else if Here(p, i, u) then Some(i)
    else Scan(p, i + |u|, u)
  }

  /** No comparison on the way reaches beyond the payload. */
  predicate ScanDefined(p: seq<Byte>, i: nat, u: seq<Byte>)
    requires |u| > 0
    decreases |p| - i
  {
    i >= |p| || (i + |u| <= |p| && (Here(p, i, u) || ScanDefined(p, i + |u|, u)))
  }

  /** What is done to the list at `loc` for a match of width `w` found at `i`. */
  function EditAt(p: seq<Byte>, loc: nat, i: nat, w: nat): seq<Byte>
    requires loc < |p| && loc + p[loc] + 1 <= |p| && loc < i && i + w <= |p|
  {
    if p[loc] - w == 1 then p[..loc] + p[loc + p[loc] + 1..]
    else (p[..i] + p[i + w..])[loc := (p[loc] - w) % 256]
  }

  /** The first list of the UUID's width holds it. */
  predicate UuidListed(ads: seq<Ad>, u: Uuid) {
    |u| != 0 && First(ads, ListKind(|u|)) < |ads| &&
    IndexIn(ads[First(ads, ListKind(|u|))].value, u, 0).Some?
  }

  /** An added UUID is listed. */
  lemma AddedListed(ads: seq<Ad>, u: Uuid)
    requires Sound(ads) && UuidAdded(ads, u).ok
    ensures UuidListed(UuidAdded(ads, u).ads, u)
  {
    AddedShape(ads, u);
    var k, after := First(ads, ListKind(|u|)), UuidAdded(ads, u).ads;
    FirstIs(after, ListKind(|u|), k);
    if k == |ads| {
      WholeIndex(u);
    } else {
      AlignedList(ads, u, k);
      CutRestores(ads[k].value, u);
    }
  }

  lemma HereInside(a: seq<Byte>, v: seq<Byte>, c: seq<Byte>, u: seq<Byte>, i: nat, p: seq<Byte>)
    requires p == a + v + c && i + |u| <= |v|
    ensures Here(p, |a| + i, u) <==> Here(v, i, u)
  {
    assert forall j :: 0 <= j < |v| ==> p[|a| + j] == v[j];
    if Here(p, |a| + i, u) {
      forall k | 0 <= k < |u| ensures v[i + k] == u[k] { assert p[|a| + i + k] == u[k] && p[|a| + (i + k)] == v[i + k]; }
    }
    if Here(v, i, u) {
      forall k | 0 <= k < |u| ensures p[|a| + i + k] == u[k] { assert v[i + k] == u[k] && p[|a| + (i + k)] == v[i + k]; }
    }
  }

  /** Inside the list the byte search and the list search agree. */
  lemma {:induction false} ScanListHit(a: seq<Byte>, v: seq<Byte>, c: seq<Byte>, u: seq<Byte>, i: nat, p: seq<Byte>, r: nat)
    requires |u| > 0 && i <= |v| && p == a + v + c && IndexIn(v, u, i) == Some(r)
    ensures Scan(p, |a| + i, u) == Some(|a| + r)
    decreases |v| - i
  {
    HereInside(a, v, c, u, i, p);
    if !Here(v, i, u) { ScanListHit(a, v, c, u, i + |u|, p, r); }
  }

  /** A UUID that is not in its list is looked for behind the list. */
  lemma {:induction false} ScanListMiss(a: seq<Byte>, v: seq<Byte>, c: seq<Byte>, u: seq<Byte>, i: nat, p: seq<Byte>)
    requires (|u| == 2 || |u| == 4 || |u| == 16) && i <= |v| && (|v| - i) % |u| == 0
    requires p == a + v + c && IndexIn(v, u, i).None?
    ensures Scan(p, |a| + i, u) == Scan(p, |a| + |v|, u)
    decreases |v| - i
  {
    if i < |v| {
      AtLeastOne(|v| - i, |u|);
      HereInside(a, v, c, u, i, p);
      ScanListMiss(a, v, c, u, i + |u|, p);
    }
  }

  lemma HeadApart(a: seq<Byte>, x: Ad, c: seq<Byte>, b: seq<Byte>)
    requires |x.value| <= 254 && b == a + [|x.value| + 1, x.kind]
    ensures a + One(x) + c == b + x.value + c
  {
    assert a + ([|x.value| + 1, x.kind] + x.value) == b + x.value;
  }

  /** On a payload split around the list structure: a listed UUID is found in its list. */
  lemma ScanHit(a: seq<Byte>, x: Ad, c: seq<Byte>, p: seq<Byte>, u: seq<Byte>, i: nat)
    requires |u| > 0 && |x.value| <= 254 && p == a + One(x) + c && IndexIn(x.value, u, 0) == Some(i)
    ensures Scan(p, |a| + 2, u) == Some(|a| + 2 + i)
  {
    var b := a + [|x.value| + 1, x.kind];
    HeadApart(a, x, c, b);
    ScanListHit(b, x.value, c, u, 0, p, i);
  }

  /** An unlisted one is found wherever the bytes behind the list happen to spell it. */
  lemma ScanMiss(a: seq<Byte>, x: Ad, c: seq<Byte>, p: seq<Byte>, u: seq<Byte>)
    requires (|u| == 2 || |u| == 4 || |u| == 16) && |x.value| <= 254 && |x.value| % |u| == 0
    requires p == a + One(x) + c && IndexIn(x.value, u, 0).None?
    ensures Scan(p, |a| + 2, u) == Scan(p, |a| + 2 + |x.value|, u)
  {
    var b := a + [|x.value| + 1, x.kind];
    HeadApart(a, x, c, b);
    ScanListMiss(b, x.value, c, u, 0, p);
  }

  /** The bytes after `removeServiceUUID` on the list that starts at `loc`. */
  function Edited(p: seq<Byte>, loc: nat, u: seq<Byte>): seq<Byte>
    requires |u| > 0 && loc + 2 <= |p| && loc + p[loc] + 1 <= |p|
  {
    match Scan(p, loc + 2, u)
    case None => p
    case Some(i) => EditAt(p, loc, i, |u|)
  }

  /** Cutting the middle of four pieces. */
  lemma CutMiddle(a: seq<Byte>, b: seq<Byte>, u: seq<Byte>, c: seq<Byte>, at: nat, w: nat, p: seq<Byte>)
    requires p == a + b + u + c && at == |a| + |b| && w == |u|
    ensures p[..at] + p[at + w..] == a + b + c
  {
    assert p[..at] == a + b && p[at + w..] == c;
  }

  lemma Poked<T>(a: seq<T>, was: T, now: T, kind: T, left: seq<T>, rest: seq<T>)
    ensures (a + ([was, kind] + left) + rest)[|a| := now] == a + ([now, kind] + left) + rest
  {}

  lemma Nested<T>(a: seq<T>, h: seq<T>, left: seq<T>, u: seq<T>, right: seq<T>, c: seq<T>)
    ensures a + (h + (left + u + right)) + c == a + (h + left) + u + (right + c)
    ensures a + (h + (left + right)) + c == a + (h + left) + (right + c)
  {}

  lemma Pieces<T>(v: seq<T>, i: nat, w: nat)
    requires i + w <= |v|
    ensures v == v[..i] + v[i..i + w] + v[i + w..]
  {}

  lemma Shrink(a: seq<Byte>, x: Ad, c: seq<Byte>, i: nat, w: nat, p: seq<Byte>, at: nat)
    requires i + w <= |x.value| <= 254 && p == a + One(x) + c && at == |a| + 2 + i
    ensures at + w <= |p|
    ensures (p[..at] + p[at + w..])[|a| := |x.value| + 1 - w] == a + One(Ad(x.kind, x.value[..i] + x.value[i + w..])) + c
  {
    var v := x.value;
    Pieces(v, i, w);
    ShrinkParts(a, x.kind, v[..i], v[i..i + w], v[i + w..], c, |v| + 1, p, at);
  }

  lemma ShrinkParts(a: seq<Byte>, kind: Byte, left: seq<Byte>, u: seq<Byte>, right: seq<Byte>, c: seq<Byte>,
                    size: Byte, p: seq<Byte>, at: nat)
    requires p == a + ([size, kind] + (left + u + right)) + c && at == |a| + 2 + |left| && |u| < size
    ensures at + |u| <= |p|
    ensures (p[..at] + p[at + |u|..])[|a| := size - |u|] == a + ([size - |u|, kind] + (left + right)) + c
  {
    Nested(a, [size, kind], left, u, right, c);
    CutMiddle(a, [size, kind] + left, u, right + c, at, |u|, p);
    Poked(a, size, size - |u|, kind, left, right + c);
    Nested(a, [size - |u|, kind], left, u, right, c);
  }

  /** The byte edit for a UUID found inside the list. */
  lemma EditInside(a: seq<Byte>, x: Ad, c: seq<Byte>, p: seq<Byte>, i: nat, w: nat, loc: nat)
    requires w > 0 && |x.value| <= 254 && i + w <= |x.value| && p == a + One(x) + c && loc == |a|
    ensures loc + |x.value| + 2 <= |p| && p[loc] == |x.value| + 1
    ensures |x.value| == w ==> EditAt(p, loc, loc + 2 + i, w) == a + c
    ensures |x.value| != w ==> EditAt(p, loc, loc + 2 + i, w) == a + One(Ad(x.kind, x.value[..i] + x.value[i + w..])) + c
  {
    assert p[loc] == |x.value| + 1;
    if |x.value| == w { SlicesOf(a, One(x), c); } else { Shrink(a, x, c, i, w, p, loc + 2 + i); }
  }

  /** The payload around its k-th structure, without it, and with another in its place. */
  lemma PartsOut(ads: seq<Ad>, k: nat, x: Ad) returns (a: seq<Byte>, c: seq<Byte>)
    requires Fits(ads) && k < |ads| && |x.value| <= 254
    ensures Encode(ads) == a + One(ads[k]) + c && |a| == Offset(ads, k)
    ensures Encode(Removed(ads, k)) == a + c
    ensures Encode(ads[k := x]) == a + One(x) + c
  {
    a, c := Encode(ads[..k]), Encode(ads[k + 1..]);
    EncodeSplit(ads, k);
    RemovedEncodes(ads, k);
    ReplacedEncodes(ads, k, x);
  }

  /** For a match inside the k-th structure the byte edit is the list edit. */
  lemma EditIsCut(ads: seq<Ad>, k: nat, w: nat, i: nat, p: seq<Byte>, loc: nat)
    requires Fits(ads) && k < |ads| && w > 0 && i + w <= |ads[k].value|
    requires p == Encode(ads) && loc == Offset(ads, k)
    ensures w == |ads[k].value| ==> EditAt(p, loc, loc + 2 + i, w) == Encode(Removed(ads, k))
    ensures w != |ads[k].value| ==>
              EditAt(p, loc, loc + 2 + i, w)
              == Encode(ads[k := Ad(ads[k].kind, ads[k].value[..i] + ads[k].value[i + w..])])
  {
    var a, c := PartsOut(ads, k, Ad(ads[k].kind, ads[k].value[..i] + ads[k].value[i + w..]));
    EditInside(a, ads[k], c, p, i, w, loc);
  }

  lemma Parts(ads: seq<Ad>, k: nat) returns (a: seq<Byte>, c: seq<Byte>)
    requires Fits(ads) && k < |ads|
    ensures Encode(ads) == a + One(ads[k]) + c && |a| == Offset(ads, k)
  {
    a, c := Encode(ads[..k]), Encode(ads[k + 1..]);
    EncodeSplit(ads, k);
  }

  lemma ScanHitAt(a: seq<Byte>, x: Ad, c: seq<Byte>, p: seq<Byte>, u: seq<Byte>, i: nat, loc: nat)
    requires |u| > 0 && |x.value| <= 254 && p == a + One(x) + c && loc == |a|
    ensures IndexIn(x.value, u, 0) == Some(i) ==> Scan(p, loc + 2, u) == Some(loc + 2 + i)
  {
    if IndexIn(x.value, u, 0) == Some(i) { ScanHit(a, x, c, p, u, i); }
  }

  lemma HitAt(ads: seq<Ad>, k: nat, u: seq<Byte>, p: seq<Byte>, loc: nat, i: nat)
    requires Fits(ads) && |u| > 0 && k < |ads| && p == Encode(ads) && loc == Offset(ads, k)
    ensures IndexIn(ads[k].value, u, 0) == Some(i) ==> Scan(p, loc + 2, u) == Some(loc + 2 + i)
  {
    var a, c := Parts(ads, k);
    ScanHitAt(a, ads[k], c, p, u, i, loc);
  }

  lemma SizeAt(ads: seq<Ad>, k: nat, p: seq<Byte>, loc: nat)
    requires Fits(ads) && k < |ads| && p == Encode(ads) && loc == Offset(ads, k)
    ensures loc + |ads[k].value| + 2 <= |p| && p[loc] == |ads[k].value| + 1
  {}

  lemma EditedTo(p: seq<Byte>, loc: nat, u: seq<Byte>, i: nat, n: nat, q: seq<Byte>)
    requires |u| > 0 && i + |u| <= n && loc + n + 2 <= |p| && p[loc] == n + 1
    requires Scan(p, loc + 2, u) == Some(loc + 2 + i)
    ensures loc + 2 + i + |u| <= |p| && loc + p[loc] + 1 <= |p|
    ensures EditAt(p, loc, loc + 2 + i, |u|) == q ==> Edited(p, loc, u) == q
  {}

  /** For a UUID found in its list, the edit at its place is what the removal comes to. */
  lemma HitEdits(ads: seq<Ad>, k: nat, u: seq<Byte>, p: seq<Byte>, loc: nat, i: nat, q: seq<Byte>)
    requires Fits(ads) && |u| > 0 && k < |ads| && IndexIn(ads[k].value, u, 0) == Some(i) && i + |u| <= |ads[k].value|
    requires p == Encode(ads) && loc == Offset(ads, k)
    ensures loc + 2 + i + |u| <= |p| && loc + p[loc] + 1 <= |p|
    ensures EditAt(p, loc, loc + 2 + i, |u|) == q ==> Edited(p, loc, u) == q
  {
    SizeAt(ads, k, p, loc);
    HitAt(ads, k, u, p, loc, i);
    EditedTo(p, loc, u, i, |ads[k].value|, q);
  }

  lemma CutResult(ads: seq<Ad>, k: nat, u: Uuid, v: seq<Byte>, i: nat, after: seq<Ad>)
    requires |u| != 0 && k < |ads| && k == First(ads, ListKind(|u|)) && v == ads[k].value
    requires IndexIn(v, u, 0) == Some(i) && i + |u| <= |v| && after == UuidRemoved(ads, u).ads
    ensures |v| == |u| ==> after == Removed(ads, k)
    ensures |v| != |u| ==> after == ads[k := Ad(ads[k].kind, v[..i] + v[i + |u|..])]
  {
    RemovedShape(ads, u, k);
    CutFromAt(ads, k, u, v, i);
  }

  lemma CutEdits(ads: seq<Ad>, k: nat, u: Uuid, p: seq<Byte>, loc: nat, i: nat, after: seq<Ad>)
    requires Fits(ads) && |u| != 0 && k < |ads| && k == First(ads, ListKind(|u|))
    requires IndexIn(ads[k].value, u, 0) == Some(i) && i + |u| <= |ads[k].value|
    requires p == Encode(ads) && loc == Offset(ads, k) && after == UuidRemoved(ads, u).ads
    ensures Fits(after) && EditAt(p, loc, loc + 2 + i, |u|) == Encode(after)
  {
    CutResult(ads, k, u, ads[k].value, i, after);
    EditIsCut(ads, k, |u|, i, p, loc);
  }

  // ---- removing a UUID its list does not hold -----------------------------------------

  lemma EditShortens(p: seq<Byte>, loc: nat, i: nat, w: nat)
    requires loc < |p| && loc + p[loc] + 1 <= |p| && loc < i && i + w <= |p| && w > 0
    ensures |EditAt(p, loc, i, w)| < |p|
  {}

  /** An edit never leaves the payload as it was. */
  lemma EditedSame(p: seq<Byte>, loc: nat, u: seq<Byte>)
    requires |u| > 0 && loc + 2 <= |p| && loc + p[loc] + 1 <= |p|
    ensures Edited(p, loc, u) == p <==> Scan(p, loc + 2, u).None?
  {
    match Scan(p, loc + 2, u)
    case None =>
    case Some(i) => EditShortens(p, loc, i, |u|);
  }

  /** The bytes behind the list do not spell the UUID, in steps of its size from the end of the list. */
  predicate NotBehind(ads: seq<Ad>, u: Uuid)
    requires Fits(ads) && |u| != 0
  {
    var k := First(ads, ListKind(|u|));
    k < |ads| ==> Scan(Encode(ads), Offset(ads, k) + 2 + |ads[k].value|, u).None?
  }

  /** The search for the UUID compares inside the payload only. */
  predicate SearchInside(ads: seq<Ad>, u: Uuid)
    requires Fits(ads) && |u| != 0
  {
    var k := First(ads, ListKind(|u|));
    k < |ads| ==> ScanDefined(Encode(ads), Offset(ads, k) + 2, u)
  }

  lemma MissAt(a: seq<Byte>, x: Ad, c: seq<Byte>, p: seq<Byte>, u: seq<Byte>, loc: nat)
    requires (|u| == 2 || |u| == 4 || |u| == 16) && |x.value| <= 254 && |x.value| % |u| == 0
    requires p == a + One(x) + c && loc == |a|
    ensures IndexIn(x.value, u, 0).None? ==> Scan(p, loc + 2, u) == Scan(p, loc + 2 + |x.value|, u)
  {
    if IndexIn(x.value, u, 0).None? { ScanMiss(a, x, c, p, u); }
  }

  lemma EditedScan(p: seq<Byte>, loc: nat, u: seq<Byte>, at: nat)
    requires |u| > 0 && loc + 2 <= |p| && loc + p[loc] + 1 <= |p|
    ensures Scan(p, loc + 2, u) == Scan(p, at, u) ==> (Edited(p, loc, u) == p <==> Scan(p, at, u).None?)
  {
    EditedSame(p, loc, u);
  }

  lemma AbsentScan(ads: seq<Ad>, k: nat, u: seq<Byte>, p: seq<Byte>, loc: nat, v: seq<Byte>, at: nat)
    requires Fits(ads) && k < |ads| && v == ads[k].value && (|u| == 2 || |u| == 4 || |u| == 16) && |v| % |u| == 0
    requires p == Encode(ads) && loc == Offset(ads, k) && at == loc + 2 + |v|
    ensures IndexIn(v, u, 0).None? ==> Scan(p, loc + 2, u) == Scan(p, at, u)
  {
    var a, c := Parts(ads, k);
    MissAt(a, ads[k], c, p, u, loc);
  }

  lemma AbsentAt(ads: seq<Ad>, k: nat, u: seq<Byte>, p: seq<Byte>, loc: nat, v: seq<Byte>, at: nat)
    requires Fits(ads) && k < |ads| && v == ads[k].value && (|u| == 2 || |u| == 4 || |u| == 16) && |v| % |u| == 0
    requires p == Encode(ads) && loc == Offset(ads, k) && at == loc + 2 + |v|
    ensures at <= |p| && p[loc] == |v| + 1
    ensures IndexIn(v, u, 0).None? ==> (Edited(p, loc, u) == p <==> Scan(p, at, u).None?)
  {
    SizeAt(ads, k, p, loc);
    AbsentScan(ads, k, u, p, loc, v, at);
    EditedScan(p, loc, u, at);
  }

  lemma NotBehindIs(ads: seq<Ad>, u: Uuid, k: nat, p: seq<Byte>, at: nat)
    requires Fits(ads) && |u| != 0 && k < |ads| && k == First(ads, ListKind(|u|))
    requires p == Encode(ads) && at == Offset(ads, k) + 2 + |ads[k].value|
    ensures NotBehind(ads, u) <==> Scan(p, at, u).None?
  {}

  lemma ListedIs(ads: seq<Ad>, u: Uuid, k: nat)
    requires |u| != 0 && k < |ads| && k == First(ads, ListKind(|u|))
    ensures UuidListed(ads, u) <==> IndexIn(ads[k].value, u, 0).Some?
  {}

  /** Removing a UUID its list does not hold leaves the payload alone if and only if nothing behind the list spells it. */
  lemma RemoveAbsentExactly(ads: seq<Ad>, u: Uuid, k: nat, p: seq<Byte>, loc: nat)
    requires Sound(ads) && |u| != 0 && k < |ads| && k == First(ads, ListKind(|u|))
    requires p == Encode(ads) && loc == Offset(ads, k)
    ensures loc + 2 <= |p| && loc + p[loc] + 1 <= |p|
    ensures !UuidListed(ads, u) ==> (Edited(p, loc, u) == p <==> NotBehind(ads, u))
  {
    var v := ads[k].value;
    AlignedList(ads, u, k);
    AbsentAt(ads, k, u, p, loc, v, loc + 2 + |v|);
    NotBehindIs(ads, u, k, p, loc + 2 + |v|);
    ListedIs(ads, u, k);
  }

  /** A listed UUID is found before the search leaves its list. */
  lemma {:induction false} ListedDefined(a: seq<Byte>, v: seq<Byte>, c: seq<Byte>, u: seq<Byte>, i: nat, p: seq<Byte>)
    requires |u| > 0 && i <= |v| && p == a + v + c && IndexIn(v, u, i).Some?
    ensures ScanDefined(p, |a| + i, u)
    decreases |v| - i
  {
    HereInside(a, v, c, u, i, p);
    if !Here(v, i, u) { ListedDefined(a, v, c, u, i + |u|, p); }
  }

  lemma DefinedIn(a: seq<Byte>, x: Ad, c: seq<Byte>, p: seq<Byte>, u: seq<Byte>, loc: nat)
    requires |u| > 0 && |x.value| <= 254 && p == a + One(x) + c && loc == |a|
    ensures IndexIn(x.value, u, 0).Some? ==> ScanDefined(p, loc + 2, u)
  {
    if IndexIn(x.value, u, 0).Some? {
      var b := a + [|x.value| + 1, x.kind];
      HeadApart(a, x, c, b);
      ListedDefined(b, x.value, c, u, 0, p);
    }
  }

  lemma ScanDefinedAt(ads: seq<Ad>, k: nat, u: seq<Byte>, p: seq<Byte>, loc: nat)
    requires Fits(ads) && |u| > 0 && k < |ads| && p == Encode(ads) && loc == Offset(ads, k)
    ensures IndexIn(ads[k].value, u, 0).Some? ==> ScanDefined(p, loc + 2, u)
  {
    var a, c := Parts(ads, k);
    DefinedIn(a, ads[k], c, p, u, loc);
  }

  lemma TwoEncode(a: Ad, b: Ad)
    requires |a.value| <= 254 && |b.value| <= 254
    ensures Encode([a, b]) == One(a) + One(b)
  {
    EncodeOne(a);
    EncodeSnoc([a], b);
    assert [a] + [b] == [a, b];
  }

  const SPELT: seq<Byte> := [3, MFG_DATA]

  /** A case where something does: removing the absent 16-bit UUID FF03 deletes the list, and 180F with it. */
  lemma RemoveAbsentDeletesList(ads: seq<Ad>, p: seq<Byte>)
    requires ads == [Ad(COMP_UUIDS16, [0x0F, 0x18]), Ad(MFG_DATA, [0xAA, 0xBB])] && p == Encode(ads)
    ensures p == [3, COMP_UUIDS16, 0x0F, 0x18, 3, MFG_DATA, 0xAA, 0xBB] && Sound(ads) && !UuidListed(ads, SPELT)
    ensures Edited(p, 0, SPELT) == [3, MFG_DATA, 0xAA, 0xBB]
  {
    AbsentPayload(ads, p);
    AbsentUnlisted(ads);
    FoundBehind(p);
  }

  lemma AbsentPayload(ads: seq<Ad>, p: seq<Byte>)
    requires ads == [Ad(COMP_UUIDS16, [0x0F, 0x18]), Ad(MFG_DATA, [0xAA, 0xBB])] && p == Encode(ads)
    ensures p == [3, COMP_UUIDS16, 0x0F, 0x18, 3, MFG_DATA, 0xAA, 0xBB] && Sound(ads)
  {
    TwoEncode(ads[0], ads[1]);
    assert ads == [ads[0], ads[1]];
  }

  lemma AbsentUnlisted(ads: seq<Ad>)
    requires |ads| > 0 && ads[0] == Ad(COMP_UUIDS16, [0x0F, 0x18])
    ensures !UuidListed(ads, SPELT)
  {
    FirstIs(ads, COMP_UUIDS16, 0);
    NotHere(ads[0].value, 0, SPELT);
    ListedIs(ads, SPELT, 0);
  }

  lemma FoundBehind(p: seq<Byte>)
    requires p == [3, COMP_UUIDS16, 0x0F, 0x18, 3, MFG_DATA, 0xAA, 0xBB]
    ensures Edited(p, 0, SPELT) == [3, MFG_DATA, 0xAA, 0xBB]
  {
    NotHere(p, 2, SPELT);
    assert Here(p, 4, SPELT);
    ScanOn(p, 2, SPELT);
    ScanOn(p, 4, SPELT);
    EditedScanned(p, 0, SPELT, 4);
  }

  lemma ScanOn(p: seq<Byte>, i: nat, u: seq<Byte>)
    requires |u| > 0 && i + |u| <= |p|
    ensures Scan(p, i, u) == if Here(p, i, u) then Some(i) else Scan(p, i + |u|, u)
  {}

  lemma EditedScanned(p: seq<Byte>, loc: nat, u: seq<Byte>, i: nat)
    requires |u| > 0 && loc + 2 <= |p| && loc + p[loc] + 1 <= |p| && Scan(p, loc + 2, u) == Some(i)
    ensures Edited(p, loc, u) == EditAt(p, loc, i, |u|)
  {}

  lemma NotHere(s: seq<Byte>, i: nat, u: seq<Byte>)
    requires |u| > 0 && i < |s| && s[i] != u[0]
    ensures !Here(s, i, u)
  {}
}
