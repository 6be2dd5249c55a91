/**
 * When a setter succeeds, in bytes: what each needs, what is left, and that a run
 * which needs no more than 31 bytes in all is never refused anything.
 */
module AdvLimits {
  import opened Base
  import opened BleUuid
  import opened AdvFormat
  import opened AdvWriterSpec
  import opened AdvReaderSpec
  import opened AdvFields
  import opened AdvAgreement
  import opened AdvLists

  ghost predicate Has(ads: seq<Ad>, kind: Byte) {
    exists i :: 0 <= i < |ads| && ads[i].kind == kind
  }

  lemma HasFirst(ads: seq<Ad>, kind: Byte)
    ensures Has(ads, kind) <==> First(ads, kind) < |ads|
  {}

  /** The most UUIDs a list of this width holds. */
  function MostUuids(width: nat): nat { if width == 2 then 14 else if width == 4 then 7 else 1 }

  function ServicesSize(uuids: seq<Uuid>, width: nat): nat { width * Min(|OfWidth(uuids, width)|, MostUuids(width)) }

  lemma {:induction false} PackedSize(uuids: seq<Uuid>, width: nat, acc: seq<Byte>, k: nat)
    requires (width == 2 || width == 4 || width == 16) && |acc| == width * k && k <= MostUuids(width)
    ensures |acc| + 2 <= 30 && |Packed(uuids, width, acc).0| == width * Min(k + |OfWidth(uuids, width)|, MostUuids(width))
    decreases |uuids|
  {
    if uuids != [] {
      var u, t := uuids[0], uuids[1..];
      assert uuids == [u] + t;
      OfWidthStep(u, t, width);
      if |u| != width {
        PackedSize(t, width, acc, k);
      } else if k < MostUuids(width) {
        PackedSize(t, width, acc + u, k + 1);
      }
    }
  }

  /** UUIDs end to end. */
  function Flat(us: seq<Uuid>): seq<Byte> { if us == [] then [] else us[0] + Flat(us[1..]) }

  lemma {:induction false} PackedFirst(uuids: seq<Uuid>, width: nat, acc: seq<Byte>, k: nat)
    requires (width == 2 || width == 4 || width == 16) && |acc| == width * k && k <= MostUuids(width)
    ensures |acc| + 2 <= 30
    ensures var us := OfWidth(uuids, width);
            Packed(uuids, width, acc) == (acc + Flat(us[..Min(|us|, MostUuids(width) - k)]), |us| <= MostUuids(width) - k)
    decreases |uuids|
  {
    if uuids == [] {
      assert acc + [] == acc;
    } else {
      var u, t := uuids[0], uuids[1..];
      assert uuids == [u] + t;
      OfWidthStep(u, t, width);
      if |u| != width {
        PackedFirst(t, width, acc, k);
      } else if k < MostUuids(width) {
        PackedFirst(t, width, acc + u, k + 1);
        var us, m := OfWidth(t, width), Min(|OfWidth(t, width)|, MostUuids(width) - k - 1);
        assert ([u] + us)[..m + 1] == [u] + us[..m];
        assert ([u] + us[..m])[1..] == us[..m];
        Assoc(acc, u, Flat(us[..m]));
      } else {
        assert acc + [] == acc;
      }
    }
  }

  /**
   * `setServices` makes one structure: the first 14, 7 or 1 of the UUIDs of the width asked for,
   * of type 3, 5 or 7 if that is a complete list and all of them, and else of type 2, 4 or 6.
   */
  lemma ServicesExactly(complete: bool, width: nat, uuids: seq<Uuid>)
    requires width == 2 || width == 4 || width == 16
    ensures var us, most := OfWidth(uuids, width), MostUuids(width);
            var first := if width == 2 then 2 else if width == 4 then 4 else 6;
            ServicesAd(complete, width, uuids)
            == Ad(if complete && |us| <= most then first + 1 else first, Flat(us[..Min(|us|, most)]))
  {
    PackedFirst(uuids, width, [], 0);
    assert [] + Flat(OfWidth(uuids, width)[..Min(|OfWidth(uuids, width)|, MostUuids(width))])
           == Flat(OfWidth(uuids, width)[..Min(|OfWidth(uuids, width)|, MostUuids(width))]);
  }

  // ---- one setter --------------------------------------------------------------------------

  /** The complete list of 2-, 4- or 16-byte UUIDs has type 3, 5 or 7. */
  function UuidType(u: Uuid): Byte { if |u| == 2 then 3 else if |u| == 4 then 5 else 7 }

  /** What it takes for a setter to return true with `used` of the 31 bytes in use. */
  ghost predicate Granted(ads: seq<Ad>, used: nat, op: Op) {
    match op
    case Appearance(v) => if v == 0 then Has(ads, 0x19) else used + 4 <= 31
    case Flags(_) => Has(ads, 0x01) || used + 3 <= 31
    case TxPower(_) => used + 3 <= 31
    case PreferredParams(_, _) => used + 6 <= 31
    case AddUuid(u) => u != [] && used + |u| + (if Has(ads, UuidType(u)) then 0 else 2) <= 31
    case RemoveUuid(u) => u != []
    case ManufacturerData(d) => |d| <= 29 && used + |d| + 2 <= 31
    case SetUri(d) => |d| <= 29 && used + |d| + 2 <= 31
    case Name(n, _) => used + Min(|n| % 256, 29) + 2 <= 31
    case Services(_, size, uuids) => (size == 16 || size == 32 || size == 128) && used + ServicesSize(uuids, size / 8) + 2 <= 31
    case ServiceData(u, d) => u != [] && |u| + |d| + 2 <= 31 && (d == [] || used + |u| + |d| + 2 <= 31)
    case Remove(kind) => Has(ads, kind)
  }

  lemma ServicesGranted(ads: seq<Ad>, complete: bool, size: Byte, uuids: seq<Uuid>)
    requires Fits(ads)
    ensures ServicesSet(ads, complete, size, uuids).ok <==> Granted(ads, |Encode(ads)|, Services(complete, size, uuids))
  {
    if size == 16 || size == 32 || size == 128 { PackedSize(uuids, size / 8, [], 0); }
  }

  lemma AppearanceGranted(ads: seq<Ad>, v: UInt16)
    requires Fits(ads)
    ensures AppearanceSet(ads, v).ok <==> Granted(ads, |Encode(ads)|, Appearance(v))
  {
    HasFirst(ads, 0x19);
  }

  lemma FlagsGranted(ads: seq<Ad>, f: Byte)
    requires Sound(ads)
    ensures FlagsSet(ads, f).ok <==> Granted(ads, |Encode(ads)|, Flags(f))
  {
    HasFirst(ads, 0x01);
  }

  lemma AddUuidGranted(ads: seq<Ad>, u: Uuid)
    requires Fits(ads)
    ensures UuidAdded(ads, u).ok <==> Granted(ads, |Encode(ads)|, AddUuid(u))
  {
    HasFirst(ads, UuidType(u));
  }

  lemma ServiceDataGranted(ads: seq<Ad>, u: Uuid, d: seq<Byte>)
    requires Fits(ads)
    ensures ServiceDataSet(ads, u, d).ok <==> Granted(ads, |Encode(ads)|, ServiceData(u, d))
  {}

  /** Each setter returns true if and only if that holds. */
  lemma SucceedsExactly(ads: seq<Ad>, op: Op)
    requires Sound(ads) && LegalOp(ads, op)
    ensures Apply(ads, op).ok <==> Granted(ads, |Encode(ads)|, op)
  {
    match op
    case Appearance(v) => AppearanceGranted(ads, v);
    case Flags(f) => FlagsGranted(ads, f);
    case AddUuid(u) => AddUuidGranted(ads, u);
    case Services(complete, size, uuids) => ServicesGranted(ads, complete, size, uuids);
    case ServiceData(u, d) => ServiceDataGranted(ads, u, d);
    case Remove(kind) => HasFirst(ads, kind);
    case _ =>
  }

  // ---- whole runs ----------------------------------------------------------------------------

  /** The most bytes a setter adds. */
  function SizeOf(op: Op): nat {
    match op
    case Appearance(v) => if v == 0 then 0 else 4
    case Flags(_) => 3
    case TxPower(_) => 3
    case PreferredParams(_, _) => 6
    case AddUuid(u) => |u| + 2
    case RemoveUuid(_) => 0
    case ManufacturerData(d) => |d| + 2
    case SetUri(d) => |d| + 2
    case Name(n, _) => Min(|n| % 256, 29) + 2
    case Services(_, size, uuids) => ServicesSize(uuids, size / 8) + 2
    case ServiceData(u, d) => if d == [] then 0 else |u| + |d| + 2
    case Remove(_) => 0
  }

  function TotalSize(ops: seq<Op>): nat { if ops == [] then 0 else SizeOf(ops[0]) + TotalSize(ops[1..]) }

  /** Calls that nothing but a lack of room makes fail. */
  predicate Adding(op: Op) {
    match op
    case Appearance(v) => v != 0
    case AddUuid(u) => u != []
    case RemoveUuid(u) => u != []
    case Services(_, size, _) => size == 16 || size == 32 || size == 128
    case ServiceData(u, d) => u != []
    case Remove(_) => false
    case _ => true
  }

  lemma AppendedSize(ads: seq<Ad>, a: Ad)
    requires Fits(ads) && |a.value| <= 254
    ensures Fits(Appended(ads, a).ads) && |Encode(Appended(ads, a).ads)| <= |Encode(ads)| + |a.value| + 2
  {
    EncodeSnoc(ads, a);
  }

  lemma DroppedSize(ads: seq<Ad>, kind: Byte)
    requires Fits(ads)
    ensures Fits(Dropped(ads, kind).ads) && |Encode(Dropped(ads, kind).ads)| <= |Encode(ads)|
  {
    var k := First(ads, kind);
    if k < |ads| {
      RemovedEncodes(ads, k);
      EncodeSplit(ads, k);
    }
  }

  lemma FlagsSize(ads: seq<Ad>, f: Byte)
    requires Sound(ads)
    ensures Sound(FlagsSet(ads, f).ads) && |Encode(FlagsSet(ads, f).ads)| <= |Encode(ads)| + 3
  {
    FlagsSound(ads, f);
    var k, a := First(ads, FLAGS), Ad(FLAGS, [WithBredr(f)]);
    if k == |ads| {
      AppendedSize(ads, a);
    } else {
      DroppedSize(ads, FLAGS);
      ReplacedEncodes(ads, k, a);
    }
  }

  lemma AddUuidSize(ads: seq<Ad>, u: Uuid)
    requires Sound(ads)
    ensures Sound(UuidAdded(ads, u).ads) && |Encode(UuidAdded(ads, u).ads)| <= |Encode(ads)| + |u| + 2
  {
    UuidAddedSound(ads, u);
    if u != [] {
      var k := First(ads, ListKind(|u|));
      if k == |ads| {
        AppendedSize(ads, Ad(ListKind(|u|), u));
      } else if |u| + |Encode(ads)| <= MAX_SIZE {
        OffsetBound(ads, k);
        ReplacedEncodes(ads, k, Ad(ads[k].kind, ads[k].value + u));
      }
    }
  }

  lemma CutSize(ads: seq<Ad>, k: nat, i: nat, w: nat)
    requires Fits(ads) && k < |ads| && i + w <= |ads[k].value|
    ensures var a := Ad(ads[k].kind, ads[k].value[..i] + ads[k].value[i + w..]);
            Fits(ads[k := a]) && |Encode(ads[k := a])| <= |Encode(ads)|
  {
    ReplacedEncodes(ads, k, Ad(ads[k].kind, ads[k].value[..i] + ads[k].value[i + w..]));
  }

  lemma RemoveUuidSize(ads: seq<Ad>, u: Uuid)
    requires Sound(ads)
    ensures Sound(UuidRemoved(ads, u).ads) && |Encode(UuidRemoved(ads, u).ads)| <= |Encode(ads)|
  {
    UuidRemovedSound(ads, u);
    if u != [] {
      var k := First(ads, ListKind(|u|));
      DroppedSize(ads, ListKind(|u|));
      if k < |ads| && IndexIn(ads[k].value, u, 0).Some? {
        CutSize(ads, k, IndexIn(ads[k].value, u, 0).value, |u|);
      }
    }
  }

  lemma ServicesSetSize(ads: seq<Ad>, complete: bool, size: Byte, uuids: seq<Uuid>)
    requires Sound(ads)
    ensures var r := ServicesSet(ads, complete, size, uuids).ads;
            Sound(r) && |Encode(r)| <= |Encode(ads)| + ServicesSize(uuids, size / 8) + 2
  {
    ServicesSound(ads, complete, size, uuids);
    if size == 16 || size == 32 || size == 128 {
      PackedSize(uuids, size / 8, [], 0);
      AppendedSize(ads, ServicesAd(complete, size / 8, uuids));
    }
  }

  lemma ServiceDataSize(ads: seq<Ad>, u: Uuid, d: seq<Byte>)
    requires Sound(ads)
    ensures var r := ServiceDataSet(ads, u, d).ads; Sound(r) && |Encode(r)| <= |Encode(ads)| + SizeOf(ServiceData(u, d))
  {
    ServiceDataSound(ads, u, d);
    if 2 + |u| + |d| <= MAX_SIZE && u != [] {
      DroppedSize(ads, DataKind(|u|));
      AppendedSize(ads, Ad(DataKind(|u|), u + d));
    }
  }

  lemma ApplySize(ads: seq<Ad>, op: Op)
    requires Sound(ads) && LegalOp(ads, op)
    ensures Sound(Apply(ads, op).ads) && |Encode(Apply(ads, op).ads)| <= |Encode(ads)| + SizeOf(op)
  {
    ApplySound(ads, op);
    match op
    case Appearance(v) => DroppedSize(ads, APPEARANCE); AppendedSize(ads, Ad(APPEARANCE, Le16(v)));
    case Flags(f) => FlagsSize(ads, f);
    case TxPower(p) => AppendedSize(ads, Ad(TX_POWER, [p]));
    case PreferredParams(lo, hi) => AppendedSize(ads, ParamsAd(lo, hi));
    case AddUuid(u) => AddUuidSize(ads, u);
    case RemoveUuid(u) => RemoveUuidSize(ads, u);
    case ManufacturerData(d) => if |d| <= 29 { AppendedSize(ads, Ad(MFG_DATA, d)); }
    case SetUri(d) => if |d| <= 29 { AppendedSize(ads, Ad(URI, d)); }
    case Name(n, complete) => AppendedSize(ads, NameAd(n, complete));
    case Services(complete, size, uuids) => ServicesSetSize(ads, complete, size, uuids);
    case ServiceData(u, d) => ServiceDataSize(ads, u, d);
    case Remove(kind) => DroppedSize(ads, kind);
  }

  lemma AddingGranted(ads: seq<Ad>, used: nat, op: Op)
    requires Adding(op) && used + SizeOf(op) <= 31
    ensures Granted(ads, used, op)
  {}

  ghost predicate AllAdding(ops: seq<Op>) { forall i :: 0 <= i < |ops| ==> Adding(ops[i]) }

  function AllTrue(n: nat): (r: seq<bool>)
    ensures |r| == n
  {
    seq(n, _ => true)
  }

  lemma AllTrueStep(n: nat)
    requires n > 0
    ensures AllTrue(n)[0] && AllTrue(n)[1..] == AllTrue(n - 1) && AllTrue(n) == [true] + AllTrue(n - 1)
  {}

  lemma {:induction false} RunGranted(ads: seq<Ad>, ops: seq<Op>)
    requires Sound(ads) && LegalRun(ads, ops) && AllAdding(ops) && |Encode(ads)| + TotalSize(ops) <= 31
    ensures Returned(ads, ops) == AllTrue(|ops|)
    decreases |ops|
  {
    if ops != [] {
      ApplySize(ads, ops[0]);
      SucceedsExactly(ads, ops[0]);
      AddingGranted(ads, |Encode(ads)|, ops[0]);
      assert AllAdding(ops[1..]) by { assert forall i :: 0 <= i < |ops| - 1 ==> ops[1..][i] == ops[i + 1]; }
      RunGranted(Apply(ads, ops[0]).ads, ops[1..]);
      AllTrueStep(|ops|);
    }
  }

  /** A run that needs at most 31 bytes is never refused anything. */
  lemma NeverRefused(ops: seq<Op>)
    requires LegalStart(ops) && AllAdding(ops) && TotalSize(ops) <= 31
    ensures Sound([]) && Returned([], ops) == AllTrue(|ops|)
  {
    EmptySound();
    RunGranted([], ops);
  }

  /** The value of the first call that sets one of this type. */
  function FirstSet(ops: seq<Op>, kind: Byte): seq<Byte> {
    if ops == [] then []
    else if Pushed(ops[0]).Some? && Pushed(ops[0]).value.kind == kind then Pushed(ops[0]).value.value
    else FirstSet(ops[1..], kind)
  }

  predicate Pops(op: Op, kind: Byte) { Popped(op) == Some(kind) }

  lemma {:induction false} QueueHead(q: seq<seq<Byte>>, ops: seq<Op>, oks: seq<bool>, kind: Byte)
    requires oks == AllTrue(|ops|) && forall i :: 0 <= i < |ops| ==> !Pops(ops[i], kind)
    ensures FirstOr(QueueOf(q, ops, oks, kind)) == if q == [] then FirstSet(ops, kind) else q[0]
    decreases |ops|
  {
    if ops != [] {
      AllTrueStep(|ops|);
      assert forall i :: 0 <= i < |ops| - 1 ==> ops[1..][i] == ops[i + 1];
      QueueHead(Enqueue(q, ops[0], true, kind), ops[1..], oks[1..], kind);
    }
  }

  /** So what such a run sets first of a type, and does not take away, is what is read of it. */
  lemma SetIsRead(ops: seq<Op>, kind: Byte)
    requires LegalStart(ops) && AllAdding(ops) && TotalSize(ops) <= 31 && Plain(kind)
    requires forall i :: 0 <= i < |ops| ==> !Pops(ops[i], kind)
    ensures FirstOr(Values(ReadBack(ops), kind)) == FirstSet(ops, kind)
  {
    NeverRefused(ops);
    Agreement(ops, kind);
    QueueHead([], ops, Returned([], ops), kind);
  }

  // ---- what the setters set, in numbers ------------------------------------------------------

  /** The type and value each of these setters adds. */
  lemma PushedTypes(v: UInt16, p: Byte, d: seq<Byte>, u: Uuid)
    requires d != [] && u != []
    ensures v != 0 ==> Pushed(Appearance(v)) == Some(Ad(0x19, [v % 256, v / 256]))
    ensures Pushed(TxPower(p)) == Some(Ad(0x0a, [p])) && Pushed(PreferredParams(v, v)).value.kind == 0x12
    ensures Pushed(ManufacturerData(d)) == Some(Ad(0xff, d)) && Pushed(SetUri(d)) == Some(Ad(0x24, d))
    ensures Pushed(ServiceData(u, d)) == Some(Ad(if |u| == 2 then 0x16 else if |u| == 4 then 0x20 else 0x21, u + d))
  {}

  /** A name of at most 29 bytes has type 9 if it is said to be complete, any other 8. */
  lemma NamePushed(n: seq<Byte>, complete: bool)
    ensures |n| <= 29 ==> Pushed(Name(n, complete)) == Some(Ad(if complete then 9 else 8, n))
    ensures |n| > 29 ==> Pushed(Name(n, complete)) == Some(Ad(8, n[..Min(|n| % 256, 29)]))
  {
    if |n| <= 29 { assert n[..|n|] == n; }
  }

  // ---- flags -----------------------------------------------------------------------------------

  /** The flags with bit 2 set and the others as they were. */
  ghost predicate FlagsWith4(r: Byte, f: Byte) {
    (r / 4) % 2 == 1 && r % 4 == f % 4 && r / 8 == f / 8
  }

  lemma FlagsReplaced(ads: seq<Ad>, k: nat, r: Byte, q: seq<seq<Byte>>)
    requires k == First(ads, FLAGS) < |ads| && q == ValuesIn(ads, FLAGS)
    ensures q != [] && ValuesIn(ads[k := Ad(FLAGS, [r])], FLAGS) == q[0 := [r]]
  {
    var a := Ad(FLAGS, [r]);
    ValuesSplit(ads, k, FLAGS);
    NoneBefore(ads[..k], FLAGS);
    ValuesSplit(ads[k := a], k, FLAGS);
    assert ads[k := a][..k] == ads[..k] && ads[k := a][k + 1..] == ads[k + 1..];
  }

  lemma FlagsAdded(ads: seq<Ad>, r: Byte)
    requires Fits(ads) && First(ads, FLAGS) == |ads|
    ensures ValuesIn(ads, FLAGS) == []
    ensures ValuesIn(Appended(ads, Ad(FLAGS, [r])).ads, FLAGS) == if |Encode(ads)| + 3 <= 31 then [[r]] else []
  {
    NoneBefore(ads, FLAGS);
    AppendedPushes(ads, Ad(FLAGS, [r]), FLAGS);
  }

  /** Setting flags overwrites the first flags there are, or adds some; 0 takes the first away, or adds some. */
  lemma FlagsExactly(ads: seq<Ad>, f: Byte, r: Byte, q: seq<seq<Byte>>)
    requires Sound(ads) && FlagsWith4(r, f) && q == ValuesIn(ads, 0x01)
    ensures var left := ValuesIn(FlagsSet(ads, f).ads, 0x01);
            if q == [] then left == (if |Encode(ads)| + 3 <= 31 then [[r]] else [])
            else if f == 0 then left == q[1..] else left == q[0 := [r]]
  {
    var k := First(ads, FLAGS);
    assert r == WithBredr(f);
    if k == |ads| {
      FlagsAdded(ads, r);
    } else {
      FlagsReplaced(ads, k, r, q);
      DroppedPops(ads, FLAGS, FLAGS);
    }
  }
}
