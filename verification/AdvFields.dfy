/** The values of one type in a payload, service data, and the service UUIDs. */
module AdvFields {
  import opened Base
  import opened BleUuid
  import opened AdvFormat
  import opened AdvWriterSpec
  import opened AdvReaderSpec

  // ---- the values of one type -----------------------------------------------------------

  /** The types whose structures count one entry each, and that match themselves only. */
  predicate Counted(kind: Byte) {
    ListWidth(kind) == 0 && kind != PUBLIC_TARGET && kind != RANDOM_TARGET && kind != COMP_NAME
  }

  function Values(fs: seq<Field>, kind: Byte): seq<seq<Byte>> {
    if fs == [] then []
    else if fs[0].kind == kind then [fs[0].value] + Values(fs[1..], kind)
    else Values(fs[1..], kind)
  }

  lemma {:induction false} ValuesCount(fs: seq<Field>, kind: Byte)
    requires Counted(kind)
    ensures Total(fs, kind) == |Values(fs, kind)|
  {
    if fs != [] { ValuesCount(fs[1..], kind); }
  }

  lemma {:induction false} ValueHeld(fs: seq<Field>, kind: Byte, index: nat)
    requires Counted(kind) && index < |Values(fs, kind)|
    ensures Total(fs, kind) == |Values(fs, kind)|
    ensures var k := Holder(fs, kind, index); k < |fs| && fs[k].value == Values(fs, kind)[index] && fs[k].kind == kind
  {
    ValuesCount(fs, kind);
    if fs[0].kind == kind {
      if index > 0 { ValueHeld(fs[1..], kind, index - 1); }
    } else {
      ValueHeld(fs[1..], kind, index);
    }
  }

  /** What a lookup in a payload of up to 255 bytes gives, for a type that counts one entry each. */
  lemma Lookup(p: seq<Byte>, kind: Byte, index: Byte)
    requires |p| <= 255 && Counted(kind)
    ensures var fs, r := Fields(p, 0), Find(Fields(p, 0), kind, index, 0, None);
            && (index < |Values(fs, kind)| ==>
                  r.loc.Some? && r.count > index && Parsable(p, r.loc.value)
                  && FieldAt(p, r.loc.value).value == Values(fs, kind)[index])
            && (index >= |Values(fs, kind)| ==> r == Found(|Values(fs, kind)|, None))
  {
    var fs := Fields(p, 0);
    SpanFits(p, 0);
    FindIsHolder(fs, kind, index, index, 0, None);
    ValuesCount(fs, kind);
    if index < |Values(fs, kind)| {
      ValueHeld(fs, kind, index);
      FieldsInside(p, 0);
    }
  }

  /** `getPayloadByType` gives the value with that index; where there is none, the type must be absent. */
  lemma ByTypeValue(p: seq<Byte>, kind: Byte, index: Byte)
    requires |p| <= 255 && Counted(kind)
    ensures var vs := Values(Fields(p, 0), kind);
            (Written(p, kind, index) <==> index < |vs| || vs == [])
            && (Written(p, kind, index) ==> ByType(p, kind, index) == if vs == [] then [] else vs[index])
  {
    Lookup(p, kind, index);
  }

  // ---- names --------------------------------------------------------------------------------

  function FirstOr(vs: seq<seq<Byte>>): seq<Byte> { if vs == [] then [] else vs[0] }

  function LastOr(vs: seq<seq<Byte>>): seq<Byte> { if vs == [] then [] else vs[|vs| - 1] }

  /** The first complete name, or else the last shortened one. */
  function NameIn(complete: seq<seq<Byte>>, short: seq<seq<Byte>>): seq<Byte> {
    if complete != [] then complete[0] else LastOr(short)
  }

  lemma {:induction false} FirstValue(fs: seq<Field>, kind: Byte)
    ensures FirstKind(fs, kind) < |fs| <==> Values(fs, kind) != []
    ensures FirstKind(fs, kind) < |fs| ==> Values(fs, kind)[0] == fs[FirstKind(fs, kind)].value
  {
    if fs != [] && fs[0].kind != kind { FirstValue(fs[1..], kind); }
  }

  lemma {:induction false} LastValue(fs: seq<Field>, kind: Byte)
    ensures LastKind(fs, kind) < |fs| <==> Values(fs, kind) != []
    ensures LastKind(fs, kind) < |fs| ==> LastOr(Values(fs, kind)) == fs[LastKind(fs, kind)].value
  {
    if fs != [] { LastValue(fs[1..], kind); }
  }

  lemma NameValue(p: seq<Byte>)
    requires |p| <= 255
    ensures Written(p, COMP_NAME, 0)
    ensures ByType(p, COMP_NAME, 0) == NameIn(Values(Fields(p, 0), COMP_NAME), Values(Fields(p, 0), INCOMP_NAME))
  {
    var fs := Fields(p, 0);
    NameTheorem(p);
    FieldsInside(p, 0);
    FirstValue(fs, COMP_NAME);
    LastValue(fs, INCOMP_NAME);
  }

  // ---- service data ---------------------------------------------------------------------------

  /** Service data in the order `findServiceData` numbers it: by UUID width, then by place. */
  function DataValue(fs: seq<Field>, index: nat): (r: Option<(nat, seq<Byte>)>)
  {
    var d2, d4, d16 := Values(fs, SVC_DATA16), Values(fs, SVC_DATA32), Values(fs, SVC_DATA128);
    if index < |d2| then Some((2, d2[index]))
    else if index < |d2| + |d4| then Some((4, d4[index - |d2|]))
    else if index < |d2| + |d4| + |d16| then Some((16, d16[index - |d2| - |d4|]))
    else None
  }

  predicate Starts(v: seq<Byte>, u: seq<Byte>) { |v| >= |u| && v[..|u|] == u }

  /** The data behind the first UUID that equals `u`. */
  function DataFor(vs: seq<seq<Byte>>, u: seq<Byte>): seq<Byte> {
    if vs == [] then []
    else if Starts(vs[0], u) then vs[0][|u|..]
    else DataFor(vs[1..], u)
  }

  lemma {:induction false} NoSooner(vs: seq<seq<Byte>>, u: seq<Byte>, k: nat)
    requires k <= |vs| && (k < |vs| ==> Starts(vs[k], u))
    requires forall i :: 0 <= i < k ==> !Starts(vs[i], u)
    ensures DataFor(vs, u) == if k < |vs| then vs[k][|u|..] else []
  {
    if k > 0 { NoSooner(vs[1..], u, k - 1); }
  }

  /** The number of the first service data with UUIDs of this width. */
  function DataBase(fs: seq<Field>, width: nat): nat {
    if width == 2 then 0
    else if width == 4 then |Values(fs, SVC_DATA16)|
    else |Values(fs, SVC_DATA16)| + |Values(fs, SVC_DATA32)|
  }

  predicate NoMatchBelow(fs: seq<Field>, u: seq<Byte>, n: nat) {
    forall i: nat :: i < n && DataValue(fs, i).Some? && DataValue(fs, i).value.0 == |u| ==>
      !Starts(DataValue(fs, i).value.1, u)
  }

  lemma DataNumber(fs: seq<Field>, width: nat, k: nat)
    requires width == 2 || width == 4 || width == 16
    requires k < |Values(fs, DataKind(width))|
    ensures DataValue(fs, DataBase(fs, width) + k) == Some((width, Values(fs, DataKind(width))[k]))
  {}

  /** The first match in the numbering is the first match among the values of its width. */
  lemma DataHit(fs: seq<Field>, u: seq<Byte>, index: nat, v: seq<Byte>)
    requires (|u| == 2 || |u| == 4 || |u| == 16) && NoMatchBelow(fs, u, index)
    requires DataValue(fs, index) == Some((|u|, v)) && Starts(v, u)
    ensures DataFor(Values(fs, DataKind(|u|)), u) == v[|u|..]
  {
    var vs, base := Values(fs, DataKind(|u|)), DataBase(fs, |u|);
    forall i | 0 <= i < index - base ensures !Starts(vs[i], u) { DataNumber(fs, |u|, i); }
    NoSooner(vs, u, index - base);
  }

  lemma DataMiss(fs: seq<Field>, u: seq<Byte>, n: nat)
    requires (|u| == 2 || |u| == 4 || |u| == 16) && NoMatchBelow(fs, u, n) && DataValue(fs, n).None?
    ensures DataFor(Values(fs, DataKind(|u|)), u) == []
  {
    var vs := Values(fs, DataKind(|u|));
    forall i | 0 <= i < |vs| ensures !Starts(vs[i], u) { DataNumber(fs, |u|, i); }
    NoSooner(vs, u, |vs|);
  }

  lemma {:induction false} DataCountFits(fs: seq<Field>)
    ensures |Values(fs, SVC_DATA16)| + |Values(fs, SVC_DATA32)| + |Values(fs, SVC_DATA128)| <= Span(fs)
  {
    if fs != [] { DataCountFits(fs[1..]); }
  }

  lemma DataBounded(p: seq<Byte>, index: nat)
    requires |p| <= 255 && DataValue(Fields(p, 0), index).Some?
    ensures index < 255
  {
    SpanFits(p, 0);
    DataCountFits(Fields(p, 0));
  }

  /** What a structure at this place holds of service data, in the numbering. */
  lemma {:induction false} ValueAmong(fs: seq<Field>, kind: Byte, i: nat)
    requires i < |Values(fs, kind)|
    ensures exists k :: 0 <= k < |fs| && fs[k].kind == kind && fs[k].value == Values(fs, kind)[i]
  {
    if fs[0].kind == kind && i == 0 {
      assert fs[0].value == Values(fs, kind)[0];
    } else {
      var j := if fs[0].kind == kind then i - 1 else i;
      ValueAmong(fs[1..], kind, j);
      var k :| 0 <= k < |fs| - 1 && fs[1..][k].kind == kind && fs[1..][k].value == Values(fs[1..], kind)[j];
      assert fs[k + 1].kind == kind;
    }
  }

  /** Every structure of service data with UUIDs of this width holds its UUID. */
  predicate WholeData(fs: seq<Field>, width: nat) {
    forall k :: 0 <= k < |fs| && DataWidth(fs[k].kind) == width ==> |fs[k].value| >= width
  }

  lemma WholeValue(fs: seq<Field>, width: nat, index: nat)
    requires (width == 2 || width == 4 || width == 16) && WholeData(fs, width)
    requires DataValue(fs, index).Some? && DataValue(fs, index).value.0 == width
    ensures |DataValue(fs, index).value.1| >= width
  {
    ValueAmong(fs, DataKind(width), index - DataBase(fs, width));
  }

  // ---- service UUIDs ----------------------------------------------------------------------------

  function Chunks(v: seq<Byte>, w: nat): seq<Uuid>
    requires w == 2 || w == 4 || w == 16
  {
    if |v| < w then [] else [v[..w]] + Chunks(v[w..], w)
  }

  lemma DivStep(n: nat, w: nat)
    requires w == 2 || w == 4 || w == 16
    ensures n >= w ==> n / w == (n - w) / w + 1 && (n - w) % w == n % w
    ensures n % w == 0 ==> (n + 1) / w == n / w
    ensures n < w ==> n / w == 0
  {
    if w == 2 {} else if w == 4 {} else {}
  }

  lemma {:induction false} ChunkCount(v: seq<Byte>, w: nat)
    requires (w == 2 || w == 4 || w == 16) && |v| % w == 0
    ensures |Chunks(v, w)| == |v| / w == (|v| + 1) / w
  {
    DivStep(|v|, w);
    if |v| >= w { ChunkCount(v[w..], w); }
  }

  lemma SliceOfTail(v: seq<Byte>, w: nat, at: nat)
    requires w + at + w <= |v|
    ensures v[w..][at..at + w] == v[w + at..w + at + w]
  {}

  lemma {:induction false} ChunkAt(v: seq<Byte>, w: nat, j: nat)
    requires (w == 2 || w == 4 || w == 16) && |v| % w == 0 && j < |v| / w
    ensures |Chunks(v, w)| == |v| / w
    ensures 0 <= j * w && j * w + w <= |v| && Chunks(v, w)[j] == v[j * w..j * w + w]
    decreases j
  {
    ChunkCount(v, w);
    DivStep(|v|, w);
    if j > 0 {
      Product(j - 1, w);
      ChunkAt(v[w..], w, j - 1);
      SliceOfTail(v, w, (j - 1) * w);
    }
  }

  /** The UUIDs of every list of one type, in order. */
  function Listed(fs: seq<Field>, kind: Byte): seq<Uuid>
    requires ListWidth(kind) > 0
  {
    if fs == [] then []
    else (if fs[0].kind == kind then Chunks(fs[0].value, ListWidth(kind)) else []) + Listed(fs[1..], kind)
  }

  /** The UUIDs of the types from `kind` on, in the order `getServiceUUID` numbers them. */
  function Uuids(fs: seq<Field>, kind: Byte): seq<Uuid>
    requires INCOMP_UUIDS16 <= kind <= COMP_UUIDS128 + 1
    decreases COMP_UUIDS128 + 1 - kind, |fs|
  {
    if kind == COMP_UUIDS128 + 1 then [] else Listed(fs, kind) + Uuids(fs, kind + 1)
  }

  predicate Aligned(f: Field) {
    ListWidth(f.kind) > 0 ==> |f.value| % ListWidth(f.kind) == 0
  }

  predicate AllAligned(fs: seq<Field>) { forall k :: 0 <= k < |fs| ==> Aligned(fs[k]) }

  lemma {:induction false} ListedCount(fs: seq<Field>, kind: Byte)
    requires ListWidth(kind) > 0 && AllAligned(fs)
    ensures Total(fs, kind) == |Listed(fs, kind)|
  {
    if fs != [] {
      ListedCount(fs[1..], kind);
      if fs[0].kind == kind { ChunkCount(fs[0].value, ListWidth(kind)); }
    }
  }

  lemma ListedStep(fs: seq<Field>, kind: Byte) returns (head: seq<Uuid>)
    requires ListWidth(kind) > 0 && AllAligned(fs) && fs != []
    ensures Listed(fs, kind) == head + Listed(fs[1..], kind) && |head| == Entries(kind, fs[0])
    ensures AllAligned(fs[1..])
    ensures |head| > 0 ==> fs[0].kind == kind && head == Chunks(fs[0].value, ListWidth(kind))
  {
    if fs[0].kind == kind {
      ChunkCount(fs[0].value, ListWidth(kind));
      head := Chunks(fs[0].value, ListWidth(kind));
    } else {
      head := [];
    }
  }

  /** Entry j of structure k is the i-th UUID. */
  predicate Holds(fs: seq<Field>, kind: Byte, k: nat, j: nat, u: Uuid)
    requires ListWidth(kind) > 0
  {
    && k < |fs| && fs[k].kind == kind && j < |Chunks(fs[k].value, ListWidth(kind))|
    && Chunks(fs[k].value, ListWidth(kind))[j] == u
  }

  lemma HoldsLater(fs: seq<Field>, kind: Byte, k: nat, j: nat, u: Uuid)
    requires ListWidth(kind) > 0 && fs != [] && Holds(fs[1..], kind, k, j, u)
    ensures Holds(fs, kind, k + 1, j, u)
  {}

  /** The i-th UUID of a type is an entry of the structure that holds it. */
  lemma {:induction false} ListedHeld(fs: seq<Field>, kind: Byte, index: nat)
    requires ListWidth(kind) > 0 && AllAligned(fs) && index < |Listed(fs, kind)|
    ensures Holds(fs, kind, Holder(fs, kind, index), index - Before(fs, kind, index), Listed(fs, kind)[index])
  {
    var head := ListedStep(fs, kind);
    HolderStep(fs, kind, index);
    if |head| <= index {
      ListedHeld(fs[1..], kind, index - |head|);
      HeldLater(fs, kind, index, head, Listed(fs[1..], kind), Holder(fs[1..], kind, index - |head|),
                Before(fs[1..], kind, index - |head|));
    }
  }

  lemma HeldLater(fs: seq<Field>, kind: Byte, index: nat, head: seq<Uuid>, l: seq<Uuid>, k: nat, before: nat)
    requires ListWidth(kind) > 0 && fs != [] && |head| <= index < |head + l| && before <= index - |head|
    requires Holds(fs[1..], kind, k, index - |head| - before, l[index - |head|])
    ensures Holds(fs, kind, k + 1, index - (|head| + before), (head + l)[index])
  {
    HoldsLater(fs, kind, k, index - |head| - before, l[index - |head|]);
  }

  lemma TotalTake(fs: seq<Field>, kind: Byte, k: nat)
    requires k < |fs|
    ensures Total(fs[..k + 1], kind) == Entries(kind, fs[0]) + Total(fs[1..][..k], kind)
  {
    assert fs[..k + 1][1..] == fs[1..][..k];
  }

  lemma {:induction false} BeforeIsTotal(fs: seq<Field>, kind: Byte, index: nat)
    requires index < Total(fs, kind)
    ensures Before(fs, kind, index) == Total(fs[..Holder(fs, kind, index)], kind)
  {
    var w := Entries(kind, fs[0]);
    HolderStep(fs, kind, index);
    if w <= index {
      BeforeIsTotal(fs[1..], kind, index - w);
      TotalTake(fs, kind, Holder(fs[1..], kind, index - w));
    }
  }

  /** The entry that is read for the index, once the search has landed on a list with this value. */
  function EntryRead(v: seq<Byte>, w: nat, before: nat, index: nat): Uuid
    requires (w == 2 || w == 4 || w == 16) && before <= index
  {
    var past := if |v| + 1 < (index + 1) * w then index + 1 - before else index + 1;
    if |v| + 1 > past * w then v[(past - 1) * w..past * w] else []
  }

  lemma PastWidth(v: seq<Byte>, w: nat, before: nat, index: nat)
    requires (w == 2 || w == 4 || w == 16) && |v| % w == 0 && before <= index < before + |v| / w
    ensures index < |v| / w ==> |v| + 1 > (index + 1) * w
    ensures index >= |v| / w ==> |v| + 1 < (index + 1) * w && |v| + 1 > (index - before + 1) * w
  {
    if w == 2 {} else if w == 4 {} else {}
  }

  lemma EntryAt(v: seq<Byte>, w: nat, j: nat)
    requires (w == 2 || w == 4 || w == 16) && |v| % w == 0 && j < |v| / w
    ensures |Chunks(v, w)| == |v| / w && 0 <= j * w <= (j + 1) * w <= |v| && Chunks(v, w)[j] == v[j * w..(j + 1) * w]
  {
    ChunkAt(v, w, j);
    Product(j, w);
  }

  /**
   * The index adjustment is exact for the first list of a type, and for a later one
   * no longer than the lists before it; otherwise it is left out, and the entry read
   * is too far on by all the entries before.
   */
  lemma EntryReadExactly(v: seq<Byte>, w: nat, before: nat, index: nat)
    requires (w == 2 || w == 4 || w == 16) && |v| % w == 0 && before <= index < before + |v| / w
    ensures |Chunks(v, w)| == |v| / w
    ensures before == 0 || |v| / w <= index ==> EntryRead(v, w, before, index) == Chunks(v, w)[index - before]
    ensures index < |v| / w ==> EntryRead(v, w, before, index) == Chunks(v, w)[index]
  {
    PastWidth(v, w, before, index);
    EntryAt(v, w, if index < |v| / w then index else index - before);
  }

  /** `getServiceUUID` from a type on. */
  function UuidAt(fs: seq<Field>, kind: Byte, index: nat): Uuid
    requires INCOMP_UUIDS16 <= kind <= COMP_UUIDS128 + 1
    decreases COMP_UUIDS128 + 1 - kind, |fs|
  {
    if kind == COMP_UUIDS128 + 1 then []
    else if index < Total(fs, kind) then
      EntryRead(fs[Holder(fs, kind, index)].value, ListWidth(kind), Before(fs, kind, index), index)
    else UuidAt(fs, kind + 1, index - Total(fs, kind))
  }

  /** Lists hold whole UUIDs, and no later list of a type is longer than those of the type before it. */
  predicate Tidy(fs: seq<Field>) {
    && AllAligned(fs)
    && forall k :: 0 <= k < |fs| && ListWidth(fs[k].kind) > 0 ==>
         Total(fs[..k], fs[k].kind) == 0 || Entries(fs[k].kind, fs[k]) <= Total(fs[..k], fs[k].kind)
  }

  lemma TidyAt(fs: seq<Field>, k: nat)
    requires Tidy(fs) && k < |fs| && ListWidth(fs[k].kind) > 0
    ensures var v, w, before := fs[k].value, ListWidth(fs[k].kind), Total(fs[..k], fs[k].kind);
            |v| % w == 0 && (before == 0 || |v| / w <= before)
  {
    assert Aligned(fs[k]);
    ChunkCount(fs[k].value, ListWidth(fs[k].kind));
  }

  lemma EntryIsListed(fs: seq<Field>, kind: Byte, index: nat)
    requires ListWidth(kind) > 0 && Tidy(fs) && index < Total(fs, kind)
    ensures Total(fs, kind) == |Listed(fs, kind)|
    ensures EntryRead(fs[Holder(fs, kind, index)].value, ListWidth(kind), Before(fs, kind, index), index)
            == Listed(fs, kind)[index]
  {
    ListedCount(fs, kind);
    ListedHeld(fs, kind, index);
    BeforeIsTotal(fs, kind, index);
    var k := Holder(fs, kind, index);
    TidyAt(fs, k);
    ChunkCount(fs[k].value, ListWidth(kind));
    EntryReadExactly(fs[k].value, ListWidth(kind), Before(fs, kind, index), index);
  }

  lemma UuidAtStep(fs: seq<Field>, kind: Byte, index: nat, l: seq<Uuid>)
    requires Tidy(fs) && INCOMP_UUIDS16 <= kind <= COMP_UUIDS128 && l == Listed(fs, kind)
    ensures index < |l| ==> UuidAt(fs, kind, index) == l[index]
    ensures index >= |l| ==> UuidAt(fs, kind, index) == UuidAt(fs, kind + 1, index - |l|)
  {
    ListedCount(fs, kind);
    if index < |l| { EntryIsListed(fs, kind, index); }
  }

  /** On a tidy payload the numbering of `getServiceUUID` runs through the lists' UUIDs in order. */
  lemma {:induction false} UuidAtIsListed(fs: seq<Field>, kind: Byte, index: nat)
    requires Tidy(fs) && INCOMP_UUIDS16 <= kind <= COMP_UUIDS128 + 1
    ensures index < |Uuids(fs, kind)| ==> UuidAt(fs, kind, index) == Uuids(fs, kind)[index]
    ensures index >= |Uuids(fs, kind)| ==> UuidAt(fs, kind, index) == []
    decreases COMP_UUIDS128 + 1 - kind
  {
    if kind <= COMP_UUIDS128 {
      var l := Listed(fs, kind);
      UuidAtStep(fs, kind, index, l);
      assert Uuids(fs, kind) == l + Uuids(fs, kind + 1);
      if index >= |l| { UuidAtIsListed(fs, kind + 1, index - |l|); }
    }
  }

  /** `getServiceUUIDCount` without a width. */
  function UuidTotal(fs: seq<Field>, kind: Byte): nat
    requires INCOMP_UUIDS16 <= kind <= COMP_UUIDS128 + 1
    decreases COMP_UUIDS128 + 1 - kind, |fs|
  {
    if kind == COMP_UUIDS128 + 1 then 0 else Total(fs, kind) + UuidTotal(fs, kind + 1)
  }

  lemma {:induction false} UuidTotalHead(fs: seq<Field>, kind: Byte)
    requires fs != [] && INCOMP_UUIDS16 <= kind <= COMP_UUIDS128 + 1
    ensures UuidTotal(fs, kind) == UuidTotal(fs[1..], kind)
                                   + if kind <= fs[0].kind <= COMP_UUIDS128 then Entries(fs[0].kind, fs[0]) else 0
    decreases COMP_UUIDS128 + 1 - kind
  {
    if kind <= COMP_UUIDS128 { UuidTotalHead(fs, kind + 1); }
  }

  lemma {:induction false} UuidTotalFits(fs: seq<Field>, kind: Byte)
    requires INCOMP_UUIDS16 <= kind <= COMP_UUIDS128 + 1
    ensures UuidTotal(fs, kind) <= Span(fs)
    decreases |fs|
  {
    if fs == [] {
      UuidTotalNone(kind);
    } else {
      UuidTotalHead(fs, kind);
      UuidTotalFits(fs[1..], kind);
    }
  }

  lemma {:induction false} UuidTotalNone(kind: Byte)
    requires INCOMP_UUIDS16 <= kind <= COMP_UUIDS128 + 1
    ensures UuidTotal([], kind) == 0
    decreases COMP_UUIDS128 + 1 - kind
  {
    if kind <= COMP_UUIDS128 { UuidTotalNone(kind + 1); }
  }

  lemma {:induction false} UuidTotalCounts(fs: seq<Field>, kind: Byte)
    requires INCOMP_UUIDS16 <= kind <= COMP_UUIDS128 + 1 && AllAligned(fs)
    ensures UuidTotal(fs, kind) == |Uuids(fs, kind)|
    decreases COMP_UUIDS128 + 1 - kind
  {
    if kind <= COMP_UUIDS128 {
      ListedCount(fs, kind);
      UuidTotalCounts(fs, kind + 1);
    }
  }

  /** Some UUID of some list equals this one. */
  predicate Advertised(us: seq<Uuid>, u: Uuid) { exists k :: 0 <= k < |us| && Equal(u, us[k]) }

  /** What `isAdvertisingService` says, on any payload. */
  predicate Answers(fs: seq<Field>, u: Uuid) {
    exists i: nat :: i < UuidTotal(fs, INCOMP_UUIDS16) && Equal(u, UuidAt(fs, INCOMP_UUIDS16, i))
  }

  // ---- when isAdvertisingService says the truth ---------------------------------------------------

  /** How many entries the list at `k` holds, and how many the lists of its type before it. */
  function Own(fs: seq<Field>, k: nat): nat
    requires k < |fs|
  {
    Entries(fs[k].kind, fs[k])
  }

  function Ahead(fs: seq<Field>, k: nat): nat
    requires k < |fs|
  {
    Total(fs[..k], fs[k].kind)
  }

  /** How many entries of that list are never read: none of one no longer than those before it. */
  function Lost(fs: seq<Field>, k: nat): nat
    requires k < |fs|
  {
    if Own(fs, k) <= Ahead(fs, k) then 0 else Min(Ahead(fs, k), Own(fs, k) - Ahead(fs, k))
  }

  /** Entry j of the list at `k`. */
  predicate IsEntry(fs: seq<Field>, k: nat, j: nat, u: Uuid) {
    && k < |fs| && ListWidth(fs[k].kind) > 0 && j < |Chunks(fs[k].value, ListWidth(fs[k].kind))|
    && Equal(u, Chunks(fs[k].value, ListWidth(fs[k].kind))[j])
  }

  /** The UUID is an entry behind the lost ones of its list. */
  ghost predicate ReadEntry(fs: seq<Field>, u: Uuid) {
    exists k: nat, j: nat :: IsEntry(fs, k, j, u) && j >= Lost(fs, k)
  }

  lemma OwnIsCount(fs: seq<Field>, k: nat)
    requires AllAligned(fs) && k < |fs| && ListWidth(fs[k].kind) > 0
    ensures Own(fs, k) == |fs[k].value| / ListWidth(fs[k].kind) == |Chunks(fs[k].value, ListWidth(fs[k].kind))|
    ensures |fs[k].value| % ListWidth(fs[k].kind) == 0
  {
    assert Aligned(fs[k]);
    ChunkCount(fs[k].value, ListWidth(fs[k].kind));
  }

  /** The structure held by an index, and where in it the index falls. */
  lemma {:induction false} HolderSpan(fs: seq<Field>, kind: Byte, index: nat)
    requires index < Total(fs, kind)
    ensures var k := Holder(fs, kind, index); Before(fs, kind, index) <= index < Before(fs, kind, index) + Entries(kind, fs[k])
  {
    var w := Entries(kind, fs[0]);
    HolderStep(fs, kind, index);
    if w <= index { HolderSpan(fs[1..], kind, index - w); }
  }

  /** Every index that falls into a structure is held by it. */
  lemma {:induction false} HolderOf(fs: seq<Field>, kind: Byte, k: nat, index: nat)
    requires k < |fs| && Total(fs[..k], kind) <= index < Total(fs[..k], kind) + Entries(kind, fs[k])
    ensures index < Total(fs, kind) && Holder(fs, kind, index) == k && Before(fs, kind, index) == Total(fs[..k], kind)
  {
    HolderStep(fs, kind, index);
    if k > 0 {
      TotalTake(fs, kind, k - 1);
      HolderOf(fs[1..], kind, k - 1, index - Entries(kind, fs[0]));
    }
  }

  /** The entry read for an index within a type, from its list, its place and the number of entries before. */
  function EntryOf(b: nat, n: nat, index: nat): nat
    requires b <= index < b + n
  {
    if index < n then index else index - b
  }

  lemma EntryFrom(v: seq<Byte>, w: nat, b: nat, n: nat, index: nat, j: nat)
    requires (w == 2 || w == 4 || w == 16) && |v| % w == 0 && n == |v| / w && b <= index < b + n && j == EntryOf(b, n, index)
    ensures |Chunks(v, w)| == n && j < n && EntryRead(v, w, b, index) == Chunks(v, w)[j]
    ensures j >= if n <= b then 0 else Min(b, n - b)
  {
    EntryReadExactly(v, w, b, index);
  }

  /** An index whose entry this is. */
  function IndexFor(b: nat, n: nat, j: nat): (index: nat)
    requires j < n && j >= if n <= b then 0 else Min(b, n - b)
    ensures b <= index < b + n && EntryOf(b, n, index) == j
  {
    if b == 0 then j else if n <= b then b + j else if j >= b then j else j + b
  }

  /** Within a type: each index reads an entry that is not lost. */
  lemma IndexReads(fs: seq<Field>, kind: Byte, index: nat, u: Uuid)
    requires AllAligned(fs) && ListWidth(kind) > 0 && index < Total(fs, kind)
    requires Equal(u, EntryRead(fs[Holder(fs, kind, index)].value, ListWidth(kind), Before(fs, kind, index), index))
    ensures ReadEntry(fs, u)
  {
    var k, b := Holder(fs, kind, index), Before(fs, kind, index);
    HolderSpan(fs, kind, index);
    BeforeIsTotal(fs, kind, index);
    OwnIsCount(fs, k);
    var j := EntryOf(b, Own(fs, k), index);
    EntryFrom(fs[k].value, ListWidth(kind), b, Own(fs, k), index, j);
    assert IsEntry(fs, k, j, u) && j >= Lost(fs, k);
  }

  /** And each entry that is not lost is read for some index. */
  lemma EntryReads(fs: seq<Field>, k: nat, j: nat, u: Uuid) returns (index: nat)
    requires AllAligned(fs) && IsEntry(fs, k, j, u) && j >= Lost(fs, k)
    ensures var kind := fs[k].kind;
            && index < Total(fs, kind)
            && Equal(u, EntryRead(fs[Holder(fs, kind, index)].value, ListWidth(kind), Before(fs, kind, index), index))
  {
    var kind, b := fs[k].kind, Ahead(fs, k);
    OwnIsCount(fs, k);
    index := IndexFor(b, Own(fs, k), j);
    HolderOf(fs, kind, k, index);
    EntryFrom(fs[k].value, ListWidth(kind), b, Own(fs, k), index, j);
  }

  lemma UuidAtCases(fs: seq<Field>, kind: Byte, index: nat)
    requires INCOMP_UUIDS16 <= kind <= COMP_UUIDS128
    ensures UuidTotal(fs, kind) == Total(fs, kind) + UuidTotal(fs, kind + 1)
    ensures index < Total(fs, kind) ==>
              UuidAt(fs, kind, index)
              == EntryRead(fs[Holder(fs, kind, index)].value, ListWidth(kind), Before(fs, kind, index), index)
    ensures index >= Total(fs, kind) ==> UuidAt(fs, kind, index) == UuidAt(fs, kind + 1, index - Total(fs, kind))
  {}

  lemma {:induction false} AnswerReads(fs: seq<Field>, kind: Byte, index: nat, u: Uuid, v: Uuid)
    requires AllAligned(fs) && INCOMP_UUIDS16 <= kind <= COMP_UUIDS128 + 1
    requires index < UuidTotal(fs, kind) && v == UuidAt(fs, kind, index) && Equal(u, v)
    ensures ReadEntry(fs, u)
    decreases COMP_UUIDS128 + 1 - kind
  {
    if kind <= COMP_UUIDS128 {
      UuidAtCases(fs, kind, index);
      if index < Total(fs, kind) {
        IndexReads(fs, kind, index, u);
      } else {
        AnswerReads(fs, kind + 1, index - Total(fs, kind), u, v);
      }
    }
  }

  /** The number over all types of an index within one. */
  lemma {:induction false} NumberOf(fs: seq<Field>, from: Byte, kind: Byte, index: nat, v: Uuid) returns (i: nat)
    requires INCOMP_UUIDS16 <= from <= kind <= COMP_UUIDS128 && index < Total(fs, kind) && v == UuidAt(fs, kind, index)
    ensures i < UuidTotal(fs, from) && UuidAt(fs, from, i) == v
    decreases kind - from
  {
    if from == kind {
      i := index;
      UuidAtCases(fs, from, i);
    } else {
      var l := NumberOf(fs, from + 1, kind, index, v);
      i := l + Total(fs, from);
      UuidAtCases(fs, from, i);
    }
  }

  /**
   * Whatever lists of whole UUIDs a payload holds, `isAdvertisingService` says yes if and only
   * if the UUID equals an entry behind the lost ones of its list: a later list that is longer
   * than those of its type before it loses its first entries.
   */
  lemma AnswersExactly(fs: seq<Field>, u: Uuid)
    requires AllAligned(fs)
    ensures Answers(fs, u) <==> ReadEntry(fs, u)
  {
    if Answers(fs, u) {
      var i: nat :| i < UuidTotal(fs, INCOMP_UUIDS16) && Equal(u, UuidAt(fs, INCOMP_UUIDS16, i));
      AnswerReads(fs, INCOMP_UUIDS16, i, u, UuidAt(fs, INCOMP_UUIDS16, i));
    }
    if ReadEntry(fs, u) {
      var k: nat, j: nat :| IsEntry(fs, k, j, u) && j >= Lost(fs, k);
      var index := EntryReads(fs, k, j, u);
      UuidAtCases(fs, fs[k].kind, index);
      var i := NumberOf(fs, INCOMP_UUIDS16, fs[k].kind, index, UuidAt(fs, fs[k].kind, index));
    }
  }

  // ---- the entries are the listed UUIDs ---------------------------------------------------------------

  lemma UuidsStep(fs: seq<Field>, kind: Byte, l: seq<Uuid>, more: seq<Uuid>)
    requires INCOMP_UUIDS16 <= kind <= COMP_UUIDS128 && l == Listed(fs, kind) && more == Uuids(fs, kind + 1)
    ensures Uuids(fs, kind) == l + more
  {}

  lemma {:induction false} ListedAmong(fs: seq<Field>, from: Byte, kind: Byte, u: Uuid)
    requires INCOMP_UUIDS16 <= from <= kind <= COMP_UUIDS128 && u in Listed(fs, kind)
    ensures u in Uuids(fs, from)
    decreases kind - from
  {
    UuidsStep(fs, from, Listed(fs, from), Uuids(fs, from + 1));
    if from < kind { ListedAmong(fs, from + 1, kind, u); }
  }

  lemma {:induction false} AmongListed(fs: seq<Field>, from: Byte, u: Uuid) returns (kind: Byte)
    requires INCOMP_UUIDS16 <= from <= COMP_UUIDS128 + 1 && u in Uuids(fs, from)
    ensures from <= kind <= COMP_UUIDS128 && u in Listed(fs, kind)
    decreases COMP_UUIDS128 + 1 - from
  {
    if from <= COMP_UUIDS128 {
      UuidsStep(fs, from, Listed(fs, from), Uuids(fs, from + 1));
      if u in Listed(fs, from) { return from; }
      kind := AmongListed(fs, from + 1, u);
    }
  }

  lemma {:induction false} EntryListed(fs: seq<Field>, k: nat, j: nat)
    requires k < |fs| && ListWidth(fs[k].kind) > 0 && j < |Chunks(fs[k].value, ListWidth(fs[k].kind))|
    ensures Chunks(fs[k].value, ListWidth(fs[k].kind))[j] in Listed(fs, fs[k].kind)
  {
    var kind := fs[k].kind;
    var head := if fs[0].kind == kind then Chunks(fs[0].value, ListWidth(kind)) else [];
    assert Listed(fs, kind) == head + Listed(fs[1..], kind);
    if k > 0 { EntryListed(fs[1..], k - 1, j); }
  }

  /** The UUID equals some listed one exactly if it equals some entry, lost or not. */
  lemma AdvertisedExactly(fs: seq<Field>, u: Uuid)
    requires AllAligned(fs)
    ensures Advertised(Uuids(fs, INCOMP_UUIDS16), u) <==> exists k: nat, j: nat :: IsEntry(fs, k, j, u)
  {
    var us := Uuids(fs, INCOMP_UUIDS16);
    if Advertised(us, u) {
      var i :| 0 <= i < |us| && Equal(u, us[i]);
      EntryAmong(fs, us[i], u);
    }
    if k: nat, j: nat :| IsEntry(fs, k, j, u) {
      EntryListed(fs, k, j);
      var v := Chunks(fs[k].value, ListWidth(fs[k].kind))[j];
      ListedAmong(fs, INCOMP_UUIDS16, fs[k].kind, v);
      assert v in us;
    }
  }

  lemma EntryAmong(fs: seq<Field>, v: Uuid, u: Uuid)
    requires AllAligned(fs) && v in Uuids(fs, INCOMP_UUIDS16) && Equal(u, v)
    ensures exists k: nat, j: nat :: IsEntry(fs, k, j, u)
  {
    var kind := AmongListed(fs, INCOMP_UUIDS16, v);
    var index :| 0 <= index < |Listed(fs, kind)| && Listed(fs, kind)[index] == v;
    ListedHeld(fs, kind, index);
    assert IsEntry(fs, Holder(fs, kind, index), index - Before(fs, kind, index), u);
  }

  lemma TidyLosesNone(fs: seq<Field>, k: nat)
    requires Tidy(fs) && k < |fs| && ListWidth(fs[k].kind) > 0
    ensures Lost(fs, k) == 0
  {}

  /** So on a tidy payload, where no entry is lost, it says the truth. */
  lemma AnswersTidy(fs: seq<Field>, u: Uuid)
    requires Tidy(fs)
    ensures Answers(fs, u) <==> Advertised(Uuids(fs, INCOMP_UUIDS16), u)
  {
    AnswersExactly(fs, u);
    AdvertisedExactly(fs, u);
    if k: nat, j: nat :| IsEntry(fs, k, j, u) {
      TidyLosesNone(fs, k);
      assert j >= Lost(fs, k);
    }
  }

  /**
   * Without the tidiness the adjustment goes wrong: of two lists of one type, one
   * UUID and then two, the first UUID of the second list is never read.
   */
  lemma LongerSecondListSkips(a: Byte, b: Byte, c: Byte, fs: seq<Field>)
    requires fs == [Field(0, COMP_UUIDS16, [a, 0]), Field(4, COMP_UUIDS16, [b, 0, c, 0])]
    ensures && Listed(fs, COMP_UUIDS16) == [[a, 0], [b, 0], [c, 0]]
            && UuidTotal(fs, INCOMP_UUIDS16) == 3
            && UuidAt(fs, INCOMP_UUIDS16, 0) == [a, 0]
            && UuidAt(fs, INCOMP_UUIDS16, 1) == [c, 0] && UuidAt(fs, INCOMP_UUIDS16, 2) == [c, 0]
  {
    var f, g := fs[0], fs[1];
    assert fs == [f, g] && fs[1..] == [g];
    TwoLists(f, g);
    assert g.value[..2] == [b, 0] && g.value[2..] == [c, 0];
    assert Holder(fs, COMP_UUIDS16, 0) == 0 && Before(fs, COMP_UUIDS16, 0) == 0;
    assert Holder(fs, COMP_UUIDS16, 1) == 1 && Before(fs, COMP_UUIDS16, 1) == 1;
    assert Holder(fs, COMP_UUIDS16, 2) == 1 && Before(fs, COMP_UUIDS16, 2) == 1;
    OnlyKind(fs, COMP_UUIDS16, INCOMP_UUIDS16);
    assert UuidAt(fs, INCOMP_UUIDS16, 0) == UuidAt(fs, COMP_UUIDS16, 0);
    assert UuidAt(fs, INCOMP_UUIDS16, 1) == UuidAt(fs, COMP_UUIDS16, 1);
    assert UuidAt(fs, INCOMP_UUIDS16, 2) == UuidAt(fs, COMP_UUIDS16, 2);
  }

  /** All structures are of one list type. */
  lemma {:induction false} OnlyKind(fs: seq<Field>, kind: Byte, from: Byte)
    requires INCOMP_UUIDS16 <= from <= COMP_UUIDS128 + 1 && INCOMP_UUIDS16 <= kind <= COMP_UUIDS128
    requires forall i :: 0 <= i < |fs| ==> fs[i].kind == kind
    ensures from <= COMP_UUIDS128 && from != kind ==> Total(fs, from) == 0
    ensures UuidTotal(fs, from) == if from <= kind then Total(fs, kind) else 0
    decreases COMP_UUIDS128 + 1 - from
  {
    if from <= COMP_UUIDS128 {
      if from != kind { NoEntries(fs, from); }
      OnlyKind(fs, kind, from + 1);
    }
  }

  lemma {:induction false} NoEntries(fs: seq<Field>, kind: Byte)
    requires ListWidth(kind) > 0 && forall i :: 0 <= i < |fs| ==> fs[i].kind != kind
    ensures Total(fs, kind) == 0
  {
    if fs != [] { NoEntries(fs[1..], kind); }
  }

  lemma TwoLists(f: Field, g: Field)
    requires f.kind == g.kind == COMP_UUIDS16 && |f.value| == 2 && |g.value| == 4
    ensures Listed([f, g], COMP_UUIDS16) == [f.value, g.value[..2], g.value[2..]]
    ensures Total([g], COMP_UUIDS16) == 2 && Total([f, g], COMP_UUIDS16) == 3
  {
    assert [f, g][1..] == [g] && [g][1..] == [];
    assert Chunks(f.value, 2) == [f.value] by { assert f.value[..2] == f.value; }
    assert Chunks(g.value[2..], 2) == [g.value[2..]] by { assert g.value[2..][..2] == g.value[2..]; }
    assert Chunks(g.value, 2) == [g.value[..2]] + Chunks(g.value[2..], 2);
    assert Listed([g], COMP_UUIDS16) == Chunks(g.value, 2);
  }
}
