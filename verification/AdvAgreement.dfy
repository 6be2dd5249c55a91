/**
 * Writer and reader together: what any run of the setters leaves for the getters.
 * The values of one type form a queue: setters append to it, removals take its
 * head, and the getters read the head.
 */
module AdvAgreement {
  import opened Base
  import opened BleUuid
  import opened AdvFormat
  import opened AdvWriterSpec
  import opened AdvReaderSpec
  import opened AdvFields

  // ---- values in a list of structures -------------------------------------------------

  function ValueOf(kind: Byte): Ad -> seq<seq<Byte>> { (a: Ad) => if a.kind == kind then [a.value] else [] }

  function ValuesIn(ads: seq<Ad>, kind: Byte): seq<seq<Byte>> { FlatMap(ads, ValueOf(kind)) }

  lemma {:induction false} ValuesLaid(ads: seq<Ad>, at: nat, kind: Byte)
    ensures Values(Laid(ads, at), kind) == ValuesIn(ads, kind)
  {
    if ads != [] { ValuesLaid(ads[1..], at + |ads[0].value| + 2, kind); }
  }

  lemma ValuesConcat(a: seq<Ad>, b: seq<Ad>, kind: Byte)
    ensures ValuesIn(a + b, kind) == ValuesIn(a, kind) + ValuesIn(b, kind)
  {
    FlatMapConcat(a, b, ValueOf(kind));
  }

  lemma ValuesOne(a: Ad, kind: Byte)
    ensures ValuesIn([a], kind) == if a.kind == kind then [a.value] else []
  {
    FlatMapOne(a, ValueOf(kind));
  }

  lemma ValuesSplit(ads: seq<Ad>, k: nat, kind: Byte)
    requires k < |ads|
    ensures var own := if ads[k].kind == kind then [ads[k].value] else [];
            && ValuesIn(ads, kind) == ValuesIn(ads[..k], kind) + own + ValuesIn(ads[k + 1..], kind)
            && ValuesIn(Removed(ads, k), kind) == ValuesIn(ads[..k], kind) + ValuesIn(ads[k + 1..], kind)
  {
    Around(ads, k);
    ValuesConcat(ads[..k] + [ads[k]], ads[k + 1..], kind);
    ValuesConcat(ads[..k], [ads[k]], kind);
    ValuesConcat(ads[..k], ads[k + 1..], kind);
    ValuesOne(ads[k], kind);
  }

  lemma {:induction false} NoneBefore(ads: seq<Ad>, kind: Byte)
    requires forall i :: 0 <= i < |ads| ==> ads[i].kind != kind
    ensures ValuesIn(ads, kind) == []
  {
    if ads != [] { NoneBefore(ads[1..], kind); }
  }

  lemma ReplacedElsewhere(ads: seq<Ad>, k: nat, a: Ad, kind: Byte)
    requires k < |ads| && ads[k].kind != kind && a.kind != kind
    ensures ValuesIn(ads[k := a], kind) == ValuesIn(ads, kind)
  {
    ValuesSplit(ads, k, kind);
    ValuesSplit(ads[k := a], k, kind);
    assert ads[k := a][..k] == ads[..k] && ads[k := a][k + 1..] == ads[k + 1..];
  }

  // ---- one setter -------------------------------------------------------------------------

  function PopFront(q: seq<seq<Byte>>): seq<seq<Byte>> { if q == [] then [] else q[1..] }

  lemma DroppedPops(ads: seq<Ad>, dropped: Byte, kind: Byte)
    ensures ValuesIn(Dropped(ads, dropped).ads, kind)
            == if kind == dropped then PopFront(ValuesIn(ads, kind)) else ValuesIn(ads, kind)
  {
    var k := First(ads, dropped);
    if k < |ads| {
      ValuesSplit(ads, k, kind);
      if kind == dropped { NoneBefore(ads[..k], kind); }
    } else if kind == dropped {
      NoneBefore(ads, kind);
    }
  }

  lemma AppendedPushes(ads: seq<Ad>, a: Ad, kind: Byte)
    requires Fits(ads) && |a.value| <= 254
    ensures ValuesIn(Appended(ads, a).ads, kind)
            == ValuesIn(ads, kind) + if Appended(ads, a).ok && a.kind == kind then [a.value] else []
  {
    ValuesConcat(ads, [a], kind);
    ValuesOne(a, kind);
  }

  /** The structure a successful setter appends, other than to a UUID list or the flags. */
  function Pushed(op: Op): Option<Ad> {
    match op
    case Appearance(v) => if v == 0 then None else Some(Ad(APPEARANCE, Le16(v)))
    case TxPower(p) => Some(Ad(TX_POWER, [p]))
    case PreferredParams(lo, hi) => Some(ParamsAd(lo, hi))
    case ManufacturerData(d) => Some(Ad(MFG_DATA, d))
    case SetUri(d) => Some(Ad(URI, d))
    case Name(n, complete) => Some(NameAd(n, complete))
    case ServiceData(u, d) => if d == [] || u == [] then None else Some(Ad(DataKind(|u|), u + d))
    case _ => None
  }

  /** The type whose first structure a setter takes away. */
  function Popped(op: Op): Option<Byte> {
    match op
    case Appearance(v) => if v == 0 then Some(APPEARANCE) else None
    case ServiceData(u, d) => if d == [] && u != [] then Some(DataKind(|u|)) else None
    case Remove(kind) => Some(kind)
    case _ => None
  }

  function Enqueue(q: seq<seq<Byte>>, op: Op, ok: bool, kind: Byte): seq<seq<Byte>> {
    if Popped(op) == Some(kind) then PopFront(q)
    else if ok && Pushed(op).Some? && Pushed(op).value.kind == kind then q + [Pushed(op).value.value]
    else q
  }

  /** The types that are neither UUID lists nor the flags. */
  predicate Plain(kind: Byte) { ListWidth(kind) == 0 && kind != FLAGS }

  lemma UuidAddedElsewhere(ads: seq<Ad>, u: Uuid, kind: Byte)
    requires Fits(ads) && ListWidth(kind) == 0
    ensures ValuesIn(UuidAdded(ads, u).ads, kind) == ValuesIn(ads, kind)
  {
    if |u| != 0 {
      var k := First(ads, ListKind(|u|));
      if k == |ads| {
        AppendedPushes(ads, Ad(ListKind(|u|), u), kind);
      } else {
        ReplacedElsewhere(ads, k, Ad(ads[k].kind, ads[k].value + u), kind);
      }
    }
  }

  lemma RemovedElsewhere(ads: seq<Ad>, k: nat, kind: Byte)
    requires k < |ads| && ads[k].kind != kind
    ensures ValuesIn(Removed(ads, k), kind) == ValuesIn(ads, kind)
  {
    ValuesSplit(ads, k, kind);
  }

  lemma CutElsewhere(ads: seq<Ad>, k: nat, u: seq<Byte>, kind: Byte)
    requires k < |ads| && |u| > 0 && ads[k].kind != kind
    ensures ValuesIn(CutFrom(ads, k, u).ads, kind) == ValuesIn(ads, kind)
  {
    var v, found := ads[k].value, IndexIn(ads[k].value, u, 0);
    if found.Some? {
      CutFromAt(ads, k, u, v, found.value);
      if |v| == |u| {
        RemovedElsewhere(ads, k, kind);
      } else {
        ReplacedElsewhere(ads, k, Ad(ads[k].kind, v[..found.value] + v[found.value + |u|..]), kind);
      }
    }
  }

  lemma UuidRemovedElsewhere(ads: seq<Ad>, u: Uuid, kind: Byte)
    requires ListWidth(kind) == 0
    ensures ValuesIn(UuidRemoved(ads, u).ads, kind) == ValuesIn(ads, kind)
  {
    if |u| != 0 {
      var k := First(ads, ListKind(|u|));
      if k < |ads| { CutElsewhere(ads, k, u, kind); }
    }
  }

  lemma FlagsElsewhere(ads: seq<Ad>, f: Byte, kind: Byte)
    requires Sound(ads) && kind != FLAGS
    ensures ValuesIn(FlagsSet(ads, f).ads, kind) == ValuesIn(ads, kind)
  {
    var k := First(ads, FLAGS);
    if k == |ads| {
      AppendedPushes(ads, Ad(FLAGS, [WithBredr(f)]), kind);
    } else if f == 0 {
      DroppedPops(ads, FLAGS, kind);
    } else {
      ReplacedElsewhere(ads, k, Ad(FLAGS, [WithBredr(f)]), kind);
    }
  }

  lemma ServicesElsewhere(ads: seq<Ad>, complete: bool, size: Byte, uuids: seq<Uuid>, kind: Byte)
    requires Fits(ads) && ListWidth(kind) == 0
    ensures ValuesIn(ServicesSet(ads, complete, size, uuids).ads, kind) == ValuesIn(ads, kind)
  {
    if size == 16 || size == 32 || size == 128 {
      AppendedPushes(ads, ServicesAd(complete, size / 8, uuids), kind);
    }
  }

  lemma BlobQueued(ads: seq<Ad>, blob: Byte, d: seq<Byte>, kind: Byte)
    requires Fits(ads)
    ensures var r := BlobSet(ads, blob, d);
            ValuesIn(r.ads, kind) == ValuesIn(ads, kind) + if r.ok && blob == kind then [d] else []
  {
    if |d| <= MAX_FIELD { AppendedPushes(ads, Ad(blob, d), kind); }
  }

  lemma ServiceDataQueued(ads: seq<Ad>, u: Uuid, d: seq<Byte>, kind: Byte)
    requires Fits(ads)
    ensures var r := ServiceDataSet(ads, u, d);
            ValuesIn(r.ads, kind) == Enqueue(ValuesIn(ads, kind), ServiceData(u, d), r.ok, kind)
  {
    if 2 + |u| + |d| <= MAX_SIZE && u != [] {
      DroppedPops(ads, DataKind(|u|), kind);
      if d != [] { AppendedPushes(ads, Ad(DataKind(|u|), u + d), kind); }
    }
  }

  lemma AppearanceQueued(ads: seq<Ad>, v: UInt16, kind: Byte)
    requires Fits(ads)
    ensures var r := AppearanceSet(ads, v);
            ValuesIn(r.ads, kind) == Enqueue(ValuesIn(ads, kind), Appearance(v), r.ok, kind)
  {
    DroppedPops(ads, APPEARANCE, kind);
    AppendedPushes(ads, Ad(APPEARANCE, Le16(v)), kind);
  }

  predicate Queueing(op: Op) {
    op.Appearance? || op.TxPower? || op.PreferredParams? || op.ManufacturerData? || op.SetUri? || op.Name?
    || op.ServiceData? || op.Remove?
  }

  lemma NotQueued(ads: seq<Ad>, op: Op, kind: Byte)
    requires Sound(ads) && Plain(kind) && LegalOp(ads, op) && !Queueing(op)
    ensures ValuesIn(Apply(ads, op).ads, kind) == ValuesIn(ads, kind)
    ensures Pushed(op) == None && Popped(op) == None
  {
    match op
    case Flags(f) => FlagsElsewhere(ads, f, kind);
    case AddUuid(u) => UuidAddedElsewhere(ads, u, kind);
    case RemoveUuid(u) => UuidRemovedElsewhere(ads, u, kind);
    case Services(complete, size, uuids) => ServicesElsewhere(ads, complete, size, uuids, kind);
  }

  lemma PushOnly(ads: seq<Ad>, a: Ad, op: Op, kind: Byte)
    requires Fits(ads) && |a.value| <= 254 && Pushed(op) == Some(a) && Popped(op) == None
    ensures var r := Appended(ads, a);
            ValuesIn(r.ads, kind) == Enqueue(ValuesIn(ads, kind), op, r.ok, kind)
  {
    AppendedPushes(ads, a, kind);
  }

  lemma BlobOnly(ads: seq<Ad>, a: Ad, op: Op, kind: Byte)
    requires Fits(ads) && Pushed(op) == Some(a) && Popped(op) == None
    ensures var r := BlobSet(ads, a.kind, a.value);
            ValuesIn(r.ads, kind) == Enqueue(ValuesIn(ads, kind), op, r.ok, kind)
  {
    BlobQueued(ads, a.kind, a.value, kind);
  }

  lemma RemoveQueued(ads: seq<Ad>, k: Byte, kind: Byte)
    ensures ValuesIn(Dropped(ads, k).ads, kind)
            == Enqueue(ValuesIn(ads, kind), Remove(k), Dropped(ads, k).ok, kind)
  {
    DroppedPops(ads, k, kind);
  }

  /** Each setter works the queue of each plain type, and nothing else does. */
  lemma Queued(ads: seq<Ad>, op: Op, kind: Byte)
    requires Sound(ads) && Plain(kind) && LegalOp(ads, op)
    ensures var r := Apply(ads, op);
            ValuesIn(r.ads, kind) == Enqueue(ValuesIn(ads, kind), op, r.ok, kind)
  {
    if !Queueing(op) {
      NotQueued(ads, op, kind);
    } else {
      match op
      case Appearance(v) => AppearanceQueued(ads, v, kind);
      case TxPower(p) => PushOnly(ads, Ad(TX_POWER, [p]), op, kind);
      case PreferredParams(lo, hi) => PushOnly(ads, ParamsAd(lo, hi), op, kind);
      case ManufacturerData(d) => BlobOnly(ads, Ad(MFG_DATA, d), op, kind);
      case SetUri(d) => BlobOnly(ads, Ad(URI, d), op, kind);
      case Name(n, complete) => PushOnly(ads, NameAd(n, complete), op, kind);
      case ServiceData(u, d) => ServiceDataQueued(ads, u, d, kind);
      case Remove(k) => RemoveQueued(ads, k, kind);
    }
  }

  // ---- whole runs --------------------------------------------------------------------------

  /** The queue as a caller could keep it, from the calls and what they returned. */
  function QueueOf(q: seq<seq<Byte>>, ops: seq<Op>, oks: seq<bool>, kind: Byte): seq<seq<Byte>>
    requires |ops| == |oks|
    decreases |ops|
  {
    if ops == [] then q else QueueOf(Enqueue(q, ops[0], oks[0], kind), ops[1..], oks[1..], kind)
  }

  lemma {:induction false} RunQueues(ads: seq<Ad>, ops: seq<Op>, kind: Byte)
    requires Sound(ads) && Plain(kind) && LegalRun(ads, ops)
    ensures ValuesIn(Run(ads, ops), kind) == QueueOf(ValuesIn(ads, kind), ops, Returned(ads, ops), kind)
    decreases |ops|
  {
    if ops != [] {
      ApplySound(ads, ops[0]);
      Queued(ads, ops[0], kind);
      RunQueues(Apply(ads, ops[0]).ads, ops[1..], kind);
    }
  }

  /** The fields the reader finds in the payload a run has written. */
  ghost function ReadBack(ops: seq<Op>): (fs: seq<Field>)
    requires LegalStart(ops)
  {
    EmptySound();
    Fields(Encode(Run([], ops)), 0)
  }

  lemma SeenValues(ads: seq<Ad>, kind: Byte)
    ensures ValuesIn(Seen(ads), kind) == ValuesIn(ads, kind)
            || ValuesIn(ads, kind) == ValuesIn(Seen(ads), kind) + [[]]
    ensures (forall i :: 0 <= i < |ads| && ads[i].kind == kind ==> ads[i].value != []) ==>
              ValuesIn(Seen(ads), kind) == ValuesIn(ads, kind)
  {
    if ads != [] && ads[|ads| - 1].value == [] {
      ValuesSplit(ads, |ads| - 1, kind);
      assert ads[|ads|..] == [];
    }
  }

  lemma ReadValues(ads: seq<Ad>, kind: Byte)
    requires Fits(ads)
    ensures FirstOr(Values(Fields(Encode(ads), 0), kind)) == FirstOr(ValuesIn(ads, kind))
    ensures Values(Fields(Encode(ads), 0), kind) == ValuesIn(Seen(ads), kind)
  {
    ReadsBack(ads);
    ValuesLaid(Seen(ads), 0, kind);
    SeenValues(ads, kind);
  }

  /**
   * Writer/reader agreement: after any run of setters, the first value the reader
   * finds for a type is the head of the queue of what was set, the oldest value set
   * and not removed.  The payload has at most 31 bytes throughout.
   */
  lemma Agreement(ops: seq<Op>, kind: Byte)
    requires Plain(kind) && LegalStart(ops)
    ensures Sound([]) && |Encode(Run([], ops))| <= MAX_SIZE
    ensures FirstOr(Values(ReadBack(ops), kind)) == FirstOr(QueueOf([], ops, Returned([], ops), kind))
  {
    EmptySound();
    RunQueues([], ops, kind);
    ReadValues(Run([], ops), kind);
  }

  /** Nothing removed: the getter gives the first value set. */
  lemma {:induction false} FirstSetStays(q: seq<seq<Byte>>, ops: seq<Op>, oks: seq<bool>, kind: Byte)
    requires |ops| == |oks| && q != []
    requires forall i :: 0 <= i < |ops| ==> Popped(ops[i]) != Some(kind)
    ensures QueueOf(q, ops, oks, kind) != [] && QueueOf(q, ops, oks, kind)[0] == q[0]
    decreases |ops|
  {
    if ops != [] { FirstSetStays(Enqueue(q, ops[0], oks[0], kind), ops[1..], oks[1..], kind); }
  }

  // ---- names ------------------------------------------------------------------------------------

  function NameRead(ads: seq<Ad>): seq<Byte>
    requires Fits(ads)
  {
    NameIn(Values(Fields(Encode(ads), 0), COMP_NAME), Values(Fields(Encode(ads), 0), INCOMP_NAME))
  }

  /** A single structure of a type is read back, or was empty and went unseen. */
  lemma SingleRead(ads: seq<Ad>, a: Ad, kind: Byte) returns (r: seq<seq<Byte>>)
    requires Fits(ads) && |a.value| <= MAX_FIELD && ValuesIn(ads, kind) == []
    ensures r == Values(Fields(Encode(ads + [a]), 0), kind)
    ensures a.kind != kind ==> r == []
    ensures a.kind == kind ==> r == [a.value] || (r == [] && a.value == [])
  {
    ValuesConcat(ads, [a], kind);
    ValuesOne(a, kind);
    ReadValues(ads + [a], kind);
    SeenValues(ads + [a], kind);
    r := Values(Fields(Encode(ads + [a]), 0), kind);
  }

  lemma OneName(ads: seq<Ad>, a: Ad)
    requires Fits(ads) && |a.value| <= MAX_FIELD && (a.kind == COMP_NAME || a.kind == INCOMP_NAME)
    requires ValuesIn(ads, COMP_NAME) == [] && ValuesIn(ads, INCOMP_NAME) == []
    ensures NameRead(ads + [a]) == a.value
  {
    var complete := SingleRead(ads, a, COMP_NAME);
    var short := SingleRead(ads, a, INCOMP_NAME);
    assert NameIn(complete, short) == a.value;
  }

  /**
   * The first name set comes back whole if it has at most 29 bytes.  A longer one
   * comes back as its first 29 bytes only if its length modulo 256 is at least 29;
   * otherwise it comes back shorter still, and not at all at a multiple of 256.
   */
  lemma NameReadsBack(ads: seq<Ad>, name: seq<Byte>, complete: bool)
    requires Sound(ads) && Apply(ads, Name(name, complete)).ok
    requires ValuesIn(ads, COMP_NAME) == [] && ValuesIn(ads, INCOMP_NAME) == []
    ensures Sound(Apply(ads, Name(name, complete)).ads)
    ensures var read := NameRead(Apply(ads, Name(name, complete)).ads);
            && read <= name
            && (|name| <= MAX_FIELD ==> read == name)
            && (|name| > MAX_FIELD ==> (|read| == MAX_FIELD <==> |name| % 256 >= MAX_FIELD))
            && (|name| % 256 == 0 ==> read == [])
  {
    AppendedSound(ads, NameAd(name, complete));
    OneName(ads, NameAd(name, complete));
    NamePrefix(name, complete, NameAd(name, complete).value);
  }

  lemma NamePrefix(name: seq<Byte>, complete: bool, read: seq<Byte>)
    requires read == NameAd(name, complete).value
    ensures read <= name && (|name| <= MAX_FIELD ==> read == name)
    ensures |name| > MAX_FIELD ==> (|read| == MAX_FIELD <==> |name| % 256 >= MAX_FIELD)
    ensures |name| % 256 == 0 ==> read == []
  {}

  lemma {:induction false} ValueListed(ads: seq<Ad>, i: nat)
    requires i < |ads|
    ensures ads[i].value in ValuesIn(ads, ads[i].kind)
  {
    ValuesSplit(ads, i, ads[i].kind);
  }

  /** Every name of the run leaves at least a byte. */
  predicate NamesShow(ops: seq<Op>) {
    forall i :: 0 <= i < |ops| && ops[i].Name? ==> |ops[i].data| % 256 != 0
  }

  lemma NameQueued(q: seq<seq<Byte>>, op: Op, ok: bool, kind: Byte)
    requires (kind == COMP_NAME || kind == INCOMP_NAME) && (op.Name? ==> |op.data| % 256 != 0)
    requires forall v :: v in q ==> v != []
    ensures forall v :: v in Enqueue(q, op, ok, kind) ==> v != []
  {
    if Popped(op) == Some(kind) {
      assert forall v :: v in PopFront(q) ==> v in q;
    } else if Pushed(op).Some? && Pushed(op).value.kind == kind {
      assert op.Name? && Pushed(op).value == NameAd(op.data, op.complete);
      assert |Pushed(op).value.value| == NameLength(op.data) > 0;
    }
  }

  lemma {:induction false} NamesQueued(q: seq<seq<Byte>>, ops: seq<Op>, oks: seq<bool>, kind: Byte)
    requires |ops| == |oks| && NamesShow(ops) && (kind == COMP_NAME || kind == INCOMP_NAME)
    requires forall v :: v in q ==> v != []
    ensures forall v :: v in QueueOf(q, ops, oks, kind) ==> v != []
    decreases |ops|
  {
    if ops != [] {
      NameQueued(q, ops[0], oks[0], kind);
      assert forall i :: 0 <= i < |ops| - 1 ==> ops[1..][i] == ops[i + 1];
      NamesQueued(Enqueue(q, ops[0], oks[0], kind), ops[1..], oks[1..], kind);
    }
  }

  predicate IsName(kind: Byte) { kind == COMP_NAME || kind == INCOMP_NAME }

  /** An empty last name, which the reader does not see, is the name of the payload, and one that shows stands before it. */
  predicate Hidden(ads: seq<Ad>) {
    ads != []
    && (var n := |ads| - 1;
        && IsName(ads[n].kind) && ads[n].value == [] && ValuesIn(ads[..n], COMP_NAME) == []
        && LastOr(ValuesIn(ads[..n], INCOMP_NAME)) != [])
  }

  lemma SeenName(ads: seq<Ad>, kind: Byte)
    ensures ads == [] || ads[|ads| - 1].value != [] ==> ValuesIn(Seen(ads), kind) == ValuesIn(ads, kind)
    ensures ads != [] && ads[|ads| - 1].value == [] ==>
              var n := |ads| - 1;
              ValuesIn(Seen(ads), kind) == ValuesIn(ads[..n], kind)
              && ValuesIn(ads, kind) == ValuesIn(ads[..n], kind) + if ads[n].kind == kind then [[]] else []
  {
    if ads != [] {
      ValuesSplit(ads, |ads| - 1, kind);
      assert ads[|ads|..] == [];
    }
  }

  /** The name read is the first complete name, or else the last shortened one, if and only if no empty last name is hidden. */
  lemma NameExactly(ads: seq<Ad>)
    requires Fits(ads)
    ensures NameRead(ads) == NameIn(ValuesIn(ads, COMP_NAME), ValuesIn(ads, INCOMP_NAME)) <==> !Hidden(ads)
  {
    ReadValues(ads, COMP_NAME);
    ReadValues(ads, INCOMP_NAME);
    SeenName(ads, COMP_NAME);
    SeenName(ads, INCOMP_NAME);
  }

  /**
   * After any run of setters the name read is the oldest complete name, if one was set
   * and not removed, and otherwise the newest shortened one, if and only if no empty
   * last name is hidden; and none is if every name of the run leaves at least a byte.
   */
  lemma NameAgreement(ops: seq<Op>)
    requires LegalStart(ops)
    ensures Sound([])
    ensures var oks := Returned([], ops);
            NameRead(Run([], ops)) == NameIn(QueueOf([], ops, oks, COMP_NAME), QueueOf([], ops, oks, INCOMP_NAME))
            <==> !Hidden(Run([], ops))
    ensures NamesShow(ops) ==> !Hidden(Run([], ops))
  {
    EmptySound();
    RunQueues([], ops, COMP_NAME);
    RunQueues([], ops, INCOMP_NAME);
    NameExactly(Run([], ops));
    if NamesShow(ops) { NamesShown(ops); }
  }

  lemma NamesShown(ops: seq<Op>)
    requires LegalStart(ops) && NamesShow(ops)
    ensures Sound([]) && !Hidden(Run([], ops))
  {
    EmptySound();
    var ads, oks := Run([], ops), Returned([], ops);
    if Hidden(ads) {
      var kind := ads[|ads| - 1].kind;
      RunQueues([], ops, kind);
      NamesQueued([], ops, oks, kind);
      ValueListed(ads, |ads| - 1);
    }
  }

  // ---- service data ----------------------------------------------------------------------------

  lemma {:induction false} DataSeen(ads: seq<Ad>, kind: Byte)
    requires Sound(ads) && DataWidth(kind) > 0
    ensures ValuesIn(Seen(ads), kind) == ValuesIn(ads, kind)
  {
    forall i | 0 <= i < |ads| && ads[i].kind == kind ensures ads[i].value != [] {
      assert WellTyped(ads[i]);
    }
    SeenValues(ads, kind);
  }

  /** The reader finds all the service data there is. */
  lemma DataRead(ops: seq<Op>, kind: Byte)
    requires LegalStart(ops) && DataWidth(kind) > 0
    ensures Sound([])
    ensures Values(ReadBack(ops), kind) == QueueOf([], ops, Returned([], ops), kind)
  {
    EmptySound();
    RunQueues([], ops, kind);
    var ads := Run([], ops);
    ReadValues(ads, kind);
    DataSeen(ads, kind);
  }

  /** `getServiceData(u)` gives the oldest data set for `u` among those still queued for its width. */
  lemma ServiceDataAgreement(ops: seq<Op>, u: Uuid)
    requires LegalStart(ops) && u != []
    ensures Sound([])
    ensures DataFor(Values(ReadBack(ops), DataKind(|u|)), u)
            == DataFor(QueueOf([], ops, Returned([], ops), DataKind(|u|)), u)
  {
    DataRead(ops, DataKind(|u|));
  }

  /** The queue without the first data of `u`: what setting empty data for `u` is meant to leave. */
  function WithoutFirst(q: seq<seq<Byte>>, u: seq<Byte>): seq<seq<Byte>> {
    if q == [] then []
    else if Starts(q[0], u) then q[1..]
    else [q[0]] + WithoutFirst(q[1..], u)
  }

  lemma {:induction false} PopExactly(q: seq<seq<Byte>>, u: seq<Byte>)
    ensures PopFront(q) == WithoutFirst(q, u) <==> q == [] || Starts(q[0], u)
  {
    if q != [] && !Starts(q[0], u) && PopFront(q) == WithoutFirst(q, u) {
      var rest := WithoutFirst(q[1..], u);
      assert q[1..] == [q[0]] + rest;
      assert q[1..][0] == q[0] && PopFront(q[1..]) == rest;
      PopExactly(q[1..], u);
    }
  }

  lemma EmptyPops(ads: seq<Ad>, u: Uuid, kind: Byte, q: seq<seq<Byte>>)
    requires Sound(ads) && u != [] && kind == DataKind(|u|) && q == ValuesIn(ads, kind)
    ensures ValuesIn(Apply(ads, ServiceData(u, [])).ads, kind) == PopFront(q)
  {
    Queued(ads, ServiceData(u, []), kind);
  }

  /**
   * Setting empty data for a UUID removes the first service data of its width.  That is
   * the UUID's own if and only if it stands first in the queue of that width; otherwise
   * another UUID loses its data, and this one keeps it.
   */
  lemma EmptyDataExactly(ads: seq<Ad>, u: Uuid, q: seq<seq<Byte>>, left: seq<seq<Byte>>)
    requires Sound(ads) && u != [] && q == ValuesIn(ads, DataKind(|u|))
    requires left == ValuesIn(Apply(ads, ServiceData(u, [])).ads, DataKind(|u|))
    ensures left == WithoutFirst(q, u) <==> q == [] || Starts(q[0], u)
    ensures q != [] && !Starts(q[0], u) ==> left == q[1..] && DataFor(left, u) == DataFor(q, u)
  {
    EmptyPops(ads, u, DataKind(|u|), q);
    PopExactly(q, u);
  }

  /** The queue of a type after a run from the start, as a caller could keep it. */
  ghost function KeptQueue(ops: seq<Op>, kind: Byte): seq<seq<Byte>>
    requires LegalStart(ops)
  {
    EmptySound();
    QueueOf([], ops, Returned([], ops), kind)
  }

  lemma KeptRead(ops: seq<Op>, kind: Byte, q: seq<seq<Byte>>)
    requires LegalStart(ops) && DataWidth(kind) > 0 && q == KeptQueue(ops, kind)
    ensures Values(ReadBack(ops), kind) == q
  {
    DataRead(ops, kind);
  }

  lemma KeptPops(ops: seq<Op>, op: Op, kind: Byte, q: seq<seq<Byte>>)
    requires LegalStart(ops) && Popped(op) == Some(kind) && q == KeptQueue(ops, kind) && LegalStart(ops + [op])
    ensures KeptQueue(ops + [op], kind) == PopFront(q)
  {
    EmptySound();
    QueueSnoc([], [], ops, op, kind);
  }

  /** The same after any run of setters, for what the reader finds. */
  lemma EmptyDataAfter(ops: seq<Op>, u: Uuid, q: seq<seq<Byte>>)
    requires LegalStart(ops) && u != [] && q == KeptQueue(ops, DataKind(|u|))
    ensures LegalStart(ops + [ServiceData(u, [])])
    ensures Values(ReadBack(ops + [ServiceData(u, [])]), DataKind(|u|)) == WithoutFirst(q, u)
            <==> q == [] || Starts(q[0], u)
  {
    var kind, op := DataKind(|u|), ServiceData(u, []);
    EmptySound();
    LegalSnoc([], ops, op);
    KeptPops(ops, op, kind, q);
    KeptRead(ops + [op], kind, PopFront(q));
    PopExactly(q, u);
  }

  lemma {:induction false} QueueSnoc(ads: seq<Ad>, q: seq<seq<Byte>>, ops: seq<Op>, op: Op, kind: Byte)
    requires Sound(ads) && Popped(op) == Some(kind) && LegalRun(ads, ops) && LegalRun(ads, ops + [op])
    ensures QueueOf(q, ops + [op], Returned(ads, ops + [op]), kind) == PopFront(QueueOf(q, ops, Returned(ads, ops), kind))
    decreases |ops|
  {
    if ops == [] {
      assert ops + [op] == [op] && [op][1..] == [];
    } else {
      ApplySound(ads, ops[0]);
      var r := Apply(ads, ops[0]);
      assert (ops + [op])[1..] == ops[1..] + [op];
      QueueSnoc(r.ads, Enqueue(q, ops[0], r.ok, kind), ops[1..], op, kind);
    }
  }

  /** A payload where it does not: `u` keeps its data and `t` loses its own. */
  lemma EmptyDataRemovesAnother(t: Uuid, u: Uuid, x: Byte, y: Byte)
    requires |t| == |u| == 2 && t != u
    ensures var ads := [Ad(SVC_DATA16, t + [x]), Ad(SVC_DATA16, u + [y])];
            Fits(ads) && ServiceDataSet(ads, u, []) == Outcome([Ad(SVC_DATA16, u + [y])], true)
    ensures var left := ValuesIn([Ad(SVC_DATA16, u + [y])], SVC_DATA16); DataFor(left, u) == [y] && DataFor(left, t) == []
  {
    var a, b := Ad(SVC_DATA16, t + [x]), Ad(SVC_DATA16, u + [y]);
    assert First([a, b], SVC_DATA16) == 0 && Removed([a, b], 0) == [b];
    ValuesOne(b, SVC_DATA16);
    OneDatum(u, [y], t);
  }

  lemma OneDatum(u: seq<Byte>, d: seq<Byte>, t: seq<Byte>)
    requires |t| == |u| && t != u
    ensures DataFor([u + d], u) == d && DataFor([u + d], t) == []
  {
    assert (u + d)[..|u|] == u && (u + d)[|u|..] == d;
    assert [u + d][1..] == [];
  }

  // ---- fixed fields -----------------------------------------------------------------------------------

  function FromLe16(v: seq<Byte>): nat
    requires |v| == 2
  {
    v[0] + 256 * (v[1] as int)
  }

  /** The interval range is within the bounds of the specification, in order, and as given if that is so already. */
  lemma ParamsInRange(minItvl: UInt16, maxItvl: UInt16)
    ensures var v := ParamsAd(minItvl, maxItvl).value;
            |v| == 4 && 0x6 <= FromLe16(v[..2]) <= FromLe16(v[2..]) <= 0xC80
            && (0x6 <= minItvl <= maxItvl <= 0xC80 ==> FromLe16(v[..2]) == minItvl && FromLe16(v[2..]) == maxItvl)
  {}

  /** The appearance set first is the appearance read. */
  lemma AppearanceReads(ads: seq<Ad>, v: UInt16)
    requires Sound(ads) && v != 0 && AppearanceSet(ads, v).ok && ValuesIn(ads, APPEARANCE) == []
    ensures Fits(AppearanceSet(ads, v).ads)
    ensures var r := FirstOr(Values(Fields(Encode(AppearanceSet(ads, v).ads), 0), APPEARANCE)); |r| == 2 && FromLe16(r) == v
  {
    AppearanceSound(ads, v);
    AppearanceQueued(ads, v, APPEARANCE);
    ReadValues(AppearanceSet(ads, v).ads, APPEARANCE);
  }
}
