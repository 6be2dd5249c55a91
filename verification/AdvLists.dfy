/**
 * The service UUID lists, from both sides: after any run of setters without
 * `setServices` the reader's numbering runs through the UUIDs added and not removed.
 */
module AdvLists {
  import opened Base
  import opened BleUuid
  import opened AdvFormat
  import opened AdvWriterSpec
  import opened AdvReaderSpec
  import opened AdvFields
  import opened AdvAgreement

  // ---- the UUIDs in a list of structures -----------------------------------------------------------

  /** The UUIDs of all the lists of one type. */
  function ListOf(kind: Byte): Ad -> seq<Uuid>
    requires ListWidth(kind) > 0
  {
    (a: Ad) => if a.kind == kind then Chunks(a.value, ListWidth(kind)) else []
  }

  function ListedIn(ads: seq<Ad>, kind: Byte): seq<Uuid>
    requires ListWidth(kind) > 0
  {
    FlatMap(ads, ListOf(kind))
  }

  lemma {:induction false} ListedLaid(ads: seq<Ad>, at: nat, kind: Byte)
    requires ListWidth(kind) > 0
    ensures Listed(Laid(ads, at), kind) == ListedIn(ads, kind)
  {
    if ads != [] { ListedLaid(ads[1..], at + |ads[0].value| + 2, kind); }
  }

  lemma ListedConcat(a: seq<Ad>, b: seq<Ad>, kind: Byte)
    requires ListWidth(kind) > 0
    ensures ListedIn(a + b, kind) == ListedIn(a, kind) + ListedIn(b, kind)
  {
    FlatMapConcat(a, b, ListOf(kind));
  }

  lemma ListedOne(a: Ad, kind: Byte)
    requires ListWidth(kind) > 0
    ensures ListedIn([a], kind) == if a.kind == kind then Chunks(a.value, ListWidth(kind)) else []
  {
    FlatMapOne(a, ListOf(kind));
  }

  lemma SeenListed(ads: seq<Ad>, kind: Byte)
    requires ListWidth(kind) > 0
    ensures ListedIn(Seen(ads), kind) == ListedIn(ads, kind)
  {
    if ads != [] && ads[|ads| - 1].value == [] {
      var n := |ads| - 1;
      assert ads == ads[..n] + [ads[n]];
      ListedConcat(ads[..n], [ads[n]], kind);
      ListedOne(ads[n], kind);
    }
  }

  /** The lists a reader finds in an encoded payload are those that were written. */
  lemma ReadListed(ads: seq<Ad>, kind: Byte)
    requires Fits(ads) && ListWidth(kind) > 0
    ensures Listed(Fields(Encode(ads), 0), kind) == ListedIn(ads, kind)
  {
    ReadsBack(ads);
    ListedLaid(Seen(ads), 0, kind);
    SeenListed(ads, kind);
  }

  lemma ListedSplit(ads: seq<Ad>, k: nat, a: Ad, kind: Byte)
    requires k < |ads| && ListWidth(kind) > 0
    ensures var own := if a.kind == kind then Chunks(a.value, ListWidth(kind)) else [];
            ListedIn(ads[k := a], kind) == ListedIn(ads[..k], kind) + own + ListedIn(ads[k + 1..], kind)
  {
    assert ads[k := a] == ads[..k] + [a] + ads[k + 1..];
    ListedConcat(ads[..k] + [a], ads[k + 1..], kind);
    ListedConcat(ads[..k], [a], kind);
    ListedOne(a, kind);
  }

  lemma ChunkCons(v: seq<Byte>, w: nat)
    requires (w == 2 || w == 4 || w == 16) && |v| >= w
    ensures Chunks(v, w) == [v[..w]] + Chunks(v[w..], w)
  {}

  lemma {:induction false} ChunkAdded(v: seq<Byte>, u: seq<Byte>)
    requires (|u| == 2 || |u| == 4 || |u| == 16) && |v| % |u| == 0
    ensures Chunks(v + u, |u|) == Chunks(v, |u|) + [u]
    decreases |v|
  {
    var w, l := |u|, v + u;
    ChunkCons(l, w);
    if |v| < w {
      assert v == [] && l == u && u[..w] == u && u[w..] == [];
    } else {
      ChunkCons(v, w);
      DivStep(|v|, w);
      ChunkAdded(v[w..], u);
      assert l[..w] == v[..w] && l[w..] == v[w..] + u;
    }
  }

  lemma CreatedListed(ads: seq<Ad>, x: Ad, u: Uuid, kind: Byte)
    requires u != [] && ListWidth(kind) > 0 && x == Ad(ListKind(|u|), u)
    ensures ListedIn(ads + [x], kind) == ListedIn(ads, kind) + if kind == ListKind(|u|) then [u] else []
  {
    ListedConcat(ads, [x], kind);
    ListedOne(x, kind);
    ChunkAdded([], u);
    assert [] + u == u;
  }

  lemma ListedAround(ads: seq<Ad>, k: nat, kind: Byte)
    requires k < |ads| && ListWidth(kind) > 0
    ensures var own := if ads[k].kind == kind then Chunks(ads[k].value, ListWidth(kind)) else [];
            ListedIn(ads, kind) == ListedIn(ads[..k], kind) + own + ListedIn(ads[k + 1..], kind)
  {
    ListedSplit(ads, k, ads[k], kind);
    assert ads[k := ads[k]] == ads;
  }

  lemma Insertion<T>(a: seq<T>, b: seq<T>, x: seq<T>, c: seq<T>)
    ensures a + (b + x) + c == a + b + x + c
  {}

  lemma ExtendedListed(ads: seq<Ad>, k: nat, x: Ad, u: Uuid, kind: Byte) returns (a: seq<Uuid>, b: seq<Uuid>)
    requires k < |ads| && u != [] && ads[k].kind == ListKind(|u|) && |ads[k].value| % |u| == 0
    requires ListWidth(kind) > 0 && x == Ad(ads[k].kind, ads[k].value + u)
    ensures ListedIn(ads, kind) == a + b
    ensures ListedIn(ads[k := x], kind) == a + (if kind == ListKind(|u|) then [u] else []) + b
  {
    ListedSplit(ads, k, x, kind);
    ListedAround(ads, k, kind);
    ChunkAdded(ads[k].value, u);
    var front, more := ListedIn(ads[..k], kind), if kind == ListKind(|u|) then [u] else [];
    var own: seq<Uuid> := if ads[k].kind == kind then Chunks(ads[k].value, ListWidth(kind)) else [];
    b := ListedIn(ads[k + 1..], kind);
    Insertion(front, own, more, b);
    a := front + own;
  }

  /**
   * `addServiceUUID` adds one entry, the UUID, to the lists of its own complete type,
   * and touches no other list.
   */
  lemma UuidAddedListed(ads: seq<Ad>, u: Uuid, kind: Byte) returns (a: seq<Uuid>, b: seq<Uuid>)
    requires Sound(ads) && UuidAdded(ads, u).ok && ListWidth(kind) > 0
    ensures u != [] && ListedIn(ads, kind) == a + b
    ensures ListedIn(UuidAdded(ads, u).ads, kind) == a + (if kind == ListKind(|u|) then [u] else []) + b
  {
    AddedShape(ads, u);
    var k := First(ads, ListKind(|u|));
    if k == |ads| {
      CreatedListed(ads, Ad(ListKind(|u|), u), u, kind);
      a, b := ListedIn(ads, kind), [];
    } else {
      AlignedList(ads, u, k);
      a, b := ExtendedListed(ads, k, Ad(ads[k].kind, ads[k].value + u), u, kind);
    }
  }

  lemma {:induction false} NoneListed(ads: seq<Ad>, kind: Byte)
    requires ListWidth(kind) > 0 && forall i :: 0 <= i < |ads| ==> ads[i].kind != kind
    ensures ListedIn(ads, kind) == []
  {
    if ads != [] { NoneListed(ads[1..], kind); }
  }

  // ---- one list of a type --------------------------------------------------------------------------

  /** At most one list of each type, as `addServiceUUID` keeps it. */
  predicate OneList(ads: seq<Ad>) {
    forall i, j :: 0 <= i < j < |ads| && ads[i].kind == ads[j].kind ==> ListWidth(ads[i].kind) == 0
  }

  lemma OneOther(ads: seq<Ad>, a: Ad)
    requires Fits(ads) && OneList(ads) && ListWidth(a.kind) == 0
    ensures OneList(Appended(ads, a).ads)
  {
    OneAppended(ads, a);
  }

  lemma OneAppended(ads: seq<Ad>, a: Ad)
    requires Fits(ads) && OneList(ads) && (ListWidth(a.kind) > 0 ==> First(ads, a.kind) == |ads|)
    ensures OneList(Appended(ads, a).ads)
  {
    var r := ads + [a];
    forall i, j | 0 <= i < j < |r| && r[i].kind == r[j].kind ensures ListWidth(r[i].kind) == 0 {
      assert r[i] == ads[i];
      if j < |ads| { assert r[j] == ads[j]; }
    }
  }

  lemma OneRemoved(ads: seq<Ad>, k: nat)
    requires OneList(ads) && k < |ads|
    ensures OneList(Removed(ads, k))
  {
    var r := Removed(ads, k);
    forall i, j | 0 <= i < j < |r| && r[i].kind == r[j].kind ensures ListWidth(r[i].kind) == 0 {
      var i', j' := if i < k then i else i + 1, if j < k then j else j + 1;
      assert r[i] == ads[i'] && r[j] == ads[j'];
    }
  }

  lemma OneDropped(ads: seq<Ad>, kind: Byte)
    requires OneList(ads)
    ensures OneList(Dropped(ads, kind).ads)
  {
    if First(ads, kind) < |ads| { OneRemoved(ads, First(ads, kind)); }
  }

  lemma OneReplaced(ads: seq<Ad>, k: nat, a: Ad)
    requires OneList(ads) && k < |ads| && a.kind == ads[k].kind
    ensures OneList(ads[k := a])
  {}

  lemma OneAdded(ads: seq<Ad>, u: Uuid)
    requires Sound(ads) && OneList(ads)
    ensures OneList(UuidAdded(ads, u).ads)
  {
    if UuidAdded(ads, u).ok {
      AddedShape(ads, u);
      var k := First(ads, ListKind(|u|));
      if k == |ads| {
        OneAppended(ads, Ad(ListKind(|u|), u));
      } else {
        OneReplaced(ads, k, Ad(ads[k].kind, ads[k].value + u));
      }
    }
  }

  lemma OneCut(ads: seq<Ad>, k: nat, u: seq<Byte>)
    requires OneList(ads) && k < |ads| && |u| > 0
    ensures OneList(CutFrom(ads, k, u).ads)
  {
    var v := ads[k].value;
    OneRemoved(ads, k);
    match IndexIn(v, u, 0)
    case None =>
    case Some(i) =>
      CutFromAt(ads, k, u, v, i);
      OneReplaced(ads, k, Ad(ads[k].kind, v[..i] + v[i + |u|..]));
  }

  lemma OneRemovedUuid(ads: seq<Ad>, u: Uuid)
    requires OneList(ads)
    ensures OneList(UuidRemoved(ads, u).ads)
  {
    if |u| != 0 && First(ads, ListKind(|u|)) < |ads| { OneCut(ads, First(ads, ListKind(|u|)), u); }
  }

  lemma OneFlags(ads: seq<Ad>, f: Byte)
    requires Sound(ads) && OneList(ads)
    ensures OneList(FlagsSet(ads, f).ads)
  {
    var k, a := First(ads, FLAGS), Ad(FLAGS, [WithBredr(f)]);
    OneDropped(ads, FLAGS);
    OneAppended(ads, a);
    if k < |ads| { OneReplaced(ads, k, a); }
  }

  lemma OneData(ads: seq<Ad>, u: Uuid, d: seq<Byte>)
    requires Fits(ads) && OneList(ads)
    ensures OneList(ServiceDataSet(ads, u, d).ads)
  {
    if u != [] {
      OneDropped(ads, DataKind(|u|));
      OneAppended(ads, Ad(DataKind(|u|), u + d));
    }
  }

  lemma OneAppending(ads: seq<Ad>, op: Op)
    requires Sound(ads) && OneList(ads) && LegalOp(ads, op)
    requires op.TxPower? || op.PreferredParams? || op.ManufacturerData? || op.SetUri? || op.Name?
    ensures OneList(Apply(ads, op).ads)
  {
    match op
    case TxPower(p) => OneOther(ads, Ad(TX_POWER, [p]));
    case PreferredParams(lo, hi) => OneOther(ads, ParamsAd(lo, hi));
    case ManufacturerData(d) => OneOther(ads, Ad(MFG_DATA, d));
    case SetUri(d) => OneOther(ads, Ad(URI, d));
    case Name(n, complete) => OneOther(ads, NameAd(n, complete));
  }

  lemma OneAppearance(ads: seq<Ad>, v: UInt16)
    requires Sound(ads) && OneList(ads)
    ensures OneList(AppearanceSet(ads, v).ads)
  {
    OneDropped(ads, APPEARANCE);
    OneOther(ads, Ad(APPEARANCE, Le16(v)));
  }

  lemma OneStep(ads: seq<Ad>, op: Op)
    requires Sound(ads) && OneList(ads) && LegalOp(ads, op) && !op.Services?
    ensures OneList(Apply(ads, op).ads)
  {
    match op
    case Appearance(v) => OneAppearance(ads, v);
    case Flags(f) => OneFlags(ads, f);
    case AddUuid(u) => OneAdded(ads, u);
    case RemoveUuid(u) => OneRemovedUuid(ads, u);
    case ServiceData(u, d) => OneData(ads, u, d);
    case Remove(kind) => OneDropped(ads, kind);
    case _ => OneAppending(ads, op);
  }

  // ---- what each setter does to the list of a type ---------------------------------------------------

  lemma AppendedElsewhere(ads: seq<Ad>, a: Ad, kind: Byte)
    requires Fits(ads) && |a.value| <= 254 && ListWidth(kind) > 0 && a.kind != kind
    ensures ListedIn(Appended(ads, a).ads, kind) == ListedIn(ads, kind)
  {
    ListedConcat(ads, [a], kind);
    ListedOne(a, kind);
  }

  lemma ListedRemoved(ads: seq<Ad>, k: nat, kind: Byte)
    requires k < |ads| && ListWidth(kind) > 0
    ensures ListedIn(Removed(ads, k), kind) == ListedIn(ads[..k], kind) + ListedIn(ads[k + 1..], kind)
  {
    ListedConcat(ads[..k], ads[k + 1..], kind);
  }

  lemma DroppedElsewhere(ads: seq<Ad>, dropped: Byte, kind: Byte)
    requires ListWidth(kind) > 0 && dropped != kind
    ensures ListedIn(Dropped(ads, dropped).ads, kind) == ListedIn(ads, kind)
  {
    var k := First(ads, dropped);
    if k < |ads| {
      ListedAround(ads, k, kind);
      ListedRemoved(ads, k, kind);
    }
  }

  lemma ReplacedOther(ads: seq<Ad>, k: nat, a: Ad, kind: Byte)
    requires k < |ads| && ListWidth(kind) > 0 && ads[k].kind != kind && a.kind != kind
    ensures ListedIn(ads[k := a], kind) == ListedIn(ads, kind)
  {
    ListedAround(ads, k, kind);
    ListedSplit(ads, k, a, kind);
  }

  lemma NoneAround(ads: seq<Ad>, k: nat, kind: Byte)
    requires OneList(ads) && k < |ads| && ListWidth(kind) > 0 && k == First(ads, kind)
    ensures ListedIn(ads[..k], kind) == [] && ListedIn(ads[k + 1..], kind) == []
  {
    NoneListed(ads[..k], kind);
    var back := ads[k + 1..];
    forall i | 0 <= i < |back| ensures back[i].kind != kind { assert back[i] == ads[k + 1 + i]; }
    NoneListed(back, kind);
  }

  /** The only list of a type is all there is of it. */
  lemma OnlyList(ads: seq<Ad>, k: nat, a: Ad, kind: Byte)
    requires OneList(ads) && k < |ads| && ListWidth(kind) > 0 && k == First(ads, kind) && a.kind == kind
    ensures ListedIn(ads, kind) == Chunks(ads[k].value, ListWidth(kind))
    ensures ListedIn(ads[k := a], kind) == Chunks(a.value, ListWidth(kind))
    ensures ListedIn(Removed(ads, k), kind) == []
  {
    NoneAround(ads, k, kind);
    ListedAround(ads, k, kind);
    ListedSplit(ads, k, a, kind);
    ListedRemoved(ads, k, kind);
  }

  /** The list without the first entry that is `u`. */
  function WithoutUuid(l: seq<Uuid>, u: Uuid): seq<Uuid> {
    if l == [] then [] else if l[0] == u then l[1..] else [l[0]] + WithoutUuid(l[1..], u)
  }

  lemma HereIs(v: seq<Byte>, i: nat, u: seq<Byte>)
    requires i + |u| <= |v|
    ensures Here(v, i, u) <==> v[i..][..|u|] == u
  {
    if Here(v, i, u) { assert v[i..][..|u|] == u; }
    if v[i..][..|u|] == u {
      forall k | 0 <= k < |u| ensures v[i + k] == u[k] { assert v[i..][..|u|][k] == v[i + k]; }
    }
  }

  lemma WithoutStep(x: Uuid, t: seq<Uuid>, u: Uuid)
    ensures WithoutUuid([x] + t, u) == if x == u then t else [x] + WithoutUuid(t, u)
  {
    assert ([x] + t)[1..] == t;
  }

  /** The entry at `i` and those behind it. */
  lemma ChunkHead(v: seq<Byte>, w: nat, i: nat)
    requires (w == 2 || w == 4 || w == 16) && i + w <= |v|
    ensures |v[i..][..w]| == w && Chunks(v[i..], w) == [v[i..][..w]] + Chunks(v[i + w..], w)
  {
    ChunkCons(v[i..], w);
    assert v[i..][w..] == v[i + w..];
  }

  lemma {:induction false} ChunkKept(v: seq<Byte>, u: Uuid, i: nat)
    requires u != [] && i <= |v| && (|v| - i) % |u| == 0 && IndexIn(v, u, i).None?
    ensures WithoutUuid(Chunks(v[i..], |u|), u) == Chunks(v[i..], |u|)
    decreases |v| - i
  {
    var w := |u|;
    if i == |v| {
      assert Chunks(v[i..], w) == [];
    } else {
      AtLeastOne(|v| - i, w);
      ChunkHead(v, w, i);
      HereIs(v, i, u);
      WithoutStep(v[i..][..w], Chunks(v[i + w..], w), u);
      ChunkKept(v, u, i + w);
    }
  }

  lemma CutTail(v: seq<Byte>, w: nat, i: nat, j: nat)
    requires (w == 2 || w == 4 || w == 16) && i + w <= j && j + w <= |v|
    ensures Chunks(v[i..j] + v[j + w..], w) == [v[i..][..w]] + Chunks(v[i + w..j] + v[j + w..], w)
  {
    var l := v[i..j] + v[j + w..];
    ChunkCons(l, w);
    assert l[..w] == v[i..][..w] && l[w..] == v[i + w..j] + v[j + w..];
  }

  lemma CutHere(v: seq<Byte>, u: Uuid, i: nat)
    requires u != [] && i + |u| <= |v| && Here(v, i, u)
    ensures WithoutUuid(Chunks(v[i..], |u|), u) == Chunks(v[i..i] + v[i + |u|..], |u|)
  {
    ChunkHead(v, |u|, i);
    HereIs(v, i, u);
    WithoutStep(u, Chunks(v[i + |u|..], |u|), u);
    assert v[i..i] + v[i + |u|..] == v[i + |u|..];
  }

  lemma CutLater(v: seq<Byte>, u: Uuid, i: nat, j: nat, rest: seq<Uuid>, cut: seq<Uuid>)
    requires u != [] && i + |u| <= j && j + |u| <= |v| && !Here(v, i, u)
    requires rest == Chunks(v[i + |u|..], |u|) && cut == Chunks(v[i + |u|..j] + v[j + |u|..], |u|)
    requires WithoutUuid(rest, u) == cut
    ensures WithoutUuid(Chunks(v[i..], |u|), u) == Chunks(v[i..j] + v[j + |u|..], |u|)
  {
    ChunkHead(v, |u|, i);
    HereIs(v, i, u);
    WithoutStep(v[i..][..|u|], rest, u);
    CutTail(v, |u|, i, j);
  }

  /** Cutting an entry out of the bytes is taking it out of the list. */
  lemma {:induction false} ChunkCut(v: seq<Byte>, u: Uuid, i: nat, j: nat)
    requires u != [] && i <= |v| && IndexIn(v, u, i) == Some(j) && i <= j && j + |u| <= |v|
    ensures WithoutUuid(Chunks(v[i..], |u|), u) == Chunks(v[i..j] + v[j + |u|..], |u|)
    decreases |v| - i
  {
    if Here(v, i, u) {
      CutHere(v, u, i);
    } else {
      ChunkCut(v, u, i + |u|, j);
      CutLater(v, u, i, j, Chunks(v[i + |u|..], |u|), Chunks(v[i + |u|..j] + v[j + |u|..], |u|));
    }
  }

  /** What a setter makes of the list of complete or partial UUIDs of a type. */
  function Relisted(l: seq<Uuid>, op: Op, ok: bool, kind: Byte): seq<Uuid> {
    match op
    case AddUuid(u) => if ok && u != [] && ListKind(|u|) == kind then l + [u] else l
    case RemoveUuid(u) => if u != [] && ListKind(|u|) == kind then WithoutUuid(l, u) else l
    case Remove(k) => if k == kind then [] else l
    case _ => l
  }

  lemma AddRelists(ads: seq<Ad>, u: Uuid, kind: Byte)
    requires Sound(ads) && OneList(ads) && ListWidth(kind) > 0
    ensures var r := UuidAdded(ads, u); ListedIn(r.ads, kind) == Relisted(ListedIn(ads, kind), AddUuid(u), r.ok, kind)
  {
    if UuidAdded(ads, u).ok {
      AddedShape(ads, u);
      var own := ListKind(|u|);
      var k := First(ads, own);
      if k == |ads| {
        CreatedListed(ads, Ad(own, u), u, kind);
      } else if kind != own {
        ReplacedOther(ads, k, Ad(own, ads[k].value + u), kind);
      } else {
        AlignedList(ads, u, k);
        OnlyList(ads, k, Ad(own, ads[k].value + u), kind);
        ChunkAdded(ads[k].value, u);
      }
    }
  }

  lemma CutRelistsAt(ads: seq<Ad>, k: nat, u: Uuid, v: seq<Byte>, kind: Byte, i: nat)
    requires OneList(ads) && u != [] && kind == ListKind(|u|) && k < |ads| && k == First(ads, kind)
    requires v == ads[k].value && IndexIn(v, u, 0) == Some(i) && i + |u| <= |v|
    ensures ListedIn(CutFrom(ads, k, u).ads, kind) == Chunks(v[..i] + v[i + |u|..], |u|)
  {
    var left := v[..i] + v[i + |u|..];
    CutFromAt(ads, k, u, v, i);
    OnlyList(ads, k, Ad(kind, left), kind);
    if |v| == |u| { assert left == [] && Chunks(left, |u|) == []; }
  }

  lemma CutRelists(ads: seq<Ad>, k: nat, u: Uuid, v: seq<Byte>, kind: Byte)
    requires OneList(ads) && u != [] && kind == ListKind(|u|) && k < |ads| && k == First(ads, kind)
    requires v == ads[k].value && |v| % |u| == 0
    ensures ListedIn(CutFrom(ads, k, u).ads, kind) == WithoutUuid(ListedIn(ads, kind), u)
  {
    var l := Chunks(v, |u|);
    OnlyList(ads, k, ads[k], kind);
    match IndexIn(v, u, 0)
    case None => ChunksKept(v, u, l);
    case Some(i) =>
      ChunksCut(v, u, i, l);
      CutRelistsAt(ads, k, u, v, kind, i);
  }

  lemma ChunksKept(v: seq<Byte>, u: Uuid, l: seq<Uuid>)
    requires u != [] && |v| % |u| == 0 && IndexIn(v, u, 0).None? && l == Chunks(v, |u|)
    ensures WithoutUuid(l, u) == l
  {
    assert v[0..] == v;
    ChunkKept(v, u, 0);
  }

  lemma ChunksCut(v: seq<Byte>, u: Uuid, i: nat, l: seq<Uuid>)
    requires u != [] && IndexIn(v, u, 0) == Some(i) && i + |u| <= |v| && l == Chunks(v, |u|)
    ensures WithoutUuid(l, u) == Chunks(v[..i] + v[i + |u|..], |u|)
  {
    assert v[0..] == v && v[0..i] == v[..i];
    ChunkCut(v, u, 0, i);
  }

  lemma CutOther(ads: seq<Ad>, k: nat, u: seq<Byte>, kind: Byte)
    requires k < |ads| && |u| > 0 && ads[k].kind != kind && ListWidth(kind) > 0
    ensures ListedIn(CutFrom(ads, k, u).ads, kind) == ListedIn(ads, kind)
  {
    var v := ads[k].value;
    match IndexIn(v, u, 0)
    case None =>
    case Some(i) =>
      CutFromAt(ads, k, u, v, i);
      ListedAround(ads, k, kind);
      ListedRemoved(ads, k, kind);
      ReplacedOther(ads, k, Ad(ads[k].kind, v[..i] + v[i + |u|..]), kind);
  }

  lemma RemoveRelists(ads: seq<Ad>, u: Uuid, kind: Byte)
    requires Sound(ads) && OneList(ads) && ListWidth(kind) > 0
    ensures ListedIn(UuidRemoved(ads, u).ads, kind) == Relisted(ListedIn(ads, kind), RemoveUuid(u), true, kind)
  {
    if |u| != 0 {
      var own := ListKind(|u|);
      var k := First(ads, own);
      if k == |ads| {
        if kind == own { NoneListed(ads, kind); }
      } else {
        RemovedShape(ads, u, k);
        if kind == own {
          AlignedList(ads, u, k);
          CutRelists(ads, k, u, ads[k].value, kind);
        } else {
          CutOther(ads, k, u, kind);
        }
      }
    }
  }

  lemma DropRelists(ads: seq<Ad>, dropped: Byte, kind: Byte)
    requires OneList(ads) && ListWidth(kind) > 0
    ensures ListedIn(Dropped(ads, dropped).ads, kind) == if dropped == kind then [] else ListedIn(ads, kind)
  {
    var k := First(ads, kind);
    if dropped != kind {
      DroppedElsewhere(ads, dropped, kind);
    } else if k == |ads| {
      NoneListed(ads, kind);
    } else {
      OnlyList(ads, k, ads[k], kind);
    }
  }

  lemma FlagsRelist(ads: seq<Ad>, f: Byte, kind: Byte)
    requires Sound(ads) && ListWidth(kind) > 0
    ensures ListedIn(FlagsSet(ads, f).ads, kind) == ListedIn(ads, kind)
  {
    var k := First(ads, FLAGS);
    if k == |ads| {
      AppendedElsewhere(ads, Ad(FLAGS, [WithBredr(f)]), kind);
    } else if f == 0 {
      DroppedElsewhere(ads, FLAGS, kind);
    } else {
      ReplacedOther(ads, k, Ad(FLAGS, [WithBredr(f)]), kind);
    }
  }

  /** The setters that append a structure of a type that is no list, or take one away. */
  lemma OtherRelists(ads: seq<Ad>, op: Op, kind: Byte)
    requires Sound(ads) && ListWidth(kind) > 0 && LegalOp(ads, op)
    requires !op.AddUuid? && !op.RemoveUuid? && !op.Remove? && !op.Services?
    ensures ListedIn(Apply(ads, op).ads, kind) == ListedIn(ads, kind)
  {
    match op
    case Appearance(v) => DroppedElsewhere(ads, APPEARANCE, kind); AppendedElsewhere(ads, Ad(APPEARANCE, Le16(v)), kind);
    case Flags(f) => FlagsRelist(ads, f, kind);
    case TxPower(p) => AppendedElsewhere(ads, Ad(TX_POWER, [p]), kind);
    case PreferredParams(lo, hi) => AppendedElsewhere(ads, ParamsAd(lo, hi), kind);
    case ManufacturerData(d) => if |d| <= MAX_FIELD { AppendedElsewhere(ads, Ad(MFG_DATA, d), kind); }
    case SetUri(d) => if |d| <= MAX_FIELD { AppendedElsewhere(ads, Ad(URI, d), kind); }
    case Name(n, complete) => AppendedElsewhere(ads, NameAd(n, complete), kind);
    case ServiceData(u, d) =>
      if 2 + |u| + |d| <= MAX_SIZE && u != [] {
        DroppedElsewhere(ads, DataKind(|u|), kind);
        AppendedElsewhere(ads, Ad(DataKind(|u|), u + d), kind);
      }
  }

  lemma Relists(ads: seq<Ad>, op: Op, kind: Byte)
    requires Sound(ads) && OneList(ads) && ListWidth(kind) > 0 && LegalOp(ads, op) && !op.Services?
    ensures var r := Apply(ads, op); ListedIn(r.ads, kind) == Relisted(ListedIn(ads, kind), op, r.ok, kind)
  {
    match op
    case AddUuid(u) => AddRelists(ads, u, kind);
    case RemoveUuid(u) => RemoveRelists(ads, u, kind);
    case Remove(k) => DropRelists(ads, k, kind);
    case _ => OtherRelists(ads, op, kind);
  }

  // ---- whole runs ------------------------------------------------------------------------------------

  predicate NoServices(ops: seq<Op>) { forall i :: 0 <= i < |ops| ==> !ops[i].Services? }

  /** The list of a type as a caller could keep it, from the calls and what they returned. */
  function Kept(l: seq<Uuid>, ops: seq<Op>, oks: seq<bool>, kind: Byte): seq<Uuid>
    requires |ops| == |oks|
    decreases |ops|
  {
    if ops == [] then l else Kept(Relisted(l, ops[0], oks[0], kind), ops[1..], oks[1..], kind)
  }

  lemma {:induction false} RunRelists(ads: seq<Ad>, ops: seq<Op>, kind: Byte)
    requires Sound(ads) && OneList(ads) && ListWidth(kind) > 0 && LegalRun(ads, ops) && NoServices(ops)
    ensures OneList(Run(ads, ops))
    ensures ListedIn(Run(ads, ops), kind) == Kept(ListedIn(ads, kind), ops, Returned(ads, ops), kind)
    decreases |ops|
  {
    if ops != [] {
      ApplySound(ads, ops[0]);
      Relists(ads, ops[0], kind);
      OneStep(ads, ops[0]);
      assert forall i :: 0 <= i < |ops| - 1 ==> ops[1..][i] == ops[i + 1];
      RunRelists(Apply(ads, ops[0]).ads, ops[1..], kind);
    }
  }

  /** Only `setServices` writes partial lists. */
  lemma {:induction false} NoPartial(ops: seq<Op>, oks: seq<bool>, kind: Byte)
    requires |ops| == |oks| && (kind == INCOMP_UUIDS16 || kind == INCOMP_UUIDS32 || kind == INCOMP_UUIDS128)
    ensures Kept([], ops, oks, kind) == []
    decreases |ops|
  {
    if ops != [] { NoPartial(ops[1..], oks[1..], kind); }
  }

  // ---- what the reader makes of it ---------------------------------------------------------------------

  lemma {:induction false} LaidIs(ads: seq<Ad>, at: nat)
    ensures |Laid(ads, at)| == |ads|
    ensures forall k :: 0 <= k < |ads| ==> Laid(ads, at)[k].kind == ads[k].kind && Laid(ads, at)[k].value == ads[k].value
  {
    if ads != [] {
      LaidIs(ads[1..], at + |ads[0].value| + 2);
      assert forall k :: 1 <= k < |ads| ==> Laid(ads, at)[k] == Laid(ads[1..], at + |ads[0].value| + 2)[k - 1];
    }
  }

  /** The fields of a written payload, one for each structure seen. */
  lemma FieldsAre(ads: seq<Ad>) returns (fs: seq<Field>)
    requires Sound(ads)
    ensures fs == Fields(Encode(ads), 0) && |fs| <= |ads|
    ensures forall k :: 0 <= k < |fs| ==> fs[k].kind == ads[k].kind && fs[k].value == ads[k].value
  {
    ReadsBack(ads);
    LaidIs(Seen(ads), 0);
    fs := Fields(Encode(ads), 0);
  }

  /** Every structure of service data a setter wrote holds its UUID, so `getServiceData` may read it. */
  lemma WrittenWhole(ads: seq<Ad>, width: nat)
    requires Sound(ads) && width > 0
    ensures WholeData(Fields(Encode(ads), 0), width)
  {
    var fs := FieldsAre(ads);
    forall k | 0 <= k < |fs| && DataWidth(fs[k].kind) == width ensures |fs[k].value| >= width {
      assert WellTyped(ads[k]);
    }
  }

  /** With one list of a type, the reader's index arithmetic is exact. */
  lemma WrittenTidy(ads: seq<Ad>)
    requires Sound(ads) && OneList(ads)
    ensures Tidy(Fields(Encode(ads), 0))
  {
    var fs := FieldsAre(ads);
    forall k | 0 <= k < |fs| ensures Aligned(fs[k]) { assert WellTyped(ads[k]); }
    forall k | 0 <= k < |fs| && ListWidth(fs[k].kind) > 0 ensures Total(fs[..k], fs[k].kind) == 0 {
      NoEntries(fs[..k], fs[k].kind);
    }
  }

  /** What a caller could keep from the start of the run. */
  ghost function KeptOf(ops: seq<Op>, kind: Byte): seq<Uuid>
    requires LegalStart(ops)
  {
    EmptySound();
    Kept([], ops, Returned([], ops), kind)
  }

  lemma KeptRead(ops: seq<Op>, fs: seq<Field>, kind: Byte)
    requires LegalStart(ops) && NoServices(ops) && ListWidth(kind) > 0 && fs == ReadBack(ops)
    ensures Listed(fs, kind) == KeptOf(ops, kind)
  {
    EmptySound();
    RunRelists([], ops, kind);
    ReadListed(Run([], ops), kind);
  }

  lemma PartialRead(ops: seq<Op>, fs: seq<Field>, kind: Byte)
    requires LegalStart(ops) && NoServices(ops) && (kind == INCOMP_UUIDS16 || kind == INCOMP_UUIDS32 || kind == INCOMP_UUIDS128)
    requires fs == ReadBack(ops)
    ensures Listed(fs, kind) == []
  {
    KeptRead(ops, fs, kind);
    EmptySound();
    NoPartial(ops, Returned([], ops), kind);
  }

  lemma TidyRead(ops: seq<Op>, fs: seq<Field>)
    requires LegalStart(ops) && NoServices(ops) && fs == ReadBack(ops)
    ensures Tidy(fs)
  {
    EmptySound();
    RunRelists([], ops, COMP_UUIDS16);
    WrittenTidy(Run([], ops));
  }

  lemma UuidsJoined(fs: seq<Field>, a: seq<Uuid>, b: seq<Uuid>, c: seq<Uuid>)
    requires Listed(fs, INCOMP_UUIDS16) == [] && Listed(fs, INCOMP_UUIDS32) == [] && Listed(fs, INCOMP_UUIDS128) == []
    requires Listed(fs, COMP_UUIDS16) == a && Listed(fs, COMP_UUIDS32) == b && Listed(fs, COMP_UUIDS128) == c
    ensures Uuids(fs, INCOMP_UUIDS16) == a + b + c
  {
    UuidsBySort(fs);
  }

  /**
   * Writer/reader agreement for service UUIDs: after any run of setters without
   * `setServices`, the numbering of `getServiceUUID` runs through the UUIDs added and not
   * removed, by width and in the order of adding, and its index arithmetic is exact.
   */
  lemma ServicesAgreement(ops: seq<Op>, fs: seq<Field>)
    requires LegalStart(ops) && NoServices(ops) && fs == ReadBack(ops)
    ensures Tidy(fs)
    ensures Uuids(fs, INCOMP_UUIDS16) == KeptOf(ops, COMP_UUIDS16) + KeptOf(ops, COMP_UUIDS32) + KeptOf(ops, COMP_UUIDS128)
  {
    TidyRead(ops, fs);
    KeptRead(ops, fs, COMP_UUIDS16);
    KeptRead(ops, fs, COMP_UUIDS32);
    KeptRead(ops, fs, COMP_UUIDS128);
    PartialRead(ops, fs, INCOMP_UUIDS16);
    PartialRead(ops, fs, INCOMP_UUIDS32);
    PartialRead(ops, fs, INCOMP_UUIDS128);
    UuidsJoined(fs, KeptOf(ops, COMP_UUIDS16), KeptOf(ops, COMP_UUIDS32), KeptOf(ops, COMP_UUIDS128));
  }

  lemma UuidsBySort(fs: seq<Field>)
    ensures Uuids(fs, INCOMP_UUIDS16)
            == Listed(fs, INCOMP_UUIDS16) + Listed(fs, COMP_UUIDS16) + Listed(fs, INCOMP_UUIDS32)
               + Listed(fs, COMP_UUIDS32) + Listed(fs, INCOMP_UUIDS128) + Listed(fs, COMP_UUIDS128)
  {
    var u7 := Uuids(fs, COMP_UUIDS128);
    var u6 := Uuids(fs, INCOMP_UUIDS128);
    var u5 := Uuids(fs, COMP_UUIDS32);
    var u4 := Uuids(fs, INCOMP_UUIDS32);
    var u3 := Uuids(fs, COMP_UUIDS16);
    assert u7 == Listed(fs, COMP_UUIDS128) + Uuids(fs, COMP_UUIDS128 + 1);
    assert u6 == Listed(fs, INCOMP_UUIDS128) + u7;
    assert u5 == Listed(fs, COMP_UUIDS32) + u6;
    assert u4 == Listed(fs, INCOMP_UUIDS32) + u5;
    assert u3 == Listed(fs, COMP_UUIDS16) + u4;
    assert Uuids(fs, INCOMP_UUIDS16) == Listed(fs, INCOMP_UUIDS16) + u3;
  }

  lemma ListedAdvertised(fs: seq<Field>, kind: Byte, u: Uuid)
    requires INCOMP_UUIDS16 <= kind <= COMP_UUIDS128 && u in Listed(fs, kind) && u != []
    ensures Advertised(Uuids(fs, INCOMP_UUIDS16), u)
  {
    ListedAmong(fs, INCOMP_UUIDS16, kind, u);
    assert Equal(u, u);
  }

  /** What `addServiceUUID` took, the reader finds; and after a run without `setServices`, `isAdvertisingService` says so. */
  lemma AddedIsAdvertised(ops: seq<Op>, u: Uuid)
    requires LegalStart(ops)
    ensures Sound([])
    ensures UuidAdded(Run([], ops), u).ok ==>
              var after := UuidAdded(Run([], ops), u).ads;
              && Fits(after)
              && var fs := Fields(Encode(after), 0);
                 && Advertised(Uuids(fs, INCOMP_UUIDS16), u)
                 && (NoServices(ops) ==> Tidy(fs) && Answers(fs, u))
  {
    EmptySound();
    var ads := Run([], ops);
    if UuidAdded(ads, u).ok {
      AddedIsListed(ads, u);
      UuidAddedSound(ads, u);
      var after := UuidAdded(ads, u).ads;
      if NoServices(ops) {
        RunRelists([], ops, COMP_UUIDS16);
        OneAdded(ads, u);
        WrittenTidy(after);
        AnswersTidy(Fields(Encode(after), 0), u);
      }
    }
  }

  /** An added UUID is among those the reader numbers. */
  lemma AddedIsListed(ads: seq<Ad>, u: Uuid)
    requires Sound(ads) && UuidAdded(ads, u).ok
    ensures Fits(UuidAdded(ads, u).ads) && Advertised(Uuids(Fields(Encode(UuidAdded(ads, u).ads), 0), INCOMP_UUIDS16), u)
  {
    UuidAddedSound(ads, u);
    AddedShape(ads, u);
    var after, kind := UuidAdded(ads, u).ads, ListKind(|u|);
    var a, b := UuidAddedListed(ads, u, kind);
    ReadListed(after, kind);
    assert u in a + [u] + b;
    ListedAdvertised(Fields(Encode(after), 0), kind, u);
  }

  // ---- two lists of a type -------------------------------------------------------------------------------

  lemma LaidTwo(x: Ad, y: Ad)
    ensures Laid([x, y], 0) == [Field(0, x.kind, x.value), Field(|x.value| + 2, y.kind, y.value)]
  {
    assert [x, y][1..] == [y] && [y][1..] == [];
    assert Laid([y], |x.value| + 2) == [Field(|x.value| + 2, y.kind, y.value)];
  }

  lemma TwoEncoded(x: Ad, y: Ad)
    requires |x.value| <= 254 && 0 < |y.value| <= 254
    ensures Encode([x, y]) == One(x) + One(y)
    ensures Fields(Encode([x, y]), 0) == [Field(0, x.kind, x.value), Field(|x.value| + 2, y.kind, y.value)]
  {
    EncodeOne(x);
    EncodeOne(y);
    EncodeConcat([x], [y]);
    assert [x] + [y] == [x, y];
    ReadsBack([x, y]);
    LaidTwo(x, y);
  }

  lemma NotAnswered(fs: seq<Field>, x: Uuid, y: Uuid, u: Uuid)
    requires UuidTotal(fs, INCOMP_UUIDS16) == 3 && !Equal(u, x) && !Equal(u, y)
    requires UuidAt(fs, INCOMP_UUIDS16, 0) == x && UuidAt(fs, INCOMP_UUIDS16, 1) == UuidAt(fs, INCOMP_UUIDS16, 2) == y
    ensures !Answers(fs, u)
  {}

  lemma SecondMissed(a: Byte, b: Byte, c: Byte, fs: seq<Field>)
    requires b != a && b != c && fs == [Field(0, COMP_UUIDS16, [a, 0]), Field(4, COMP_UUIDS16, [b, 0, c, 0])]
    ensures Advertised(Uuids(fs, INCOMP_UUIDS16), [b, 0]) && !Answers(fs, [b, 0])
  {
    LongerSecondListSkips(a, b, c, fs);
    var l := Listed(fs, COMP_UUIDS16);
    assert l[1] == [b, 0];
    ListedAdvertised(fs, COMP_UUIDS16, l[1]);
    NotAnswered(fs, [a, 0], [c, 0], [b, 0]);
  }

  lemma PackedStep(u: Uuid, t: seq<Uuid>, acc: seq<Byte>)
    requires |u| == 2 && |acc| + 4 < MAX_SIZE
    ensures Packed([u] + t, 2, acc) == Packed(t, 2, acc + u)
  {
    assert ([u] + t)[1..] == t;
  }

  /** Two calls of `setServices`: a list each, as they fit. */
  lemma TwoServices(a: Uuid, b: Uuid, c: Uuid, ops: seq<Op>)
    requires |a| == |b| == |c| == 2 && ops == [Services(true, 16, [a]), Services(true, 16, [b, c])]
    ensures LegalStart(ops) && Sound([]) && Run([], ops) == [Ad(COMP_UUIDS16, a), Ad(COMP_UUIDS16, b + c)]
  {
    EmptySound();
    var x, y := Ad(COMP_UUIDS16, a), Ad(COMP_UUIDS16, b + c);
    PackedStep(a, [], []);
    PackedStep(b, [c], []);
    PackedStep(c, [], b);
    assert [a] + [] == [a] && [c] + [] == [c] && [b] + [c] == [b, c] && [] + a == a && [] + b == b;
    EncodeOne(x);
    assert [] + [x] == [x] && [x] + [y] == [x, y];
    assert Apply([], ops[0]).ads == [x];
    ApplySound([], ops[0]);
    assert Apply([x], ops[1]).ads == [x, y];
    ApplySound([x], ops[1]);
    RunCons([x], ops[1], [x, y], []);
    RunCons([], ops[0], [x], [ops[1]]);
    assert [ops[1]] + [] == [ops[1]] && [ops[0]] + [ops[1]] == ops;
  }

  /**
   * So two calls of `setServices`, the second with more UUIDs than the first, make a payload
   * that lists the first UUID of the second call, and `isAdvertisingService` denies it.
   */
  lemma SecondListMissed(a: Byte, b: Byte, c: Byte, ops: seq<Op>)
    requires b != a && b != c && ops == [Services(true, 16, [[a, 0]]), Services(true, 16, [[b, 0], [c, 0]])]
    ensures LegalStart(ops)
    ensures Advertised(Uuids(ReadBack(ops), INCOMP_UUIDS16), [b, 0]) && !Answers(ReadBack(ops), [b, 0])
  {
    TwoServices([a, 0], [b, 0], [c, 0], ops);
    var x, y := Ad(COMP_UUIDS16, [a, 0]), Ad(COMP_UUIDS16, [b, 0, c, 0]);
    assert [b, 0] + [c, 0] == [b, 0, c, 0];
    TwoEncoded(x, y);
    SecondMissed(a, b, c, ReadBack(ops));
  }

  // ---- packed lists --------------------------------------------------------------------------------

  function OfWidth(uuids: seq<Uuid>, w: nat): seq<Uuid> {
    if uuids == [] then [] else (if |uuids[0]| == w then [uuids[0]] else []) + OfWidth(uuids[1..], w)
  }

  lemma OfWidthStep(u: Uuid, t: seq<Uuid>, w: nat)
    ensures OfWidth([u] + t, w) == if |u| == w then [u] + OfWidth(t, w) else OfWidth(t, w)
  {
    assert ([u] + t)[1..] == t;
  }

  /**
   * `setServices` packs the UUIDs of the wanted width in order, as many as leave a byte
   * of the 31 free, and calls the list complete only if that is all of them.
   */
  lemma {:induction false} PackedReads(uuids: seq<Uuid>, w: nat, acc: seq<Byte>)
    requires (w == 2 || w == 4 || w == 16) && |acc| % w == 0 && |acc| + 2 <= 30
    ensures var (v, all) := Packed(uuids, w, acc);
            Chunks(acc, w) <= Chunks(v, w) <= Chunks(acc, w) + OfWidth(uuids, w)
    ensures var (v, all) := Packed(uuids, w, acc);
            && (all <==> Chunks(v, w) == Chunks(acc, w) + OfWidth(uuids, w))
            && (!all ==> |v| + w + 2 >= MAX_SIZE)
  {
    if uuids != [] {
      var u, t := uuids[0], uuids[1..];
      assert uuids == [u] + t;
      OfWidthStep(u, t, w);
      if |u| != w {
        PackedReads(t, w, acc);
      } else if 2 + |acc| + w < MAX_SIZE {
        ChunkAdded(acc, u);
        PackedReads(t, w, acc + u);
        Assoc(Chunks(acc, w), [u], OfWidth(t, w));
      }
    }
  }
}
