/**
 * Advertising data as a list of AD structures (section 11 of Vol 3, Part C of
 * the Bluetooth Core Specification), and its byte form.
 */
module AdvFormat {
  import opened Base

  /** One AD structure: its type and its data, without the length byte. */
  datatype Ad = Ad(kind: Byte, value: seq<Byte>)

  const FLAGS: Byte := 0x01
  const INCOMP_UUIDS16: Byte := 0x02
  const COMP_UUIDS16: Byte := 0x03
  const INCOMP_UUIDS32: Byte := 0x04
  const COMP_UUIDS32: Byte := 0x05
  const INCOMP_UUIDS128: Byte := 0x06
  const COMP_UUIDS128: Byte := 0x07
  const INCOMP_NAME: Byte := 0x08
  const COMP_NAME: Byte := 0x09
  const TX_POWER: Byte := 0x0a
  const ITVL_RANGE: Byte := 0x12
  const SVC_DATA16: Byte := 0x16
  const PUBLIC_TARGET: Byte := 0x17
  const RANDOM_TARGET: Byte := 0x18
  const APPEARANCE: Byte := 0x19
  const SVC_DATA32: Byte := 0x20
  const SVC_DATA128: Byte := 0x21
  const URI: Byte := 0x24
  const MFG_DATA: Byte := 0xff

  const MAX_SIZE: nat := 31
  const MAX_FIELD: nat := 29

  predicate Fits(ads: seq<Ad>) {
    forall i :: 0 <= i < |ads| ==> |ads[i].value| <= 254
  }

  function One(a: Ad): (r: seq<Byte>)
    requires |a.value| <= 254
    ensures |r| == |a.value| + 2
  {
    [|a.value| + 1, a.kind] + a.value
  }

  function Encode(ads: seq<Ad>): (r: seq<Byte>)
    requires Fits(ads)
    ensures |r| >= 2 * |ads|
  {
    if ads == [] then [] else One(ads[0]) + Encode(ads[1..])
  }

  lemma {:induction false} EncodeConcat(a: seq<Ad>, b: seq<Ad>)
    requires Fits(a) && Fits(b)
    ensures Fits(a + b) && Encode(a + b) == Encode(a) + Encode(b)
  {
    if a == [] {
      assert a + b == b;
    } else {
      EncodeConcat(a[1..], b);
      ConsConcat(a, b);
      Assoc(One(a[0]), Encode(a[1..]), Encode(b));
    }
  }

  /** The bytes determine the structures. */
  lemma {:induction false} EncodeInjective(a: seq<Ad>, b: seq<Ad>)
    requires Fits(a) && Fits(b)
    ensures Encode(a) == Encode(b) <==> a == b
  {
    if Encode(a) == Encode(b) && a != [] && b != [] {
      var n := |a[0].value| + 2;
      assert Encode(a)[0] == n - 1 && Encode(b)[0] == |b[0].value| + 1;
      assert Encode(a)[..n] == One(a[0]) && Encode(b)[..n] == One(b[0]);
      assert Encode(a)[n..] == Encode(a[1..]) && Encode(b)[n..] == Encode(b[1..]);
      assert One(a[0])[1] == One(b[0])[1] && One(a[0])[2..] == One(b[0])[2..];
      EncodeInjective(a[1..], b[1..]);
      assert a == [a[0]] + a[1..] && b == [b[0]] + b[1..];
    }
  }

  lemma EncodeOne(a: Ad)
    requires |a.value| <= 254
    ensures Encode([a]) == One(a)
  {
    assert [a][1..] == [];
  }

  lemma EncodeSnoc(ads: seq<Ad>, a: Ad)
    requires Fits(ads) && |a.value| <= 254
    ensures Encode(ads + [a]) == Encode(ads) + One(a)
  {
    EncodeConcat(ads, [a]);
    EncodeOne(a);
  }

  lemma EncodeAround(a: seq<Ad>, x: Ad, b: seq<Ad>)
    requires Fits(a) && |x.value| <= 254 && Fits(b)
    ensures Encode(a + [x] + b) == Encode(a) + One(x) + Encode(b)
  {
    EncodeSnoc(a, x);
    EncodeConcat(a + [x], b);
  }

  lemma Around<T>(s: seq<T>, k: nat)
    requires k < |s|
    ensures s == s[..k] + [s[k]] + s[k + 1..] && s[..k + 1] == s[..k] + [s[k]]
  {}

  lemma EncodeSplit(ads: seq<Ad>, k: nat)
    requires Fits(ads) && k < |ads|
    ensures Encode(ads) == Encode(ads[..k]) + One(ads[k]) + Encode(ads[k + 1..])
    ensures Encode(ads[..k + 1]) == Encode(ads[..k]) + One(ads[k])
  {
    var a, x, b := ads[..k], ads[k], ads[k + 1..];
    Around(ads, k);
    EncodeAround(a, x, b);
    EncodeSnoc(a, x);
  }

  lemma OffsetFits(ads: seq<Ad>, k: nat)
    requires Fits(ads) && k <= |ads|
    ensures var at := |Encode(ads[..k])|;
            k < |ads| ==> at + |ads[k].value| + 2 <= |Encode(ads)| && Encode(ads)[at] == |ads[k].value| + 1
  {
    if k < |ads| { EncodeSplit(ads, k); }
  }

  /** Where the k-th structure starts. */
  function Offset(ads: seq<Ad>, k: nat): (at: nat)
    requires Fits(ads) && k <= |ads|
    ensures k < |ads| ==> at + |ads[k].value| + 2 <= |Encode(ads)| && Encode(ads)[at] == |ads[k].value| + 1
  {
    OffsetFits(ads, k);
    |Encode(ads[..k])|
  }

  lemma SlicesOf<T>(a: seq<T>, b: seq<T>, c: seq<T>)
    ensures var s := a + b + c;
            s[..|a|] == a && s[|a|..] == b + c && s[..|a| + |b|] == a + b && s[|a| + |b|..] == c
            && s[|a|..|a| + |b|] == b
  {}

  /** The k-th structure stands between what encodes the ones before and the ones after it. */
  lemma EncodeAt(ads: seq<Ad>, k: nat)
    requires Fits(ads) && k < |ads|
    ensures Offset(ads, k + 1) == Offset(ads, k) + |ads[k].value| + 2 <= |Encode(ads)|
    ensures var e, at, next := Encode(ads), Offset(ads, k), Offset(ads, k + 1);
            e[..at] == Encode(ads[..k]) && e[at..next] == One(ads[k]) && e[next..] == Encode(ads[k + 1..])
            && e[at] == |ads[k].value| + 1 && e[at + 1] == ads[k].kind && e[at + 2..next] == ads[k].value
  {
    EncodeSplit(ads, k);
    SlicesOf(Encode(ads[..k]), One(ads[k]), Encode(ads[k + 1..]));
    var e, at, next := Encode(ads), Offset(ads, k), Offset(ads, k + 1);
    assert e[at..next][0] == e[at] && e[at..next][1] == e[at + 1] && e[at..next][2..] == e[at + 2..next];
  }

  /** The position of the first structure of a type, or the length of the list. */
  function First(ads: seq<Ad>, kind: Byte): (k: nat)
    ensures k <= |ads|
    ensures k < |ads| ==> ads[k].kind == kind
    ensures forall i :: 0 <= i < k ==> ads[i].kind != kind
  {
    if ads == [] then 0
    else if ads[0].kind == kind then 0
    else
      var k := First(ads[1..], kind);
      assert forall i :: 0 < i < k + 1 ==> ads[i] == ads[1..][i - 1];
      k + 1
  }

  lemma FirstIs(ads: seq<Ad>, kind: Byte, k: nat)
    requires k < |ads| && ads[k].kind == kind && forall i :: 0 <= i < k ==> ads[i].kind != kind
    ensures First(ads, kind) == k
  {}

  function Removed(ads: seq<Ad>, k: nat): seq<Ad>
    requires k < |ads|
  {
    ads[..k] + ads[k + 1..]
  }
}
