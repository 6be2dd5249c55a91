/** What NimBLEAdvertisedDevice finds in a payload, and what the writer's payloads read back as. */
module AdvReaderSpec {
  import opened Base
  import opened BleUuid
  import opened AdvFormat
  import opened AdvWriterSpec

  // ---- the parse --------------------------------------------------------------------

  /**
   * One structure as the walk meets it.  A length byte of 0 or 1 leaves no value;
   * nothing below tells the two apart.
   */
  datatype Field = Field(at: nat, kind: Byte, value: seq<Byte>)

  /** The walk goes on while more than two bytes are left and the structure fits in them. */
  predicate Parsable(p: seq<Byte>, at: nat) {
    at + 2 < |p| && p[at] < |p| - at
  }

  function FieldAt(p: seq<Byte>, at: nat): Field
    requires Parsable(p, at)
  {
    Field(at, p[at + 1], if p[at] <= 1 then [] else p[at + 2..at + 1 + p[at]])
  }

  function Fields(p: seq<Byte>, at: nat): seq<Field>
    decreases |p| - at
  {
    if !Parsable(p, at) then [] else [FieldAt(p, at)] + Fields(p, at + 1 + p[at])
  }

  predicate Inside(p: seq<Byte>, f: Field) {
    Parsable(p, f.at) && f == FieldAt(p, f.at)
  }

  lemma {:induction false} FieldsInside(p: seq<Byte>, at: nat)
    ensures forall k :: 0 <= k < |Fields(p, at)| ==> Inside(p, Fields(p, at)[k])
    decreases |p| - at
  {
    if Parsable(p, at) { FieldsInside(p, at + 1 + p[at]); }
  }

  // ---- the search -------------------------------------------------------------------

  predicate Matches(kind: Byte, f: Field) {
    f.kind == kind || (kind == COMP_NAME && f.kind == INCOMP_NAME)
  }

  /** How many entries a structure with this length byte counts for. */
  function Weight(kind: Byte, len: nat): (w: nat)
    ensures w <= Max(len, 1)
  {
    if ListWidth(kind) > 0 then len / ListWidth(kind)
    else if kind == PUBLIC_TARGET || kind == RANDOM_TARGET then len / 6
    else 1
  }

  function Entries(kind: Byte, f: Field): (w: nat)
    ensures w <= |f.value| + 1
  {
    if Matches(kind, f) then Weight(kind, |f.value| + 1) else 0
  }

  /** The count that comes back and the location, if one was written. */
  datatype Found = Found(count: Byte, loc: Option<nat>)

  /** The walk with its uint8_t counters; `index` moves on at every shortened name. */
  function Find(fs: seq<Field>, kind: Byte, index: Byte, count: Byte, loc: Option<nat>): Found {
    if fs == [] then Found(count, loc)
    else if !Matches(kind, fs[0]) then Find(fs[1..], kind, index, count, loc)
    else
      var short := kind == COMP_NAME && fs[0].kind == INCOMP_NAME;
      var index' := if short then (index + 1) % 256 else index;
      var count' := (count + Entries(kind, fs[0])) % 256;
      if count' > index' then Found(count', Some(fs[0].at))
      else Find(fs[1..], kind, index', count', if short then Some(fs[0].at) else loc)
  }

  /** The walk for a caller that passes no place for the location. */
  function Tally(fs: seq<Field>, kind: Byte, count: Byte): Byte {
    if fs == [] then count else Tally(fs[1..], kind, (count + Entries(kind, fs[0])) % 256)
  }

  /** All the entries of a type, counted without a width. */
  function Total(fs: seq<Field>, kind: Byte): nat {
    if fs == [] then 0 else Entries(kind, fs[0]) + Total(fs[1..], kind)
  }

  /** A bound on everything counted above. */
  function Span(fs: seq<Field>): (n: nat)
    ensures n >= |fs|
  {
    if fs == [] then 0 else |fs[0].value| + 1 + Span(fs[1..])
  }

  lemma {:induction false} SpanFits(p: seq<Byte>, at: nat)
    ensures at <= |p| ==> Span(Fields(p, at)) <= |p| - at
    decreases |p| - at
  {
    if Parsable(p, at) { SpanFits(p, at + 1 + p[at]); }
  }

  lemma {:induction false} TallyIsTotal(fs: seq<Field>, kind: Byte, count: Byte)
    requires count + Span(fs) <= 255
    ensures Tally(fs, kind, count) == count + Total(fs, kind)
  {
    if fs != [] { TallyIsTotal(fs[1..], kind, count + Entries(kind, fs[0])); }
  }

  /** The structure that holds the entry with this index. */
  function Holder(fs: seq<Field>, kind: Byte, index: nat): (k: nat)
    ensures index < Total(fs, kind) ==> k < |fs| && Matches(kind, fs[k])
  {
    if fs == [] then 0
    else if index < Entries(kind, fs[0]) then 0
    else 1 + Holder(fs[1..], kind, index - Entries(kind, fs[0]))
  }

  lemma FindStep(fs: seq<Field>, kind: Byte, at: Byte, count: Byte, loc: Option<nat>)
    requires fs != [] && kind != COMP_NAME && count <= at && count + Entries(kind, fs[0]) <= 255
    ensures Find(fs, kind, at, count, loc)
            == if count + Entries(kind, fs[0]) > at then Found(count + Entries(kind, fs[0]), Some(fs[0].at))
               else Find(fs[1..], kind, at, count + Entries(kind, fs[0]), loc)
  {}

  /** The number of entries in front of that structure. */
  function Before(fs: seq<Field>, kind: Byte, index: nat): (n: nat)
    ensures n <= index
  {
    if fs == [] || index < Entries(kind, fs[0]) then 0
    else Entries(kind, fs[0]) + Before(fs[1..], kind, index - Entries(kind, fs[0]))
  }

  lemma HolderStep(fs: seq<Field>, kind: Byte, index: nat)
    requires fs != []
    ensures Total(fs, kind) == Entries(kind, fs[0]) + Total(fs[1..], kind)
    ensures index < Entries(kind, fs[0]) ==> Holder(fs, kind, index) == 0 && Before(fs, kind, index) == 0
    ensures Entries(kind, fs[0]) <= index ==>
              Holder(fs, kind, index) == 1 + Holder(fs[1..], kind, index - Entries(kind, fs[0]))
              && Before(fs, kind, index) == Entries(kind, fs[0]) + Before(fs[1..], kind, index - Entries(kind, fs[0]))
  {}

  /**
   * Other than for names, the search lands on the structure that holds the entry
   * asked for, with the entries up to its end counted; past the last entry it counts
   * them all and leaves no location.
   */
  lemma FindIsHolder(fs: seq<Field>, kind: Byte, index: nat, at: Byte, count: Byte, loc: Option<nat>)
    requires kind != COMP_NAME && at == count + index && count + Span(fs) <= 255
    ensures var r := Find(fs, kind, at, count, loc);
            && (index < Total(fs, kind) ==>
                  var k := Holder(fs, kind, index);
                  r.loc == Some(fs[k].at) && r.count == count + Before(fs, kind, index) + Entries(kind, fs[k]) > at)
            && (Total(fs, kind) <= index ==> r == Found(count + Total(fs, kind), loc))
  {
    if index < Total(fs, kind) {
      FindHolds(fs, kind, index, at, count, loc);
    } else {
      FindMisses(fs, kind, index, at, count, loc);
    }
  }

  lemma {:induction false} FindMisses(fs: seq<Field>, kind: Byte, index: nat, at: Byte, count: Byte, loc: Option<nat>)
    requires kind != COMP_NAME && at == count + index && count + Span(fs) <= 255 && Total(fs, kind) <= index
    ensures Find(fs, kind, at, count, loc) == Found(count + Total(fs, kind), loc)
  {
    if fs != [] {
      var w := Entries(kind, fs[0]);
      FindStep(fs, kind, at, count, loc);
      FindMisses(fs[1..], kind, index - w, at, count + w, loc);
    }
  }

  lemma {:induction false} FindHolds(fs: seq<Field>, kind: Byte, index: nat, at: Byte, count: Byte, loc: Option<nat>)
    requires kind != COMP_NAME && at == count + index && count + Span(fs) <= 255 && index < Total(fs, kind)
    ensures var r, k := Find(fs, kind, at, count, loc), Holder(fs, kind, index);
            r.loc == Some(fs[k].at) && r.count == count + Before(fs, kind, index) + Entries(kind, fs[k]) > at
  {
    var w := Entries(kind, fs[0]);
    FindStep(fs, kind, at, count, loc);
    HolderStep(fs, kind, index);
    if w <= index { FindHolds(fs[1..], kind, index - w, at, count + w, loc); }
  }

  function FirstKind(fs: seq<Field>, kind: Byte): (k: nat)
    ensures k <= |fs| && (k < |fs| ==> fs[k].kind == kind)
    ensures forall i :: 0 <= i < k ==> fs[i].kind != kind
  {
    if fs == [] || fs[0].kind == kind then 0 else
      var k := FirstKind(fs[1..], kind);
      assert forall i :: 0 < i < k + 1 ==> fs[i] == fs[1..][i - 1];
      k + 1
  }

  function LastKind(fs: seq<Field>, kind: Byte): (k: nat)
    ensures k <= |fs| && (k < |fs| ==> fs[k].kind == kind)
    ensures forall i :: k < i < |fs| ==> fs[i].kind != kind
    ensures k == |fs| ==> forall i :: 0 <= i < |fs| ==> fs[i].kind != kind
  {
    if fs == [] then 0 else
      var k := LastKind(fs[1..], kind);
      assert forall i :: 0 < i < |fs| ==> fs[i] == fs[1..][i - 1];
      if k < |fs| - 1 then k + 1 else if fs[0].kind == kind then 0 else |fs|
  }

  /** The first complete name, or else the last shortened one. */
  function NameField(fs: seq<Field>): Option<nat> {
    var c, s := FirstKind(fs, COMP_NAME), LastKind(fs, INCOMP_NAME);
    if c < |fs| then Some(fs[c].at) else if s < |fs| then Some(fs[s].at) else None
  }

  lemma {:induction false} NameLookup(fs: seq<Field>, shorts: Byte, loc: Option<nat>)
    requires shorts + Span(fs) <= 255 && (loc.Some? <==> shorts > 0)
    ensures var r := Find(fs, COMP_NAME, shorts, shorts, loc);
            r.loc == (if NameField(fs).Some? then NameField(fs) else loc)
            && (r.count > 0 <==> r.loc.Some?)
  {
    if fs != [] {
      var f := fs[0];
      if f.kind == INCOMP_NAME {
        NameLookup(fs[1..], shorts + 1, Some(f.at));
      } else if f.kind != COMP_NAME {
        NameLookup(fs[1..], shorts, loc);
      }
      NameTail(fs);
    }
  }

  lemma NameTail(fs: seq<Field>)
    requires fs != []
    ensures fs[0].kind == COMP_NAME ==> NameField(fs) == Some(fs[0].at)
    ensures fs[0].kind == INCOMP_NAME ==>
              NameField(fs) == if NameField(fs[1..]).Some? then NameField(fs[1..]) else Some(fs[0].at)
    ensures fs[0].kind != COMP_NAME && fs[0].kind != INCOMP_NAME ==> NameField(fs) == NameField(fs[1..])
  {}

  /**
   * On any payload of up to 255 bytes a name lookup lands on the first complete name
   * of the parsable part, else on its last shortened one, whatever their order.
   */
  lemma NameTheorem(p: seq<Byte>)
    requires |p| <= 255
    ensures var r := Find(Fields(p, 0), COMP_NAME, 0, 0, None);
            r.loc == NameField(Fields(p, 0)) && (r.count > 0 <==> r.loc.Some?)
  {
    SpanFits(p, 0);
    NameLookup(Fields(p, 0), 0, None);
  }

  /**
   * A caller that only looks at the count reads a location that was never written
   * exactly when there are entries, but none with the index asked for.
   */
  lemma UnwrittenExactly(p: seq<Byte>, kind: Byte, index: Byte)
    requires |p| <= 255 && kind != COMP_NAME
    ensures var r := Find(Fields(p, 0), kind, index, 0, None);
            r.count > 0 && r.loc.None? <==> 0 < Total(Fields(p, 0), kind) <= index
  {
    SpanFits(p, 0);
    FindIsHolder(Fields(p, 0), kind, index, index, 0, None);
  }

  // ---- the getters, as functions of the payload ----------------------------------------

  /** The location is defined whenever the count makes the caller use it. */
  predicate Written(p: seq<Byte>, kind: Byte, index: Byte) {
    var r := Find(Fields(p, 0), kind, index, 0, None);
    r.count > 0 ==> r.loc.Some?
  }

  lemma FirstWritten(p: seq<Byte>, kind: Byte)
    requires |p| <= 255
    ensures Written(p, kind, 0)
  {
    if kind == COMP_NAME { NameTheorem(p); } else { UnwrittenExactly(p, kind, 0); }
  }

  lemma {:induction false} FoundAmong(fs: seq<Field>, kind: Byte, index: Byte, count: Byte, loc: Option<nat>)
    ensures var r := Find(fs, kind, index, count, loc);
            r.loc == loc || exists k :: 0 <= k < |fs| && r.loc == Some(fs[k].at)
  {
    if fs != [] {
      var f, t := fs[0], fs[1..];
      assert forall k :: 0 <= k < |t| ==> t[k] == fs[k + 1];
      if Matches(kind, f) {
        var short := kind == COMP_NAME && f.kind == INCOMP_NAME;
        var index' := if short then (index + 1) % 256 else index;
        FoundAmong(t, kind, index', (count + Entries(kind, f)) % 256, if short then Some(f.at) else loc);
      } else {
        FoundAmong(t, kind, index, count, loc);
      }
    }
  }

  /** A location that was written is the start of a structure inside the payload. */
  lemma FoundInside(p: seq<Byte>, kind: Byte, index: Byte)
    ensures var r := Find(Fields(p, 0), kind, index, 0, None); r.loc.Some? ==> Parsable(p, r.loc.value)
  {
    FoundAmong(Fields(p, 0), kind, index, 0, None);
    FieldsInside(p, 0);
  }

  /** `getPayloadByType` */
  function ByType(p: seq<Byte>, kind: Byte, index: Byte): seq<Byte>
    requires Written(p, kind, index)
  {
    var r := Find(Fields(p, 0), kind, index, 0, None);
    FoundInside(p, kind, index);
    if r.count == 0 then [] else FieldAt(p, r.loc.value).value
  }

  // ---- what a written payload reads as ----------------------------------------------------

  /** The structures of a list, laid out from `at`. */
  function Laid(ads: seq<Ad>, at: nat): seq<Field> {
    if ads == [] then [] else [Field(at, ads[0].kind, ads[0].value)] + Laid(ads[1..], at + |ads[0].value| + 2)
  }

  /** The walk stops in front of a last structure without data. */
  function Seen(ads: seq<Ad>): seq<Ad> {
    if ads != [] && ads[|ads| - 1].value == [] then ads[..|ads| - 1] else ads
  }

  predicate Unseen(ads: seq<Ad>) { |ads| == 1 && ads[0].value == [] }

  /** What is laid out, without the structure that goes unseen. */
  function LaidSeen(ads: seq<Ad>, at: nat): seq<Field> {
    if ads == [] || Unseen(ads) then []
    else [Field(at, ads[0].kind, ads[0].value)] + LaidSeen(ads[1..], at + |ads[0].value| + 2)
  }

  lemma {:induction false} LaidSeenIs(ads: seq<Ad>, at: nat)
    ensures LaidSeen(ads, at) == Laid(Seen(ads), at)
    decreases |ads|
  {
    if ads != [] && !Unseen(ads) {
      LaidSeenIs(ads[1..], at + |ads[0].value| + 2);
      assert Seen(ads) == [ads[0]] + Seen(ads[1..]);
      assert Seen(ads)[1..] == Seen(ads[1..]);
    }
  }

  /** From `at` on the walk meets the structures of the list, one after the other, up to an unseen one. */
  predicate Spells(p: seq<Byte>, at: nat, ads: seq<Ad>)
    decreases |ads|
  {
    if ads == [] || Unseen(ads) then !Parsable(p, at)
    else
      && Parsable(p, at) && FieldAt(p, at) == Field(at, ads[0].kind, ads[0].value)
      && p[at] == |ads[0].value| + 1 && Spells(p, at + |ads[0].value| + 2, ads[1..])
  }

  lemma HeadSpelt(a: seq<Byte>, x: Ad, c: seq<Byte>, p: seq<Byte>, at: nat)
    requires |x.value| <= 254 && p == a + One(x) + c && at == |a| && (x.value != [] || |c| > 0)
    ensures Parsable(p, at) && FieldAt(p, at) == Field(at, x.kind, x.value) && p[at] == |x.value| + 1
  {
    var b := a + [|x.value| + 1, x.kind];
    HeadApart(a, x, c, b);
    SlicesOf(b, x.value, c);
    assert p[at] == b[at] && p[at + 1] == b[at + 1];
  }

  lemma UnseenEnds(a: seq<Byte>, x: Ad, p: seq<Byte>, at: nat)
    requires x.value == [] && p == a + One(x) && at == |a|
    ensures !Parsable(p, at)
  {}

  lemma {:induction false} EncodeSpells(ads: seq<Ad>, a: seq<Byte>, p: seq<Byte>, at: nat)
    requires Fits(ads) && p == a + Encode(ads) && at == |a|
    ensures Spells(p, at, ads)
    decreases |ads|
  {
    if ads != [] {
      var x, c := ads[0], Encode(ads[1..]);
      var b := a + One(x);
      assert p == b + c;
      if Unseen(ads) {
        assert c == [] && b + c == b;
        UnseenEnds(a, x, p, at);
      } else {
        HeadSpelt(a, x, c, p, at);
        EncodeSpells(ads[1..], b, p, at + |x.value| + 2);
      }
    }
  }

  lemma FieldsStep(p: seq<Byte>, at: nat)
    ensures !Parsable(p, at) ==> Fields(p, at) == []
    ensures Parsable(p, at) ==> Fields(p, at) == [FieldAt(p, at)] + Fields(p, at + 1 + p[at])
  {}

  /** The reader parses what is spelt out, but for a last structure without data. */
  lemma {:induction false} FieldsOfSpelt(p: seq<Byte>, at: nat, ads: seq<Ad>)
    requires Spells(p, at, ads)
    ensures Fields(p, at) == LaidSeen(ads, at)
    decreases |ads|
  {
    FieldsStep(p, at);
    if ads != [] && !Unseen(ads) { FieldsOfSpelt(p, at + |ads[0].value| + 2, ads[1..]); }
  }

  lemma ReadsBack(ads: seq<Ad>)
    requires Fits(ads)
    ensures Fields(Encode(ads), 0) == Laid(Seen(ads), 0)
  {
    assert [] + Encode(ads) == Encode(ads);
    EncodeSpells(ads, [], Encode(ads), 0);
    FieldsOfSpelt(Encode(ads), 0, ads);
    LaidSeenIs(ads, 0);
  }
}
