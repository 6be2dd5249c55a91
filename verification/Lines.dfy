/** Text files of lines: what `readStringUntil`, `trim` and `println` make of them. */
module Lines {
  import opened Base

  type Text = seq<char>

  const CRLF: Text := ['\r', '\n']

  predicate IsSpace(c: char) { c == ' ' || '\t' <= c <= '\r' }

  /** The position of the first `c`, or the length. */
  function IndexOf(s: Text, c: char): (k: nat)
    ensures k <= |s| && (k < |s| ==> s[k] == c) && forall i :: 0 <= i < k ==> s[i] != c
  {
    if s == [] || s[0] == c then 0 else
      var k := IndexOf(s[1..], c);
      assert forall i :: 0 < i < k + 1 ==> s[i] == s[1..][i - 1];
      k + 1
  }

  lemma IndexOfIs(s: Text, c: char, k: nat)
    requires k < |s| && s[k] == c && forall i :: 0 <= i < k ==> s[i] != c
    ensures IndexOf(s, c) == k
  {}

  /** The raw lines: pieces up to each newline, and a last one if it is not empty. */
  function Raw(f: Text): seq<Text>
    decreases |f|
  {
    if f == [] then []
    else
      var k := IndexOf(f, '\n');
      if k == |f| then [f] else [f[..k]] + Raw(f[k + 1..])
  }

  predicate OneLine(s: Text) { forall i :: 0 <= i < |s| ==> s[i] != '\n' }

  lemma {:induction false} RawOneLine(f: Text)
    ensures forall l :: l in Raw(f) ==> OneLine(l)
    decreases |f|
  {
    if f != [] && IndexOf(f, '\n') < |f| { RawOneLine(f[IndexOf(f, '\n') + 1..]); }
  }

  /** The file is empty or its last line is ended. */
  predicate Ended(f: Text) { f == [] || f[|f| - 1] == '\n' }

  /** What `println` writes of each line, one after the other. */
  function Printed(ls: seq<Text>): Text {
    if ls == [] then [] else ls[0] + CRLF + Printed(ls[1..])
  }

  lemma RawHead(l: Text, rest: Text)
    requires OneLine(l)
    ensures Raw(l + CRLF + rest) == [l + ['\r']] + Raw(rest)
  {
    var f := l + CRLF + rest;
    IndexOfIs(f, '\n', |l| + 1);
    assert f[..|l| + 1] == l + ['\r'] && f[|l| + 2..] == rest;
  }

  function WithCR(l: Text): Text { l + ['\r'] }

  function AllWithCR(ls: seq<Text>): (r: seq<Text>)
    ensures |r| == |ls| && forall i :: 0 <= i < |ls| ==> r[i] == WithCR(ls[i])
  {
    if ls == [] then [] else [WithCR(ls[0])] + AllWithCR(ls[1..])
  }

  /** A printed line is read back with a carriage return behind it. */
  lemma {:induction false} RawPrinted(ls: seq<Text>)
    requires forall l :: l in ls ==> OneLine(l)
    ensures Raw(Printed(ls)) == AllWithCR(ls) && Ended(Printed(ls))
  {
    if ls != [] {
      RawPrinted(ls[1..]);
      RawHead(ls[0], Printed(ls[1..]));
    }
  }

  lemma {:induction false} RawAppend(f: Text, g: Text)
    requires Ended(f)
    ensures Raw(f + g) == Raw(f) + Raw(g)
    decreases |f|
  {
    if f == [] {
      assert f + g == g;
    } else {
      var k := IndexOf(f, '\n');
      assert k < |f|;
      IndexOfIs(f + g, '\n', k);
      assert (f + g)[..k] == f[..k] && (f + g)[k + 1..] == f[k + 1..] + g;
      RawAppend(f[k + 1..], g);
    }
  }

  // ---- trimming ----------------------------------------------------------------------

  function TrimLeft(s: Text): Text { if s != [] && IsSpace(s[0]) then TrimLeft(s[1..]) else s }

  function TrimRight(s: Text): Text
    decreases |s|
  {
    if s != [] && IsSpace(s[|s| - 1]) then TrimRight(s[..|s| - 1]) else s
  }

  function Trim(s: Text): Text { TrimRight(TrimLeft(s)) }

  predicate Blank(s: Text) { Trim(s) == [] }

  lemma {:induction false} TrimLeftSnoc(s: Text, c: char)
    requires IsSpace(c)
    ensures TrimLeft(s + [c]) == if TrimLeft(s) == [] then [] else TrimLeft(s) + [c]
  {
    if s == [] {
      assert s + [c] == [c] && [c][1..] == [];
    } else if IsSpace(s[0]) {
      TrimLeftSnoc(s[1..], c);
      assert (s + [c])[1..] == s[1..] + [c];
    }
  }

  /** The carriage returns a line collects do not show once it is trimmed. */
  lemma TrimWithCR(s: Text)
    ensures Trim(WithCR(s)) == Trim(s)
  {
    TrimLeftSnoc(s, '\r');
    var t := TrimLeft(s);
    if t != [] { assert (t + ['\r'])[..|t|] == t; }
  }

  /** A line with something other than space at both ends. */
  predicate Tight(s: Text) { s != [] && !IsSpace(s[0]) && !IsSpace(s[|s| - 1]) && OneLine(s) }

  lemma TrimTight(s: Text)
    requires Tight(s)
    ensures Trim(s) == s
  {}

  // ---- the items of a file ------------------------------------------------------------

  function NonEmpty(ls: seq<Text>): (r: seq<Text>)
    ensures forall l :: l in r ==> l in ls && l != []
  {
    if ls == [] then [] else (if ls[0] == [] then [] else [ls[0]]) + NonEmpty(ls[1..])
  }

  function ItemOf(l: Text): seq<Text> { if Blank(l) then [] else [Trim(l)] }

  /** The trimmed lines that are not blank. */
  function Items(ls: seq<Text>): seq<Text> { FlatMap(ls, ItemOf) }

  lemma ItemsConcat(a: seq<Text>, b: seq<Text>)
    ensures Items(a + b) == Items(a) + Items(b)
  {
    FlatMapConcat(a, b, ItemOf);
  }

  /** Empty lines hold no items. */
  lemma {:induction false} ItemsNonEmpty(ls: seq<Text>)
    ensures Items(NonEmpty(ls)) == Items(ls)
  {
    if ls != [] {
      ItemsNonEmpty(ls[1..]);
      if ls[0] == [] {
        assert Trim([]) == [];
        assert NonEmpty(ls) == NonEmpty(ls[1..]);
      } else {
        assert NonEmpty(ls) == [ls[0]] + NonEmpty(ls[1..]);
        assert NonEmpty(ls)[1..] == NonEmpty(ls[1..]);
      }
    }
  }

  lemma {:induction false} ItemsWithCR(ls: seq<Text>)
    ensures Items(AllWithCR(ls)) == Items(ls)
  {
    if ls != [] {
      TrimWithCR(ls[0]);
      ItemsWithCR(ls[1..]);
    }
  }

  lemma {:induction false} ItemsCount(ls: seq<Text>)
    ensures |Items(ls)| <= |ls|
    ensures |Items(ls)| == |ls| <==> forall i :: 0 <= i < |ls| ==> !Blank(ls[i])
  {
    if ls != [] {
      ItemsCount(ls[1..]);
      assert forall i :: 0 < i < |ls| ==> ls[i] == ls[1..][i - 1];
      if |Items(ls)| == |ls| {
        forall i | 0 <= i < |ls| ensures !Blank(ls[i]) { if i > 0 { assert !Blank(ls[1..][i - 1]); } }
      }
      if forall i :: 0 <= i < |ls| ==> !Blank(ls[i]) {
        assert !Blank(ls[0]);
        forall i | 0 <= i < |ls| - 1 ensures !Blank(ls[1..][i]) { assert !Blank(ls[i + 1]); }
      }
    }
  }
}
