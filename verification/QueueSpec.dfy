/** StorageManager.cpp: the remote queue and the history reader on the text of their files. */
module QueueSpec {
  import opened Base
  import opened Lines

  // ---- batches and acknowledgements -----------------------------------------------------

  /** `acknowledgeRemoteBatch`: the first n raw lines that are not empty go, the others are printed again. */
  function Acked(f: Text, n: nat): Text {
    var ls := NonEmpty(Raw(f));
    Printed(ls[Min(n, |ls|)..])
  }

  lemma AckedItems(f: Text, n: nat)
    ensures var ls := NonEmpty(Raw(f));
            Items(Raw(Acked(f, n))) == Items(ls[Min(n, |ls|)..]) && Ended(Acked(f, n))
  {
    var ls := NonEmpty(Raw(f));
    var rest := ls[Min(n, |ls|)..];
    RawOneLine(f);
    forall l | l in rest ensures OneLine(l) { assert l in ls; }
    RawPrinted(rest);
    ItemsWithCR(rest);
  }

  /** None of the lines the acknowledgement counts is made of space only. */
  predicate NoBlankFirst(f: Text, n: nat) {
    var ls := NonEmpty(Raw(f));
    forall i :: 0 <= i < n && i < |ls| ==> !Blank(ls[i])
  }

  /**
   * Acknowledging as many items as there were removes exactly the first ones, and
   * keeps the others as they were and in order, if and only if no line of space
   * stands among the lines it counts: the batch skips such a line, this does not.
   */
  lemma AckExactly(f: Text, n: nat)
    requires n <= |Items(Raw(f))|
    ensures Items(Raw(Acked(f, n))) == Items(Raw(f))[n..] <==> NoBlankFirst(f, n)
  {
    var ls := NonEmpty(Raw(f));
    ItemsNonEmpty(Raw(f));
    ItemsCount(ls);
    AckedItems(f, n);
    assert ls == ls[..n] + ls[n..];
    ItemsConcat(ls[..n], ls[n..]);
    ItemsCount(ls[..n]);
  }

  /** A file the queue keeps: every line ended, none of space only. */
  predicate Clean(f: Text) {
    Ended(f) && forall l :: l in NonEmpty(Raw(f)) ==> !Blank(l)
  }

  lemma {:induction false} NonEmptyCRs(ls: seq<Text>)
    ensures NonEmpty(AllWithCR(ls)) == AllWithCR(ls)
  {
    if ls != [] {
      NonEmptyCRs(ls[1..]);
      assert AllWithCR(ls)[1..] == AllWithCR(ls[1..]);
    }
  }

  lemma AckClean(f: Text, n: nat)
    requires Clean(f) && n <= |Items(Raw(f))|
    ensures Clean(Acked(f, n)) && Items(Raw(Acked(f, n))) == Items(Raw(f))[n..]
  {
    var ls := NonEmpty(Raw(f));
    AckedItems(f, n);
    forall i | 0 <= i < n && i < |ls| ensures !Blank(ls[i]) { assert ls[i] in ls; }
    AckExactly(f, n);
    var rest := ls[Min(n, |ls|)..];
    RawOneLine(f);
    forall l | l in rest ensures OneLine(l) { assert l in ls; }
    RawPrinted(rest);
    NonEmptyCRs(rest);
    forall l | l in AllWithCR(rest) ensures !Blank(l) {
      var i :| 0 <= i < |rest| && AllWithCR(rest)[i] == l;
      TrimWithCR(rest[i]);
      assert rest[i] in ls;
    }
  }

  /** The file after k batches of up to eight were posted and acknowledged. */
  function Drained(f: Text, k: nat): Text
    decreases k
  {
    if k == 0 then f else Drained(Acked(f, Min(8, |Items(Raw(f))|)), k - 1)
  }

  lemma EightMore(items: seq<Text>, k: nat)
    requires k > 0
    ensures var rest := items[Min(8, |items|)..]; rest[Min(8 * (k - 1), |rest|)..] == items[Min(8 * k, |items|)..]
  {}

  /** Each batch takes the next eight items, until none are left. */
  lemma {:induction false} DrainsInEights(f: Text, k: nat, items: seq<Text>)
    requires Clean(f) && items == Items(Raw(f))
    ensures Clean(Drained(f, k)) && Items(Raw(Drained(f, k))) == items[Min(8 * k, |items|)..]
    decreases k
  {
    if k == 0 {
      assert items[0..] == items;
    } else {
      var n := Min(8, |items|);
      AckClean(f, n);
      DrainsInEights(Acked(f, n), k - 1, items[n..]);
      EightMore(items, k);
    }
  }

  /** `println` at the end of the file adds one item behind the others. */
  lemma AppendAdds(f: Text, line: Text)
    requires Clean(f) && Tight(line)
    ensures Clean(f + line + CRLF) && Items(Raw(f + line + CRLF)) == Items(Raw(f)) + [line]
  {
    var g := line + CRLF;
    assert Printed([line]) == g + [] by { assert [line][1..] == []; }
    RawPrinted([line]);
    assert g + [] == g && AllWithCR([line]) == [WithCR(line)];
    RawAppend(f, g);
    assert f + line + CRLF == f + g;
    TrimWithCR(line);
    TrimTight(line);
    FlatMapOne(WithCR(line), ItemOf);
    ItemsConcat(Raw(f), [WithCR(line)]);
    NonEmptySnoc(Raw(f), WithCR(line));
  }

  lemma {:induction false} NonEmptySnoc(ls: seq<Text>, l: Text)
    requires l != []
    ensures NonEmpty(ls + [l]) == NonEmpty(ls) + [l]
  {
    if ls == [] {
      assert [l][1..] == [] && [] + [l] == [l];
    } else {
      NonEmptySnoc(ls[1..], l);
      assert (ls + [l])[1..] == ls[1..] + [l];
    }
  }

  /** The items with commas between them, in brackets. */
  function Joined(items: seq<Text>): Text {
    if items == [] then [] else if |items| == 1 then items[0] else items[0] + [','] + Joined(items[1..])
  }

  lemma {:induction false} JoinedSnoc(items: seq<Text>, x: Text)
    ensures Joined(items + [x]) == if items == [] then x else Joined(items) + [','] + x
  {
    if items == [] {
      assert items + [x] == [x];
    } else {
      JoinedSnoc(items[1..], x);
      assert (items + [x])[1..] == items[1..] + [x];
    }
  }

  // ---- history -----------------------------------------------------------------------------

  /** A line cut at its first n commas; the last piece keeps any others. */
  function Cut(line: Text, n: nat): Option<seq<Text>>
    decreases n, |line|
  {
    if n == 0 then Some([line])
    else
      var k := IndexOf(line, ',');
      if k == |line| then None
      else match Cut(line[k + 1..], n - 1)
        case None => None
        case Some(rest) => Some([line[..k]] + rest)
  }

  predicate NoComma(v: Text) { forall i :: 0 <= i < |v| ==> v[i] != ',' }

  lemma JoinedCons(v: Text, t: seq<Text>)
    requires t != []
    ensures Joined([v] + t) == v + [','] + Joined(t)
  {
    assert ([v] + t)[1..] == t;
  }

  /** Cutting loses nothing. */
  lemma {:induction false} CutJoins(line: Text, n: nat)
    ensures Cut(line, n).Some? ==> |Cut(line, n).value| == n + 1 && Joined(Cut(line, n).value) == line
    decreases n
  {
    if n > 0 && Cut(line, n).Some? {
      var k := IndexOf(line, ',');
      var v, rest := line[..k], line[k + 1..];
      CutJoins(rest, n - 1);
      var t := Cut(rest, n - 1).value;
      assert Cut(line, n).value == [v] + t;
      JoinedCons(v, t);
      assert line == v + [','] + rest;
    }
  }

  lemma CutCons(v: Text, rest: Text, n: nat, t: seq<Text>)
    requires NoComma(v) && n > 0 && Cut(rest, n - 1) == Some(t)
    ensures Cut(v + [','] + rest, n) == Some([v] + t)
  {
    var line := v + [','] + rest;
    IndexOfIs(line, ',', |v|);
    assert line[..|v|] == v && line[|v| + 1..] == rest;
  }

  /** A line written from n + 1 values without commas reads back as those values. */
  lemma {:induction false} CutOfJoined(vs: seq<Text>, n: nat)
    requires |vs| == n + 1 && forall v :: v in vs ==> NoComma(v)
    ensures Cut(Joined(vs), n) == Some(vs)
    decreases n
  {
    var v, t := vs[0], vs[1..];
    assert vs == [v] + t && NoComma(v);
    if n == 0 {
      assert t == [] && Joined(vs) == v && vs == [v];
    } else {
      CutOfJoined(t, n - 1);
      JoinedCons(v, t);
      CutCons(v, Joined(t), n, t);
    }
  }

  const HEADER: Text := "uptime_ms,"

  const HEADER_LINE: Text := HEADER + "voltage,current,soc,power," + "cell_temp,mosfet_temp," + "cell_delta_mv"

  /** The values of a raw line of telemetry, if it has them; the header and other lines are passed over. */
  function Row(l: Text): Option<seq<Text>> {
    var t := Trim(l);
    if t == [] || HEADER <= t then None else Cut(t, 7)
  }

  function Rows(ls: seq<Text>): seq<seq<Text>> {
    if ls == [] then [] else (if Row(ls[0]).Some? then [Row(ls[0]).value] else []) + Rows(ls[1..])
  }

  function Last(ls: seq<Text>, limit: nat): seq<Text> {
    if |ls| > limit then ls[|ls| - limit..] else ls
  }

  predicate RowValues(vs: seq<Text>) {
    && |vs| == 8 && (forall v :: v in vs ==> NoComma(v))
    && Tight(Joined(vs)) && !(HEADER <= Joined(vs))
  }

  function RowLines(rows: seq<seq<Text>>): (r: seq<Text>)
    ensures |r| == |rows| && forall i :: 0 <= i < |rows| ==> r[i] == Joined(rows[i])
  {
    if rows == [] then [] else [Joined(rows[0])] + RowLines(rows[1..])
  }

  // ---- history as JSON ------------------------------------------------------------------------

  /** A row as an object. */
  function RowJson(vs: seq<Text>): Text
    requires |vs| == 8
  {
    "{\"uptime_ms\":" + vs[0] + ",\"voltage\":" + vs[1] + ",\"current\":" + vs[2] + ",\"soc\":" + vs[3]
    + ",\"power\":" + vs[4] + ",\"cell_temp\":" + vs[5] + ",\"mosfet_temp\":" + vs[6]
    + ",\"cell_delta_mv\":" + vs[7] + ['}']
  }

  /** The column names of the header, in order. */
  const NAMES: seq<Text> := ["uptime_ms", "voltage", "current", "soc", "power", "cell_temp", "mosfet_temp", "cell_delta_mv"]

  /** A member of an object. */
  function Member(name: Text, value: Text): Text { ['"'] + name + ['"', ':'] + value }

  function Members(names: seq<Text>, vs: seq<Text>): (r: seq<Text>)
    requires |names| == |vs|
    ensures |r| == |vs| && forall i :: 0 <= i < |vs| ==> r[i] == Member(names[i], vs[i])
  {
    if vs == [] then [] else [Member(names[0], vs[0])] + Members(names[1..], vs[1..])
  }

  /** What is printed in front of each value. */
  const KEYS: seq<Text> :=
    ["{\"uptime_ms\":", ",\"voltage\":", ",\"current\":", ",\"soc\":", ",\"power\":", ",\"cell_temp\":",
     ",\"mosfet_temp\":", ",\"cell_delta_mv\":"]

  /** The first n values, each behind its key. */
  function Interleaved(ks: seq<Text>, vs: seq<Text>, n: nat): Text
    requires |ks| == |vs| && 0 < n <= |vs|
    decreases n, |vs|
  {
    if n == 1 then ks[0] + vs[0] else Interleaved(ks, vs, n - 1) + ks[n - 1] + vs[n - 1]
  }

  lemma InterleavedStep(ks: seq<Text>, vs: seq<Text>, n: nat, p: Text)
    requires |ks| == |vs| && 1 < n <= |vs| && p == Interleaved(ks, vs, n - 1)
    ensures Interleaved(ks, vs, n) == p + ks[n - 1] + vs[n - 1]
  {}

  lemma RowKeyed(ks: seq<Text>, vs: seq<Text>)
    requires ks == KEYS && |vs| == 8
    ensures RowJson(vs) == Interleaved(ks, vs, 8) + ['}']
  {
    assert Interleaved(ks, vs, 1) == ks[0] + vs[0];
    InterleavedStep(ks, vs, 2, ks[0] + vs[0]);
    InterleavedStep(ks, vs, 3, Interleaved(ks, vs, 2));
    InterleavedStep(ks, vs, 4, Interleaved(ks, vs, 3));
    InterleavedStep(ks, vs, 5, Interleaved(ks, vs, 4));
    InterleavedStep(ks, vs, 6, Interleaved(ks, vs, 5));
    InterleavedStep(ks, vs, 7, Interleaved(ks, vs, 6));
    InterleavedStep(ks, vs, 8, Interleaved(ks, vs, 7));
  }

  lemma FirstKey(v: Text)
    ensures KEYS[0] + v == ['{'] + Member(NAMES[0], v)
  {}

  lemma OtherKeys(v: Text)
    ensures KEYS[1] + v == [','] + Member(NAMES[1], v) && KEYS[2] + v == [','] + Member(NAMES[2], v)
    ensures KEYS[3] + v == [','] + Member(NAMES[3], v) && KEYS[4] + v == [','] + Member(NAMES[4], v)
    ensures KEYS[5] + v == [','] + Member(NAMES[5], v) && KEYS[6] + v == [','] + Member(NAMES[6], v)
    ensures KEYS[7] + v == [','] + Member(NAMES[7], v)
  {}

  /** One member more, printed with its comma. */
  lemma RowStep(p: Text, key: Text, v: Text, ms: seq<Text>, i: nat)
    requires 0 < i < |ms| && p == ['{'] + Joined(ms[..i]) && key + v == [','] + ms[i]
    ensures p + key + v == ['{'] + Joined(ms[..i + 1])
  {
    JoinedSnoc(ms[..i], ms[i]);
    assert ms[..i] + [ms[i]] == ms[..i + 1];
    Assoc(p, key, v);
    Assoc(['{'], Joined(ms[..i]), [','] + ms[i]);
    Assoc(Joined(ms[..i]), [','], ms[i]);
  }

  lemma {:induction false} InterleavedIs(ks: seq<Text>, vs: seq<Text>, ms: seq<Text>, n: nat)
    requires |ks| == |vs| == |ms| && 0 < n <= |vs| && ks[0] + vs[0] == ['{'] + ms[0]
    requires forall i :: 0 < i < |vs| ==> ks[i] + vs[i] == [','] + ms[i]
    ensures Interleaved(ks, vs, n) == ['{'] + Joined(ms[..n])
    decreases n
  {
    if n == 1 {
      assert ms[..1] == [ms[0]];
    } else {
      InterleavedIs(ks, vs, ms, n - 1);
      RowStep(Interleaved(ks, vs, n - 1), ks[n - 1], vs[n - 1], ms, n - 1);
    }
  }

  /** The keys print these names. */
  ghost predicate KeysOf(ks: seq<Text>, ns: seq<Text>, vs: seq<Text>) {
    && |ks| == |ns| == |vs| > 0 && ks[0] + vs[0] == ['{'] + Member(ns[0], vs[0])
    && forall i :: 0 < i < |vs| ==> ks[i] + vs[i] == [','] + Member(ns[i], vs[i])
  }

  lemma NamesPrinted(ks: seq<Text>, ns: seq<Text>, vs: seq<Text>)
    requires KeysOf(ks, ns, vs)
    ensures Interleaved(ks, vs, |vs|) == ['{'] + Joined(Members(ns, vs))
  {
    var ms := Members(ns, vs);
    InterleavedIs(ks, vs, ms, |vs|);
    assert ms[..|vs|] == ms;
  }

  lemma KeysPrint(vs: seq<Text>)
    requires |vs| == 8
    ensures KeysOf(KEYS, NAMES, vs)
  {
    FirstKey(vs[0]);
    forall i | 0 < i < 8 ensures KEYS[i] + vs[i] == [','] + Member(NAMES[i], vs[i]) { OtherKeys(vs[i]); }
  }

  /** A row is an object with these names, each with the value of its column. */
  lemma RowNamed(vs: seq<Text>)
    requires |vs| == 8
    ensures RowJson(vs) == ['{'] + Joined(Members(NAMES, vs)) + ['}']
  {
    KeysPrint(vs);
    NamesPrinted(KEYS, NAMES, vs);
    RowKeyed(KEYS, vs);
  }

  lemma TwoNames(a: Text, b: Text, c: Text)
    ensures a + [','] + (b + [','] + c) == a + [','] + b + [','] + c
  {}

  lemma JoinedFrom(ns: seq<Text>, i: nat)
    requires i + 1 < |ns|
    ensures Joined(ns[i..]) == ns[i] + [','] + Joined(ns[i + 1..])
  {
    assert ns[i..] == [ns[i]] + ns[i + 1..];
    JoinedCons(ns[i], ns[i + 1..]);
  }

  /** Two names more in front. */
  lemma TwoFrom(ns: seq<Text>, i: nat, two: Text)
    requires i + 2 < |ns| && two == ns[i] + [','] + ns[i + 1] + [',']
    ensures Joined(ns[i..]) == two + Joined(ns[i + 2..])
  {
    JoinedFrom(ns, i);
    JoinedFrom(ns, i + 1);
    TwoNames(ns[i], ns[i + 1], Joined(ns[i + 2..]));
  }

  lemma HeaderJoins(ns: seq<Text>, one: Text, two: Text, four: Text, six: Text)
    requires |ns| == 8 && one == ns[0] + [','] && two == ns[1] + [','] + ns[2] + [','] && four == ns[3] + [','] + ns[4] + [',']
    requires six == ns[5] + [','] + ns[6] + [',']
    ensures Joined(ns) == one + (two + four) + six + ns[7]
  {
    JoinedFrom(ns, 0);
    TwoFrom(ns, 1, two);
    TwoFrom(ns, 3, four);
    TwoFrom(ns, 5, six);
    assert ns[0..] == ns && ns[7..] == [ns[7]];
    Assoc(one, two, four + (six + ns[7]));
    Assoc(one + two, four, six + ns[7]);
    Assoc(one, two, four);
    Assoc(one + (two + four), six, ns[7]);
  }

  lemma HeaderPieces()
    ensures HEADER == NAMES[0] + [','] && "voltage,current," == NAMES[1] + [','] + NAMES[2] + [',']
    ensures "soc,power," == NAMES[3] + [','] + NAMES[4] + [','] && "cell_temp,mosfet_temp," == NAMES[5] + [','] + NAMES[6] + [',']
    ensures "voltage,current,soc,power," == "voltage,current," + "soc,power,"
  {}

  /** And these are the names the header gives its columns. */
  lemma HeaderNames()
    ensures Cut(HEADER_LINE, 7) == Some(NAMES)
  {
    HeaderPieces();
    HeaderCut(NAMES, HEADER, "voltage,current,", "soc,power,", "cell_temp,mosfet_temp,");
  }

  lemma HeaderCut(ns: seq<Text>, one: Text, two: Text, four: Text, six: Text)
    requires ns == NAMES && one == ns[0] + [','] && two == ns[1] + [','] + ns[2] + [','] && four == ns[3] + [','] + ns[4] + [',']
    requires six == ns[5] + [','] + ns[6] + [',']
    ensures Cut(one + (two + four) + six + ns[7], 7) == Some(ns)
  {
    HeaderJoins(ns, one, two, four, six);
    NamesPlain(ns);
    CutOfJoined(ns, 7);
  }

  lemma NamesPlain(ns: seq<Text>)
    requires ns == NAMES
    ensures |ns| == 8 && forall v :: v in ns ==> NoComma(v)
  {}

  lemma RowHasEight(l: Text)
    ensures Row(l).Some? ==> |Row(l).value| == 8
  {
    CutJoins(Trim(l), 7);
  }

  /** A line that is neither empty nor the header, and has too few commas. */
  predicate Malformed(l: Text) { Trim(l) != [] && !(HEADER <= Trim(l)) && Cut(Trim(l), 7).None? }

  function Comma(more: bool): Text { if more then [','] else [] }

  /**
   * What the loop writes for a line; `more` is whether a row was written before.  The
   * comma comes before the line is looked at, and stays when the line is malformed.
   */
  function Piece(l: Text, more: bool): Text {
    if Row(l).Some? then
      RowHasEight(l);
      Comma(more) + RowJson(Row(l).value)
    else if Malformed(l) then Comma(more)
    else []
  }

  function Render(ls: seq<Text>, more: bool): Text {
    if ls == [] then [] else Piece(ls[0], more) + Render(ls[1..], more || Row(ls[0]).Some?)
  }

  /** The rows of the lines, with a comma between any two. */
  function Listing(ls: seq<Text>, more: bool): Text {
    if ls == [] then []
    else if Row(ls[0]).Some? then
      RowHasEight(ls[0]);
      Comma(more) + RowJson(Row(ls[0]).value) + Listing(ls[1..], true)
    else Listing(ls[1..], more)
  }

  /** The malformed lines behind a row. */
  function Strays(ls: seq<Text>, more: bool): nat {
    if ls == [] then 0
    else if Row(ls[0]).Some? then Strays(ls[1..], true)
    else (if Malformed(ls[0]) && more then 1 else 0) + Strays(ls[1..], more)
  }

  lemma {:induction false} RenderLength(ls: seq<Text>, more: bool)
    ensures |Render(ls, more)| == |Listing(ls, more)| + Strays(ls, more)
    ensures Strays(ls, more) == 0 ==> Render(ls, more) == Listing(ls, more)
  {
    if ls != [] {
      RowHasEight(ls[0]);
      RenderLength(ls[1..], more || Row(ls[0]).Some?);
    }
  }

  lemma {:induction false} StraysExactly(ls: seq<Text>, more: bool)
    ensures Strays(ls, more) == 0 <==>
            (more ==> forall j :: 0 <= j < |ls| ==> !Malformed(ls[j]))
            && forall i, j :: 0 <= i < j < |ls| && Row(ls[i]).Some? ==> !Malformed(ls[j])
  {
    if ls != [] {
      var t, later := ls[1..], more || Row(ls[0]).Some?;
      StraysExactly(t, later);
      assert forall j :: 0 <= j < |t| ==> t[j] == ls[j + 1];
      assert Strays(ls, more) == 0 <==> (more ==> !Malformed(ls[0])) && Strays(t, later) == 0;
      assert (forall j :: 0 <= j < |ls| ==> !Malformed(ls[j])) <==> !Malformed(ls[0]) && forall j :: 0 <= j < |t| ==> !Malformed(t[j]) by {
        AllOf(ls, t);
      }
      PairsOf(ls, t);
    }
  }

  lemma AllOf(ls: seq<Text>, t: seq<Text>)
    requires ls != [] && t == ls[1..]
    ensures (forall j :: 0 <= j < |ls| ==> !Malformed(ls[j]))
            <==> !Malformed(ls[0]) && forall j :: 0 <= j < |t| ==> !Malformed(t[j])
  {
    if forall j :: 0 <= j < |ls| ==> !Malformed(ls[j]) {
      forall j | 0 <= j < |t| ensures !Malformed(t[j]) { assert t[j] == ls[j + 1]; }
    }
    if !Malformed(ls[0]) && forall j :: 0 <= j < |t| ==> !Malformed(t[j]) {
      forall j | 0 <= j < |ls| ensures !Malformed(ls[j]) { if j > 0 { assert ls[j] == t[j - 1]; } }
    }
  }

  lemma PairsOf(ls: seq<Text>, t: seq<Text>)
    requires ls != [] && t == ls[1..]
    ensures (forall i, j :: 0 <= i < j < |ls| && Row(ls[i]).Some? ==> !Malformed(ls[j]))
            <==> (Row(ls[0]).Some? ==> forall j :: 0 <= j < |t| ==> !Malformed(t[j]))
                 && forall i, j :: 0 <= i < j < |t| && Row(t[i]).Some? ==> !Malformed(t[j])
  {
    if forall i, j :: 0 <= i < j < |ls| && Row(ls[i]).Some? ==> !Malformed(ls[j]) {
      forall j | 0 <= j < |t| && Row(ls[0]).Some? ensures !Malformed(t[j]) { assert t[j] == ls[j + 1]; }
      forall i, j | 0 <= i < j < |t| && Row(t[i]).Some? ensures !Malformed(t[j]) { assert t[i] == ls[i + 1] && t[j] == ls[j + 1]; }
    }
    if (Row(ls[0]).Some? ==> forall j :: 0 <= j < |t| ==> !Malformed(t[j]))
       && forall i, j :: 0 <= i < j < |t| && Row(t[i]).Some? ==> !Malformed(t[j]) {
      forall i, j | 0 <= i < j < |ls| && Row(ls[i]).Some? ensures !Malformed(ls[j]) {
        assert ls[j] == t[j - 1];
        if i > 0 { assert ls[i] == t[i - 1]; }
      }
    }
  }

  /**
   * The history comes out as a list of its rows, with one comma between any two, if and
   * only if no malformed line stands behind a row; each one that does leaves a comma too many.
   */
  lemma HistoryIsList(ls: seq<Text>)
    ensures Render(ls, false) == Listing(ls, false) <==>
            forall i, j :: 0 <= i < j < |ls| && Row(ls[i]).Some? ==> !Malformed(ls[j])
  {
    RenderLength(ls, false);
    StraysExactly(ls, false);
  }

  // ---- the history of a file the code wrote ------------------------------------------------------

  /** The rows as a list of objects, after one more if there is one. */
  function JsonList(rows: seq<seq<Text>>, more: bool): Text
    requires forall vs :: vs in rows ==> |vs| == 8
  {
    if rows == [] then [] else Comma(more) + RowJson(rows[0]) + JsonList(rows[1..], true)
  }

  lemma {:induction false} RowsHaveEight(ls: seq<Text>)
    ensures forall vs :: vs in Rows(ls) ==> |vs| == 8
  {
    if ls != [] {
      RowHasEight(ls[0]);
      RowsHaveEight(ls[1..]);
    }
  }

  lemma JsonListCons(v: seq<Text>, rows: seq<seq<Text>>, more: bool)
    requires |v| == 8 && forall vs :: vs in rows ==> |vs| == 8
    ensures forall vs :: vs in [v] + rows ==> |vs| == 8
    ensures JsonList([v] + rows, more) == Comma(more) + RowJson(v) + JsonList(rows, true)
  {
    assert ([v] + rows)[1..] == rows;
  }

  lemma ListingStep(ls: seq<Text>, more: bool, r: Option<seq<Text>>)
    requires ls != [] && r == Row(ls[0])
    ensures r.Some? ==> |r.value| == 8 && Rows(ls) == [r.value] + Rows(ls[1..])
                        && Listing(ls, more) == Comma(more) + RowJson(r.value) + Listing(ls[1..], true)
    ensures r.None? ==> Rows(ls) == Rows(ls[1..]) && Listing(ls, more) == Listing(ls[1..], more)
  {
    RowHasEight(ls[0]);
  }

  lemma {:induction false} ListingIsRows(ls: seq<Text>, more: bool)
    ensures forall vs :: vs in Rows(ls) ==> |vs| == 8
    ensures Listing(ls, more) == JsonList(Rows(ls), more)
  {
    RowsHaveEight(ls);
    if ls != [] {
      var r := Row(ls[0]);
      ListingStep(ls, more, r);
      if r.Some? {
        ListingIsRows(ls[1..], true);
        JsonListCons(r.value, Rows(ls[1..]), more);
      } else {
        ListingIsRows(ls[1..], more);
      }
    }
  }

  /** The lines of a telemetry file: the header if `begin` created it (after a rotation there is none), and rows. */
  function FileLines(header: bool, rows: seq<seq<Text>>): seq<Text> {
    (if header then [HEADER_LINE] else []) + RowLines(rows)
  }

  predicate Readable(l: Text) { OneLine(l) && !Malformed(WithCR(l)) }

  lemma OneLineJoin(a: Text, b: Text)
    requires OneLine(a) && OneLine(b)
    ensures OneLine(a + b)
  {}

  lemma HeaderOneLine()
    ensures OneLine(HEADER_LINE)
  {
    OneLineJoin(HEADER, "voltage,current,soc,power,");
    OneLineJoin(HEADER + "voltage,current,soc,power,", "cell_temp,mosfet_temp,");
    OneLineJoin(HEADER + "voltage,current,soc,power," + "cell_temp,mosfet_temp,", "cell_delta_mv");
  }

  lemma HeaderRead()
    ensures Readable(HEADER_LINE) && Row(WithCR(HEADER_LINE)).None?
  {
    HeaderOneLine();
    TrimWithCR(HEADER_LINE);
    assert Tight(HEADER_LINE);
    TrimTight(HEADER_LINE);
  }

  lemma RowRead(vs: seq<Text>)
    requires RowValues(vs)
    ensures Readable(Joined(vs)) && Row(WithCR(Joined(vs))) == Some(vs)
  {
    TrimWithCR(Joined(vs));
    TrimTight(Joined(vs));
    CutOfJoined(vs, 7);
  }

  lemma RowsStep(l: Text, ls: seq<Text>, r: Option<seq<Text>>)
    requires r == Row(l)
    ensures Rows([l] + ls) == if r.Some? then [r.value] + Rows(ls) else Rows(ls)
  {
    assert ([l] + ls)[1..] == ls;
  }

  lemma {:induction false} RowsRead(rows: seq<seq<Text>>)
    requires forall vs :: vs in rows ==> RowValues(vs)
    ensures Rows(AllWithCR(RowLines(rows))) == rows
  {
    if rows != [] {
      RowsRead(rows[1..]);
      RowRead(rows[0]);
      RowsStep(WithCR(Joined(rows[0])), AllWithCR(RowLines(rows[1..])), Some(rows[0]));
      assert RowLines(rows)[1..] == RowLines(rows[1..]);
      assert rows == [rows[0]] + rows[1..];
    }
  }

  lemma LinesRead(header: bool, rows: seq<seq<Text>>)
    requires forall vs :: vs in rows ==> RowValues(vs)
    ensures forall l :: l in FileLines(header, rows) ==> Readable(l)
    ensures Rows(AllWithCR(FileLines(header, rows))) == rows
  {
    HeaderRead();
    RowsRead(rows);
    var rs := RowLines(rows);
    forall l | l in rs ensures Readable(l) {
      var i :| 0 <= i < |rs| && rs[i] == l;
      RowRead(rows[i]);
    }
    if header {
      assert FileLines(header, rows)[1..] == rs;
      RowsStep(WithCR(HEADER_LINE), AllWithCR(rs), None);
    } else {
      assert FileLines(header, rows) == rs;
    }
  }

  lemma LastOf(ls: seq<Text>, limit: nat)
    ensures Last(AllWithCR(ls), limit) == AllWithCR(Last(ls, limit))
  {
    var n := if |ls| > limit then |ls| - limit else 0;
    var a, b := AllWithCR(ls)[n..], AllWithCR(ls[n..]);
    forall i | 0 <= i < |b| ensures a[i] == b[i] { assert a[i] == AllWithCR(ls)[n + i]; }
    assert AllWithCR(ls)[0..] == AllWithCR(ls) && ls[0..] == ls;
  }

  lemma {:induction false} RowLinesFrom(rows: seq<seq<Text>>, k: nat)
    requires k <= |rows|
    ensures RowLines(rows)[k..] == RowLines(rows[k..])
  {
    if k == 0 {
      assert rows[0..] == rows && RowLines(rows)[0..] == RowLines(rows);
    } else {
      RowLinesFrom(rows[1..], k - 1);
      assert RowLines(rows)[1..] == RowLines(rows[1..]);
      assert RowLines(rows)[k..] == RowLines(rows)[1..][k - 1..] && rows[k..] == rows[1..][k - 1..];
    }
  }

  lemma LastBehind(first: Text, ls: seq<Text>, limit: nat)
    ensures |ls| >= limit ==> Last([first] + ls, limit) == Last(ls, limit)
    ensures |ls| < limit ==> Last([first] + ls, limit) == [first] + ls && Last(ls, limit) == ls
  {
    var n := |ls| + 1;
    if n > limit { assert n - limit > 0 && ([first] + ls)[n - limit..] == ls[n - limit - 1..]; }
    assert ls[0..] == ls;
  }

  /** The last lines of such a file are such lines again, down to the header or behind it. */
  lemma LastLines(header: bool, rows: seq<seq<Text>>, limit: nat, k: nat)
    requires k == if |rows| > limit then |rows| - limit else 0
    ensures Last(FileLines(header, rows), limit) == FileLines(header && |rows| < limit, rows[k..])
  {
    var rs := RowLines(rows);
    RowLinesFrom(rows, k);
    assert rows[0..] == rows && rs[0..] == rs;
    assert Last(rs, limit) == rs[k..];
    LastBehind(HEADER_LINE, rs, limit);
    assert [] + rs == rs && [] + rs[k..] == rs[k..];
  }

  lemma NoStrays(ls: seq<Text>)
    requires forall l :: l in ls ==> Readable(l)
    ensures Render(AllWithCR(ls), false) == Listing(AllWithCR(ls), false)
  {
    var rs := AllWithCR(ls);
    forall j | 0 <= j < |rs| ensures !Malformed(rs[j]) { assert ls[j] in ls; }
    HistoryIsList(rs);
  }

  /** A file of an optional header and printed rows reads back as the last rows, value for value, with one comma between any two. */
  lemma HistoryReadsBack(header: bool, rows: seq<seq<Text>>, limit: nat, last: seq<seq<Text>>)
    requires forall vs :: vs in rows ==> RowValues(vs)
    requires last == rows[if |rows| > limit then |rows| - limit else 0..]
    ensures forall vs :: vs in last ==> |vs| == 8
    ensures Render(Last(Raw(Printed(FileLines(header, rows))), limit), false) == JsonList(last, false)
  {
    LinesRead(header, rows);
    RawPrinted(FileLines(header, rows));
    LastLines(header, rows, limit, |rows| - |last|);
    LastOf(FileLines(header, rows), limit);
    forall vs | vs in last ensures RowValues(vs) { assert vs in rows; }
    var few := FileLines(header && |rows| < limit, last);
    LinesRead(header && |rows| < limit, last);
    NoStrays(few);
    ListingIsRows(AllWithCR(few), false);
  }

  /** A row appended to such a file is a row more; the file `begin` creates is such a file without rows. */
  lemma {:induction false} RowAppended(header: bool, rows: seq<seq<Text>>, vs: seq<Text>)
    ensures Printed(FileLines(header, rows)) + Joined(vs) + CRLF == Printed(FileLines(header, rows + [vs]))
    ensures Printed(FileLines(true, [])) == HEADER_LINE + CRLF
  {
    RowLinesSnoc(rows, vs);
    PrintedSnoc(FileLines(header, rows), Joined(vs));
    assert FileLines(header, rows + [vs]) == FileLines(header, rows) + [Joined(vs)];
    assert FileLines(true, []) == [HEADER_LINE];
  }

  lemma RowLinesSnoc(rows: seq<seq<Text>>, vs: seq<Text>)
    ensures RowLines(rows + [vs]) == RowLines(rows) + [Joined(vs)]
  {}

  lemma {:induction false} PrintedSnoc(ls: seq<Text>, l: Text)
    ensures Printed(ls + [l]) == Printed(ls) + l + CRLF
  {
    if ls == [] {
      assert [] + [l] == [l] && [l][1..] == [];
    } else {
      PrintedSnoc(ls[1..], l);
      assert (ls + [l])[1..] == ls[1..] + [l];
      assert (ls + [l])[0] == ls[0];
    }
  }
}
