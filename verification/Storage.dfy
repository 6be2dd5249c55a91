/**
 * StorageManager.cpp and RemoteSync.cpp.  The file system is a map from files to
 * their text; its operations succeed.
 */
module Storage {
  import opened Base
  import opened Lines
  import opened QueueSpec

  datatype Name = TelemetryCsv | RemoteNdjson | EventsNdjson

  /** A log file, the one it took the place of, and the scratch file of an acknowledgement. */
  datatype File = Log(name: Name) | Previous(name: Name) | RemoteTmp

  const Telemetry := Log(TelemetryCsv)
  const Remote := Log(RemoteNdjson)

  const TELEMETRY_MAX := 12288
  const REMOTE_MAX := 4096
  const SAMPLE_INTERVAL := 60000
  const BATCH := 8

  /** How a recorded sample left the queue. */
  datatype Fate = Delivered | RotatedOut

  function Sent(ls: seq<Text>, fate: Fate): (r: seq<(Text, Fate)>)
    ensures |r| == |ls|
  {
    if ls == [] then [] else [(ls[0], fate)] + Sent(ls[1..], fate)
  }

  function LineOf(g: (Text, Fate)): seq<Text> { [g.0] }

  function LinesOf(gone: seq<(Text, Fate)>): seq<Text> { FlatMap(gone, LineOf) }

  lemma {:induction false} LinesSent(ls: seq<Text>, fate: Fate)
    ensures LinesOf(Sent(ls, fate)) == ls
  {
    if ls != [] {
      LinesSent(ls[1..], fate);
      FlatMapCons((ls[0], fate), Sent(ls[1..], fate), LineOf);
    }
  }

  lemma LinesOfSent(gone: seq<(Text, Fate)>, ls: seq<Text>, fate: Fate)
    ensures LinesOf(gone + Sent(ls, fate)) == LinesOf(gone) + ls
  {
    FlatMapConcat(gone, Sent(ls, fate), LineOf);
    LinesSent(ls, fate);
  }

  class StorageManager {
    var fs: map<File, Text>
    var mounted: bool
    var lastSampleAt: UInt32
    ghost var recorded: seq<Text>          // every sample taken, in order
    ghost var gone: seq<(Text, Fate)>      // those no longer queued, in order
    ghost var header: bool                 // the history begins with its header
    ghost var rows: seq<seq<Text>>         // and holds these samples

    ghost function Queue(): seq<Text>
      reads `fs
    {
      Items(Raw(TextOf(fs, Remote)))
    }

    /** The history is a header, or none, and the samples taken since it began, in order. */
    ghost predicate Kept()
      reads `fs, `header, `rows
    {
      KeptAs(TextOf(fs, Telemetry), header, rows)
    }

    static ghost predicate KeptAs(text: Text, header: bool, rows: seq<seq<Text>>) {
      text == Printed(FileLines(header, rows)) && forall vs :: vs in rows ==> RowValues(vs)
    }

    /** Nothing is lost or reordered: what was recorded has left the queue, or is still in it, in order. */
    ghost predicate Accounted()
      reads `fs, `recorded, `gone
    {
      Clean(TextOf(fs, Remote)) && recorded == LinesOf(gone) + Items(Raw(TextOf(fs, Remote)))
    }

    ghost predicate Valid()
      reads this
    {
      Kept() && Accounted()
    }

    constructor ()
      ensures Valid() && !mounted && fs == map[] && recorded == [] && gone == [] && rows == []
    {
      fs, mounted, lastSampleAt, recorded, gone := map[], false, 0, [], [];
      header, rows := false, [];
    }

    method Begin(ok: bool)
      requires Valid()
      modifies this
      ensures Valid() && mounted == ok && gone == old(gone) && recorded == old(recorded) && rows == old(rows)
      ensures Queue() == old(Queue())
      ensures fs == if ok && Telemetry !in old(fs) then old(fs)[Telemetry := HEADER_LINE + CRLF] else old(fs)
    {
      mounted := ok;
      if !mounted { return; }
      if Telemetry !in fs {
        NoHistory(header, rows);
        fs, header := fs[Telemetry := HEADER_LINE + CRLF], true;
      }
    }

    static lemma NoHistory(header: bool, rows: seq<seq<Text>>)
      requires Printed(FileLines(header, rows)) == []
      ensures rows == [] && !header && Printed(FileLines(true, [])) == HEADER_LINE + CRLF
    {
      PrintedSomething(FileLines(header, rows));
      RowAppended(true, [], []);
    }

    static lemma PrintedSomething(ls: seq<Text>)
      ensures Printed(ls) == [] ==> ls == []
    {}

    // ---- appending ------------------------------------------------------------------------

    static function Full(fs: map<File, Text>, file: File, maximum: nat): bool { file in fs && |fs[file]| >= maximum }

    /** A full file takes the place of its predecessor. */
    static function Rotated(fs: map<File, Text>, name: Name, maximum: nat): map<File, Text> {
      if Full(fs, Log(name), maximum) then fs[Previous(name) := fs[Log(name)]] - {Log(name)} else fs
    }

    static function TextOf(fs: map<File, Text>, file: File): Text { if file in fs then fs[file] else [] }

    method Rotate(name: Name, maximum: nat)
      requires maximum > 0
      modifies `fs
      ensures fs == Rotated(old(fs), name, maximum)
    {
      var size := if Log(name) in fs then |fs[Log(name)]| else 0;
      if size < maximum { return; }
      fs := fs - {Previous(name)};
      fs := fs[Previous(name) := fs[Log(name)]] - {Log(name)};
    }

    method AppendLine(name: Name, line: Text, maximum: nat)
      requires maximum > 0
      modifies `fs
      ensures var before := Rotated(old(fs), name, maximum);
              fs == before[Log(name) := TextOf(before, Log(name)) + line + CRLF]
      ensures TextOf(fs, Log(name)) == (if Full(old(fs), Log(name), maximum) then [] else TextOf(old(fs), Log(name))) + line + CRLF
      ensures Replaces(old(fs), fs, name, maximum) && forall other :: other != name ==> Same(old(fs), fs, other)
    {
      Rotate(name, maximum);
      var text := if Log(name) in fs then fs[Log(name)] else [];
      fs := fs[Log(name) := text + line + CRLF];
    }

    /**
     * A sample joins the history and the queue; if a file was full, everything in it goes out
     * with the file first, which replaces its predecessor.
     */
    method RecordTelemetry(now: UInt32, valid: bool, values: seq<Text>, json: Text)
      requires Valid() && RowValues(values) && Tight(json)
      modifies this
      ensures Valid() && mounted == old(mounted)
      ensures var taken := mounted && valid && (now - old(lastSampleAt)) % WRAP >= 60000;
              && (!taken ==> fs == old(fs) && gone == old(gone) && recorded == old(recorded) && rows == old(rows)
                             && lastSampleAt == old(lastSampleAt))
              && (taken ==> recorded == old(recorded) + [json] && lastSampleAt == now)
              && (taken && |TextOf(old(fs), Remote)| >= 4096 ==>
                    gone == old(gone) + Sent(old(Queue()), RotatedOut) && Queue() == [json])
              && (taken && |TextOf(old(fs), Remote)| < 4096 ==> gone == old(gone) && Queue() == old(Queue()) + [json])
              && (taken ==> rows == if |TextOf(old(fs), Telemetry)| >= 12288 then [values] else old(rows) + [values])
              && (taken ==> Replaces(old(fs), fs, RemoteNdjson, 4096) && Replaces(old(fs), fs, TelemetryCsv, 12288))
    {
      if !mounted || !valid || (now - lastSampleAt) % WRAP < SAMPLE_INTERVAL { return; }
      lastSampleAt := now;
      Keep(values, json);
    }

    /** The predecessor is the file that was full, and else what it was. */
    static ghost predicate Replaces(was: map<File, Text>, now: map<File, Text>, name: Name, maximum: nat) {
      if |TextOf(was, Log(name))| >= maximum > 0
      then Previous(name) in now && now[Previous(name)] == TextOf(was, Log(name))
      else Held(was, now, Previous(name))
    }

    /** Both files take their line. */
    method Keep(values: seq<Text>, json: Text)
      requires Valid() && RowValues(values) && Tight(json)
      modifies `fs, `header, `rows, `recorded, `gone
      ensures Valid() && recorded == old(recorded) + [json]
      ensures rows == if Full(old(fs), Telemetry, TELEMETRY_MAX) then [values] else old(rows) + [values]
      ensures Full(old(fs), Remote, REMOTE_MAX) ==>
                gone == old(gone) + Sent(old(Queue()), RotatedOut) && Queue() == [json]
      ensures !Full(old(fs), Remote, REMOTE_MAX) ==> gone == old(gone) && Queue() == old(Queue()) + [json]
      ensures Replaces(old(fs), fs, RemoteNdjson, REMOTE_MAX) && Replaces(old(fs), fs, TelemetryCsv, TELEMETRY_MAX)
    {
      LogSample(values);
      Enqueue(json);
    }

    method LogSample(values: seq<Text>)
      requires Valid() && RowValues(values)
      modifies `fs, `header, `rows
      ensures Valid() && Queue() == old(Queue()) && Full(fs, Remote, REMOTE_MAX) == Full(old(fs), Remote, REMOTE_MAX)
      ensures rows == if Full(old(fs), Telemetry, TELEMETRY_MAX) then [values] else old(rows) + [values]
      ensures Same(old(fs), fs, RemoteNdjson) && Replaces(old(fs), fs, TelemetryCsv, TELEMETRY_MAX)
    {
      ghost var was := fs;
      AppendRow(values);
      SameText(was, fs, RemoteNdjson, REMOTE_MAX);
    }

    method AppendRow(values: seq<Text>)
      requires Kept() && RowValues(values)
      modifies `fs, `header, `rows
      ensures Kept() && Same(old(fs), fs, RemoteNdjson)
      ensures rows == if Full(old(fs), Telemetry, TELEMETRY_MAX) then [values] else old(rows) + [values]
      ensures Replaces(old(fs), fs, TelemetryCsv, TELEMETRY_MAX)
    {
      ghost var full, before := Full(fs, Telemetry, TELEMETRY_MAX), rows;
      RowAppended(header, rows, values);
      RowAppended(false, [], values);
      AppendLine(TelemetryCsv, Joined(values), TELEMETRY_MAX);
      header, rows := header && !full, if full then [values] else rows + [values];
      assert [] + [values] == [values] && Printed(FileLines(false, [])) == [];
    }

    static lemma SameText(was: map<File, Text>, now: map<File, Text>, name: Name, maximum: nat)
      requires Same(was, now, name)
      ensures TextOf(now, Log(name)) == TextOf(was, Log(name)) && Full(now, Log(name), maximum) == Full(was, Log(name), maximum)
    {}

    /** The files of this log, the previous one included, are as they were. */
    static ghost predicate Same(was: map<File, Text>, now: map<File, Text>, name: Name) {
      Held(was, now, Log(name)) && Held(was, now, Previous(name))
    }

    static ghost predicate Held(was: map<File, Text>, now: map<File, Text>, f: File) {
      (f in now <==> f in was) && (f in now ==> now[f] == was[f])
    }

    method Enqueue(json: Text)
      requires Valid() && Tight(json)
      modifies `fs, `recorded, `gone
      ensures Valid() && recorded == old(recorded) + [json]
      ensures Full(old(fs), Remote, REMOTE_MAX) ==>
                gone == old(gone) + Sent(old(Queue()), RotatedOut) && Queue() == [json]
      ensures !Full(old(fs), Remote, REMOTE_MAX) ==> gone == old(gone) && Queue() == old(Queue()) + [json]
      ensures Same(old(fs), fs, TelemetryCsv) && Replaces(old(fs), fs, RemoteNdjson, REMOTE_MAX)
    {
      ghost var was := fs;
      AppendItem(json);
      SameText(was, fs, TelemetryCsv, TELEMETRY_MAX);
    }

    method AppendItem(json: Text)
      requires Accounted() && Tight(json)
      modifies `fs, `recorded, `gone
      ensures Accounted() && recorded == old(recorded) + [json] && Same(old(fs), fs, TelemetryCsv)
      ensures Full(old(fs), Remote, REMOTE_MAX) ==>
                gone == old(gone) + Sent(old(Queue()), RotatedOut) && Queue() == [json]
      ensures !Full(old(fs), Remote, REMOTE_MAX) ==> gone == old(gone) && Queue() == old(Queue()) + [json]
      ensures Replaces(old(fs), fs, RemoteNdjson, REMOTE_MAX)
    {
      ghost var full := Full(fs, Remote, REMOTE_MAX);
      ghost var text := if full then [] else TextOf(fs, Remote);
      TurnOut(full, text);
      AppendAdds(text, json);
      AppendLine(RemoteNdjson, json, REMOTE_MAX);
      recorded := recorded + [json];
      Regroup(LinesOf(gone), json, Items(Raw(text)));
    }

    /** A full queue goes out with its file; the account moves with it. */
    ghost method TurnOut(full: bool, text: Text)
      requires Accounted() && text == if full then [] else TextOf(fs, Remote)
      modifies `gone
      ensures Clean(text) && recorded == LinesOf(gone) + Items(Raw(text))
      ensures gone == if full then old(gone) + Sent(Queue(), RotatedOut) else old(gone)
    {
      if full {
        Account(gone, Queue(), Queue(), RotatedOut);
        gone := gone + Sent(Queue(), RotatedOut);
      }
    }

    // ---- reading line by line -----------------------------------------------------------------

    /** `readStringUntil('\n')` at a position, and where it leaves off. */
    method ReadLine(f: Text, pos: nat) returns (line: Text, next: nat)
      requires pos < |f|
      ensures pos < next <= |f| && Raw(f[pos..]) == [line] + Raw(f[next..])
    {
      var k := IndexOf(f[pos..], '\n');
      line := f[pos..pos + k];
      next := if pos + k == |f| then |f| else pos + k + 1;
      assert f[pos..][..k] == line;
      if pos + k < |f| { assert f[pos..][k + 1..] == f[next..]; } else { assert f[next..] == [] && line == f[pos..]; }
    }

    method NextRemoteBatch(maxItems: nat) returns (json: Text, ghost batch: seq<Text>, itemCount: nat)
      ensures var queued := Items(Raw(TextOf(fs, Remote)));
              var next := if mounted then queued[..Min(maxItems, |queued|)] else [];
              batch == next && json == ['['] + Joined(next) + [']'] && itemCount == |next|
    {
      itemCount, batch := 0, [];
      if !mounted || Remote !in fs { return ['[', ']'], [], 0; }
      var file := fs[Remote];
      var pos, text := 0, [];
      assert file[0..] == file;
      while pos < |file| && itemCount < maxItems
        invariant pos <= |file| && itemCount == |batch| <= maxItems && text == Joined(batch)
        invariant batch + ItemsFrom(file, pos) == ItemsFrom(file, 0)
        decreases |file| - pos
      {
        var line, next := ReadItem(file, pos);
        pos := next;
        if line == [] { continue; }
        JoinedSnoc(batch, line);
        if itemCount > 0 { text := text + [',']; }
        itemCount := itemCount + 1;
        text := text + line;
        Regroup(batch, line, ItemsFrom(file, pos));
        batch := batch + [line];
      }
      BatchTaken(file, batch, pos, maxItems);
      json := ['['] + text + [']'];
    }

    static lemma Regroup(a: seq<Text>, x: Text, b: seq<Text>)
      ensures a + ([x] + b) == a + [x] + b
    {}

    static lemma BatchTaken(file: Text, batch: seq<Text>, pos: nat, maxItems: nat)
      requires pos <= |file| && batch + ItemsFrom(file, pos) == ItemsFrom(file, 0)
      requires |batch| <= maxItems && (pos < |file| ==> |batch| == maxItems)
      ensures batch == Items(Raw(file))[..Min(maxItems, |Items(Raw(file))|)]
    {
      assert file[0..] == file && file[|file|..] == [];
    }

    static ghost function ItemsFrom(f: Text, pos: nat): seq<Text>
      requires pos <= |f|
    {
      Items(Raw(f[pos..]))
    }

    /** A line, trimmed. */
    method ReadItem(f: Text, pos: nat) returns (line: Text, next: nat)
      requires pos < |f|
      ensures pos < next <= |f|
      ensures line == [] ==> ItemsFrom(f, pos) == ItemsFrom(f, next)
      ensures line != [] ==> ItemsFrom(f, pos) == [line] + ItemsFrom(f, next)
    {
      line, next := ReadLine(f, pos);
      line := Trim(line);
    }

    method AcknowledgeRemoteBatch(itemCount: nat) returns (ok: bool)
      modifies `fs
      ensures ok == (!mounted || itemCount == 0 || Remote in old(fs)) && Same(old(fs), fs, TelemetryCsv)
      ensures !mounted || itemCount == 0 ==> fs == old(fs)
      ensures mounted && itemCount > 0 && Remote !in old(fs) ==> Remote !in fs
      ensures mounted && itemCount > 0 && Remote in old(fs) ==>
                Remote in fs && fs[Remote] == Acked(old(fs)[Remote], itemCount)
    {
      if !mounted || itemCount == 0 { return true; }
      fs := fs[RemoteTmp := []];
      if Remote !in fs { return false; }
      var output := Reprint(fs[Remote], itemCount);
      Replace(output);
      ok := true;
    }

    /** The loop: the first lines are passed over, the others printed. */
    method Reprint(input: Text, itemCount: nat) returns (output: Text)
      requires itemCount > 0
      ensures output == Acked(input, itemCount)
    {
      output := [];
      var consumed, pos := 0, 0;
      ghost var goal := PrintStart(input, itemCount);
      while pos < |input|
        invariant pos <= |input| && consumed <= itemCount && ToPrint(output, input, pos, itemCount - consumed, goal)
        decreases |input| - pos
      {
        var line, next := ReadLine(input, pos);
        ghost var n, printed := PrintStep(output, input, pos, line, next, itemCount - consumed, goal);
        pos := next;
        if line != [] && consumed < itemCount {
          consumed := consumed + 1;
          continue;
        }
        if line != [] { output := output + (line + CRLF); }
      }
      PrintDone(output, input, itemCount - consumed, goal);
    }

    /** What is printed, with what is still to come, is this text. */
    static ghost predicate ToPrint(output: Text, f: Text, pos: nat, n: nat, goal: Text)
      requires pos <= |f|
    {
      output + Printed(Left(f, pos, n)) == goal
    }

    static lemma PrintStart(f: Text, n: nat) returns (goal: Text)
      ensures goal == Acked(f, n) && ToPrint([], f, 0, n, goal)
    {
      goal := Acked(f, n);
      assert f[0..] == f;
    }

    static lemma PrintDone(output: Text, f: Text, n: nat, goal: Text)
      requires ToPrint(output, f, |f|, n, goal)
      ensures output == goal
    {
      assert f[|f|..] == [];
    }

    static lemma PrintStep(output: Text, f: Text, pos: nat, line: Text, next: nat, n: nat, goal: Text)
      returns (n': nat, output': Text)
      requires pos < next <= |f| && Raw(f[pos..]) == [line] + Raw(f[next..]) && ToPrint(output, f, pos, n, goal)
      ensures ToPrint(output', f, next, n', goal)
      ensures n' == if line != [] && n > 0 then n - 1 else n
      ensures output' == if line != [] && n == 0 then output + (line + CRLF) else output
    {
      n' := if line != [] && n > 0 then n - 1 else n;
      output' := if line != [] && n == 0 then output + (line + CRLF) else output;
      LeftStep(f, pos, line, next, n);
      Assoc(output, line + CRLF, Printed(Left(f, next, n)));
    }

    /** The scratch file is written, and takes the place of the queue. */
    method Replace(output: Text)
      modifies `fs
      ensures Remote in fs && fs[Remote] == output && Same(old(fs), fs, TelemetryCsv)
    {
      fs := fs[RemoteTmp := output];
      fs := fs - {Remote};
      fs := fs[Remote := fs[RemoteTmp]] - {RemoteTmp};
    }

    /** The lines that are still to be printed when n more are to be dropped. */
    static ghost function Left(f: Text, pos: nat, n: nat): seq<Text>
      requires pos <= |f|
    {
      var ls := NonEmpty(Raw(f[pos..]));
      ls[Min(n, |ls|)..]
    }

    static lemma LeftStep(f: Text, pos: nat, line: Text, next: nat, n: nat)
      requires pos < next <= |f| && Raw(f[pos..]) == [line] + Raw(f[next..])
      ensures line == [] ==> Left(f, pos, n) == Left(f, next, n)
      ensures line != [] && n > 0 ==> Left(f, pos, n) == Left(f, next, n - 1)
      ensures line != [] && n == 0 ==> Printed(Left(f, pos, n)) == line + CRLF + Printed(Left(f, next, n))
    {
      var ls := NonEmpty(Raw(f[next..]));
      assert NonEmpty(Raw(f[pos..])) == (if line == [] then [] else [line]) + ls;
      if line != [] {
        assert ([line] + ls)[0..] == [line] + ls && ([line] + ls)[1..] == ls;
      }
    }

    /**
     * `publishNextBatch`: up to eight samples are posted; an answer in the 200s takes
     * exactly these off the queue, anything else leaves it as it was.
     */
    method PublishNextBatch(begun: bool, status: int) returns (ok: bool, ghost posted: seq<Text>)
      requires Valid()
      modifies this
      ensures Valid() && recorded == old(recorded) && mounted == old(mounted)
      ensures posted == if mounted then old(Queue())[..Min(8, |old(Queue())|)] else []
      ensures var answered := posted != [] && begun && 200 <= status < 300;
              && (answered ==> ok && gone == old(gone) + Sent(posted, Delivered) && Queue() == old(Queue())[|posted|..])
              && (!answered ==> ok == (posted == []) && gone == old(gone) && fs == old(fs))
    {
      var json, batch, itemCount := NextRemoteBatch(BATCH);
      posted := batch;
      if itemCount == 0 { return true, posted; }
      if !begun { return false, posted; }
      if 200 <= status < 300 {
        ok := Accepted(posted, itemCount);
        return;
      }
      ok := false;
    }

    /** The batch was taken: acknowledge it. */
    method Accepted(ghost posted: seq<Text>, itemCount: nat) returns (ok: bool)
      requires Valid() && mounted && Remote in fs && itemCount == |posted| > 0 && posted <= Queue()
      modifies `fs, `gone
      ensures Valid() && ok && gone == old(gone) + Sent(posted, Delivered) && Queue() == old(Queue())[|posted|..]
    {
      ghost var text, queue := fs[Remote], Queue();
      AckClean(text, itemCount);
      Account(gone, queue, posted, Delivered);
      gone := gone + Sent(posted, Delivered);
      ok := AcknowledgeRemoteBatch(itemCount);
      assert fs[Remote] == Acked(text, itemCount);
    }

    /** Moving the front of the queue to what is gone changes nothing in the account. */
    static lemma Account(gone: seq<(Text, Fate)>, queue: seq<Text>, front: seq<Text>, fate: Fate)
      requires front <= queue
      ensures queue == front + queue[|front|..]
      ensures LinesOf(gone + Sent(front, fate)) + queue[|front|..] == LinesOf(gone) + queue
    {
      LinesOfSent(gone, front, fate);
    }

    // ---- history -----------------------------------------------------------------------------

    /** The first seven commas of a line cut it into eight values. */
    method Separate(line: Text) returns (values: Option<seq<Text>>)
      ensures values == Cut(line, 7)
    {
      var found, start, vs := 0, 0, [];
      CutStarts(line, 7);
      while found < 7
        invariant 0 <= found <= 7 && 0 <= start <= |line|
        invariant Cut(line, 7) == CutRest(vs, line, start, 7 - found)
        decreases 7 - found
      {
        var k := start + IndexOf(line[start..], ',');
        CutAt(line, start, k, 7 - found, vs);
        if k == |line| { return None; }
        vs := vs + [line[start..k]];
        start := k + 1;
        found := found + 1;
      }
      values := Some(vs + [line[start..]]);
    }

    /** What cutting comes to with these values cut off and n commas to go. */
    static ghost function CutRest(vs: seq<Text>, line: Text, start: nat, n: nat): Option<seq<Text>>
      requires start <= |line|
    {
      match Cut(line[start..], n)
      case None => None
      case Some(rest) => Some(vs + rest)
    }

    static lemma CutStarts(line: Text, n: nat)
      ensures Cut(line, n) == CutRest([], line, 0, n)
    {
      assert line[0..] == line;
      if Cut(line, n).Some? { assert [] + Cut(line, n).value == Cut(line, n).value; }
    }

    static lemma CutAt(line: Text, start: nat, k: nat, n: nat, vs: seq<Text>)
      requires start <= k <= |line| && k - start == IndexOf(line[start..], ',') && n > 0
      ensures k == |line| ==> CutRest(vs, line, start, n) == None
      ensures k < |line| ==> CutRest(vs, line, start, n) == CutRest(vs + [line[start..k]], line, k + 1, n - 1)
    {
      if k < |line| {
        var v, rest := line[start..k], Cut(line[k + 1..], n - 1);
        assert line[start..][..k - start] == v && line[start..][k - start + 1..] == line[k + 1..];
        if rest.Some? { assert vs + ([v] + rest.value) == vs + [v] + rest.value; }
      }
    }

    method CountLines(file: Text) returns (total: nat)
      ensures total == |Raw(file)|
    {
      var pos := 0;
      total := 0;
      assert file[0..] == file;
      while pos < |file|
        invariant pos <= |file| && total + |Raw(file[pos..])| == |Raw(file)|
        decreases |file| - pos
      {
        var _, next := ReadLine(file, pos);
        pos := next;
        total := total + 1;
      }
    }

    /** The samples `historyJson` shows: the last ones, so many at most. */
    static ghost function LastRows(rows: seq<seq<Text>>, limit: nat): (r: seq<seq<Text>>)
      ensures |r| == Min(limit, |rows|) && r == rows[|rows| - |r|..]
      ensures (forall vs :: vs in rows ==> RowValues(vs)) ==> forall vs :: vs in r ==> |vs| == 8
    {
      var r := rows[if |rows| > limit then |rows| - limit else 0..];
      assert forall vs :: vs in r ==> vs in rows;
      r
    }

    static ghost function ShownRows(rows: seq<seq<Text>>, limit: nat): Text
      requires forall vs :: vs in rows ==> RowValues(vs)
    {
      JsonList(LastRows(rows, limit), false)
    }

    /** A list of the last samples the history holds, with the values that were recorded. */
    method HistoryJson(limit: nat) returns (json: Text)
      requires Kept()
      ensures json == ['['] + (if mounted then ShownRows(rows, limit) else []) + [']']
    {
      ghost var shown := HistoryShown(TextOf(fs, Telemetry), header, rows, limit);
      json := TailLinesJson(limit, shown);
    }

    static lemma HistoryShown(text: Text, header: bool, rows: seq<seq<Text>>, limit: nat) returns (json: Text)
      requires KeptAs(text, header, rows)
      ensures json == Render(Last(Raw(text), limit), false) && json == ShownRows(rows, limit)
    {
      HistoryReadsBack(header, rows, limit, LastRows(rows, limit));
      json := ShownRows(rows, limit);
    }

    /** `tailLinesJson` on the history. */
    method TailLinesJson(limit: nat, ghost shown: Text) returns (json: Text)
      requires shown == Render(Last(Raw(TextOf(fs, Telemetry)), limit), false)
      ensures json == ['['] + (if mounted then shown else []) + [']']
    {
      if !mounted || Telemetry !in fs { return ['[', ']']; }
      var file := fs[Telemetry];
      var total := CountLines(file);
      var skip := if total > limit then total - limit else 0;
      LastFrom(Raw(file), limit, skip);
      var text := RowsFrom(file, skip);
      json := ['['] + text + [']'];
    }

    static lemma LastFrom(ls: seq<Text>, limit: nat, skip: nat)
      requires skip == if |ls| > limit then |ls| - limit else 0
      ensures skip <= |ls| && Last(ls, limit) == ls[skip..]
    {
      assert ls[0..] == ls;
    }

    /** The second pass: the lines behind the first `skip`. */
    method RowsFrom(file: Text, skip: nat) returns (json: Text)
      requires skip <= |Raw(file)|
      ensures json == Render(Raw(file)[skip..], false)
    {
      var pos, index, emitted := 0, 0, 0;
      json := [];
      ghost var goal := Render(Raw(file)[skip..], false);
      AllBehind(file, skip);
      while pos < |file|
        invariant pos <= |file| && 0 <= emitted
        invariant json + Behind(file, pos, Max(skip - index, 0), emitted > 0) == goal
        decreases |file| - pos
      {
        var raw, next := ReadLine(file, pos);
        ghost var at := pos;
        pos := next;
        index := index + 1;
        if index - 1 < skip {
          Skips(file, at, raw, next, skip - index + 1, emitted > 0, json, goal);
          continue;
        }
        ghost var more := emitted > 0;
        var text;
        text, emitted := WriteRow(raw, emitted);
        Writes(file, at, raw, next, more, json, text, goal);
        json := json + text;
      }
      NothingBehind(file, json, Max(skip - index, 0), emitted > 0);
    }

    static lemma AllBehind(file: Text, skip: nat)
      requires skip <= |Raw(file)|
      ensures [] + Behind(file, 0, skip, false) == Render(Raw(file)[skip..], false)
    {
      assert file[0..] == file;
    }

    static lemma NothingBehind(file: Text, json: Text, n: nat, more: bool)
      ensures json + Behind(file, |file|, n, more) == json
    {
      assert file[|file|..] == [];
    }

    static lemma Skips(f: Text, pos: nat, raw: Text, next: nat, n: nat, more: bool, json: Text, goal: Text)
      requires pos < next <= |f| && Raw(f[pos..]) == [raw] + Raw(f[next..]) && n > 0
      requires json + Behind(f, pos, n, more) == goal
      ensures json + Behind(f, next, n - 1, more) == goal
    {
      BehindStep(f, pos, raw, next, n, more);
    }

    static lemma Writes(f: Text, pos: nat, raw: Text, next: nat, more: bool, json: Text, text: Text, goal: Text)
      requires pos < next <= |f| && Raw(f[pos..]) == [raw] + Raw(f[next..])
      requires text == Piece(raw, more) && json + Behind(f, pos, 0, more) == goal
      ensures json + text + Behind(f, next, 0, more || Row(raw).Some?) == goal
    {
      BehindStep(f, pos, raw, next, 0, more);
      Assoc(json, text, Behind(f, next, 0, more || Row(raw).Some?));
    }

    /** The loop body for a line that is not skipped. */
    method WriteRow(raw: Text, emitted: nat) returns (text: Text, emitted': nat)
      ensures text == Piece(raw, emitted > 0)
      ensures emitted' == if Row(raw).Some? then emitted + 1 else emitted
    {
      RowHasEight(raw);
      text, emitted' := [], emitted;
      var line := Trim(raw);
      if line == [] { return; }
      if HEADER <= line { return; }
      if emitted' > 0 { text := [',']; }
      emitted' := emitted' + 1;
      var values := Separate(line);
      if values.None? {
        emitted' := emitted' - 1;
        return;
      }
      text := text + RowJson(values.value);
    }

    /** What is still to be written from a position on when n more lines are to be skipped. */
    static ghost function Behind(f: Text, pos: nat, n: nat, more: bool): Text
      requires pos <= |f|
    {
      var ls := Raw(f[pos..]);
      Render(ls[Min(n, |ls|)..], more)
    }

    static lemma BehindStep(f: Text, pos: nat, raw: Text, next: nat, n: nat, more: bool)
      requires pos < next <= |f| && Raw(f[pos..]) == [raw] + Raw(f[next..])
      ensures n > 0 ==> Behind(f, pos, n, more) == Behind(f, next, n - 1, more)
      ensures n == 0 ==> Behind(f, pos, 0, more) == Piece(raw, more) + Behind(f, next, 0, more || Row(raw).Some?)
    {
      var ls := Raw(f[next..]);
      assert ([raw] + ls)[1..] == ls && ([raw] + ls)[0..] == [raw] + ls && ls[0..] == ls;
      if n > 0 { assert ([raw] + ls)[Min(n, |ls| + 1)..] == ls[Min(n - 1, |ls|)..]; }
    }
  }

  const SYNC_INTERVAL := 300000

  class RemoteSync {
    var lastAttemptAt: UInt32
    const storage: StorageManager

    constructor (storage: StorageManager)
      ensures this.storage == storage && lastAttemptAt == 0
    {
      this.storage, lastAttemptAt := storage, 0;
    }

    /**
     * One attempt an interval, whatever comes of it.  One answered in the 200s takes the batch
     * posted off the queue as delivered; any other leaves the files alone.
     */
    method Loop(enabled: bool, online: bool, now: UInt32, begun: bool, status: int)
      requires storage.Valid()
      modifies this, storage
      ensures storage.Valid() && storage.recorded == old(storage.recorded) && old(storage.gone) <= storage.gone
      ensures var due := enabled && online && (now - old(lastAttemptAt)) % WRAP >= SYNC_INTERVAL;
              var queue := old(storage.Queue());
              var posted := if old(storage.mounted) then queue[..Min(8, |queue|)] else [];
              && lastAttemptAt == (if due then now else old(lastAttemptAt))
              && (if due && posted != [] && begun && 200 <= status < 300
                  then storage.gone == old(storage.gone) + Sent(posted, Delivered) && storage.Queue() == queue[|posted|..]
                  else storage.gone == old(storage.gone) && storage.fs == old(storage.fs))
    {
      if !enabled || !online { return; }
      if (now - lastAttemptAt) % WRAP < SYNC_INTERVAL { return; }
      lastAttemptAt := now;
      var _, _ := storage.PublishNextBatch(begun, status);
    }
  }
}
