/** Study memory: an append-only log of records, a ledger derived from it, and bounded recalls. */
module Memory {
  import opened Prelude
  import opened Text

  // `data` is the JSON text of the record's data object.
  datatype Record = Record(
    id: string,
    timestamp: string,
    tool: string,
    casePath: string,
    bus: Option<int>,
    connectionType: Option<string>,
    mw: Option<real>,
    status: string,
    summary: string,
    data: string)

  /** A line of the log file: blank, not a record at all, or the fields of one. */
  datatype Line = Blank | Malformed | Payload(record: Record)

  datatype Error = BadArgument(name: string) | BadLine(number: nat)

  // ---- reading the log ----

  predicate Acceptable(r: Record) {
    Strip(r.id) != "" && Strip(r.timestamp) != "" && Strip(r.tool) != "" && Strip(r.casePath) != ""
    && Strip(r.status) != "" && Strip(r.summary) != ""
  }

  function Stripped(r: Record): Record {
    r.(id := Strip(r.id), timestamp := Strip(r.timestamp), tool := Strip(r.tool), casePath := Strip(r.casePath),
      connectionType := if r.connectionType.Some? then Some(Strip(r.connectionType.value)) else None,
      status := Strip(r.status), summary := Strip(r.summary))
  }

  predicate Readable(line: Line) { line.Blank? || (line.Payload? && Acceptable(line.record)) }

  predicate IsPayload(line: Line) { line.Payload? }

  function RecordIn(line: Line): Record {
    if line.Payload? then Stripped(line.record) else Record("", "", "", "", None, None, None, "", "", "")
  }

  /** The records of a readable log, or the number of the first line that cannot be read. */
  function Loaded(lines: seq<Line>): Result<seq<Record>, Error> {
    if lines == [] then Ok([])
    else
      var n := |lines| - 1;
      match Loaded(lines[..n])
      case Err(e) => Err(e)
      case Ok(records) =>
        if !Readable(lines[n]) then Err(BadLine(n + 1))
        else Ok(if lines[n].Blank? then records else records + [Stripped(lines[n].record)])
  }

  /** Loading succeeds exactly when every line is readable; it then gives the payloads in order, and
      otherwise points at the first bad line. */
  lemma {:induction false} LoadedMeaning(lines: seq<Line>)
    ensures Loaded(lines).Ok? <==> forall line | line in lines :: Readable(line)
    ensures Loaded(lines).Ok? ==> Loaded(lines).value == Map(Filter(lines, IsPayload), RecordIn)
    ensures Loaded(lines).Err? ==> exists n: nat :: FirstBad(lines, n) && Loaded(lines).error == BadLine(n + 1)
  {
    if lines != [] {
      var n := |lines| - 1;
      var front := lines[..n];
      assert lines == front + [lines[n]];
      LoadedMeaning(front);
      MapFilterSnoc(front, lines[n], IsPayload, RecordIn);
      if Loaded(front).Err? {
        var k: nat :| FirstBad(front, k) && Loaded(front).error == BadLine(k + 1);
        assert FirstBad(lines, k);
        assert lines[k] in lines;
      } else if Loaded(lines).Err? {
        assert FirstBad(lines, n) by {
          assert forall i | 0 <= i < n :: front[i] in front;
        }
      } else {
        var kept := Map(Filter(front, IsPayload), RecordIn);
        assert kept + [] == kept;
      }
    }
  }

  ghost predicate FirstBad(lines: seq<Line>, n: nat) {
    n < |lines| && !Readable(lines[n]) && forall i | 0 <= i < n :: Readable(lines[i])
  }

  // ---- what is appended is what is read ----

  /** Every required field is trimmed text, and the connection type has no outer blanks. */
  predicate TrimmedRecord(r: Record) {
    Trimmed(r.id) && Trimmed(r.timestamp) && Trimmed(r.tool) && Trimmed(r.casePath) && Trimmed(r.status) && Trimmed(r.summary)
    && (r.connectionType.Some? && r.connectionType.value != "" ==> Trimmed(r.connectionType.value))
  }

  lemma TrimmedIsExact(r: Record)
    ensures TrimmedRecord(r) <==> Acceptable(r) && Stripped(r) == r
  {
    StripFixed(r.id);
    StripFixed(r.timestamp);
    StripFixed(r.tool);
    StripFixed(r.casePath);
    StripFixed(r.status);
    StripFixed(r.summary);
    if r.connectionType.Some? {
      StripFixed(r.connectionType.value);
    }
  }

  /** An appended record is read back as itself exactly when its text fields are trimmed. */
  lemma AppendRoundTrip(lines: seq<Line>, r: Record)
    requires Loaded(lines).Ok?
    ensures Loaded(lines + [Payload(r)]) == Ok(Loaded(lines).value + [r]) <==> TrimmedRecord(r)
  {
    TrimmedIsExact(r);
    assert (lines + [Payload(r)])[..|lines|] == lines;
    var before := Loaded(lines).value;
    assert (before + [Stripped(r)])[|before|] == Stripped(r) && (before + [r])[|before|] == r;
  }

  function ToLine(r: Record): Line { Payload(r) }

  /** A run of appends to an empty store is a log that reads back as the appended records, in order. */
  lemma {:induction false} AppendsReadBack(records: seq<Record>)
    requires forall r | r in records :: TrimmedRecord(r)
    ensures Loaded(Map(records, ToLine)) == Ok(records)
  {
    if records != [] {
      var n := |records| - 1;
      var front, last := records[..n], records[n];
      assert records == front + [last];
      AppendsReadBack(front);
      MapSnoc(front, last, ToLine);
      AppendRoundTrip(Map(front, ToLine), last);
    }
  }

  /** One appended record with a blank required field makes every later load fail. */
  lemma BlankRecordPoisonsLog(lines: seq<Line>, r: Record, later: seq<Line>)
    requires !Acceptable(r)
    ensures Loaded(lines + [Payload(r)] + later).Err?
  {
    var all := lines + [Payload(r)] + later;
    assert all[|lines|] == Payload(r) && !Readable(all[|lines|]);
    LoadedMeaning(all);
  }

  // ---- recalls ----

  /** Newest first: timestamps compared as strings, in reverse. */
  predicate Newest(a: Record, b: Record) { LexLe(b.timestamp, a.timestamp) }

  function Recall(records: seq<Record>, matches: Record -> bool, limit: int): seq<Record> {
    Take(Sort(Filter(records, matches), Newest), limit)
  }

  lemma NewestPreorder()
    ensures TotalPreorder(Newest)
  {
    forall a: Record, b: Record ensures Newest(a, b) || Newest(b, a) {
      LexTotal(a.timestamp, b.timestamp);
    }
    forall a: Record, b: Record, c: Record | Newest(a, b) && Newest(b, c) ensures Newest(a, c) {
      LexTransitive(c.timestamp, b.timestamp, a.timestamp);
    }
  }

  /** A recall is the newest `limit` matches (all when negative): in order, none missed that is strictly
      newer than one returned. */
  lemma RecallIsNewest(records: seq<Record>, matches: Record -> bool, limit: int)
    ensures var all, r := Filter(records, matches), Recall(records, matches, limit);
      && |r| == (if limit < 0 then |all| else Min(limit, |all|))
      && multiset(r) <= multiset(all)
      && Ordered(r, Newest)
      && forall x, y | x in multiset(all) - multiset(r) && y in r :: Newest(y, x)
  {
    NewestPreorder();
    TakeSorted(Filter(records, matches), Newest, limit);
  }

  /** On the timestamps: none returned is newer than one returned before it, and none left out newer than one returned. */
  lemma RecallTimestamps(records: seq<Record>, matches: Record -> bool, limit: int, i: nat, j: nat, missed: Record)
    requires i <= j < |Recall(records, matches, limit)|
    ensures var r := Recall(records, matches, limit);
      && LexLe(r[j].timestamp, r[i].timestamp) && r[i] in records && matches(r[i])
      && (missed in records && matches(missed) && missed !in r ==> LexLe(missed.timestamp, r[i].timestamp))
  {
    var all, r := Filter(records, matches), Recall(records, matches, limit);
    RecallIsNewest(records, matches, limit);
    LexTotal(r[i].timestamp, r[i].timestamp);
    assert i < j ==> Newest(r[i], r[j]);
    assert r[i] in multiset(r) && r[i] in multiset(all);
    if missed in all && missed !in r {
      assert missed in multiset(all) && missed !in multiset(r);
      assert Newest(r[i], missed);
    }
  }

  /** A recall returns matching records only, and while it is short of its limit all of them. */
  lemma RecallMembers(records: seq<Record>, matches: Record -> bool, limit: int, r: Record)
    ensures r in Recall(records, matches, limit) ==> r in records && matches(r)
    ensures (limit < 0 || |Recall(records, matches, limit)| < limit) && r in records && matches(r) ==> r in Recall(records, matches, limit)
  {
    var sorted := Sort(Filter(records, matches), Newest);
    assert r in Take(sorted, limit) ==> r in sorted;
  }

  function StampedAt(t: string): Record -> bool { (r: Record) => r.timestamp == t }

  function MatchStampedAt(matches: Record -> bool, t: string): Record -> bool { (r: Record) => matches(r) && r.timestamp == t }

  /** Matches with the same timestamp come in the order they were appended, and are cut from the end. */
  lemma RecallTiesKeepOrder(records: seq<Record>, matches: Record -> bool, limit: int, t: string)
    ensures Filter(Recall(records, matches, limit), StampedAt(t)) <= Filter(records, MatchStampedAt(matches, t))
  {
    LexTotal(t, t);
    TakeStable(Filter(records, matches), Newest, limit, StampedAt(t));
    FilterFilter(records, matches, StampedAt(t), MatchStampedAt(matches, t));
  }

  // ---- the ledger ----

  const ESCAPED_BAR := "\\|"

  /** Pipes escaped by a backslash, line breaks turned into blanks. */
  function Cell(s: string): string { Replace(Replace(s, '|', ESCAPED_BAR), '\n', " ") }

  function Join(parts: seq<string>, separator: string): string {
    if parts == [] then ""
    else if |parts| == 1 then parts[0]
    else Join(parts[..|parts| - 1], separator) + separator + parts[|parts| - 1]
  }

  function Row(cells: seq<string>): string { "| " + Join(cells, " | ") + " |" }

  // The texts of a row's cells before escaping.
  function Fields(format: real -> string, r: Record): (fields: seq<string>)
    ensures |fields| == 8
  {
    [r.timestamp, r.tool, r.casePath,
     if r.bus.None? then "" else Str(r.bus.value),
     if r.connectionType.None? then "" else r.connectionType.value,
     if r.mw.None? then "unknown" else format(r.mw.value),
     r.status, r.summary]
  }

  function RecordRow(format: real -> string): Record -> string {
    (r: Record) => Row(Map(Fields(format, r), Cell))
  }

  function LedgerRows(format: real -> string, records: seq<Record>): seq<string> {
    Map(Sort(records, Newest), RecordRow(format))
  }

  const CAVEAT :=
    "Memory entries below come from earlier simulations recorded by this local Mini Grid-Mind store. Treat them as supplementary session context, not as independent historical studies, and prefer fresh simulations for new quantitative questions."

  function Header(generatedAt: string): seq<string> {
    ["# Mini Grid-Mind Study Ledger", "", "Generated UTC: " + generatedAt, "", CAVEAT, "",
     "| Time UTC | Tool | Case | Bus | Type | MW | Status | Summary |",
     "| --- | --- | --- | --- | --- | --- | --- | --- |"]
  }

  // ---- reading a row back ----

  /** The row cut at every pipe not preceded by a backslash. */
  function Pieces(s: string): (r: seq<string>)
    ensures r != []
  {
    if s == "" then [""]
    else
      var k := |s| - 1;
      var before := Pieces(s[..k]);
      if s[k] == '|' && (k == 0 || s[k - 1] != '\\') then before + [""]
      else ExtendLast(before, [s[k]])
  }

  predicate Sealed(s: string) { forall i | 0 <= i < |s| && s[i] == '|' :: i > 0 && s[i - 1] == '\\' }

  /** Text whose pipes are all escaped stays in one piece. */
  lemma {:induction false} PiecesSealed(s: string, t: string)
    requires Sealed(t)
    ensures Pieces(s + t) == ExtendLast(Pieces(s), t)
  {
    var p := Pieces(s);
    if t == "" {
      assert s + t == s && p[|p| - 1] + t == p[|p| - 1];
    } else {
      var k := |t| - 1;
      PiecesSealed(s, t[..k]);
      assert (s + t)[..|s + t| - 1] == s + t[..k];
      assert p[|p| - 1] + t == p[|p| - 1] + t[..k] + [t[k]];
    }
  }

  lemma PiecesBar(s: string)
    requires s == "" || s[|s| - 1] != '\\'
    ensures Pieces(s + "|") == Pieces(s) + [""]
  {
    assert (s + "|")[..|s|] == s;
  }

  lemma {:induction false} ReplaceSeals(s: string)
    ensures Sealed(Replace(s, '|', ESCAPED_BAR))
  {
    if s != "" {
      ReplaceSeals(s[..|s| - 1]);
    }
  }

  lemma {:induction false} ReplaceKeepsSeal(s: string)
    requires Sealed(s)
    ensures Sealed(Replace(s, '\n', " ")) && |Replace(s, '\n', " ")| == |s|
    ensures forall i | 0 <= i < |s| :: Replace(s, '\n', " ")[i] == if s[i] == '\n' then ' ' else s[i]
  {
    if s != "" {
      ReplaceKeepsSeal(s[..|s| - 1]);
    }
  }

  lemma CellSealed(s: string)
    ensures Sealed(" " + Cell(s) + " ")
  {
    ReplaceSeals(s);
    ReplaceKeepsSeal(Replace(s, '|', ESCAPED_BAR));
  }

  function Padded(s: string): string { " " + Cell(s) + " " }

  lemma RowSnoc(cells: seq<string>, c: string)
    ensures cells != [] ==> Row(cells + [c]) == Row(cells) + (" " + c + " ") + "|"
    ensures Row([c]) == "|" + (" " + c + " ") + "|"
  {
    assert (cells + [c])[..|cells|] == cells;
  }

  lemma ExtendFresh(parts: seq<string>, t: string)
    ensures ExtendLast(parts + [""], t) == parts + [t]
  {
    assert "" + t == t;
  }

  lemma PiecesStep(start: string, parts: seq<string>, field: string)
    requires Pieces(start) == parts + [""]
    ensures Pieces(start + Padded(field) + "|") == parts + [Padded(field)] + [""]
  {
    CellSealed(field);
    PiecesSealed(start, Padded(field));
    ExtendFresh(parts, Padded(field));
    PiecesBar(start + Padded(field));
  }

  /** Any fields whatever, pipes, backslashes and line breaks included, make a row that cuts into exactly
      their padded cells between two empty ends. */
  lemma {:induction false} RowHasItsCells(fields: seq<string>)
    requires fields != []
    ensures Pieces(Row(Map(fields, Cell))) == [""] + Map(fields, Padded) + [""]
  {
    var front, last := fields[..|fields| - 1], fields[|fields| - 1];
    assert fields == front + [last];
    MapSnoc(front, last, Cell);
    MapSnoc(front, last, Padded);
    RowSnoc(Map(front, Cell), Cell(last));
    if front == [] {
      PiecesBar("");
      PiecesStep("|", [""], last);
      assert Map(fields, Cell) == [Cell(last)] && Map(fields, Padded) == [Padded(last)];
    } else {
      RowHasItsCells(front);
      PiecesStep(Row(Map(front, Cell)), [""] + Map(front, Padded), last);
      Assoc([""], Map(front, Padded), [Padded(last)]);
    }
  }

  /** Backslashes in front of pipes dropped. */
  function Unescape(s: string): string {
    if s == "" then ""
    else
      var k := |s| - 1;
      if s[k] == '|' && k > 0 && s[k - 1] == '\\' then Unescape(s[..k - 1]) + "|" else Unescape(s[..k]) + [s[k]]
  }

  function Flatten(s: string): string { Replace(s, '\n', " ") }

  lemma UnescapeBar(s: string)
    ensures Unescape(s + ESCAPED_BAR) == Unescape(s) + "|"
  {
    var t := s + ESCAPED_BAR;
    assert t[|t| - 1] == '|' && t[|t| - 2] == '\\' && t[..|t| - 2] == s;
  }

  lemma UnescapeOther(s: string, c: char)
    requires c != '|'
    ensures Unescape(s + [c]) == Unescape(s) + [c]
  {
    assert (s + [c])[..|s|] == s;
  }

  lemma {:induction false} ReplaceSnoc(s: string, c: char, put: string)
    requires s != ""
    ensures Replace(s, c, put) == Replace(s[..|s| - 1], c, put) + (if s[|s| - 1] == c then put else [s[|s| - 1]])
  {
  }

  lemma CellSnoc(s: string)
    requires s != ""
    ensures var last := s[|s| - 1];
      Cell(s) == Cell(s[..|s| - 1]) + (if last == '|' then ESCAPED_BAR else if last == '\n' then " " else [last])
  {
    var front, last := s[..|s| - 1], s[|s| - 1];
    var escaped := if last == '|' then ESCAPED_BAR else [last];
    ReplaceSnoc(s, '|', ESCAPED_BAR);
    ReplaceAppend(Replace(front, '|', ESCAPED_BAR), escaped, '\n', " ");
    assert ESCAPED_BAR[..1] == "\\" && "\\"[..0] == "" && [last][..0] == "";
    assert Replace(escaped, '\n', " ") == if last == '|' then ESCAPED_BAR else if last == '\n' then " " else [last];
  }

  /** Unescaping a cell gives the text back, with line breaks as blanks. */
  lemma {:induction false} CellRoundTrip(s: string)
    ensures Unescape(Cell(s)) == Flatten(s)
  {
    if s != "" {
      var front, last := s[..|s| - 1], s[|s| - 1];
      CellRoundTrip(front);
      CellSnoc(s);
      ReplaceSnoc(s, '\n', " ");
      if last == '|' {
        UnescapeBar(Cell(front));
      } else {
        UnescapeOther(Cell(front), if last == '\n' then ' ' else last);
      }
    }
  }

  /** A ledger row cuts into its eight cells in this order, and each gives back the field it shows. */
  lemma LedgerRowReadsBack(format: real -> string, r: Record, i: nat)
    requires i < 8
    ensures var pieces := Pieces(RecordRow(format)(r));
      var field := [r.timestamp, r.tool, r.casePath, if r.bus.Some? then Str(r.bus.value) else "",
        if r.connectionType.Some? then r.connectionType.value else "", if r.mw.Some? then format(r.mw.value) else "unknown",
        r.status, r.summary][i];
      && |pieces| == 10 && pieces[0] == pieces[9] == ""
      && pieces[i + 1] == " " + Cell(field) + " " && Unescape(Cell(field)) == Flatten(field)
  {
    RowHasItsCells(Fields(format, r));
    CellRoundTrip(Fields(format, r)[i]);
  }

  /** Only line breaks change, each into one blank. */
  lemma {:induction false} FlattenMeaning(s: string)
    ensures |Flatten(s)| == |s| && forall i | 0 <= i < |s| :: Flatten(s)[i] == if s[i] == '\n' then ' ' else s[i]
  {
    if s != "" {
      FlattenMeaning(s[..|s| - 1]);
    }
  }

  /** The ledger lists every record once, newest first, those of one moment in the order of the log. */
  lemma LedgerShows(format: real -> string, records: seq<Record>, t: string) returns (order: seq<Record>)
    ensures multiset(order) == multiset(records) && Filter(order, StampedAt(t)) == Filter(records, StampedAt(t))
    ensures forall i, j | 0 <= i < j < |order| :: LexLe(order[j].timestamp, order[i].timestamp)
    ensures LedgerRows(format, records) == Map(order, RecordRow(format))
  {
    order := Sort(records, Newest);
    NewestPreorder();
    SortOrdered(records, Newest);
    LexTotal(t, t);
    SortStable(records, Newest, StampedAt(t));
    assert forall i, j | 0 <= i < j < |order| :: Newest(order[i], order[j]);
  }

  // ---- the store ----

  function CaseKey(lower: string -> string, casePath: string): string { lower(Strip(casePath)) }

  function Anything(): Record -> bool { (_: Record) => true }

  function OnCase(lower: string -> string, casePath: string): Record -> bool {
    (r: Record) => CaseKey(lower, r.casePath) == CaseKey(lower, casePath)
  }

  function OnBus(lower: string -> string, casePath: string, bus: int): Record -> bool {
    (r: Record) => CaseKey(lower, r.casePath) == CaseKey(lower, casePath) && r.bus == Some(bus)
  }

  function Haystack(lower: string -> string, r: Record): string {
    lower(Join([r.tool, r.casePath, if r.connectionType.None? then "" else r.connectionType.value, r.status, r.summary, r.data], " "))
  }

  /** Mentions every term, on the case when one is given. */
  function Mentions(lower: string -> string, terms: seq<string>, casePath: Option<string>): Record -> bool {
    (r: Record) =>
      (casePath.Some? ==> CaseKey(lower, r.casePath) == CaseKey(lower, casePath.value))
      && forall term | term in terms :: Contains(Haystack(lower, r), term)
  }

  const CAPACITY_TOOL := "find_max_capacity"

  function CapacityRun(lower: string -> string, casePath: Option<string>, bus: Option<int>, connectionType: Option<string>): Record -> bool {
    (r: Record) =>
      r.tool == CAPACITY_TOOL
      && (casePath.Some? ==> CaseKey(lower, r.casePath) == CaseKey(lower, casePath.value))
      && (bus.Some? ==> r.bus == bus)
      && (connectionType.Some? ==> r.connectionType == Some(lower(Strip(connectionType.value))))
  }

  /** What each recall asks of a record. A case is compared by its trimmed path in lower case; a search looks for each of its
      terms in the tool, case, type, status, summary and data in lower case, one blank apart. */
  lemma MatchMeaning(lower: string -> string, casePath: string, bus: int, r: Record)
    ensures Anything()(r)
    ensures OnCase(lower, casePath)(r) <==> lower(Strip(r.casePath)) == lower(Strip(casePath))
    ensures OnBus(lower, casePath, bus)(r) <==> lower(Strip(r.casePath)) == lower(Strip(casePath)) && r.bus == Some(bus)
  {
  }

  lemma SearchMeaning(lower: string -> string, terms: seq<string>, casePath: Option<string>, r: Record)
    ensures var connection := if r.connectionType.Some? then r.connectionType.value else "";
      var text := lower(r.tool + " " + r.casePath + " " + connection + " " + r.status + " " + r.summary + " " + r.data);
      Mentions(lower, terms, casePath)(r) <==>
        (casePath.None? || lower(Strip(r.casePath)) == lower(Strip(casePath.value))) && forall term | term in terms :: Contains(text, term)
  {
    var connection := if r.connectionType.Some? then r.connectionType.value else "";
    JoinSix(r.tool, r.casePath, connection, r.status, r.summary, r.data);
  }

  lemma JoinSnoc(parts: seq<string>, last: string)
    requires parts != []
    ensures Join(parts + [last], " ") == Join(parts, " ") + " " + last
  {
    assert (parts + [last])[..|parts|] == parts;
  }

  lemma JoinSix(a: string, b: string, c: string, d: string, e: string, f: string)
    ensures Join([a, b, c, d, e, f], " ") == a + " " + b + " " + c + " " + d + " " + e + " " + f
  {
    JoinSnoc([a], b);
    JoinSnoc([a, b], c);
    JoinSnoc([a, b, c], d);
    JoinSnoc([a, b, c, d], e);
    JoinSnoc([a, b, c, d, e], f);
    assert [a] + [b] == [a, b] && [a, b] + [c] == [a, b, c] && [a, b, c] + [d] == [a, b, c, d];
    assert [a, b, c, d] + [e] == [a, b, c, d, e] && [a, b, c, d, e] + [f] == [a, b, c, d, e, f];
  }

  /** A capacity recall takes the runs of the capacity search, on the case, bus and connection type where these are given; the
      type asked for is trimmed and put in lower case, the recorded one taken as it is. */
  lemma CapacityRunMeaning(lower: string -> string, casePath: Option<string>, bus: Option<int>, connectionType: Option<string>, r: Record)
    ensures CapacityRun(lower, casePath, bus, connectionType)(r) <==>
      && r.tool == "find_max_capacity"
      && (casePath == None || lower(Strip(r.casePath)) == lower(Strip(casePath.value)))
      && (bus == None || r.bus == bus)
      && (connectionType == None || (r.connectionType.Some? && r.connectionType.value == lower(Strip(connectionType.value))))
  {
  }

  predicate IsBlankOption(s: Option<string>) { s.Some? && Strip(s.value) == "" }

  /** What a recall answers: an argument error, the log's error, or the recall over the records of the log. */
  function Answer(badArgument: Option<string>, log: seq<Line>, matches: Record -> bool, limit: int): Result<seq<Record>, Error> {
    if badArgument.Some? then Err(BadArgument(badArgument.value))
    else
      match Loaded(log)
      case Err(e) => Err(e)
      case Ok(records) => Ok(Recall(records, matches, limit))
  }

  function LedgerText(format: real -> string, generatedAt: string, records: seq<Record>): seq<string> {
    Header(generatedAt) + LedgerRows(format, records)
  }

  class StudyMemoryStore {
    const lower: string -> string
    const format: real -> string
    var log: seq<Line>
    var ledger: Option<seq<string>>

    constructor (lower: string -> string, format: real -> string)
      ensures this.lower == lower && this.format == format && log == [] && ledger == None
    {
      this.lower, this.format := lower, format;
      log, ledger := [], None;
    }

    method LoadRecords() returns (r: Result<seq<Record>, Error>)
      ensures r == Loaded(log)
    {
      var records := [];
      for k := 0 to |log|
        invariant Loaded(log[..k]) == Ok(records)
      {
        LoadedStep(log, k);
        if log[k].Blank? {
          continue;
        }
        if log[k].Malformed? || !Acceptable(log[k].record) {
          return Err(BadLine(k + 1));
        }
        records := records + [Stripped(log[k].record)];
      }
      assert log[..|log|] == log;
      r := Ok(records);
    }

    /** Rewrites the ledger from the log, newest first; leaves it alone when the log cannot be read. */
    method RegenerateLedger(generatedAt: string) returns (e: Option<Error>)
      modifies this`ledger
      ensures e == if Loaded(log).Err? then Some(Loaded(log).error) else None
      ensures ledger == if Loaded(log).Ok? then Some(LedgerText(format, generatedAt, Loaded(log).value)) else old(ledger)
    {
      var loaded := LoadRecords();
      if loaded.Err? {
        return Some(loaded.error);
      }
      var records := Sort(loaded.value, Newest);
      var rows := [];
      for k := 0 to |records|
        invariant rows == Map(records[..k], RecordRow(format))
      {
        rows := rows + [Row(Map(Fields(format, records[k]), Cell))];
        MapSnoc(records[..k], records[k], RecordRow(format));
        TakeNext(records, k);
      }
      assert records[..|records|] == records;
      ledger := Some(Header(generatedAt) + rows);
      e := None;
    }

    /** The record is written before the ledger is regenerated, so it stays in the log even when that fails. */
    method AppendRecord(record: Record, generatedAt: string) returns (e: Option<Error>)
      modifies this`log, this`ledger
      ensures log == old(log) + [Payload(record)]
      ensures e == if Loaded(log).Err? then Some(Loaded(log).error) else None
      ensures ledger == if Loaded(log).Ok? then Some(LedgerText(format, generatedAt, Loaded(log).value)) else old(ledger)
    {
      log := log + [Payload(record)];
      e := RegenerateLedger(generatedAt);
    }

    method Recent(limit: int) returns (r: Result<seq<Record>, Error>)
      ensures r == Answer(None, log, Anything(), limit)
    {
      var loaded := LoadRecords();
      if loaded.Err? {
        return loaded;
      }
      FilterAll(loaded.value, Anything());
      r := Ok(Take(Sort(loaded.value, Newest), limit));
    }

    method RecallBus(casePath: string, bus: int, limit: int) returns (r: Result<seq<Record>, Error>)
      ensures r == Answer(if Strip(casePath) == "" then Some("case_path") else None, log, OnBus(lower, Strip(casePath), bus), limit)
    {
      if Strip(casePath) == "" {
        return Err(BadArgument("case_path"));
      }
      var loaded := LoadRecords();
      if loaded.Err? {
        return loaded;
      }
      r := Ok(Take(Sort(Filter(loaded.value, OnBus(lower, Strip(casePath), bus)), Newest), limit));
    }

    method RecallCase(casePath: string, limit: int) returns (r: Result<seq<Record>, Error>)
      ensures r == Answer(if Strip(casePath) == "" then Some("case_path") else None, log, OnCase(lower, Strip(casePath)), limit)
    {
      if Strip(casePath) == "" {
        return Err(BadArgument("case_path"));
      }
      var loaded := LoadRecords();
      if loaded.Err? {
        return loaded;
      }
      r := Ok(Take(Sort(Filter(loaded.value, OnCase(lower, Strip(casePath))), Newest), limit));
    }

    /** A query without words finds nothing; the log is then not even read. */
    method Search(query: string, casePath: Option<string>, limit: int) returns (r: Result<seq<Record>, Error>)
      ensures Words(lower(query)) == [] && !IsBlankOption(casePath) ==> r == Ok([])
      ensures Words(lower(query)) != [] || IsBlankOption(casePath) ==>
        r == Answer(if IsBlankOption(casePath) then Some("case_path") else None, log, Mentions(lower, Words(lower(query)), casePath), limit)
    {
      if IsBlankOption(casePath) {
        return Err(BadArgument("case_path"));
      }
      var terms := Words(lower(query));
      if terms == [] {
        return Ok([]);
      }
      var loaded := LoadRecords();
      if loaded.Err? {
        return loaded;
      }
      var records, matches := loaded.value, [];
      ghost var wanted := Mentions(lower, terms, casePath);
      for k := 0 to |records|
        invariant matches == Filter(records[..k], wanted)
      {
        FilterNext(records, k, wanted);
        if casePath.Some? && CaseKey(lower, records[k].casePath) != CaseKey(lower, casePath.value) {
          continue;
        }
        if forall term | term in terms :: Contains(Haystack(lower, records[k]), term) {
          matches := matches + [records[k]];
        }
      }
      assert records[..|records|] == records;
      r := Ok(Take(Sort(matches, Newest), limit));
    }

    method RecallMaxCapacity(casePath: Option<string>, bus: Option<int>, connectionType: Option<string>, limit: int)
      returns (r: Result<seq<Record>, Error>)
      ensures r == Answer(
        if IsBlankOption(casePath) then Some("case_path") else if IsBlankOption(connectionType) then Some("connection_type") else None,
        log, CapacityRun(lower, casePath, bus, connectionType), limit)
    {
      if IsBlankOption(casePath) {
        return Err(BadArgument("case_path"));
      }
      if IsBlankOption(connectionType) {
        return Err(BadArgument("connection_type"));
      }
      var loaded := LoadRecords();
      if loaded.Err? {
        return loaded;
      }
      var records, matches := loaded.value, [];
      ghost var wanted := CapacityRun(lower, casePath, bus, connectionType);
      for k := 0 to |records|
        invariant matches == Filter(records[..k], wanted)
      {
        FilterNext(records, k, wanted);
        if records[k].tool != CAPACITY_TOOL {
          continue;
        }
        if casePath.Some? && CaseKey(lower, records[k].casePath) != CaseKey(lower, casePath.value) {
          continue;
        }
        if bus.Some? && records[k].bus != bus {
          continue;
        }
        if connectionType.Some? && records[k].connectionType != Some(lower(Strip(connectionType.value))) {
          continue;
        }
        matches := matches + [records[k]];
      }
      assert records[..|records|] == records;
      r := Ok(Take(Sort(matches, Newest), limit));
    }
  }

  lemma LoadedStep(lines: seq<Line>, k: nat)
    requires k < |lines|
    ensures Loaded(lines[..k]).Ok? ==>
      Loaded(lines[..k + 1]) == (if !Readable(lines[k]) then Err(BadLine(k + 1))
        else Ok(if lines[k].Blank? then Loaded(lines[..k]).value else Loaded(lines[..k]).value + [Stripped(lines[k].record)]))
    ensures Loaded(lines[..k + 1]).Err? ==> Loaded(lines) == Loaded(lines[..k + 1])
  {
    assert lines[..k + 1][..k] == lines[..k];
    if Loaded(lines[..k + 1]).Err? {
      ErrorStays(lines, k + 1);
    }
  }

  lemma {:induction false} ErrorStays(lines: seq<Line>, k: nat)
    requires k <= |lines| && Loaded(lines[..k]).Err?
    ensures Loaded(lines) == Loaded(lines[..k])
  {
    if k == |lines| {
      assert lines[..k] == lines;
    } else {
      assert lines[..|lines| - 1][..k] == lines[..k];
      ErrorStays(lines[..|lines| - 1], k);
    }
  }

  /** A trimmed record appended with the latest timestamp of all heads the recent list. */
  lemma AppendedIsRecalled(lines: seq<Line>, r: Record, limit: int)
    requires Loaded(lines).Ok? && TrimmedRecord(r) && limit != 0
    requires forall other | other in Loaded(lines).value :: LexLe(other.timestamp, r.timestamp) && other.timestamp != r.timestamp
    ensures var answer := Answer(None, lines + [Payload(r)], Anything(), limit);
      answer.Ok? && answer.value != [] && answer.value[0] == r
  {
    AppendRoundTrip(lines, r);
    var all := Loaded(lines).value + [r];
    FilterAll(all, Anything());
    var sorted := Sort(all, Newest);
    NewestPreorder();
    SortOrdered(all, Newest);
    assert all[|all| - 1] == r && r in sorted && sorted[0] in all;
    var i :| 0 <= i < |sorted| && sorted[i] == r;
    assert i > 0 ==> Newest(sorted[0], r);
    if sorted[0] != r {
      LexAntisymmetric(sorted[0].timestamp, r.timestamp);
    }
  }
}
