/** `OutputFormatter` (src/output_formatter.py): the dictionary `to_json`
    serialises, and the comma-separated text `to_csv` builds from it. JSON
    documents are kept as their structure; the text layout of `json.dumps`
    is not modelled. */
module Formatter {
  import opened Wrappers
  import opened PyText
  import opened Processes
  import opened Collector
  import opened Arguments

  /** A scalar of a process row as it comes back from `json.loads`: floats
      are the rounded CPU and memory values, held in hundredths. */
  datatype Value = VInt(i: int) | VStr(s: string) | VNone | VBool(b: bool) | VFloat(hundredths: int)

  /** A JSON object with string keys, in insertion order. */
  type Row = seq<(string, Value)>

  /** The system summary dictionary; its contents come from code outside
      this model. */
  type SysInfo = seq<(string, string)>

  /** The `metadata` entry `collect_and_format_data` writes. */
  datatype Metadata = Metadata(
    collectionTimestamp: Option<string>,
    totalProcessesFound: nat,
    accessibleProcesses: nat,
    permissionDenied: nat)

  /** The dictionary handed to the formatter. Optional keys that were not
      written are `None`. */
  datatype ReportData = ReportData(
    processes: seq<ProcessRecord>,
    metadata: Metadata,
    systemInfo: Option<SysInfo>,
    deniedProcesses: Option<seq<DeniedEntry>>)

  /** The dictionary `to_json` serialises. */
  datatype Shaped = Shaped(
    processes: seq<Row>,
    systemInfo: Option<SysInfo>,
    deniedProcesses: Option<seq<DeniedEntry>>)

  /** The text that stands in for a missing or empty system summary. */
  const NoSystemInfo: SysInfo :=
    [("system_info", "No system information was collected. Please reach to the developer.")]

  /** The message of the `ValueError` `to_csv` raises on no processes. */
  const NoProcessData: string := "No process data passed."

  /** The keys of a row, in order. */
  function Keys(row: Row): (ks: seq<string>)
    ensures |ks| == |row|
    ensures forall i :: 0 <= i < |row| ==> ks[i] == row[i].0
  {
    seq(|row|, i requires 0 <= i < |row| => row[i].0)
  }

  /** `row[key]`, or `None` where Python raises `KeyError`. */
  function Lookup(row: Row, key: string): (v: Option<Value>)
    ensures v.Some? <==> key in Keys(row)
    ensures v.Some? ==> exists i :: 0 <= i < |row| && row[i] == (key, v.value)
  {
    if row == [] then None
    else if row[0].0 == key then Some(row[0].1)
    else
      var v := Lookup(row[1..], key);
      assert Keys(row) == [row[0].0] + Keys(row[1..]);
      if v.Some? then
        var i :| 0 <= i < |row[1..]| && row[1..][i] == (key, v.value);
        assert row[i + 1] == (key, v.value);
        v
      else v
  }

  /** A JSON `null` or string. */
  function OptText(s: Option<string>): Value {
    match s
    case None => VNone
    case Some(t) => VStr(t)
  }

  /** The keys `to_dict` writes. */
  const RecordKeys: seq<string> :=
    ["pid", "name", "user", "cpu_percent", "memory_megabyte", "status", "accessible", "error"]

  /** The keys of the summary shape. */
  const SummaryKeys: seq<string> := ["pid", "name", "user", "cpu_percent", "memory_megabyte"]

  /** A process dictionary as `to_dict` writes it. */
  function RecordRow(p: ProcessRecord): (row: Row)
    ensures Keys(row) == RecordKeys
  {
    var row := [("pid", VInt(p.pid)), ("name", OptText(p.name)), ("user", OptText(p.user)),
                ("cpu_percent", VFloat(p.cpuPercent)), ("memory_megabyte", VFloat(p.memoryMegabyte)),
                ("status", OptText(p.status)), ("accessible", VBool(p.accessible)), ("error", OptText(p.error))];
    assert Keys(row) == RecordKeys;
    row
  }

  /** The dictionary `to_json` builds for one process when not advanced. */
  function SummaryRow(p: ProcessRecord): (row: Row)
    ensures Keys(row) == SummaryKeys
  {
    var row := [("pid", VInt(p.pid)), ("name", OptText(p.name)), ("user", OptText(p.user)),
                ("cpu_percent", VFloat(p.cpuPercent)), ("memory_megabyte", VFloat(p.memoryMegabyte))];
    assert Keys(row) == SummaryKeys;
    row
  }

  /** The summary shape copies the first five entries of the full
      dictionary, values included. */
  lemma SummaryIsPrefix(p: ProcessRecord)
    ensures SummaryRow(p) == RecordRow(p)[..5]
  {
  }

  /** Python's truth value of an optional dictionary or list. */
  predicate Present<T>(x: Option<seq<T>>) {
    x.Some? && x.value != []
  }

  /** Looking up the key of entry `i`, when no earlier entry has that key,
      finds entry `i`'s value. */
  lemma {:induction false} LookupIndex(row: Row, key: string, i: nat)
    requires i < |row| && row[i].0 == key
    requires forall j :: 0 <= j < i ==> row[j].0 != key
    ensures Lookup(row, key) == Some(row[i].1)
    decreases i
  {
    if i > 0 {
      LookupIndex(row[1..], key, i - 1);
    }
  }

  /** `to_dict` writes each attribute under its own key. */
  lemma RecordRowValues(p: ProcessRecord)
    ensures var row := RecordRow(p);
            Lookup(row, "pid") == Some(VInt(p.pid))
            && Lookup(row, "name") == Some(OptText(p.name))
            && Lookup(row, "user") == Some(OptText(p.user))
            && Lookup(row, "cpu_percent") == Some(VFloat(p.cpuPercent))
            && Lookup(row, "memory_megabyte") == Some(VFloat(p.memoryMegabyte))
            && Lookup(row, "status") == Some(OptText(p.status))
            && Lookup(row, "accessible") == Some(VBool(p.accessible))
            && Lookup(row, "error") == Some(OptText(p.error))
  {
    RecordRowLookups(p);
    assert RecordKeys[0] == "pid" && RecordKeys[1] == "name" && RecordKeys[2] == "user";
    assert RecordKeys[3] == "cpu_percent" && RecordKeys[4] == "memory_megabyte";
    assert RecordKeys[5] == "status" && RecordKeys[6] == "accessible" && RecordKeys[7] == "error";
  }

  /** Looking up the `i`-th key of the full dictionary finds its `i`-th
      value, as the keys are distinct. */
  lemma RecordRowLookups(p: ProcessRecord)
    ensures forall i :: 0 <= i < |RecordKeys| ==> Lookup(RecordRow(p), RecordKeys[i]) == Some(RecordRow(p)[i].1)
  {
    var row := RecordRow(p);
    forall i, j | 0 <= j < i < |RecordKeys|
      ensures RecordKeys[j] != RecordKeys[i]
    {
    }
    forall i | 0 <= i < |RecordKeys|
      ensures Lookup(row, RecordKeys[i]) == Some(row[i].1)
    {
      LookupIndex(row, RecordKeys[i], i);
    }
  }

  /** The summary dictionary holds the same five values as the full one. */
  lemma SummaryRowValues(p: ProcessRecord)
    ensures forall i :: 0 <= i < |SummaryKeys| ==>
              Lookup(SummaryRow(p), SummaryKeys[i]) == Lookup(RecordRow(p), SummaryKeys[i])
  {
    var row := SummaryRow(p);
    var full := RecordRow(p);
    forall i | 0 <= i < |SummaryKeys|
      ensures Lookup(row, SummaryKeys[i]) == Lookup(full, SummaryKeys[i])
    {
      assert forall j, k :: 0 <= j < k < |RecordKeys| ==> RecordKeys[j] != RecordKeys[k];
      LookupIndex(row, SummaryKeys[i], i);
      LookupIndex(full, SummaryKeys[i], i);
    }
  }

  /** The shape of one process: the full dictionary when advanced, the five
      summary entries otherwise. */
  function ShapeRow(p: ProcessRecord, advanced: bool): (row: Row)
    ensures Keys(row) == (if advanced then RecordKeys else SummaryKeys)
  {
    if advanced then RecordRow(p) else SummaryRow(p)
  }

  /** `to_json` before serialisation. Processes keep their order and each is
      shaped alone; the system summary is included when asked for, replaced
      by the placeholder when missing or empty; denial details are included
      only when asked for and non-empty; `metadata` is never written. */
  function ToJson(data: ReportData, args: Args): (out: Shaped)
    ensures |out.processes| == |data.processes|
    ensures forall i :: 0 <= i < |out.processes| ==> out.processes[i] == ShapeRow(data.processes[i], args.advanced)
    ensures out.systemInfo.Some? <==> args.includeSystemInfo
    ensures out.systemInfo.Some? ==> out.systemInfo.value == (if Present(data.systemInfo) then data.systemInfo.value else NoSystemInfo)
    ensures out.deniedProcesses.Some? <==> args.showDenied && Present(data.deniedProcesses)
    ensures out.deniedProcesses.Some? ==> out.deniedProcesses == data.deniedProcesses
  {
    Shaped(
      seq(|data.processes|, i requires 0 <= i < |data.processes| => ShapeRow(data.processes[i], args.advanced)),
      if args.includeSystemInfo then Some(if Present(data.systemInfo) then data.systemInfo.value else NoSystemInfo) else None,
      if args.showDenied && Present(data.deniedProcesses) then data.deniedProcesses else None)
  }

  /** The metadata of the report never reaches the formatted output. */
  lemma MetadataIgnored(data: ReportData, m: Metadata, args: Args)
    ensures ToJson(data.(metadata := m), args) == ToJson(data, args)
  {
  }

  /** `str(v)` after the JSON round trip: `None`, `True`/`False`, the
      integer, the string itself, or the two-decimal float. */
  function ValueText(v: Value): string {
    match v
    case VInt(i) => IntText(i)
    case VStr(s) => s
    case VNone => "None"
    case VBool(b) => if b then "True" else "False"
    case VFloat(h) => HundredthsText(h)
  }

  /** The cells of one CSV line: `str(process[key])` for each header, or
      the `KeyError` text for the first header the row lacks. */
  function Cells(row: Row, headers: seq<string>): (r: Result<seq<string>, string>)
    ensures r.Success? <==> forall j :: 0 <= j < |headers| ==> headers[j] in Keys(row)
    ensures r.Success? ==> (|r.value| == |headers|
              && forall j :: 0 <= j < |headers| ==> r.value[j] == ValueText(Lookup(row, headers[j]).value))
  {
    if headers == [] then Success([])
    else
      match Lookup(row, headers[0])
      case None => Failure("'" + headers[0] + "'")
      case Some(v) =>
        match Cells(row, headers[1..])
        case Failure(e) => Failure(e)
        case Success(rest) =>
          assert forall j :: 1 <= j < |headers| ==> headers[j] == headers[1..][j - 1];
          Success([ValueText(v)] + rest)
  }

  /** The lines after the header, one per row, or the first error. */
  function BodyLines(rows: seq<Row>, headers: seq<string>): (r: Result<seq<string>, string>)
    ensures r.Success? <==> forall i, j :: 0 <= i < |rows| && 0 <= j < |headers| ==> headers[j] in Keys(rows[i])
    ensures r.Success? ==> (|r.value| == |rows|
              && forall i :: 0 <= i < |rows| ==> r.value[i] == Join(Cells(rows[i], headers).value, ','))
  {
    if rows == [] then Success([])
    else
      match Cells(rows[0], headers)
      case Failure(e) => Failure(e)
      case Success(cells) =>
        var rest := BodyLines(rows[1..], headers);
        TailIndices(rows);
        if rest.Failure? then rest
        else Success([Join(cells, ',')] + rest.value)
  }

  /** Entry `i` of the tail is entry `i + 1` of the sequence. */
  lemma TailIndices<T>(s: seq<T>)
    requires s != []
    ensures forall i :: 1 <= i < |s| ==> s[i] == s[1..][i - 1]
  {
  }

  /** The CSV text of the process rows: the keys of the first row as the
      header line, then one line per row; no rows is an error. */
  function CsvText(rows: seq<Row>): (r: Result<string, string>)
    ensures rows == [] ==> r == Failure(NoProcessData)
  {
    if rows == [] then Failure(NoProcessData)
    else
      var headers := Keys(rows[0]);
      match BodyLines(rows, headers)
      case Failure(e) => Failure(e)
      case Success(body) => Success(Join([Join(headers, ',')] + body, '\n'))
  }

  /** `to_csv`: the CSV text of the processes `to_json` shapes. */
  function ToCsv(data: ReportData, args: Args): (r: Result<string, string>)
    ensures r.Failure? <==> data.processes == []
    ensures r.Failure? ==> r.error == NoProcessData
  {
    RowsShareKeys(data, args);
    CsvText(ToJson(data, args).processes)
  }

  /** Every shaped row has the keys of the first, so no `KeyError` is
      possible. */
  lemma RowsShareKeys(data: ReportData, args: Args)
    ensures var rows := ToJson(data, args).processes;
            rows != [] ==> forall i, j :: 0 <= i < |rows| && 0 <= j < |Keys(rows[0])| ==> Keys(rows[0])[j] in Keys(rows[i])
  {
    var rows := ToJson(data, args).processes;
    if rows != [] {
      forall i, j | 0 <= i < |rows| && 0 <= j < |Keys(rows[0])|
        ensures Keys(rows[0])[j] in Keys(rows[i])
      {
        assert Keys(rows[i]) == Keys(rows[0]);
      }
    }
  }

  /** No piece contains `c`, so neither does their join on another character. */
  lemma {:induction false} JoinAvoids(parts: seq<string>, sep: char, c: char)
    requires sep != c
    requires forall i :: 0 <= i < |parts| ==> c !in parts[i]
    ensures c !in Join(parts, sep)
    decreases |parts|
  {
    if |parts| > 1 {
      JoinAvoids(parts[1..], sep, c);
    }
  }

  /** Text that can sit in one CSV cell: no comma and no line break. */
  predicate CellSafe(s: string) {
    ',' !in s && '\n' !in s
  }

  /** An optional string whose text is cell-safe. */
  predicate OptSafe(s: Option<string>) {
    s.None? || CellSafe(s.value)
  }

  /** Text made of digits, signs and points is cell-safe. */
  lemma NumeralSafe(s: string)
    requires forall k :: 0 <= k < |s| ==> IsDigit(s[k]) || s[k] == '-' || s[k] == '.'
    ensures CellSafe(s)
  {
  }

  /** The text of every non-string value is cell-safe: integers, floats,
      booleans and `None` never hold a comma or a line break. */
  lemma ValueTextSafe(v: Value)
    requires !v.VStr?
    ensures CellSafe(ValueText(v))
  {
    match v
    case VInt(i) =>
      var t := IntText(i);
      var n := NatText(if i < 0 then -i else i);
      assert t == (if i < 0 then "-" else "") + n;
      NumeralSafe(t);
    case VFloat(h) =>
      var a := Magnitude(h);
      assert HundredthsText(h) == (if h < 0 then "-" else "") + NatText(a / 100) + "." + FracDigits(a % 100);
      NumeralSafe(HundredthsText(h));
    case VNone =>
      assert ValueText(v) == "None";
      NumeralSafe([]);
      assert forall k :: 0 <= k < 4 ==> "None"[k] != ',' && "None"[k] != '\n';
    case VBool(b) =>
      assert forall k :: 0 <= k < 4 ==> "True"[k] != ',' && "True"[k] != '\n';
      assert forall k :: 0 <= k < 5 ==> "False"[k] != ',' && "False"[k] != '\n';
  }

  /** The string attributes a shape writes are cell-safe. */
  predicate ShapeSafe(p: ProcessRecord, advanced: bool) {
    OptSafe(p.name) && OptSafe(p.user) && (advanced ==> OptSafe(p.status) && OptSafe(p.error))
  }

  /** Every value of the shape of a cell-safe process has cell-safe text. */
  lemma RowSafe(p: ProcessRecord, advanced: bool)
    requires ShapeSafe(p, advanced)
    ensures var row := ShapeRow(p, advanced);
            forall k :: 0 <= k < |row| ==> CellSafe(ValueText(row[k].1))
  {
    var row := ShapeRow(p, advanced);
    forall k | 0 <= k < |row|
      ensures CellSafe(ValueText(row[k].1))
    {
      if !row[k].1.VStr? {
        ValueTextSafe(row[k].1);
      }
    }
  }

  /** A line of cell-safe cells has no line break and splits on commas back
      into its cells. */
  lemma LineReadsBack(row: Row, headers: seq<string>)
    requires headers != []
    requires Cells(row, headers).Success?
    requires forall k :: 0 <= k < |row| ==> CellSafe(ValueText(row[k].1))
    ensures var cells := Cells(row, headers).value;
            '\n' !in Join(cells, ',') && Split(Join(cells, ','), ',') == cells
  {
    var cells := Cells(row, headers).value;
    forall j | 0 <= j < |cells|
      ensures CellSafe(cells[j])
    {
      var v := Lookup(row, headers[j]).value;
      var k :| 0 <= k < |row| && row[k] == (headers[j], v);
      assert CellSafe(ValueText(row[k].1));
    }
    JoinAvoids(cells, ',', '\n');
    SplitJoin(cells, ',');
  }

  /** The header line reads back as the keys. */
  lemma HeaderReadsBack(headers: seq<string>)
    requires headers == RecordKeys || headers == SummaryKeys
    ensures '\n' !in Join(headers, ',') && Split(Join(headers, ','), ',') == headers
  {
    assert forall j :: 0 <= j < |headers| ==> CellSafe(headers[j]);
    JoinAvoids(headers, ',', '\n');
    SplitJoin(headers, ',');
  }

  /** When no string attribute of any process contains a comma or a line
      break, the CSV text reads back as the header followed by one line per
      process, each splitting on commas into exactly its cells. */
  lemma CsvReadsBack(data: ReportData, args: Args)
    requires data.processes != []
    requires forall i :: 0 <= i < |data.processes| ==> ShapeSafe(data.processes[i], args.advanced)
    ensures var rows := ToJson(data, args).processes;
            var headers := if args.advanced then RecordKeys else SummaryKeys;
            var lines := Split(ToCsv(data, args).value, '\n');
            |lines| == |rows| + 1
            && Split(lines[0], ',') == headers
            && forall i :: 0 <= i < |rows| ==> Split(lines[i + 1], ',') == Cells(rows[i], headers).value
  {
    var rows := ToJson(data, args).processes;
    var headers := if args.advanced then RecordKeys else SummaryKeys;
    assert Keys(rows[0]) == headers;
    RowsShareKeys(data, args);
    var body := BodyLines(rows, headers).value;
    var lines := [Join(headers, ',')] + body;
    assert ToCsv(data, args).value == Join(lines, '\n');
    HeaderReadsBack(headers);
    BodyReadsBack(data, args, headers);
    LinesReadBack(Join(headers, ','), body);
  }

  /** Lines without line breaks, joined by newlines, split back into the
      same lines. */
  lemma LinesReadBack(header: string, body: seq<string>)
    requires '\n' !in header
    requires forall i :: 0 <= i < |body| ==> '\n' !in body[i]
    ensures Split(Join([header] + body, '\n'), '\n') == [header] + body
  {
    var lines := [header] + body;
    forall i | 0 <= i < |lines|
      ensures '\n' !in lines[i]
    {
      if i > 0 {
        assert lines[i] == body[i - 1];
      }
    }
    SplitJoin(lines, '\n');
  }

  /** Each line after the header has no line break and splits on commas
      into the cells of its process. */
  lemma BodyReadsBack(data: ReportData, args: Args, headers: seq<string>)
    requires headers == if args.advanced then RecordKeys else SummaryKeys
    requires forall i :: 0 <= i < |data.processes| ==> ShapeSafe(data.processes[i], args.advanced)
    ensures var rows := ToJson(data, args).processes;
            var body := BodyLines(rows, headers);
            body.Success?
            && forall i :: 0 <= i < |rows| ==>
                 '\n' !in body.value[i] && Split(body.value[i], ',') == Cells(rows[i], headers).value
  {
    var rows := ToJson(data, args).processes;
    var body := BodyLines(rows, headers).value;
    forall i | 0 <= i < |rows|
      ensures '\n' !in body[i] && Split(body[i], ',') == Cells(rows[i], headers).value
    {
      RowSafe(data.processes[i], args.advanced);
      LineReadsBack(rows[i], headers);
    }
  }

  /** Joining is unchanged when one part `x + sep + y` is replaced by the
      two parts `x` and `y`. */
  lemma {:induction false} JoinSplice(parts: seq<string>, j: nat, x: string, y: string, sep: char)
    requires j < |parts| && parts[j] == x + [sep] + y
    ensures Join(parts, sep) == Join(parts[..j] + [x, y] + parts[j + 1..], sep)
    decreases j
  {
    var spliced := parts[..j] + [x, y] + parts[j + 1..];
    if j == 0 {
      assert spliced == [x, y] + parts[1..];
      if |parts| > 1 {
        assert Join([y] + parts[1..], sep) == y + [sep] + Join(parts[1..], sep) by {
          assert ([y] + parts[1..])[1..] == parts[1..];
        }
        assert Join(spliced, sep) == x + [sep] + Join([y] + parts[1..], sep) by {
          assert spliced[1..] == [y] + parts[1..];
        }
      }
    } else {
      var tail := parts[1..];
      JoinSplice(tail, j - 1, x, y, sep);
      assert spliced == [parts[0]] + (tail[..j - 1] + [x, y] + tail[j..]);
      assert spliced[1..] == tail[..j - 1] + [x, y] + tail[j..];
    }
  }

  /** A cell holding one comma is read as two cells. */
  lemma CommaCellAddsColumn(cells: seq<string>, j: nat, x: string, y: string)
    requires j < |cells| && cells[j] == x + [','] + y
    requires ',' !in x && ',' !in y
    requires forall k :: 0 <= k < |cells| && k != j ==> ',' !in cells[k]
    ensures |Split(Join(cells, ','), ',')| == |cells| + 1
  {
    var spliced := cells[..j] + [x, y] + cells[j + 1..];
    JoinSplice(cells, j, x, y, ',');
    forall k | 0 <= k < |spliced|
      ensures ',' !in spliced[k]
    {
      if k < j {
        assert spliced[k] == cells[k];
      } else if k > j + 1 {
        assert spliced[k] == cells[k - 1];
      }
    }
    SplitJoin(spliced, ',');
  }

  /** Cells are not quoted: a process name holding one comma spreads over
      two columns, so its line has one cell more than the header. */
  lemma CommaInNameAddsColumn(p: ProcessRecord, x: string, y: string)
    requires p.name == Some(x + [','] + y) && ',' !in x && ',' !in y
    requires OptSafe(p.user)
    ensures var line := Join(Cells(SummaryRow(p), SummaryKeys).value, ',');
            |Split(line, ',')| == |SummaryKeys| + 1
  {
    SummaryCellsSafe(p);
    SummaryCells(p);
    CommaCellAddsColumn(Cells(SummaryRow(p), SummaryKeys).value, 1, x, y);
  }

  /** The summary cells of a process are the texts of its five values, in
      order. */
  lemma SummaryCells(p: ProcessRecord)
    ensures var cells := Cells(SummaryRow(p), SummaryKeys);
            cells.Success? && |cells.value| == 5
            && forall j :: 0 <= j < 5 ==> cells.value[j] == ValueText(SummaryRow(p)[j].1)
  {
    var row := SummaryRow(p);
    forall a, b | 0 <= a < b < |SummaryKeys|
      ensures SummaryKeys[a] != SummaryKeys[b]
    {
    }
    forall j | 0 <= j < 5
      ensures Lookup(row, SummaryKeys[j]) == Some(row[j].1)
    {
      LookupIndex(row, SummaryKeys[j], j);
    }
  }

  /** Apart from the name, the summary cells of a process with a cell-safe
      user are cell-safe. */
  lemma SummaryCellsSafe(p: ProcessRecord)
    requires OptSafe(p.user)
    ensures var cells := Cells(SummaryRow(p), SummaryKeys);
            cells.Success? && |cells.value| == 5
            && forall j :: 0 <= j < 5 && j != 1 ==> CellSafe(cells.value[j])
  {
    var row := SummaryRow(p);
    SummaryCells(p);
    var cells := Cells(row, SummaryKeys).value;
    forall j | 0 <= j < 5 && j != 1
      ensures CellSafe(cells[j])
    {
      assert cells[j] == ValueText(row[j].1);
      if j != 2 || p.user.None? {
        ValueTextSafe(row[j].1);
      }
    }
  }
}
