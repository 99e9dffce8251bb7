/** The command-line front end of src/cli.py: argument validation, the
    output step, the interactive command loop and the automation run. */
module Cli {
  import opened Wrappers
  import opened PyText
  import opened Processes
  import opened PidLists
  import opened Collector
  import opened Arguments
  import opened Formatter
  import opened Report
  import Platforms

  // ---------------------------------------------------------------------
  // validate_arguments
  // ---------------------------------------------------------------------

  /** What creating the parent directory of `--file` and inspecting the
      path find on the filesystem. */
  datatype PathProbe =
    | Writable           // the parent exists now; the path is absent or a regular file
    | NotAFile           // the path exists and is not a regular file
    | Raised(exc: Exc)   // creating the parent or inspecting the path raised

  const LimitError := "Process limit must be greater than 0"

  /** The errors `validate_arguments` finds. A limit of zero or below stops
      the check at once; an empty or missing `--file` is not checked. */
  function ValidationErrors(args: Args, probe: PathProbe): (errors: seq<string>)
    ensures args.limit <= 0 ==> errors == [LimitError]
    ensures args.limit > 0 ==> |errors| <= 1
    ensures args.limit > 0 && errors != [] ==> Truthy(args.file) && !probe.Writable?
  {
    if args.limit <= 0 then [LimitError]
    else if !Truthy(args.file) then []
    else
      var file := args.file.value;
      match probe
      case Writable => []
      case NotAFile => ["Output path exists but is not a file: " + file]
      case Raised(e) =>
        if e.isPermissionError then ["Permission denied: cannot write to " + file]
        else ["Invalid output path " + file + ": " + e.text]
  }

  /** `validate_arguments`: true exactly when the limit is positive and the
      output path, if one is given, is usable. */
  function ValidateArguments(args: Args, probe: PathProbe): (ok: bool)
    ensures ok <==> args.limit > 0 && (!Truthy(args.file) || probe == Writable)
  {
    ValidationErrors(args, probe) == []
  }

  // ---------------------------------------------------------------------
  // output_data
  // ---------------------------------------------------------------------

  /** The formatted report: the JSON document before serialisation, or the
      CSV text. */
  datatype Content = JsonContent(doc: Shaped) | CsvContent(text: string)

  /** Where the report goes. */
  datatype Delivery = Console | ToFile(path: string)

  /** `output_data` either writes the content, leaving the namespace with
      the rewritten `file`, or raises. */
  datatype OutputResult = Written(content: Content, to: Delivery, args: Args) | OutputFailed(error: string)

  const TxtSuffix := ".txt"
  const DefaultFileName := "processes.txt"
  /** An output format other than "json" and "csv" leaves `output_content`
      unassigned, and writing it raises an `UnboundLocalError`. This is a
      label for that exception; its message differs between Python
      versions and is not modelled. */
  const UnboundContentError := "UnboundLocalError: output_content"

  /** `posixpath.join(dir, name)` for a relative `name`. */
  function PathJoin(dir: string, name: string): string {
    if dir == [] || dir[|dir| - 1] == '/' then dir + name else dir + "/" + name
  }

  /** The path rewrite of `output_data`: a path that does not end in ".txt"
      is taken as a directory and gets "processes.txt" inside it. */
  function RewritePath(file: string): (path: string)
    ensures EndsWith(path, TxtSuffix)
    ensures EndsWith(file, TxtSuffix) ==> path == file
    ensures !EndsWith(file, TxtSuffix) ==> StartsWith(path, file) && EndsWith(path, DefaultFileName)
    ensures !EndsWith(file, TxtSuffix) && file != [] ==> EndsWith(path, "/" + DefaultFileName)
  {
    if EndsWith(file, TxtSuffix) then file
    else
      var path := PathJoin(file, DefaultFileName);
      assert path[|path| - |DefaultFileName|..] == DefaultFileName;
      assert path[..|file|] == file;
      if file != [] then
        assert path[|path| - |DefaultFileName| - 1] == '/';
        assert path[|path| - |DefaultFileName| - 1..] == "/" + DefaultFileName;
        path
      else path
  }

  /** Rewriting a rewritten path changes nothing. */
  lemma RewritePathIdempotent(file: string)
    ensures RewritePath(RewritePath(file)) == RewritePath(file)
  {
  }

  /** `output_data`. The CSV `ValueError` is raised before the path is
      looked at; a rewritten path is stored back into the namespace. */
  function OutputData(data: ReportData, args: Args): (r: OutputResult)
    ensures r.Written? <==> args.output == "json" || (args.output == "csv" && data.processes != [])
    ensures args.output == "csv" && data.processes == [] ==> r == OutputFailed("ValueError: " + NoProcessData)
    ensures args.output != "json" && args.output != "csv" ==> r == OutputFailed(UnboundContentError)
    ensures r.Written? && args.output == "json" ==> r.content == JsonContent(ToJson(data, args))
    ensures r.Written? && args.output == "csv" ==> r.content == CsvContent(ToCsv(data, args).value)
    ensures r.Written? ==> (r.to.Console? <==> !Truthy(args.file))
    ensures r.Written? && r.to.Console? ==> r.args == args
    ensures r.Written? && r.to.ToFile? ==> EndsWith(r.to.path, TxtSuffix) && r.args == args.(file := Some(r.to.path))
  {
    if args.output == "csv" && ToCsv(data, args).Failure? then OutputFailed("ValueError: " + ToCsv(data, args).error)
    else if args.output != "json" && args.output != "csv" then OutputFailed(UnboundContentError)
    else
      var content := if args.output == "json" then JsonContent(ToJson(data, args)) else CsvContent(ToCsv(data, args).value);
      if Truthy(args.file) then
        var path := RewritePath(args.file.value);
        Written(content, ToFile(path), args.(file := Some(path)))
      else Written(content, Console, args)
  }

  /** Once a report has been written to a file, the next report in the same
      session goes to the very same file and leaves the namespace as it is. */
  lemma OutputTargetSettles(data: ReportData, next: ReportData, args: Args)
    requires OutputData(data, args).Written? && OutputData(data, args).to.ToFile?
    ensures var a := OutputData(data, args).args;
            OutputData(next, a).Written? ==>
              OutputData(next, a).to == OutputData(data, args).to && OutputData(next, a).args == a
  {
    RewritePathIdempotent(args.file.value);
  }

  // ---------------------------------------------------------------------
  // The interactive command loop of `run`
  // ---------------------------------------------------------------------

  datatype Command =
    | Exit | Help | SetLimit | SetOutput | SetFile
    | ToggleVerbose | ToggleAdvanced | ToggleShowDenied | ToggleSystemInfo
    | CollectData | VisualizationHelp | Clear | ShowParameters | Unknown

  /** Text containing "visualization help" contains "help". */
  lemma VisualizationHelpContainsHelp(l: string)
    ensures Contains(l, "visualization help") ==> Contains(l, "help")
  {
    ContainsAt("visualization help", "help", 14);
    if Contains(l, "visualization help") {
      ContainsTransitive(l, "visualization help", "help");
    }
  }

  /** The command a line selects: the first keyword, in the order the loop
      tests them, contained anywhere in the lowered line. "help" is checked
      before "visualization help", which therefore never selects anything. */
  function Dispatch(line: string): (c: Command)
    ensures c != VisualizationHelp
    ensures c == Exit <==> Contains(Lower(line), "exit")
    ensures c == Help <==> !Contains(Lower(line), "exit") && Contains(Lower(line), "help")
  {
    var l := Lower(line);
    VisualizationHelpContainsHelp(l);
    if Contains(l, "exit") then Exit
    else if Contains(l, "help") then Help
    else if Contains(l, "limit") then SetLimit
    else if Contains(l, "output") then SetOutput
    else if Contains(l, "file") then SetFile
    else if Contains(l, "verbose") then ToggleVerbose
    else if Contains(l, "advanced") then ToggleAdvanced
    else if Contains(l, "show denied") then ToggleShowDenied
    else if Contains(l, "include system info") then ToggleSystemInfo
    else if Contains(l, "collect data") then CollectData
    else if Contains(l, "visualization help") then VisualizationHelp
    else if Contains(l, "clear") then Clear
    else if Contains(l, "show parameters") then ShowParameters
    else Unknown
  }

  /** What a command shows or produces besides changing settings. */
  datatype Event =
    | HelpShown | VisualizationHelpShown | ParametersShown(settings: Args)
    | ScreenCleared | UnknownCommandShown | MissingLimitShown | InvalidFormatShown
    | Reported(content: Content, to: Delivery)

  /** The outcome of one input line: go on with new settings, leave the
      loop, or raise out of it. */
  datatype Next = Continue(args: Args, events: seq<Event>) | Stop | Crash(error: string)

  /** Each command changes only the setting it names; "collect data" can
      rewrite the output path. */
  predicate OnlyOwnSetting(c: Command, a: Args, b: Args) {
    match c
    case SetLimit => b == a.(limit := b.limit)
    case SetOutput => b == a.(output := b.output)
    case SetFile => b == a.(file := b.file)
    case CollectData => b == a.(file := b.file)
    case ToggleVerbose => b == a.(verbose := !a.verbose)
    case ToggleAdvanced => b == a.(advanced := !a.advanced)
    case ToggleShowDenied => b == a.(showDenied := !a.showDenied)
    case ToggleSystemInfo => b == a.(includeSystemInfo := !a.includeSystemInfo)
    case _ => b == a
  }

  /** What `collect_and_format_data` returns for the settings at the time
      of the call. `Run` supplies the collector on the host; the loop
      itself needs nothing else about it. */
  type Collection = Args -> ReportData

  /** "collect data": collect, then output. Only the output path can
      change; the report is the one event. */
  function CollectStep(args: Args, collect: Collection): (r: Next)
    ensures r.Crash? || r.Continue?
    ensures r.Continue? ==> r.args == args.(file := r.args.file) && |r.events| == 1 && r.events[0].Reported?
    ensures r.Crash? <==> OutputData(collect(args), args).OutputFailed?
  {
    match OutputData(collect(args), args)
    case OutputFailed(e) => Crash(e)
    case Written(content, to, a) => Continue(a, [Reported(content, to)])
  }

  /** One pass of the `while True` loop on the line `input()` returned. */
  function Step(args: Args, line: string, collect: Collection): (r: Next)
    ensures r == Stop <==> Dispatch(line) == Exit
    ensures r.Crash? ==> Dispatch(line) == SetLimit || Dispatch(line) == CollectData
    ensures Dispatch(line) == SetLimit ==>
              (r.Crash? <==> |Words(line)| >= 2 && ParseInt(LastPiece(line, ' ')).None?)
    ensures Dispatch(line) == SetLimit && r.Continue? && r.events == [] ==>
              ParseInt(LastPiece(line, ' ')) == Some(r.args.limit)
    ensures Dispatch(line) == SetLimit && |Words(line)| < 2 ==> r == Continue(args, [MissingLimitShown])
    ensures Dispatch(line) == SetLimit && r.Crash? ==> r.error == "ValueError: " + IntValueError(LastPiece(line, ' '))
    ensures Dispatch(line) == SetFile ==> r == Continue(args.(file := Some(LastPiece(line, ' '))), [])
    ensures Dispatch(line) == SetOutput ==>
              r.Continue? && r.args.output == LastPiece(line, ' ')
              && (r.events == [InvalidFormatShown] <==> args.output != "json" && args.output != "csv")
  {
    match Dispatch(line)
    case Exit => Stop
    case Help => Continue(args, [HelpShown])
    case SetLimit =>
      if |Words(line)| < 2 then Continue(args, [MissingLimitShown])
      else (match ParseInt(LastPiece(line, ' '))
            case None => Crash("ValueError: " + IntValueError(LastPiece(line, ' ')))
            case Some(n) => Continue(args.(limit := n), []))
    case SetOutput =>
      var warn := if args.output != "csv" && args.output != "json" then [InvalidFormatShown] else [];
      Continue(args.(output := LastPiece(line, ' ')), warn)
    case SetFile => Continue(args.(file := Some(LastPiece(line, ' '))), [])
    case ToggleVerbose => Continue(args.(verbose := !args.verbose), [])
    case ToggleAdvanced => Continue(args.(advanced := !args.advanced), [])
    case ToggleShowDenied => Continue(args.(showDenied := !args.showDenied), [])
    case ToggleSystemInfo => Continue(args.(includeSystemInfo := !args.includeSystemInfo), [])
    case CollectData => CollectStep(args, collect)
    case VisualizationHelp => Continue(args, [VisualizationHelpShown])
    case Clear => Continue(args, [ScreenCleared])
    case ShowParameters => Continue(args, [ParametersShown(args)])
    case Unknown => Continue(args, [UnknownCommandShown])
  }

  /** Every command leaves alone the settings it does not name. */
  lemma StepChangesOwnSetting(args: Args, line: string, collect: Collection)
    ensures Step(args, line, collect).Continue? ==> OnlyOwnSetting(Dispatch(line), args, Step(args, line, collect).args)
  {
  }

  /** How a run ends: with an exit status, or with an exception escaping
      `run`. Either way, with what it showed on the way. */
  datatype RunResult = Exited(code: int, events: seq<Event>) | Crashed(error: string, events: seq<Event>)

  /** `input()` found no more lines. */
  const EofError := "EOFError"

  function Prepend(ev: seq<Event>, r: RunResult): RunResult {
    match r
    case Exited(code, rest) => Exited(code, ev + rest)
    case Crashed(e, rest) => Crashed(e, ev + rest)
  }

  /** The interactive loop over the lines the user types. It leaves with
      status 0 only at an "exit" line; without one it ends in an exception,
      the end of input if nothing else. */
  function Session(args: Args, lines: seq<string>, collect: Collection): (r: RunResult)
    ensures r.Exited? ==> r.code == 0
    ensures (forall k :: 0 <= k < |lines| ==> Dispatch(lines[k]) != Exit) ==> r.Crashed?
    ensures (forall k :: 0 <= k < |lines| ==> Dispatch(lines[k]) !in {Exit, SetLimit, CollectData})
              ==> r == Crashed(EofError, r.events)
    decreases |lines|
  {
    if lines == [] then Crashed(EofError, [])
    else
      assert forall k :: 1 <= k < |lines| ==> lines[1..][k - 1] == lines[k];
      match Step(args, lines[0], collect)
      case Stop => Exited(0, [])
      case Crash(e) => Crashed(e, [])
      case Continue(a, ev) => Prepend(ev, Session(a, lines[1..], collect))
  }

  /** `run` after parsing. Without `--automation` it shows the settings and
      enters the loop, which never validates them; with it, invalid settings
      give status 1, otherwise the report is produced once and the status
      is 0. */
  function Run(args: Args, probe: PathProbe, lines: seq<string>, host: Host): (r: RunResult)
    ensures !args.automation ==> r.events != [] && r.events[0] == ParametersShown(args)
    ensures !args.automation && r.Exited? ==> r.code == 0
    ensures args.automation ==> (r == Exited(1, []) <==> !ValidateArguments(args, probe))
    ensures args.automation && args.limit <= 0 ==> r == Exited(1, [])
    ensures args.automation && r.Exited? && r.code != 1 ==>
              r.code == 0 && |r.events| == 1 && r.events[0].Reported?
    ensures args.automation && ValidateArguments(args, probe) && args.output == "csv" && CollectAndFormatData(args, host).processes == [] ==>
              r == Crashed("ValueError: " + NoProcessData, [])
  {
    if !args.automation then Prepend([ParametersShown(args)], Session(args, lines, a => CollectAndFormatData(a, host)))
    else if !ValidateArguments(args, probe) then Exited(1, [])
    else
      match OutputData(CollectAndFormatData(args, host), args)
      case OutputFailed(e) => Crashed(e, [])
      case Written(content, to, _) => Exited(0, [Reported(content, to)])
  }

  // ---------------------------------------------------------------------
  // Properties of the loop
  // ---------------------------------------------------------------------

  /** Pressing a toggle twice restores every setting. */
  lemma ToggleTwice(args: Args, line: string, collect: Collection)
    requires Dispatch(line) in {ToggleVerbose, ToggleAdvanced, ToggleShowDenied, ToggleSystemInfo}
    ensures Step(args, line, collect).Continue?
    ensures Step(Step(args, line, collect).args, line, collect) == Continue(args, [])
  {
  }

  /** A keyword followed by one space and a value without spaces: its
      words are the two, and its last space-separated piece is the value. */
  lemma {:induction false} KeywordValue(keyword: string, value: string)
    requires IsWord(keyword) && IsWord(value) && ' ' !in keyword && ' ' !in value
    ensures Words(keyword + " " + value) == [keyword, value]
    ensures LastPiece(keyword + " " + value, ' ') == value
  {
    var parts := [keyword, value];
    assert Join(parts, ' ') == keyword + " " + value;
    WordsOfJoin(parts);
    SplitJoin(parts, ' ');
  }

  /** The characters of `str(i)` are digits or a leading minus. */
  lemma IntTextChars(i: int)
    ensures forall k :: 0 <= k < |IntText(i)| ==> IntText(i)[k] == '-' || IsDigit(IntText(i)[k])
    ensures IsWord(IntText(i)) && ' ' !in IntText(i)
  {
    var t := IntText(i);
    if i < 0 {
      assert forall k :: 1 <= k < |t| ==> t[k] == NatText(-i)[k - 1];
    }
  }

  /** "limit N" sets the limit to N, whatever its sign: the loop keeps
      values `validate_arguments` would refuse. */
  lemma LimitCommandSets(args: Args, i: int, collect: Collection)
    ensures Step(args, "limit " + IntText(i), collect) == Continue(args.(limit := i), [])
  {
    LimitLineSelectsLimit(i);
    LimitLineValue(i);
  }

  /** "limit N" selects the limit command. */
  lemma LimitLineSelectsLimit(i: int)
    ensures Dispatch("limit " + IntText(i)) == SetLimit
  {
    var t := IntText(i);
    var line := "limit " + t;
    IntTextChars(i);
    forall k | 0 <= k < |line|
      ensures !('A' <= line[k] <= 'Z') && line[k] != 'e' && line[k] != 'h'
    {
      if k >= 6 { assert line[k] == t[k - 6]; }
    }
    assert Lower(line) == line by { LowerUnchanged(line); }
    assert !Contains(line, "exit") by { NotContainsByChar(line, "exit"); }
    assert !Contains(line, "help") by { NotContainsByChar(line, "help"); }
    assert Contains(line, "limit") by { ContainsAt(line, "limit", 0); }
  }

  /** "limit N" has two words, and `int()` of its last piece is N. */
  lemma LimitLineValue(i: int)
    ensures |Words("limit " + IntText(i))| == 2
    ensures ParseInt(LastPiece("limit " + IntText(i), ' ')) == Some(i)
  {
    var t := IntText(i);
    IntTextChars(i);
    assert IsWord("limit") && ' ' !in "limit";
    assert "limit " + t == "limit" + " " + t;
    KeywordValue("limit", t);
    ParseIntText(i);
  }

  /** A limit of zero is refused under `--automation`. */
  lemma LimitZeroRefusedByAutomation(args: Args, probe: PathProbe, lines: seq<string>, host: Host)
    ensures Run(args.(automation := true, limit := 0), probe, lines, host) == Exited(1, [])
  {
  }

  /** On macOS nothing is ever collected, so an automation run asking for
      CSV always ends in the `ValueError` of the empty process list. */
  lemma MacCsvAutomationCrashes(args: Args, probe: PathProbe, lines: seq<string>, host: Host)
    requires Platforms.DispatchFamily(host.os) == Platforms.MacOS
    requires args.automation && ValidateArguments(args, probe) && args.output == "csv"
    ensures Run(args, probe, lines, host) == Crashed("ValueError: " + NoProcessData, [])
  {
    MacCollectsNothing(host.os, host.pids, host.probeOf, args.showDenied, args.limit);
    var data := CollectAndFormatData(args, host);
    assert multiset(data.processes) == multiset{};
    assert data.processes == [];
  }

  /** With a limit of zero the collection probes every PID the listing
      returns. */
  lemma LimitZeroProbesAll(args: Args, host: Host)
    ensures var m := CollectAndFormatData(args.(limit := 0), host).metadata;
            m.totalProcessesFound + m.permissionDenied == |GetPidList(host.os, host.pids)|
  {
    ReportedTotalExcludesDenied(args.(limit := 0), host);
    NonPositiveLimitProbesAll(host.os, host.pids, host.probeOf, args.showDenied, 0);
  }

  /** The last space-separated piece of text ending in a space is empty. */
  lemma LastPieceAfterTrailingSpace(s: string)
    requires s != [] && s[|s| - 1] == ' '
    ensures LastPiece(s, ' ') == ""
  {
    var parts := Split(s, ' ');
    var k := |parts| - 1;
    var last := parts[k];
    assert parts == parts[..k] + [last];
    JoinLast(parts[..k], last, ' ');
  }

  /** Joining ends with the last part. */
  lemma {:induction false} JoinLast(init: seq<string>, last: string, sep: char)
    ensures EndsWith(Join(init + [last], sep), last)
    decreases |init|
  {
    if |init| > 0 {
      assert (init + [last])[1..] == init[1..] + [last];
      JoinLast(init[1..], last, sep);
      var j := Join(init[1..] + [last], sep);
      var whole := init[0] + [sep] + j;
      assert Join(init + [last], sep) == whole;
      assert whole[|whole| - |last|..] == j[|j| - |last|..];
    }
  }

  /** A limit line that ends in a space raises, even with a number before
      the space: `int("")` fails. */
  lemma TrailingSpaceLimitRaises(args: Args, line: string, collect: Collection)
    requires Dispatch(line) == SetLimit && |Words(line)| >= 2
    requires line[|line| - 1] == ' '
    ensures Step(args, line, collect) == Crash("ValueError: " + IntValueError(""))
  {
    LastPieceAfterTrailingSpace(line);
    assert ParseInt("") == None;
  }

  /** "visualization help" anywhere in a line without "exit" shows the
      general help. */
  lemma HelpShadowsVisualizationHelp(args: Args, line: string, collect: Collection)
    requires Contains(Lower(line), "visualization help") && !Contains(Lower(line), "exit")
    ensures Dispatch(line) == Help
    ensures Step(args, line, collect) == Continue(args, [HelpShown])
  {
    VisualizationHelpContainsHelp(Lower(line));
  }

  /** The format check looks at the value before the change: from "json",
      any value is accepted silently, and a collection with a value other
      than "json" or "csv" then raises. */
  lemma OutputCheckTestsOldValue(args: Args, collect: Collection, setLine: string, collectLine: string)
    requires args.output == "json"
    requires Dispatch(setLine) == SetOutput && Dispatch(collectLine) == CollectData
    requires LastPiece(setLine, ' ') != "json" && LastPiece(setLine, ' ') != "csv"
    ensures Step(args, setLine, collect) == Continue(args.(output := LastPiece(setLine, ' ')), [])
    ensures Step(args.(output := LastPiece(setLine, ' ')), collectLine, collect) == Crash(UnboundContentError)
  {
  }
}
