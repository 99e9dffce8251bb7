# Process Watcher — a Dafny model of the collector, formatter and CLI

Process Watcher lists the processes of the host, measures each one and
reports the result as JSON or CSV, either interactively or in one shot for
automation tools. This project models its core in Dafny and proves
properties of the model:

- `ProcessInfo` and its `to_dict` rounding (`processes.dfy`);
- the platform tests and the host memory probe `_get_total_memory`
  (`platforms.dfy`);
- the PID enumerator `_get_pid_list` with its descending sort
  (`pid_lists.dfy`);
- the `/proc/<pid>/status` reader `_read_proc_status` (`proc_status.dfy`);
- the Linux, macOS and Windows resolvers and the `get_process_info`
  dispatch (`resolvers.dfy`);
- the collection pass `collect_processes`, both as a function and as a loop
  that is proved equal to it (`collector.dfy`);
- the output shaping `to_json` and the CSV writer `to_csv` (`formatter.dfy`);
- `collect_and_format_data` with its stable sort by memory (`report.dfy`);
- `validate_arguments`, `output_data` with its `.txt` rewrite, the
  interactive command loop and the automation branch of `run` (`cli.dfy`).

The command-line namespace is `Arguments.Args` (`arguments.dfy`). Python's
string and number built-ins that the code relies on are in `pytext.dfy`.
They cover `strip`, `split`, `split()`, `lower`, `in`, `int()`, `float()`
and `str()` of an integer or a two-decimal float.

Everything the program asks of its environment is an input to the model.
This covers the subprocess results, the `/proc` directory and files,
`psutil` answers, the CPU sample and the console lines. Each call that can
raise is an `Attempt` (`Got(value)` or `Threw(exception)`). An exception
carries its text and whether it is a `PermissionError`. The program's
reaction to each outcome is modelled branch for branch. Measured CPU and
memory figures are exact reals. `to_dict` rounds them to whole hundredths,
half to even, as Python's `round(x, 2)` does on the exact value. From then
on the model carries integer hundredths.

The model keeps several behaviours of the code that a reader might not
expect.

- `total_found_process` is the number of PIDs probed after truncation to
  the limit, not the number enumerated before it.
- `collect_and_format_data` asks for a `total_found` key that is never
  written. Its reported total is therefore the number of accessible
  processes (`Report.ReportedTotalExcludesDenied`).
- The resolvers do not always return a record:
  - The macOS resolver and the Linux resolver's unreadable-status branch
    return the raw `ProcessInfo` object.
  - An unsupported platform returns `None`.
  - In each of these cases the collector's `.get` raises, and the PID is
    counted as denied with the `AttributeError` text.
- The macOS resolver reads an attribute `command` that `ProcessInfo` does
  not have. So no macOS process is ever accessible
  (`Collector.MacCollectsNothing`).
- The memory probe falls back to 8 GiB only when the macOS or Linux branch
  raises. In these cases it returns `None` instead:
  - a failed `sysctl`;
  - a meminfo without a `MemTotal:` line;
  - a failed PowerShell query.
  It returns `0` on an unsupported platform.
- The platform tests differ between functions:
  - The memory probe tests the lowered platform name with `in`.
  - The PID list and the dispatch test `startswith('linux')`, `== 'darwin'`
    and `'win' in`.
  So `"Darwin"` is macOS for one and Windows for the other.
- In the command loop, "help" is checked before "visualization help", so the
  latter is unreachable. The `output` command validates the old format, not
  the new one. An unknown format then makes `collect data` fail with an
  unbound `output_content`.

## Model

| member | source | states |
|---|---|---|
| Processes.Round2 | src/process_collector.py:32-33 | `round(x, 2)` counted in hundredths: within half a hundredth of `x`, and even when `x` lies exactly halfway |
| Processes.Round2Unique | src/process_collector.py:32-33 | those two properties single out one value, so the rounding is fully determined by them |
| Processes.Round2Exact | src/process_collector.py:32-33 | rounding a value that already has two decimals returns it unchanged |
| Processes.ToDict | src/process_collector.py:27-37 | every attribute is copied; CPU and memory come out within half a hundredth of the measured value, and a missing figure becomes 0 |
| Platforms.PidListMatchesDispatch | src/process_collector.py:81-96 | the PID enumerator chooses its branch exactly as `get_process_info` does, for every platform name |
| Platforms.MemoryProbeDisagreesWithDispatch | src/process_collector.py:50-62 | for the platform name "Darwin" the memory probe takes the macOS branch while the dispatch takes the Windows one |
| Platforms.FindMemTotal | src/process_collector.py:57-58 | the line found starts with `MemTotal:` and is one of the file's lines; none is found exactly when no line starts that way |
| Platforms.FindMemTotalAfter | src/process_collector.py:57-58 | the search passes over lines that do not start with `MemTotal:` and returns the first that does |
| Platforms.Truncate | src/process_collector.py:66 | `int(float)` moves toward zero by less than one |
| Platforms.TotalMemory | src/process_collector.py:47-75 | 0 on an unsupported platform; 8 GiB when the macOS or Linux read raises, including a `sysctl` reply with no colon or no number after it and a first `MemTotal:` line whose second word is missing or not an integer; `k * 1024` bytes when that second word is the integer `k`; no value after a failed `sysctl`, a meminfo without `MemTotal:` or a PowerShell reply that does not parse; on Windows the truncated figure PowerShell prints |
| Platforms.MemsizeBytes | src/process_collector.py:53 | a `sysctl` reply without a colon has no second piece to read |
| Platforms.GiBFigure | src/process_collector.py:64-66 | `int(float(...))` is defined exactly when the reply parses, and lies within one unit of it |
| Platforms.MemsizeOfReply | src/process_collector.py:53 | the reply `hw.memsize: N` reads back as N, for every N |
| Platforms.MacMemsize | src/process_collector.py:49-53 | on `darwin`, a successful `sysctl` reply `hw.memsize: N` makes the probe report N bytes |
| Platforms.FigureReadsBack | src/process_collector.py:66 | a two-decimal PowerShell figure with its line break reads back as its value |
| Platforms.GiBOfFigure | src/process_collector.py:66 | such a figure is truncated to its whole part |
| Platforms.WindowsMemoryGiB | src/process_collector.py:62-66 | on `win32` the probe reports the whole number of GiB PowerShell printed, not a byte count |
| Platforms.MemTotalWithoutFigure | src/process_collector.py:55-60 | a bare `MemTotal:` line after lines without that prefix makes `split()[1]` raise, so the answer is 8 GiB |
| Platforms.LinuxMemTotal | src/process_collector.py:55-60 | a `MemTotal: k kB` line after lines without that prefix gives `k * 1024` bytes, whatever follows it |
| Platforms.MemoryNotAlwaysPositive | src/process_collector.py:47-75 | the probe can return 0 (platform "sunos5") or nothing (Linux with an empty meminfo), so it is not always a positive byte count |
| PidLists.CollectLines | src/process_collector.py:84-87 | a PID is kept exactly when some line parses to it; unparsable lines are skipped, so there are never more PIDs than lines |
| PidLists.ProcDirPids | src/process_collector.py:92-94 | the PIDs are exactly the values of the `/proc` directory entries whose names are all digits, and none is negative |
| PidLists.InsertDesc | src/process_collector.py:110 | inserting into a descending list keeps it descending and adds exactly the new element |
| PidLists.SortDesc | src/process_collector.py:110 | `sorted(pids, reverse=True)`: a non-increasing permutation of its input |
| PidLists.NonIncreasingUnique | src/process_collector.py:110 | two non-increasing arrangements of the same PIDs are equal, so the sorted list is fully determined |
| PidLists.GetPidList | src/process_collector.py:77-110 | the listing is non-increasing and holds exactly the PIDs the platform's source yields |
| PidLists.UnsupportedHasNoPids | src/process_collector.py:104-105 | an unsupported platform yields no PIDs |
| PidLists.LinePidOfText | src/process_collector.py:84-101 | a line holding the decimal text of `n` parses to `n` on both macOS and Windows |
| PidLists.CollectNumberLines | src/process_collector.py:84-103 | a listing of decimal numbers parses back to exactly those numbers, in order |
| PidLists.NumberListing | src/process_collector.py:84 | lines whose outer ends are not blank survive `strip().split('\n')` of their join unchanged |
| PidLists.WindowsDropsFirstThree | src/process_collector.py:96-103 | a bare list of PIDs from PowerShell loses its first three entries before sorting |
| PidLists.DarwinDropsHeader | src/process_collector.py:81-88 | the `ps` header line is dropped, whatever it says, and every PID after it is kept and sorted |
| ProcStatus.Field | src/process_collector.py:147-149 | the key is the stripped text before the first colon and so holds no colon |
| ProcStatus.BuildDictSpec | src/process_collector.py:144-151 | the dictionary's keys are exactly the keys of the colon lines, and each maps to the value of the last line carrying it |
| ProcStatus.ReadProcStatus | src/process_collector.py:137-156 | no dictionary exactly when the file is missing or unreadable; otherwise its keys are the keys of the colon lines |
| ProcStatus.FieldOfStatusLine | src/process_collector.py:147-149 | a `Key:\tvalue` line reads back as that key and value |
| ProcStatus.BuildDictDistinct | src/process_collector.py:144-151 | lines with distinct keys build the dictionary mapping each key to its own value |
| ProcStatus.ParseStatusLines | src/process_collector.py:144-151 | status text written as `Key:\tvalue` lines with distinct keys parses back to exactly those keys and values |
| Resolvers.FillLinux | src/process_collector.py:168-179 | the process is accessible exactly when the name, state, user, CPU and memory reads all succeed; a missing `Name` gives a `KeyError` denial; a denial always has an error |
| Resolvers.ResolveLinux | src/process_collector.py:158-181 | a raw object exactly when the status file has no colon line, denied with the fixed "cannot read" text; otherwise a dictionary for the requested PID built from the status fields |
| Resolvers.EmptyStatusHasNoColon | src/process_collector.py:162-163 | the status dictionary is empty exactly when the file has no colon line |
| Resolvers.LinuxFirstFailureWins | src/process_collector.py:168-179 | when the name and state are read but the user lookup raises, the error is "Permission denied" for a `PermissionError` and the exception text otherwise, and no later measurement is recorded |
| Resolvers.ResolveMac | src/process_collector.py:183-215 | always a raw, inaccessible object with an error: "Process not found or permission denied" for a failed run or blank output, "Invalid ps output" for fewer than two lines, "Invalid ps output format" for fewer than five fields, the wrapped exception text when `ps` raises, and well-formed `ps` output still fails on the missing `command` attribute after storing the columns |
| Resolvers.MacPsLines | src/process_collector.py:193-200 | of a header line and a data line, the data line's words are the fields |
| Resolvers.MacHeaderOnly | src/process_collector.py:193-197 | output holding only the header line is "Invalid ps output" |
| Resolvers.MacShortDataLine | src/process_collector.py:198-204 | a data line with fewer than five words is "Invalid ps output format" |
| Resolvers.ResolveWindows | src/process_collector.py:217-239 | always a dictionary for the requested PID; accessible exactly when PowerShell answers, its output decodes, the CPU sample succeeds and the name is non-empty, with the decoded name and user, status "Running" and the rounded memory figure or 0 when the key is missing; "Unable to retrieve process information" when PowerShell did not answer or answered without a name; the exception text when the run, the decoding or the CPU sample raises |
| Resolvers.GetProcessInfo | src/process_collector.py:241-248 | no result exactly on an unsupported platform; a dictionary exactly on Windows or on Linux with a readable status; macOS always gives an inaccessible raw object |
| Collector.Classify | src/process_collector.py:290-312 | a PID is kept exactly when its answer is an accessible dictionary; a denial carries the record's error and name (or the `pid_N` placeholder), or the `AttributeError` text for a raw object or `None` |
| Collector.ProbeList | src/process_collector.py:274-276 | the PIDs probed are the first `max_processes` of the list, or all of them when the limit is not positive |
| Collector.AcceptedMembers | src/process_collector.py:292-294 | a record is kept exactly when some PID's outcome accepted it |
| Collector.RefusedMembers | src/process_collector.py:295-312 | a denial entry is listed exactly when some PID's outcome refused with it |
| Collector.OutcomesPartition | src/process_collector.py:286-312 | every probed PID is either kept or denied, never both |
| Collector.Collect | src/process_collector.py:263-326 | total = kept + denied = PIDs probed; every kept record is accessible; details are present exactly when requested and something was denied, one entry per denial |
| Collector.ClassifyAll | src/process_collector.py:281-312 | the loop, calling the resolver once per PID, keeps exactly the accepted records and lists exactly the denial entries (only when asked), in probe order, with counters equal to their lengths |
| Collector.CollectProcesses | src/process_collector.py:263-326 | truncating, looping and assembling `access_info` step by step returns exactly what `Collect` specifies |
| Collector.LimitKeepsLargest | src/process_collector.py:274-276 | every PID probed is at least as large as every PID cut off by the limit |
| Collector.NonPositiveLimitProbesAll | src/process_collector.py:275-276 | with a limit of zero or below every enumerated PID is probed |
| Collector.MacOutcomeRefused | src/process_collector.py:292 | on macOS each PID is denied with the `AttributeError` text and its placeholder name |
| Collector.MacCollectsNothing | src/process_collector.py:286-312 | on macOS no process is kept and every probed PID is counted as denied |
| Collector.MacDenialsAreGetErrors | src/process_collector.py:304-312 | on macOS every listed denial carries the `AttributeError` text and a placeholder name |
| Collector.UnsupportedCollectsNothing | src/process_collector.py:263-326 | on an unsupported platform the pass finds, keeps and denies nothing |
| Formatter.Lookup | src/output_formatter.py:35 | a key has a value exactly when the row holds it, and the value is the one the row pairs with it |
| Formatter.RecordRow | src/process_collector.py:28-37 | the advanced row has the eight keys of `to_dict` in their order |
| Formatter.SummaryRow | src/output_formatter.py:10-16 | the summary row has the keys pid, name, user, cpu_percent and memory_megabyte in that order |
| Formatter.SummaryIsPrefix | src/output_formatter.py:10-18 | the summary row is the first five entries of the advanced row |
| Formatter.RecordRowValues | src/process_collector.py:28-37 | each key of the advanced row holds the record's own field |
| Formatter.SummaryRowValues | src/output_formatter.py:11-15 | each summary key holds the same value as in the advanced row |
| Formatter.ShapeRow | src/output_formatter.py:8-18 | a row has the advanced keys when `advanced` is set and the summary keys otherwise |
| Formatter.ToJson | src/output_formatter.py:4-23 | one row per process in order; system info present exactly when requested, with the placeholder when none was collected; denied list present exactly when requested and non-empty |
| Formatter.MetadataIgnored | src/output_formatter.py:4-23 | the document does not depend on the metadata |
| Formatter.Cells | src/output_formatter.py:35 | a line's cells exist exactly when the row holds every header; each cell is `str` of that header's value |
| Formatter.BodyLines | src/output_formatter.py:34-35 | the body exists exactly when every row holds every header; line `i` is row `i`'s cells joined by commas |
| Formatter.CsvText | src/output_formatter.py:28-30 | no rows gives the "No process data passed." error |
| Formatter.ToCsv | src/output_formatter.py:25-37 | the CSV fails exactly when there is no process, and then with the "No process data passed." error |
| Formatter.RowsShareKeys | src/output_formatter.py:31-35 | every row holds every key of the first row, so no lookup for a header fails |
| Formatter.ValueTextSafe | src/output_formatter.py:35 | numbers, booleans and `None` print without a comma or newline |
| Formatter.RowSafe | src/output_formatter.py:35 | a row whose texts carry no comma or newline prints every cell without one |
| Formatter.LineReadsBack | src/output_formatter.py:35 | a line of safe cells splits back on commas into exactly those cells |
| Formatter.HeaderReadsBack | src/output_formatter.py:33 | the header line splits back on commas into exactly the headers |
| Formatter.BodyReadsBack | src/output_formatter.py:34-35 | every body line of safe rows splits back on commas into its row's cells |
| Formatter.LinesReadBack | src/output_formatter.py:36 | joining lines without newlines and splitting on newlines gives them back |
| Formatter.CsvReadsBack | src/output_formatter.py:25-37 | for safe rows the CSV has one line per process after the header, and each line splits back into the header names or that process's cells |
| Formatter.CommaCellAddsColumn | src/output_formatter.py:35 | one cell holding one comma makes its line split into one column more than there are headers |
| Formatter.CommaInNameAddsColumn | src/output_formatter.py:35 | a process name holding a comma makes its summary line split into six columns under five headers |
| Formatter.SummaryCells | src/output_formatter.py:35 | a summary line has five cells, each `str` of the row's value in header order |
| Report.InsertByMemory | src/cli.py:147 | inserting keeps the list in descending memory order and adds exactly the new record |
| Report.SortByMemoryDesc | src/cli.py:147 | the sort by memory is descending and a permutation of its input |
| Report.WithMemoryInsert | src/cli.py:147 | insertion puts the new record ahead of every record with the same memory and leaves their order alone |
| Report.SortIsStable | src/cli.py:147 | records with equal memory keep their collection order, as Python's stable sort does |
| Report.CollectAndFormatData | src/cli.py:136-164 | the processes are a permutation of the collected ones in non-increasing memory order, stably sorted (equal-memory processes keep the collector's order); the metadata reports the kept count twice and the denied count; system info is present exactly when requested and is the host summary; the denied list is present exactly when requested and something was denied, and is the collector's list |
| Report.ReportedTotalExcludesDenied | src/cli.py:153-155 | reported total plus denied equals the PIDs probed, so the reported total leaves out the denied ones |
| Cli.ValidationErrors | src/cli.py:94-111 | a non-positive limit gives exactly the limit error; otherwise at most one error, and only for a non-empty `--file` whose path is unusable |
| Cli.ValidateArguments | src/cli.py:94-118 | valid exactly when the limit is positive and any non-empty `--file` path is usable |
| Cli.RewritePath | src/cli.py:175-178 | the file written always ends in `.txt`; a `.txt` path is kept; any other path gets `processes.txt` appended inside it |
| Cli.RewritePathIdempotent | src/cli.py:175-178 | rewriting a rewritten path changes nothing |
| Cli.OutputData | src/cli.py:166-184 | with the filesystem write abstracted away (see Left out), JSON always yields content; CSV fails with a `ValueError` exactly when there is no process; any other format fails with an unbound `output_content`; output goes to the console exactly when `--file` is empty, and the rewritten path is kept in the arguments |
| Cli.OutputTargetSettles | src/cli.py:175-179 | after one file write, a later `collect data` writes to the same file and leaves the arguments alone |
| Cli.VisualizationHelpContainsHelp | src/cli.py:230-279 | every line containing "visualization help" contains "help" |
| Cli.Dispatch | src/cli.py:227-286 | "exit" anywhere in the lowered line exits; otherwise "help" anywhere shows help; the visualization help is never chosen |
| Cli.CollectStep | src/cli.py:276-278 | `collect data` fails exactly when `output_data` fails; otherwise it reports once and changes only the file setting |
| Cli.Step | src/cli.py:226-286 | only `exit` stops; only `limit` and `collect data` can raise; `limit` with fewer than two words only shows the missing-limit message and leaves every setting unchanged; `limit` with a value raises `int()`'s `ValueError` on the last space-separated piece exactly when that piece is not an integer, and otherwise sets the limit to it; `file` sets the path to the last space-separated piece and changes nothing else; `output` always sets the last word and warns exactly when the old format was invalid |
| Cli.StepChangesOwnSetting | src/cli.py:233-284 | each command changes at most the one setting it names |
| Cli.Session | src/cli.py:225-287 | the loop only ends with status 0; without an `exit` line it ends with an exception; without `exit`, `limit` or `collect data` lines that exception is the end of input |
| Cli.Run | src/cli.py:214-294 | interactive runs first show the parameters and, if they exit, exit with status 0; automation exits with 1 exactly when validation fails; when it passes, a CSV request with no collected process ends in the `ValueError` of `to_csv`, and an exit with status 0 follows exactly one report |
| Cli.MacCsvAutomationCrashes | src/cli.py:288-294 | on macOS, where nothing is collected, every valid automation run asking for CSV ends in that `ValueError` |
| Cli.ToggleTwice | src/cli.py:248-275 | a toggle command given twice restores the arguments |
| Cli.LimitCommandSets | src/cli.py:233-239 | `limit N` sets the limit to `N` for every integer `N` |
| Cli.LimitLineSelectsLimit | src/cli.py:227-233 | a `limit N` line is dispatched to the limit command |
| Cli.LimitLineValue | src/cli.py:234-238 | a `limit N` line has two words and its last piece parses back to `N` |
| Cli.LimitZeroRefusedByAutomation | src/cli.py:288-290 | in automation a limit of zero exits with status 1 before collecting |
| Cli.LimitZeroProbesAll | src/process_collector.py:275-276 | a limit of zero reaching the collector probes every enumerated PID |
| Cli.LastPieceAfterTrailingSpace | src/cli.py:238 | the last piece after a trailing space is empty |
| Cli.TrailingSpaceLimitRaises | src/cli.py:234-238 | a `limit` line with a value and a trailing space raises `ValueError` |
| Cli.HelpShadowsVisualizationHelp | src/cli.py:230-280 | a "visualization help" line shows the general help instead |
| Cli.OutputCheckTestsOldValue | src/cli.py:240-244 | an invalid format is accepted without a warning after a valid one, and the next `collect data` fails with an unbound `output_content` |
| PyText.Split | src/process_collector.py:84 | `split(sep)` gives at least one piece, none holds the separator, and joining the pieces restores the text |
| PyText.SplitJoin | src/output_formatter.py:33-36 | splitting the join of separator-free pieces gives the pieces back |
| PyText.WordsOfJoin | src/cli.py:234 | `split()` of words joined by single spaces gives the words back |
| PyText.PyRepr | src/cli.py:238 | `repr` of a text starts and ends with the same quote: a double quote when the text holds an apostrophe and no double quote, otherwise a single quote |
| PyText.ReprOfPlain | src/process_collector.py:205 | text without quotes, backslashes or control characters is shown between single quotes unchanged, which is how the `int()` and `float()` errors quote it |
| PyText.ReprOfApostrophe | src/cli.py:238 | `repr("it's")` is the text in double quotes, with the apostrophe unescaped |
| PyText.ReprEscapes | src/process_collector.py:207-208 | a backslash shows as two backslashes and a tab as `\t` |
| PyText.IntValueError | src/cli.py:238 | the `int()` error text has at most 240 characters, because the quoted text is cut to 200 |
| PyText.ParseIntText | src/cli.py:238 | `int()` of the decimal text of any integer gives it back |
| PyText.HundredthsTextRoundTrip | src/output_formatter.py:35 | `float()` of `str()` of a two-decimal value gives the value back |

## Left out

- CPU sampling (`_get_cpu_usage`, `psutil.cpu_count`) is an input: the model receives the sampled percentage and never waits or divides by the core count.
- Floating point: measured figures are exact reals and `round(x, 2)` rounds the exact value half to even. Binary representation error is not modelled: Python's `round` on a float that is not exactly halfway in binary, and `str` of floats of 10^16 or more, which use exponent notation.
- Formatter.ValueText: a Windows memory figure that PowerShell serialises as a whole number stays a Python `int` and prints without ".0". The model treats every measured figure as a float.
- JSON text: `json.dumps` layout, and the `json.loads` in `to_csv` and in the Windows resolver. The model carries the decoded values. The Windows answer is a record of optional name, user and memory.
- Argument parsing (`create_parser`, `argparse`) is not modelled. The model starts from a parsed `Args`. `DefaultArgs` records the declared defaults, including the limit of 5 that the help text calls 100.
- Console I/O is not modelled: prompts, the help and parameter listings, and the verbose and error messages. Some outputs of the command loop are events in the model's trace, with no text: the help, the visualization help, the parameter listing, the screen clear, the unknown-command message, the missing-limit message, the invalid-format warning and each report. The confirmations are not recorded: "Exiting…", "Limit set to", "Output format set to", "Output file set to" and the four toggle messages.
- The `clear` command's shell call is not modelled; the model only records that it was asked for.
- Filesystem effects are not modelled: the directory creation and the file write, and the `exists`/`is_file` checks. The outcome of the path checks is the input `PathProbe`. `os.path.join` is modelled with the POSIX separator.
- The contents of `get_system_summary` come from a module that is not part of this model. The summary is an opaque list of pairs.
- `_read_proc_stat` is not modelled: it is never called. `get_collection_timestamp` is modelled as always `None`, since nothing sets it.
- Text built-ins cover ASCII only. Whitespace is the ASCII set Python strips. `int()` accepts an optional sign and ASCII digits, with no underscores and no non-ASCII digits. `float()` accepts an optional sign and digits with an optional fraction.
- PyText.PyRepr: non-ASCII characters are kept as they are. Python also escapes the non-printable ones, such as `\x85` and `\u2028`, which lie outside the ASCII text the model covers.
- PidLists.GetPidList: an exception partway through the `/proc` listing is modelled as an empty listing. The source keeps the PIDs appended before the exception.
- Collector.Classify: an exception other than the `.get` `AttributeError` cannot arise in the loop, because every resolver catches its own. The loop's general handler is reached only through that `AttributeError`.
- Cli.OutputData: exceptions raised while writing are not modelled. These are `os.makedirs` on a path that exists as a regular file (for example `--file out.csv`) and a failing `open`. The model reports such a write as `Written`.
- Report.Host: the environment is one snapshot. A PID listed twice gets the same probe answer both times, and every `collect data` in a session sees the same processes. On a live host, answers and processes change between calls.
- Cli.Session: the loop is modelled over a collection function `Args -> ReportData` given as a parameter. `Cli.Run` passes the real `CollectAndFormatData` in.
