/** The per-platform resolvers of src/process_collector.py and the
    `get_process_info` dispatch over them. Each resolver starts from a fresh
    `ProcessInfo(pid)`, assigns attributes in a fixed order inside a `try`,
    and on the first exception marks the object inaccessible with a reason,
    keeping whatever was assigned before. */
module Resolvers {
  import opened Wrappers
  import opened PyText
  import opened Processes
  import opened Platforms
  import opened ProcStatus

  // ---------------------------------------------------------------- Linux

  /** What `_get_process_info_linux` reads for one PID. */
  datatype LinuxProbe = LinuxProbe(
    status: StatusFile,       // /proc/<pid>/status
    username: Attempt<string>,  // `psutil.Process(pid).username()`
    cpu: Attempt<real>,         // `_get_cpu_usage(pid, interval=1.0)`
    rssBytes: Attempt<int>)     // `psutil.Process(pid).memory_info().rss`

  /** `1024 * 1024`. */
  const BytesPerMegabyte: real := 1048576.0

  /** The error text stored for an unreadable or empty status file. */
  const UnreadableStatusError: string := "Cannot read /proc/pid/stat"

  /** The reason the Linux handlers store: fixed text for a
      `PermissionError`, `str(e)` for any other exception. */
  function LinuxReason(e: Exc): string {
    if e.isPermissionError then "Permission denied" else e.text
  }

  /** `str(KeyError(key))`: the key in quotes. */
  function KeyErrorText(key: string): string {
    "'" + key + "'"
  }

  /** The assignments of the `try` block once the status dictionary `m` is
      known: name, status, user, CPU, memory, stopping at the first that
      raises. */
  function FillLinux(p: ProcessInfo, m: map<string, string>, probe: LinuxProbe): (q: ProcessInfo)
    requires p.accessible && p.error.None?
    ensures q.pid == p.pid
    ensures q.accessible <==> LinuxComplete(m, probe)
    ensures q.accessible ==>
              q.error.None? && q.name == Some(m["Name"]) && q.status == Some(m["State"])
              && q.user == Some(probe.username.value) && q.cpuPercent == Some(probe.cpu.value)
              && q.memoryMegabyte == Some(probe.rssBytes.value as real / BytesPerMegabyte)
    ensures "Name" !in m ==> q == Deny(p, KeyErrorText("Name"))
    ensures !q.accessible ==> q.error.Some?
  {
    if "Name" !in m then Deny(p, KeyErrorText("Name"))
    else
      var p1 := p.(name := Some(m["Name"]));
      if "State" !in m then Deny(p1, KeyErrorText("State"))
      else
        var p2 := p1.(status := Some(m["State"]));
        match probe.username
        case Threw(e) => Deny(p2, LinuxReason(e))
        case Got(u) =>
          var p3 := p2.(user := Some(u));
          match probe.cpu
          case Threw(e) => Deny(p3, LinuxReason(e))
          case Got(c) =>
            var p4 := p3.(cpuPercent := Some(c));
            match probe.rssBytes
            case Threw(e) => Deny(p4, LinuxReason(e))
            case Got(rss) => p4.(memoryMegabyte := Some(rss as real / BytesPerMegabyte))
  }

  /** Every lookup and call of the Linux `try` block succeeds. */
  predicate LinuxComplete(m: map<string, string>, probe: LinuxProbe) {
    "Name" in m && "State" in m && probe.username.Got? && probe.cpu.Got? && probe.rssBytes.Got?
  }

  /** Some line of the status file has a colon. */
  predicate HasColonLine(file: StatusFile) {
    file.Lines? && exists i :: 0 <= i < |file.lines| && ':' in file.lines[i]
  }

  /** `_get_process_info_linux`. A status file that is missing, unreadable
      or has no `key: value` line makes it return the raw object; every other
      path returns `to_dict()`, accessible exactly when every step
      succeeded. */
  function ResolveLinux(pid: int, probe: LinuxProbe): (r: Resolved)
    ensures r.NoResult? == false
    ensures r.RawObject? <==> !HasColonLine(probe.status)
    ensures r.RawObject? ==> r.info == Deny(NewProcessInfo(pid), UnreadableStatusError)
    ensures r.Dict? ==> r.record.pid == pid
    ensures r.Dict? ==> var m := ParseStatus(probe.status.lines);
              (r.record.accessible <==> LinuxComplete(m, probe))
              && (r.record.accessible ==>
                    r.record.error.None? && r.record.name == Some(m["Name"])
                    && r.record.status == Some(m["State"]) && r.record.user == Some(probe.username.value)
                    && r.record.cpuPercent == Round2(probe.cpu.value)
                    && r.record.memoryMegabyte == Round2(probe.rssBytes.value as real / BytesPerMegabyte))
              && ("Name" !in m ==> r.record.error == Some(KeyErrorText("Name")) && r.record.name.None?)
              && (!r.record.accessible ==> r.record.error.Some?)
  {
    var p := NewProcessInfo(pid);
    match ReadProcStatus(probe.status)
    case None => RawObject(Deny(p, UnreadableStatusError))
    case Some(m) =>
      EmptyStatusHasNoColon(probe.status);
      if m == map[] then RawObject(Deny(p, UnreadableStatusError))
      else Dict(ToDict(FillLinux(p, m, probe)))
  }

  /** The dictionary of a readable status file is empty exactly when no
      line has a colon. */
  lemma EmptyStatusHasNoColon(file: StatusFile)
    requires file.Lines?
    ensures ParseStatus(file.lines) == map[] <==> !HasColonLine(file)
  {
    var lines := file.lines;
    var m := ReadProcStatus(file).value;
    if HasColonLine(file) {
      var i :| 0 <= i < |lines| && ':' in lines[i];
      assert HasKey(Fields(lines), i, Field(lines[i]).0);
      assert Field(lines[i]).0 in m;
    }
  }

  /** Which exception is reported when more than one step would fail: the
      first in code order wins, and a `PermissionError` is reported as
      "Permission denied" whatever its text. */
  lemma LinuxFirstFailureWins(pid: int, probe: LinuxProbe, e: Exc)
    requires HasColonLine(probe.status)
    requires var m := ParseStatus(probe.status.lines); "Name" in m && "State" in m
    requires probe.username == Threw(e)
    ensures ResolveLinux(pid, probe).record.error == Some(if e.isPermissionError then "Permission denied" else e.text)
    ensures ResolveLinux(pid, probe).record.user.None?
    ensures ResolveLinux(pid, probe).record.cpuPercent == 0
  {
    Round2Exact(0);
  }

  // ---------------------------------------------------------------- macOS

  /** What `_get_process_info_macos` reads: the run of
      `ps -p <pid> -o pid,user,%cpu,%mem,stat`. */
  datatype MacProbe = MacProbe(ps: Attempt<Completed>)

  /** `str(e)` of the `AttributeError` raised by reading `proc_info.command`,
      an attribute `ProcessInfo` never defines. */
  const MissingCommandError: string := "'ProcessInfo' object has no attribute 'command'"

  /** The reason stored by the catch-all handler of the macOS resolver. */
  function Unexpected(text: string): string {
    "Unexpected error: " + text
  }

  /** The data line `_get_process_info_macos` reads, split on whitespace, if
      the command succeeded with at least two output lines. */
  function MacFields(c: Completed): Option<seq<string>> {
    if c.returncode != 0 || Strip(c.stdout) == "" then None
    else
      var lines := Split(Strip(c.stdout), '\n');
      if |lines| < 2 then None else Some(Words(Strip(lines[1])))
  }

  /** The five `ps` columns all read: a PID, a user, two numbers and a status. */
  predicate WellFormedPsFields(fs: seq<string>) {
    |fs| >= 5 && ParseInt(fs[0]).Some? && ParseFloat(fs[2]).Some? && ParseFloat(fs[3]).Some?
  }

  /** `_get_process_info_macos`. Every path returns the raw object, never
      `to_dict()`, and every path marks it inaccessible: even a well-formed
      `ps` line ends in the `AttributeError` on `command`, after the columns
      have been stored (`%mem` into the memory attribute). */
  function ResolveMac(pid: int, probe: MacProbe): (r: Resolved)
    ensures r.RawObject? && !r.info.accessible && r.info.error.Some?
    ensures probe.ps.Threw? ==> r.info.error == Some(Unexpected(probe.ps.exc.text))
    ensures probe.ps.Got? && (probe.ps.value.returncode != 0 || Strip(probe.ps.value.stdout) == "") ==>
              r.info.error == Some("Process not found or permission denied")
    ensures probe.ps.Got? && probe.ps.value.returncode == 0 && Strip(probe.ps.value.stdout) != "" && MacFields(probe.ps.value).None? ==>
              r.info.error == Some("Invalid ps output")
    ensures probe.ps.Got? && MacFields(probe.ps.value).Some? && |MacFields(probe.ps.value).value| < 5 ==>
              r.info.error == Some("Invalid ps output format")
    ensures probe.ps.Got? && MacFields(probe.ps.value).Some? && WellFormedPsFields(MacFields(probe.ps.value).value) ==>
              var fs := MacFields(probe.ps.value).value;
              r.info.error == Some(Unexpected(MissingCommandError))
              && Some(r.info.pid) == ParseInt(fs[0]) && r.info.user == Some(fs[1])
              && r.info.cpuPercent == ParseFloat(fs[2]) && r.info.memoryMegabyte == ParseFloat(fs[3])
              && r.info.status == Some(fs[4])
  {
    var p := NewProcessInfo(pid);
    match probe.ps
    case Threw(e) => RawObject(Deny(p, Unexpected(e.text)))
    case Got(c) =>
      if c.returncode != 0 || Strip(c.stdout) == "" then RawObject(Deny(p, "Process not found or permission denied"))
      else
        var lines := Split(Strip(c.stdout), '\n');
        if |lines| < 2 then RawObject(Deny(p, "Invalid ps output"))
        else
          var fields := Words(Strip(lines[1]));
          if |fields| < 5 then RawObject(Deny(p, "Invalid ps output format"))
          else
            match ParseInt(fields[0])
            case None => RawObject(Deny(p, Unexpected(IntValueError(fields[0]))))
            case Some(q) =>
              var p1 := p.(pid := q, user := Some(fields[1]));
              match ParseFloat(fields[2])
              case None => RawObject(Deny(p1, Unexpected(FloatValueError(fields[2]))))
              case Some(cpu) =>
                var p2 := p1.(cpuPercent := Some(cpu));
                match ParseFloat(fields[3])
                case None => RawObject(Deny(p2, Unexpected(FloatValueError(fields[3]))))
                case Some(mem) =>
                  var p3 := p2.(memoryMegabyte := Some(mem), status := Some(fields[4]));
                  RawObject(Deny(p3, Unexpected(MissingCommandError)))
  }

  /** `ps` output made of a header line and a data line: the data line is
      the one split into fields. */
  lemma MacPsLines(header: string, line: string)
    requires Trimmed(header) && Trimmed(line) && '\n' !in header && '\n' !in line
    ensures MacFields(Completed(0, header + "\n" + line)) == Some(Words(line))
  {
    var s := header + "\n" + line;
    assert s == header + ['\n'] + line;
    assert s[0] == header[0] && s[|s| - 1] == line[|line| - 1];
    StripUntrimmed(s);
    SplitCons(header, line, '\n');
    assert Split(line, '\n') == [line];
    StripUntrimmed(line);
  }

  /** `ps` output holding only its header line is reported as invalid. */
  lemma MacHeaderOnly(pid: int, header: string)
    requires Trimmed(header) && '\n' !in header
    ensures ResolveMac(pid, MacProbe(Got(Completed(0, header + "\n")))).info.error == Some("Invalid ps output")
  {
    StripPadded(header, "\n");
    assert Split(header, '\n') == [header];
  }

  /** A data line with fewer than five columns is reported as a bad format. */
  lemma MacShortDataLine(pid: int, header: string, line: string)
    requires Trimmed(header) && Trimmed(line) && '\n' !in header && '\n' !in line
    requires |Words(line)| < 5
    ensures ResolveMac(pid, MacProbe(Got(Completed(0, header + "\n" + line)))).info.error == Some("Invalid ps output format")
  {
    MacPsLines(header, line);
  }

  // -------------------------------------------------------------- Windows

  /** The fields `_get_process_info_windows` takes from the decoded JSON
      object (`.get` gives `None` for a missing key). */
  datatype WinObject = WinObject(name: Option<string>, user: Option<string>, memoryMegabyte: Option<real>)

  /** What `_get_process_info_windows` reads for one PID: the PowerShell
      run, the decoding of its output, and the CPU sample. */
  datatype WindowsProbe = WindowsProbe(
    query: Attempt<Completed>,
    decoded: Attempt<WinObject>,
    cpu: Attempt<real>)

  /** The reason stored when no name was obtained. */
  const NoInformationError: string := "Unable to retrieve process information"

  /** The PowerShell run succeeded with non-blank output. */
  predicate WindowsAnswered(probe: WindowsProbe) {
    probe.query.Got? && probe.query.value.returncode == 0 && Strip(probe.query.value.stdout) != ""
  }

  /** The final `if not process.name` check. */
  function RequireName(p: ProcessInfo): ProcessInfo {
    if Truthy(p.name) then p else Deny(p, NoInformationError)
  }

  /** `_get_process_info_windows`. It always returns `to_dict()`, and the
      result is accessible exactly when PowerShell answered, its output
      decoded to an object with a non-empty name, and the CPU sample
      succeeded. */
  function ResolveWindows(pid: int, probe: WindowsProbe): (r: Resolved)
    ensures r.Dict? && r.record.pid == pid
    ensures r.record.accessible <==>
              WindowsAnswered(probe) && probe.decoded.Got? && probe.cpu.Got? && Truthy(probe.decoded.value.name)
    ensures r.record.accessible ==>
              r.record.error.None? && r.record.name == probe.decoded.value.name
              && r.record.user == probe.decoded.value.user && r.record.status == Some("Running")
              && r.record.cpuPercent == Round2(probe.cpu.value)
    ensures r.record.accessible ==>
              var m := probe.decoded.value.memoryMegabyte;
              r.record.memoryMegabyte == (if m.Some? then Round2(m.value) else 0)
    ensures !WindowsAnswered(probe) && probe.query.Got? ==> r.record.error == Some(NoInformationError)
    ensures WindowsAnswered(probe) && probe.decoded.Got? && probe.cpu.Got? && !Truthy(probe.decoded.value.name) ==>
              r.record.error == Some(NoInformationError)
    ensures probe.decoded.Threw? && WindowsAnswered(probe) ==> r.record.error == Some(probe.decoded.exc.text)
    ensures probe.cpu.Threw? && WindowsAnswered(probe) && probe.decoded.Got? ==> r.record.error == Some(probe.cpu.exc.text)
    ensures probe.query.Threw? ==> r.record.error == Some(probe.query.exc.text)
    ensures !r.record.accessible ==> r.record.error.Some?
  {
    var p := NewProcessInfo(pid);
    match probe.query
    case Threw(e) => Dict(ToDict(Deny(p, e.text)))
    case Got(c) =>
      if c.returncode == 0 && Strip(c.stdout) != "" then
        match probe.decoded
        case Threw(e) => Dict(ToDict(Deny(p, e.text)))
        case Got(o) =>
          var p1 := p.(accessible := true, name := o.name, user := o.user, status := Some("Running"));
          match probe.cpu
          case Threw(e) => Dict(ToDict(Deny(p1, e.text)))
          case Got(cpu) => Dict(ToDict(RequireName(p1.(cpuPercent := Some(cpu), memoryMegabyte := o.memoryMegabyte))))
      else Dict(ToDict(RequireName(p)))
  }

  // ------------------------------------------------------------- dispatch

  /** Everything any resolver could read for one PID. */
  datatype PidProbe = PidProbe(linux: LinuxProbe, mac: MacProbe, windows: WindowsProbe)

  /** `get_process_info`: the resolver of the platform, or `None` when no
      branch matches. Only the Windows resolver, and the Linux one on a
      readable status file, hand back a dictionary. */
  function GetProcessInfo(os: string, pid: int, probe: PidProbe): (r: Resolved)
    ensures r.NoResult? <==> DispatchFamily(os) == Unsupported
    ensures r.Dict? <==> DispatchFamily(os) == Windows || (DispatchFamily(os) == Linux && HasColonLine(probe.linux.status))
    ensures r.Dict? ==> r.record.pid == pid
    ensures DispatchFamily(os) == MacOS ==> r.RawObject? && !r.info.accessible
  {
    match DispatchFamily(os)
    case Linux => ResolveLinux(pid, probe.linux)
    case MacOS => ResolveMac(pid, probe.mac)
    case Windows => ResolveWindows(pid, probe.windows)
    case Unsupported => NoResult
  }
}
