/** How the collector reads `sys.platform`, and the host memory probe
    `_get_total_memory` (src/process_collector.py). Three different tests of
    the platform name appear in the code; they are kept apart here because
    they do not always agree. */
module Platforms {
  import opened Wrappers
  import opened PyText
  import opened Processes

  /** The operating-system families the collector has code for. */
  datatype Family = Linux | MacOS | Windows | Unsupported

  /** The branch `get_process_info` takes: a `linux` prefix, then exactly
      `darwin`, then any name containing `win`. */
  function DispatchFamily(os: string): Family {
    if StartsWith(os, "linux") then Linux
    else if os == "darwin" then MacOS
    else if Contains(os, "win") then Windows
    else Unsupported
  }

  /** The branch `_get_pid_list` takes: the same three tests, `darwin` first. */
  function PidListFamily(os: string): Family {
    if os == "darwin" then MacOS
    else if StartsWith(os, "linux") then Linux
    else if Contains(os, "win") then Windows
    else Unsupported
  }

  /** The PID lister and the dispatcher always pick the same family. */
  lemma PidListMatchesDispatch(os: string)
    ensures PidListFamily(os) == DispatchFamily(os)
  {
    if os == "darwin" {
      assert os[..5][0] != "linux"[0];
    }
  }

  /** The branch `_get_total_memory` takes: substring tests on the
      lower-cased name, `darwin` first, then `linux`, then `win`. */
  function MemoryFamily(os: string): Family {
    var l := Lower(os);
    if Contains(l, "darwin") then MacOS
    else if Contains(l, "linux") then Linux
    else if Contains(l, "win") then Windows
    else Unsupported
  }

  /** The memory probe and the dispatcher can disagree: for the platform name
      `Darwin` the probe asks `sysctl` while processes go to the Windows
      resolver, because dispatch compares case-sensitively and `Darwin`
      contains `win`. */
  lemma MemoryProbeDisagreesWithDispatch()
    ensures MemoryFamily("Darwin") == MacOS
    ensures DispatchFamily("Darwin") == Windows
  {
    assert Lower("Darwin") == "darwin";
    ContainsAt("darwin", "darwin", 0);
    assert "Darwin"[0] != "linux"[0] && "Darwin"[0] != "darwin"[0];
    ContainsAt("Darwin", "win", 3);
  }

  /** The environment `_get_total_memory` consults: the `sysctl hw.memsize`
      run, the lines of /proc/meminfo, and the PowerShell query. */
  datatype MemoryProbe = MemoryProbe(
    sysctl: Attempt<Completed>,
    meminfo: Attempt<seq<string>>,
    powershell: Attempt<Completed>)

  /** The value returned when the probe raises: 8 GiB. */
  const FallbackMemoryBytes: int := 8 * 1024 * 1024 * 1024

  /** The first line that starts with `MemTotal:`, if any. */
  function FindMemTotal(lines: seq<string>): (r: Option<string>)
    ensures r.Some? ==> StartsWith(r.value, "MemTotal:")
    ensures r.Some? ==> exists i :: 0 <= i < |lines| && lines[i] == r.value
                         && forall j :: 0 <= j < i ==> !StartsWith(lines[j], "MemTotal:")
    ensures r.None? <==> forall i :: 0 <= i < |lines| ==> !StartsWith(lines[i], "MemTotal:")
  {
    if lines == [] then None
    else if StartsWith(lines[0], "MemTotal:") then Some(lines[0])
    else
      var r := FindMemTotal(lines[1..]);
      assert forall i :: 1 <= i < |lines| ==> lines[i] == lines[1..][i - 1];
      if r.Some? then
        var k :| 0 <= k < |lines[1..]| && lines[1..][k] == r.value
                 && forall j :: 0 <= j < k ==> !StartsWith(lines[1..][j], "MemTotal:");
        assert lines[k + 1] == r.value;
        r
      else r
  }

  /** `int(x)` of a float: truncation toward zero. */
  function Truncate(v: real): (n: int)
    ensures -1.0 < n as real - v < 1.0
    ensures v >= 0.0 ==> 0 <= n && n as real <= v
    ensures v < 0.0 ==> n <= 0 && v <= n as real
  {
    if v >= 0.0 then v.Floor else -((-v).Floor)
  }

  /** `int(stdout.split(':')[1].strip())` of the `sysctl` reply, or `None`
      where it raises. Output without a colon has no second piece. */
  function MemsizeBytes(stdout: string): (n: Option<int>)
    ensures ':' !in stdout ==> n.None?
  {
    var parts := Split(stdout, ':');
    if |parts| < 2 then None else ParseInt(Strip(parts[1]))
  }

  /** `int(float(stdout.strip()))` of the PowerShell reply, or `None` where
      it raises. */
  function GiBFigure(stdout: string): (n: Option<int>)
    ensures n.Some? <==> ParseFloat(Strip(stdout)).Some?
    ensures n.Some? ==> -1.0 < n.value as real - ParseFloat(Strip(stdout)).value < 1.0
  {
    match ParseFloat(Strip(stdout))
    case None => None
    case Some(v) => Some(Truncate(v))
  }

  /** `_get_total_memory`. `None` stands for the paths that fall off the end
      of the function without a `return`. */
  function TotalMemory(os: string, probe: MemoryProbe): (r: Option<int>)
    ensures MemoryFamily(os) == Unsupported ==> r == Some(0)
    ensures MemoryFamily(os) == MacOS && probe.sysctl.Threw? ==> r == Some(FallbackMemoryBytes)
    ensures MemoryFamily(os) == MacOS && probe.sysctl.Got? ==> (r.None? <==> probe.sysctl.value.returncode != 0)
    ensures MemoryFamily(os) == Linux && probe.meminfo.Threw? ==> r == Some(FallbackMemoryBytes)
    ensures MemoryFamily(os) == Linux && probe.meminfo.Got? ==> (r.None? <==> FindMemTotal(probe.meminfo.value).None?)
    ensures MemoryFamily(os) == Linux && probe.meminfo.Got? && FindMemTotal(probe.meminfo.value).Some? ==>
              var ws := Words(FindMemTotal(probe.meminfo.value).value);
              r == (if |ws| < 2 || ParseInt(ws[1]).None? then Some(FallbackMemoryBytes) else Some(ParseInt(ws[1]).value * 1024))
    ensures MemoryFamily(os) == MacOS && probe.sysctl.Got? && probe.sysctl.value.returncode == 0 ==>
              r == Some(MemsizeBytes(probe.sysctl.value.stdout).GetOr(FallbackMemoryBytes))
    ensures MemoryFamily(os) == Windows ==> r == (if probe.powershell.Got? then GiBFigure(probe.powershell.value.stdout) else None)
  {
    match MemoryFamily(os)
    case MacOS =>
      (match probe.sysctl
       case Threw(_) => Some(FallbackMemoryBytes)
       case Got(c) =>
         if c.returncode != 0 then None
         else Some(MemsizeBytes(c.stdout).GetOr(FallbackMemoryBytes)))
    case Linux =>
      (match probe.meminfo
       case Threw(_) => Some(FallbackMemoryBytes)
       case Got(lines) =>
         match FindMemTotal(lines)
         case None => None
         case Some(line) =>
           var ws := Words(line);
           if |ws| < 2 then Some(FallbackMemoryBytes)
           else
             match ParseInt(ws[1])
             case None => Some(FallbackMemoryBytes)
             case Some(kb) => Some(kb * 1024))
    case Windows =>
      (match probe.powershell
       case Threw(_) => None
       case Got(c) => GiBFigure(c.stdout))
    case Unsupported => Some(0)
  }

  /** A well-formed `MemTotal:` line is read back in bytes: `k` kB give
      `k * 1024`, whatever lines come after it. */
  lemma LinuxMemTotal(k: nat, before: seq<string>, after: seq<string>, other: MemoryProbe)
    requires forall i :: 0 <= i < |before| ==> !StartsWith(before[i], "MemTotal:")
    ensures var line := "MemTotal:" + " " + NatText(k) + " " + "kB";
            TotalMemory("linux", other.(meminfo := Got(before + [line] + after))) == Some(k * 1024)
  {
    var line := "MemTotal:" + " " + NatText(k) + " " + "kB";
    var lines := before + [line] + after;
    LinuxMemoryFamily();
    assert StartsWith(line, "MemTotal:") by {
      assert line[..9] == "MemTotal:";
    }
    FindMemTotalAfter(before, line, after);
    var ws := ["MemTotal:", NatText(k), "kB"];
    assert Join(ws, ' ') == line by {
      assert Join(ws[2..], ' ') == "kB";
      assert Join(ws[1..], ' ') == NatText(k) + " " + "kB";
    }
    assert IsWord(NatText(k)) by {
      forall j | 0 <= j < |NatText(k)|
        ensures !IsSpace(NatText(k)[j])
      {
        assert IsDigit(NatText(k)[j]);
      }
    }
    WordsOfJoin(ws);
    ParseIntText(k);
    StripUntrimmed(NatText(k));
  }

  /** The text after the colon of the reply: free of colons, and its digits
      once stripped. */
  lemma MemsizeTail(digits: string)
    requires IsDigits(digits)
    ensures ':' !in " " + digits + "\n"
    ensures Strip(" " + digits + "\n") == digits
  {
    var body := " " + digits + "\n";
    assert forall j :: 0 <= j < |digits| ==> IsDigit(digits[j]);
    assert forall j :: 0 <= j < |body| ==> body[j] == ' ' || body[j] == '\n' || IsDigit(body[j]);
    assert LStrip(body) == LStrip(body[1..]);
    assert body[1..] == digits + "\n";
    StripPadded(digits, "\n");
  }

  /** The `sysctl hw.memsize` reply reads back as its byte count. */
  lemma MemsizeOfReply(n: nat)
    ensures var b := MemsizeBytes("hw.memsize: " + NatText(n) + "\n"); b.Some? && b.value == n
  {
    var digits := NatText(n);
    var body := " " + digits + "\n";
    assert "hw.memsize: " + digits + "\n" == "hw.memsize" + [':'] + body;
    MemsizeTail(digits);
    SplitCons("hw.memsize", body, ':');
    assert Split(body, ':') == [body];
    ParseIntText(n);
    assert IntText(n) == digits;
  }

  /** On `darwin`, a successful `sysctl hw.memsize` run gives its byte count. */
  lemma MacMemsize(n: nat, other: MemoryProbe)
    ensures var r := TotalMemory("darwin", other.(sysctl := Got(Completed(0, "hw.memsize: " + NatText(n) + "\n"))));
            r.Some? && r.value == n
  {
    DarwinMemoryFamily();
    MemsizeOfReply(n);
  }

  /** A figure with at most two decimals and a line break, as PowerShell
      prints it, reads back as its value. */
  lemma FigureReadsBack(h: nat)
    ensures var v := ParseFloat(Strip(UnsignedText(h) + "\r\n")); v.Some? && v.value == h as real / 100.0
  {
    var text := UnsignedText(h);
    UnsignedTextReadsBack(h);
    assert Trimmed(text);
    StripPadded(text, "\r\n");
    ParseFloatUnsigned(text);
  }

  /** Such a figure is truncated to its whole part. */
  lemma GiBOfFigure(h: nat)
    ensures var g := GiBFigure(UnsignedText(h) + "\r\n"); g.Some? && g.value == h / 100
  {
    FigureReadsBack(h);
    WholeHundredths(h);
  }

  /** On `win32` the reply is the memory in GiB and `int(float(...))` drops
      its fraction, so the probe reports whole GiB, not bytes. */
  lemma WindowsMemoryGiB(h: nat, other: MemoryProbe)
    ensures var r := TotalMemory("win32", other.(powershell := Got(Completed(0, UnsignedText(h) + "\r\n"))));
            r.Some? && r.value == h / 100
  {
    WindowsMemoryFamily();
    GiBOfFigure(h);
  }

  /** Truncating `h / 100` gives the whole part of the hundredths count. */
  lemma WholeHundredths(h: nat)
    ensures Truncate(h as real / 100.0) == h / 100
  {
    var n := Truncate(h as real / 100.0);
    HundredthsSplit(h);
    assert (h % 100) as real / 100.0 < 1.0;
    assert n as real <= h as real / 100.0 < n as real + 1.0;
  }

  /** The memory probe runs `sysctl` for `darwin`. */
  lemma DarwinMemoryFamily()
    ensures MemoryFamily("darwin") == MacOS
  {
    assert Lower("darwin") == "darwin";
    ContainsAt("darwin", "darwin", 0);
  }

  /** The memory probe asks PowerShell for `win32`. */
  lemma WindowsMemoryFamily()
    ensures MemoryFamily("win32") == Windows
  {
    assert Lower("win32") == "win32";
    NotContainsByChar("win32", "darwin");
    NotContainsByChar("win32", "linux");
    ContainsAt("win32", "win", 0);
  }

  /** A `MemTotal:` line without a figure makes `split()[1]` raise, and the
      outer handler reports 8 GiB. */
  lemma MemTotalWithoutFigure(before: seq<string>, after: seq<string>, other: MemoryProbe)
    requires forall i :: 0 <= i < |before| ==> !StartsWith(before[i], "MemTotal:")
    ensures TotalMemory("linux", other.(meminfo := Got(before + ["MemTotal:"] + after))) == Some(FallbackMemoryBytes)
  {
    LinuxMemoryFamily();
    assert StartsWith("MemTotal:", "MemTotal:");
    FindMemTotalAfter(before, "MemTotal:", after);
    assert IsWord("MemTotal:");
    WordsOfWord("MemTotal:");
  }

  /** The search skips lines that do not start with `MemTotal:`. */
  lemma {:induction false} FindMemTotalAfter(before: seq<string>, line: string, after: seq<string>)
    requires forall i :: 0 <= i < |before| ==> !StartsWith(before[i], "MemTotal:")
    requires StartsWith(line, "MemTotal:")
    ensures FindMemTotal(before + [line] + after) == Some(line)
    decreases |before|
  {
    var lines := before + [line] + after;
    if before == [] {
      assert lines[0] == line;
    } else {
      assert lines[0] == before[0];
      assert lines[1..] == before[1..] + [line] + after;
      FindMemTotalAfter(before[1..], line, after);
    }
  }

  /** The probe does not always report a positive size: an unsupported
      platform gets 0, and a meminfo without `MemTotal:` gets `None`. */
  lemma MemoryNotAlwaysPositive(probe: MemoryProbe)
    ensures TotalMemory("sunos5", probe) == Some(0)
    ensures TotalMemory("linux", probe.(meminfo := Got([]))) == None
  {
    SunosMemoryUnsupported();
    LinuxMemoryFamily();
  }

  /** The memory probe has no branch for `sunos5`. */
  lemma SunosMemoryUnsupported()
    ensures MemoryFamily("sunos5") == Unsupported
  {
    assert Lower("sunos5") == "sunos5";
    NotContainsByChar("sunos5", "darwin");
    NotContainsByChar("sunos5", "linux");
    NotContainsByChar("sunos5", "win");
  }

  /** The memory probe reads /proc/meminfo for `linux`. */
  lemma LinuxMemoryFamily()
    ensures MemoryFamily("linux") == Linux
  {
    assert Lower("linux") == "linux";
    NotContainsByChar("linux", "darwin");
    ContainsAt("linux", "linux", 0);
  }
}
