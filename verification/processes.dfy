/** The per-process data of the collector: the mutable `ProcessInfo` object
    the resolvers fill in, the dictionary `to_dict` turns it into, and the
    three shapes a resolver's answer can take. Calls into the environment
    (subprocess, psutil, file reads) appear as `Attempt` values: what the call
    returned, or the exception it raised. */
module Processes {
  import opened Wrappers

  /** A raised Python exception as the handler that catches it sees it:
      whether it is a `PermissionError`, and its `str(e)`. */
  datatype Exc = Exc(isPermissionError: bool, text: string)

  /** The outcome of one call into the environment. */
  datatype Attempt<+T> = Got(value: T) | Threw(exc: Exc)

  /** A finished external command: its exit status and standard output. */
  datatype Completed = Completed(returncode: int, stdout: string)

  /** Python's truth value of an optional string: present and non-empty. */
  predicate Truthy(s: Option<string>) {
    s.Some? && s.value != ""
  }

  /** The attributes of a `ProcessInfo` object. `cpuPercent` and
      `memoryMegabyte` are optional because the Windows resolver can store
      `None` in the memory attribute. */
  datatype ProcessInfo = ProcessInfo(
    pid: int,
    name: Option<string>,
    user: Option<string>,
    cpuPercent: Option<real>,
    memoryMegabyte: Option<real>,
    status: Option<string>,
    accessible: bool,
    error: Option<string>)

  /** `ProcessInfo(pid)`: no name, user or status, zero usage, accessible, no error. */
  function NewProcessInfo(pid: int): ProcessInfo {
    ProcessInfo(pid, None, None, Some(0.0), Some(0.0), None, true, None)
  }

  /** A failure handler's update: the object becomes inaccessible with the
      given reason, and every attribute set before the failure is kept. */
  function Deny(p: ProcessInfo, reason: string): ProcessInfo {
    p.(accessible := false, error := Some(reason))
  }

  /** The dictionary `to_dict` returns, keys in the order it writes them.
      CPU and memory are held as whole hundredths, the value `round(x, 2)`
      leaves. */
  datatype ProcessRecord = ProcessRecord(
    pid: int,
    name: Option<string>,
    user: Option<string>,
    cpuPercent: int,
    memoryMegabyte: int,
    status: Option<string>,
    accessible: bool,
    error: Option<string>)

  /** `round(x, 2)` in hundredths: the nearest whole number of hundredths,
      ties going to the even one. */
  function Round2(x: real): (h: int)
    ensures -0.5 <= h as real - x * 100.0 <= 0.5
    ensures (h as real - x * 100.0 == 0.5 || h as real - x * 100.0 == -0.5) ==> h % 2 == 0
  {
    var y := x * 100.0;
    var f := y.Floor;
    var d := y - f as real;
    if d < 0.5 then f
    else if d > 0.5 then f + 1
    else if f % 2 == 0 then f
    else f + 1
  }

  /** The two properties `Round2` promises pin its answer down: no other
      whole number of hundredths is as close with an even tie-break. */
  lemma Round2Unique(x: real, k: int)
    requires -0.5 <= k as real - x * 100.0 <= 0.5
    requires (k as real - x * 100.0 == 0.5 || k as real - x * 100.0 == -0.5) ==> k % 2 == 0
    ensures k == Round2(x)
  {
    var h := Round2(x);
    assert -1.0 <= (k - h) as real <= 1.0;
  }

  /** Rounding a value that already has two decimals changes nothing. */
  lemma Round2Exact(h: int)
    ensures Round2(h as real / 100.0) == h
  {
    Round2Unique(h as real / 100.0, h);
  }

  /** `to_dict`: every attribute is copied, CPU and memory are rounded to
      hundredths, and a missing value becomes `0.0`. */
  function ToDict(p: ProcessInfo): (r: ProcessRecord)
    ensures r.pid == p.pid && r.name == p.name && r.user == p.user
    ensures r.status == p.status && r.accessible == p.accessible && r.error == p.error
    ensures p.cpuPercent.None? ==> r.cpuPercent == 0
    ensures p.cpuPercent.Some? ==> -0.5 <= r.cpuPercent as real - p.cpuPercent.value * 100.0 <= 0.5
    ensures p.memoryMegabyte.None? ==> r.memoryMegabyte == 0
    ensures p.memoryMegabyte.Some? ==> -0.5 <= r.memoryMegabyte as real - p.memoryMegabyte.value * 100.0 <= 0.5
  {
    ProcessRecord(
      p.pid, p.name, p.user,
      if p.cpuPercent.Some? then Round2(p.cpuPercent.value) else 0,
      if p.memoryMegabyte.Some? then Round2(p.memoryMegabyte.value) else 0,
      p.status, p.accessible, p.error)
  }

  /** What `get_process_info` hands back: a `to_dict` dictionary, the raw
      `ProcessInfo` object itself, or `None`. */
  datatype Resolved = Dict(record: ProcessRecord) | RawObject(info: ProcessInfo) | NoResult
}
