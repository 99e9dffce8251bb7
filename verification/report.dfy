/** `collect_and_format_data` (src/cli.py): run the collector, order the
    kept processes by memory, and assemble the dictionary the formatter
    receives. */
module Report {
  import opened Wrappers
  import opened Processes
  import opened PidLists
  import opened Resolvers
  import opened Collector
  import opened Arguments
  import opened Formatter

  /** The host the command runs on: its platform name, what the PID
      listing finds, what each PID's probes return, and the system summary
      (computed by code outside this model). */
  datatype Host = Host(os: string, pids: PidSource, probeOf: int -> PidProbe, systemSummary: SysInfo)

  /** The sort key `p.get('memory_megabyte', 0)`, in hundredths. */
  function MemoryKey(p: ProcessRecord): int {
    p.memoryMegabyte
  }

  /** Memory never increases along the sequence. */
  predicate ByMemoryDesc(s: seq<ProcessRecord>) {
    forall i, j :: 0 <= i < j < |s| ==> MemoryKey(s[i]) >= MemoryKey(s[j])
  }

  /** Inserts `x` before the first element whose memory is not larger, so
      that `x` stays ahead of every later element with the same memory. */
  function InsertByMemory(x: ProcessRecord, s: seq<ProcessRecord>): (r: seq<ProcessRecord>)
    requires ByMemoryDesc(s)
    ensures ByMemoryDesc(r)
    ensures multiset(r) == multiset(s) + multiset{x}
  {
    if s == [] || MemoryKey(s[0]) <= MemoryKey(x) then [x] + s
    else
      var t := InsertByMemory(x, s[1..]);
      assert s == [s[0]] + s[1..];
      BelowHead(s, x, t);
      [s[0]] + t
  }

  /** A rearrangement of the tail of `s` plus an `x` with no more memory
      than its head stays at or below the head. */
  lemma BelowHead(s: seq<ProcessRecord>, x: ProcessRecord, t: seq<ProcessRecord>)
    requires s != [] && ByMemoryDesc(s) && MemoryKey(x) <= MemoryKey(s[0])
    requires multiset(t) == multiset(s[1..]) + multiset{x}
    ensures forall k :: 0 <= k < |t| ==> MemoryKey(s[0]) >= MemoryKey(t[k])
  {
    forall k | 0 <= k < |t|
      ensures MemoryKey(s[0]) >= MemoryKey(t[k])
    {
      assert t[k] in multiset(t);
      if t[k] != x {
        var j :| 0 <= j < |s[1..]| && s[1..][j] == t[k];
        assert s[j + 1] == t[k];
      }
    }
  }

  /** `sorted(processes, key=memory, reverse=True)`: a stable sort, largest
      memory first. */
  function SortByMemoryDesc(s: seq<ProcessRecord>): (r: seq<ProcessRecord>)
    ensures ByMemoryDesc(r)
    ensures multiset(r) == multiset(s)
  {
    if s == [] then []
    else
      assert s == [s[0]] + s[1..];
      InsertByMemory(s[0], SortByMemoryDesc(s[1..]))
  }

  /** The processes of `s` with memory `m`, in order. */
  function WithMemory(s: seq<ProcessRecord>, m: int): seq<ProcessRecord> {
    if s == [] then []
    else (if MemoryKey(s[0]) == m then [s[0]] else []) + WithMemory(s[1..], m)
  }

  /** Filtering a sequence with one element in front. */
  lemma WithMemoryCons(a: ProcessRecord, t: seq<ProcessRecord>, m: int)
    ensures WithMemory([a] + t, m) == (if MemoryKey(a) == m then [a] else []) + WithMemory(t, m)
  {
    assert ([a] + t)[1..] == t;
  }

  /** Inserting `x` puts it in front of every element with its memory and
      leaves the other memory classes alone. */
  lemma {:induction false} WithMemoryInsert(x: ProcessRecord, s: seq<ProcessRecord>, m: int)
    requires ByMemoryDesc(s)
    ensures WithMemory(InsertByMemory(x, s), m) == (if MemoryKey(x) == m then [x] else []) + WithMemory(s, m)
    decreases |s|
  {
    if s == [] || MemoryKey(s[0]) <= MemoryKey(x) {
      WithMemoryCons(x, s, m);
    } else {
      var t := InsertByMemory(x, s[1..]);
      assert InsertByMemory(x, s) == [s[0]] + t;
      WithMemoryInsert(x, s[1..], m);
      WithMemoryCons(s[0], t, m);
      WithMemoryCons(s[0], s[1..], m);
      assert s == [s[0]] + s[1..];
    }
  }

  /** The sort is stable: processes with equal memory keep their relative
      order. */
  lemma {:induction false} SortIsStable(s: seq<ProcessRecord>, m: int)
    ensures WithMemory(SortByMemoryDesc(s), m) == WithMemory(s, m)
    decreases |s|
  {
    if s != [] {
      SortIsStable(s[1..], m);
      WithMemoryInsert(s[0], SortByMemoryDesc(s[1..]), m);
    }
  }

  /** `collect_and_format_data`. The process count reported as
      `total_processes_found` is the number kept, because the collector never
      writes the `total_found` key the lookup asks for; the collection
      timestamp is never set. The kept processes are stably sorted: those
      with equal memory keep the collector's order. */
  function CollectAndFormatData(args: Args, host: Host): (data: ReportData)
    ensures var (procs, info) := Collect(host.os, host.pids, host.probeOf, args.showDenied, args.limit);
            multiset(data.processes) == multiset(procs)
            && ByMemoryDesc(data.processes)
            && data.metadata == Metadata(None, |procs|, |procs|, info.permissionDenied)
            && (data.systemInfo.Some? <==> args.includeSystemInfo)
            && (data.deniedProcesses.Some? <==> args.showDenied && info.permissionDenied > 0)
            && (args.includeSystemInfo ==> data.systemInfo == Some(host.systemSummary))
            && (data.deniedProcesses.Some? ==> data.deniedProcesses == info.deniedDetails)
            && forall m :: WithMemory(data.processes, m) == WithMemory(procs, m)
  {
    var (procs, info) := Collect(host.os, host.pids, host.probeOf, args.showDenied, args.limit);
    forall m
      ensures WithMemory(SortByMemoryDesc(procs), m) == WithMemory(procs, m)
    {
      SortIsStable(procs, m);
    }
    ReportData(
      SortByMemoryDesc(procs),
      Metadata(None, |procs|, |procs|, info.permissionDenied),
      if args.includeSystemInfo then Some(host.systemSummary) else None,
      if args.showDenied && Present(info.deniedDetails) then info.deniedDetails else None)
  }

  /** The reported total leaves out every denied process: it plus the
      denied count is the number of PIDs the collector probed. */
  lemma ReportedTotalExcludesDenied(args: Args, host: Host)
    ensures var m := CollectAndFormatData(args, host).metadata;
            m.totalProcessesFound + m.permissionDenied
              == Collect(host.os, host.pids, host.probeOf, args.showDenied, args.limit).1.totalFoundProcess
  {
  }
}
