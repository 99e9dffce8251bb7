/** `collect_processes` (src/process_collector.py): probe the first
    `max_processes` PIDs of the descending PID list, keep the accessible
    dictionaries, and count (and optionally list) the rest. */
module Collector {
  import opened Wrappers
  import opened PyText
  import opened Processes
  import opened Platforms
  import opened PidLists
  import opened Resolvers

  /** One entry of `denied_details`. */
  datatype DeniedEntry = DeniedEntry(pid: int, error: Option<string>, name: string)

  /** The `access_info` dictionary. `deniedDetails` is `None` when the key is
      not written. */
  datatype AccessInfo = AccessInfo(
    totalFoundProcess: nat,
    accessibleProcesses: nat,
    permissionDenied: nat,
    deniedDetails: Option<seq<DeniedEntry>>)

  /** What one loop iteration does with a PID: keep its dictionary, or count
      it as denied with this entry. */
  datatype Outcome = Accepted(record: ProcessRecord) | Refused(entry: DeniedEntry)

  /** `str(e)` of the `AttributeError` from calling `.get` on a raw
      `ProcessInfo` object. */
  const RawGetError: string := "'ProcessInfo' object has no attribute 'get'"

  /** `str(e)` of the `AttributeError` from calling `.get` on `None`. */
  const NoneGetError: string := "'NoneType' object has no attribute 'get'"

  /** The placeholder name `f"pid_{pid}"`. */
  function PidName(pid: int): string {
    "pid_" + IntText(pid)
  }

  /** One iteration of the loop. A dictionary is kept when its `accessible`
      is true; otherwise it is denied with its own error and, when truthy,
      its own name. A raw object or `None` has no `.get`, so the call raises
      and the handler denies the PID with the exception text. */
  function Classify(pid: int, r: Resolved): (o: Outcome)
    ensures o.Accepted? <==> r.Dict? && r.record.accessible
    ensures o.Accepted? ==> o.record == r.record
    ensures o.Refused? ==> o.entry.pid == pid
    ensures r.Dict? && o.Refused? ==>
              o.entry.error == r.record.error
              && o.entry.name == (if Truthy(r.record.name) then r.record.name.value else PidName(pid))
    ensures r.RawObject? ==> o.entry == DeniedEntry(pid, Some(RawGetError), PidName(pid))
    ensures r.NoResult? ==> o.entry == DeniedEntry(pid, Some(NoneGetError), PidName(pid))
  {
    match r
    case Dict(rec) =>
      if rec.accessible then Accepted(rec)
      else Refused(DeniedEntry(pid, rec.error, if Truthy(rec.name) then rec.name.value else PidName(pid)))
    case RawObject(_) => Refused(DeniedEntry(pid, Some(RawGetError), PidName(pid)))
    case NoResult => Refused(DeniedEntry(pid, Some(NoneGetError), PidName(pid)))
  }

  /** `pids[:max_processes]` when `max_processes > 0`, else every PID. */
  function ProbeList(pids: seq<int>, maxProcesses: int): (r: seq<int>)
    ensures maxProcesses > 0 ==> |r| == (if maxProcesses < |pids| then maxProcesses else |pids|)
    ensures maxProcesses <= 0 ==> |r| == |pids|
    ensures r == pids[..|r|]
  {
    if maxProcesses > 0 && maxProcesses < |pids| then pids[..maxProcesses] else pids
  }

  /** `self.get_process_info` on this host, as the loop sees it. */
  function Resolver(os: string, probeOf: int -> PidProbe): int -> Resolved {
    pid => GetProcessInfo(os, pid, probeOf(pid))
  }

  /** What the loop does with one PID on this host. */
  function OutcomeOf(os: string, probeOf: int -> PidProbe, pid: int): Outcome {
    Classify(pid, Resolver(os, probeOf)(pid))
  }

  /** The loop's outcome for each PID, in order, given what the resolver
      answers for each. */
  function Outcomes(pids: seq<int>, resolve: int -> Resolved): (outs: seq<Outcome>)
    ensures |outs| == |pids|
    ensures forall i :: 0 <= i < |pids| ==> outs[i] == Classify(pids[i], resolve(pids[i]))
  {
    seq(|pids|, i requires 0 <= i < |pids| => Classify(pids[i], resolve(pids[i])))
  }

  /** The kept dictionaries, in loop order. */
  function AcceptedOf(outs: seq<Outcome>): seq<ProcessRecord> {
    if outs == [] then []
    else
      var n := |outs| - 1;
      AcceptedOf(outs[..n]) + (if outs[n].Accepted? then [outs[n].record] else [])
  }

  /** The denial entries, in loop order. */
  function RefusedOf(outs: seq<Outcome>): seq<DeniedEntry> {
    if outs == [] then []
    else
      var n := |outs| - 1;
      RefusedOf(outs[..n]) + (if outs[n].Refused? then [outs[n].entry] else [])
  }

  /** The kept dictionaries are exactly the records of the accepted
      outcomes. */
  lemma {:induction false} AcceptedMembers(outs: seq<Outcome>)
    ensures forall x :: x in AcceptedOf(outs) <==> exists i :: 0 <= i < |outs| && outs[i] == Accepted(x)
    decreases |outs|
  {
    if outs != [] {
      var n := |outs| - 1;
      AcceptedMembers(outs[..n]);
      assert forall i :: 0 <= i < n ==> outs[i] == outs[..n][i];
    }
  }

  /** The denial entries are exactly the entries of the refused outcomes. */
  lemma {:induction false} RefusedMembers(outs: seq<Outcome>)
    ensures forall x :: x in RefusedOf(outs) <==> exists i :: 0 <= i < |outs| && outs[i] == Refused(x)
    decreases |outs|
  {
    if outs != [] {
      var n := |outs| - 1;
      RefusedMembers(outs[..n]);
      assert forall i :: 0 <= i < n ==> outs[i] == outs[..n][i];
    }
  }

  /** One more iteration appends at most one record and one entry. */
  lemma PrefixStep(outs: seq<Outcome>, i: nat, o: Outcome)
    requires i < |outs| && outs[i] == o
    ensures AcceptedOf(outs[..i + 1]) == AcceptedOf(outs[..i]) + (if o.Accepted? then [o.record] else [])
    ensures RefusedOf(outs[..i + 1]) == RefusedOf(outs[..i]) + (if o.Refused? then [o.entry] else [])
  {
    assert outs[..i + 1][..i] == outs[..i];
  }

  /** Every outcome is counted exactly once, as accessible or as denied. */
  lemma {:induction false} OutcomesPartition(outs: seq<Outcome>)
    ensures |AcceptedOf(outs)| + |RefusedOf(outs)| == |outs|
    decreases |outs|
  {
    if outs != [] {
      OutcomesPartition(outs[..|outs| - 1]);
    }
  }

  /** `collect_processes(verbose, include_denied_details, max_processes)`:
      the kept dictionaries and `access_info`. */
  function Collect(os: string, src: PidSource, probeOf: int -> PidProbe,
                   includeDenied: bool, maxProcesses: int): (result: (seq<ProcessRecord>, AccessInfo))
    ensures var (procs, info) := result;
            info.totalFoundProcess == |procs| + info.permissionDenied
            && info.accessibleProcesses == |procs|
            && info.totalFoundProcess == |ProbeList(GetPidList(os, src), maxProcesses)|
            && (forall k :: 0 <= k < |procs| ==> procs[k].accessible)
            && (info.deniedDetails.Some? <==> includeDenied && info.permissionDenied > 0)
            && (info.deniedDetails.Some? ==> |info.deniedDetails.value| == info.permissionDenied)
  {
    var pids := ProbeList(GetPidList(os, src), maxProcesses);
    var outs := Outcomes(pids, Resolver(os, probeOf));
    var procs := AcceptedOf(outs);
    var denied := RefusedOf(outs);
    OutcomesPartition(outs);
    AcceptedMembers(outs);
    forall k | 0 <= k < |procs|
      ensures procs[k].accessible
    {
      assert procs[k] in procs;
      var i :| 0 <= i < |outs| && outs[i] == Accepted(procs[k]);
    }
    (procs, AccessInfo(|pids|, |procs|, |denied|,
                       if includeDenied && denied != [] then Some(denied) else None))
  }

  /** The loop of `collect_processes` over the PIDs to probe, calling
      `resolve` for each: the kept dictionaries and the denial entries in
      probe order, with both counters. */
  method ClassifyAll(pids: seq<int>, resolve: int -> Resolved, includeDenied: bool)
    returns (processes: seq<ProcessRecord>, accessibleCount: nat,
             deniedProcesses: seq<DeniedEntry>, deniedCount: nat)
    ensures processes == AcceptedOf(Outcomes(pids, resolve))
    ensures accessibleCount == |processes|
    ensures deniedCount == |RefusedOf(Outcomes(pids, resolve))|
    ensures deniedProcesses == (if includeDenied then RefusedOf(Outcomes(pids, resolve)) else [])
  {
    ghost var outs := Outcomes(pids, resolve);
    processes := [];
    deniedProcesses := [];
    accessibleCount := 0;
    deniedCount := 0;
    var i := 0;
    while i < |pids|
      invariant 0 <= i <= |pids|
      invariant processes == AcceptedOf(outs[..i])
      invariant deniedProcesses == (if includeDenied then RefusedOf(outs[..i]) else [])
      invariant accessibleCount == |processes|
      invariant deniedCount == |RefusedOf(outs[..i])|
      decreases |pids| - i
    {
      var pid := pids[i];
      var outcome := Classify(pid, resolve(pid));
      PrefixStep(outs, i, outcome);
      if outcome.Accepted? {
        processes := processes + [outcome.record];
        accessibleCount := accessibleCount + 1;
      } else {
        deniedCount := deniedCount + 1;
        if includeDenied {
          deniedProcesses := deniedProcesses + [outcome.entry];
        }
      }
      i := i + 1;
    }
    assert outs[..|pids|] == outs;
  }

  /** `collect_processes`: truncate the descending PID list, run the loop,
      and assemble `access_info`. */
  method CollectProcesses(os: string, src: PidSource, probeOf: int -> PidProbe,
                          includeDenied: bool, maxProcesses: int)
    returns (processes: seq<ProcessRecord>, accessInfo: AccessInfo)
    ensures (processes, accessInfo) == Collect(os, src, probeOf, includeDenied, maxProcesses)
  {
    var pids := GetPidList(os, src);
    if maxProcesses > 0 {
      pids := if maxProcesses < |pids| then pids[..maxProcesses] else pids;
    }
    assert pids == ProbeList(GetPidList(os, src), maxProcesses);
    var accessibleCount, deniedProcesses, deniedCount;
    processes, accessibleCount, deniedProcesses, deniedCount := ClassifyAll(pids, Resolver(os, probeOf), includeDenied);
    accessInfo := AccessInfo(|pids|, accessibleCount, deniedCount,
                             if includeDenied && deniedProcesses != [] then Some(deniedProcesses) else None);
  }


  /** The limit keeps the largest PIDs: every probed PID is at least every
      PID left out. */
  lemma LimitKeepsLargest(os: string, src: PidSource, maxProcesses: int)
    ensures var all := GetPidList(os, src);
            var probed := ProbeList(all, maxProcesses);
            forall i, j :: 0 <= i < |probed| <= j < |all| ==> probed[i] >= all[j]
  {
  }

  /** A limit of zero or below probes every PID. */
  lemma NonPositiveLimitProbesAll(os: string, src: PidSource, probeOf: int -> PidProbe,
                                  includeDenied: bool, maxProcesses: int)
    requires maxProcesses <= 0
    ensures Collect(os, src, probeOf, includeDenied, maxProcesses).1.totalFoundProcess == |GetPidList(os, src)|
  {
  }

  /** On macOS every PID is refused with the `.get` error. */
  lemma MacOutcomeRefused(os: string, probeOf: int -> PidProbe, pid: int)
    requires DispatchFamily(os) == MacOS
    ensures OutcomeOf(os, probeOf, pid) == Refused(DeniedEntry(pid, Some(RawGetError), PidName(pid)))
  {
    assert GetProcessInfo(os, pid, probeOf(pid)).RawObject?;
  }

  /** With every outcome refused, nothing is kept. */
  lemma {:induction false} NoneAccepted(outs: seq<Outcome>)
    requires forall i :: 0 <= i < |outs| ==> outs[i].Refused?
    ensures AcceptedOf(outs) == []
    decreases |outs|
  {
    if outs != [] {
      NoneAccepted(outs[..|outs| - 1]);
    }
  }

  /** Nothing is ever collected on macOS: every PID found is counted as
      denied. */
  lemma MacCollectsNothing(os: string, src: PidSource, probeOf: int -> PidProbe,
                           includeDenied: bool, maxProcesses: int)
    requires DispatchFamily(os) == MacOS
    ensures var (procs, info) := Collect(os, src, probeOf, includeDenied, maxProcesses);
            procs == [] && info.permissionDenied == info.totalFoundProcess
  {
    var pids := ProbeList(GetPidList(os, src), maxProcesses);
    var outs := Outcomes(pids, Resolver(os, probeOf));
    forall i | 0 <= i < |outs|
      ensures outs[i].Refused?
    {
      MacOutcomeRefused(os, probeOf, pids[i]);
    }
    NoneAccepted(outs);
    OutcomesPartition(outs);
  }

  /** Every denial entry of a macOS run carries the `.get` error, because the
      resolver hands back the raw object. */
  lemma MacDenialsAreGetErrors(os: string, src: PidSource, probeOf: int -> PidProbe, maxProcesses: int)
    requires DispatchFamily(os) == MacOS
    ensures var info := Collect(os, src, probeOf, true, maxProcesses).1;
            info.deniedDetails.Some? ==> forall k :: 0 <= k < |info.deniedDetails.value| ==>
              info.deniedDetails.value[k].error == Some(RawGetError)
              && info.deniedDetails.value[k].name == PidName(info.deniedDetails.value[k].pid)
  {
    var pids := ProbeList(GetPidList(os, src), maxProcesses);
    var outs := Outcomes(pids, Resolver(os, probeOf));
    var denied := RefusedOf(outs);
    RefusedMembers(outs);
    forall k | 0 <= k < |denied|
      ensures denied[k].error == Some(RawGetError) && denied[k].name == PidName(denied[k].pid)
    {
      assert denied[k] in denied;
      var i :| 0 <= i < |outs| && outs[i] == Refused(denied[k]);
      MacOutcomeRefused(os, probeOf, pids[i]);
    }
  }

  /** A platform the dispatcher does not support finds and collects
      nothing. */
  lemma UnsupportedCollectsNothing(os: string, src: PidSource, probeOf: int -> PidProbe,
                                   includeDenied: bool, maxProcesses: int)
    requires DispatchFamily(os) == Unsupported
    ensures Collect(os, src, probeOf, includeDenied, maxProcesses) == ([], AccessInfo(0, 0, 0, None))
  {
    UnsupportedHasNoPids(os, src);
    var outs := Outcomes([], Resolver(os, probeOf));
    assert outs == [];
  }
}
