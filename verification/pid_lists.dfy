/** `_get_pid_list` (src/process_collector.py): the PIDs the collector will
    probe, read from `ps` on macOS, from the entries of /proc on Linux, and
    from PowerShell on Windows, always handed back in descending order. */
module PidLists {
  import opened Wrappers
  import opened PyText
  import opened Processes
  import opened Platforms

  /** One entry of /proc: its name and whether it is a directory. */
  datatype DirEntry = DirEntry(name: string, isDir: bool)

  /** What the three listing mechanisms produce on this host. */
  datatype PidSource = PidSource(
    darwinPs: Attempt<Completed>,
    procDir: Attempt<seq<DirEntry>>,
    windowsPs: Attempt<Completed>)

  /** How a PID is read from one line of command output. */
  datatype LineFormat =
    | DarwinFormat   // `int(line.strip())`
    | WindowsFormat  // `int(line.split()[0])`; a blank line raises `IndexError`

  /** The PID on one line, or `None` where the code catches the parse error. */
  function LinePid(fmt: LineFormat, line: string): Option<int> {
    match fmt
    case DarwinFormat => ParseInt(Strip(line))
    case WindowsFormat =>
      var ws := Words(line);
      if ws == [] then None else ParseInt(ws[0])
  }

  /** The PIDs of the lines that parse, in line order; the other lines are
      skipped. */
  function CollectLines(fmt: LineFormat, lines: seq<string>): (pids: seq<int>)
    ensures |pids| <= |lines|
    ensures forall x :: x in pids <==> exists i :: 0 <= i < |lines| && LinePid(fmt, lines[i]) == Some(x)
  {
    if lines == [] then []
    else
      var head := match LinePid(fmt, lines[0]) case Some(p) => [p] case None => [];
      var rest := CollectLines(fmt, lines[1..]);
      assert forall i :: 1 <= i < |lines| ==> lines[i] == lines[1..][i - 1];
      assert forall x :: x in rest ==> exists i :: 0 <= i < |lines| && LinePid(fmt, lines[i]) == Some(x) by {
        forall x | x in rest
          ensures exists i :: 0 <= i < |lines| && LinePid(fmt, lines[i]) == Some(x)
        {
          var k :| 0 <= k < |lines[1..]| && LinePid(fmt, lines[1..][k]) == Some(x);
          assert LinePid(fmt, lines[k + 1]) == Some(x);
        }
      }
      head + rest
  }

  /** The numeric directory names of /proc. */
  function ProcDirPids(entries: seq<DirEntry>): (pids: seq<int>)
    ensures forall k :: 0 <= k < |pids| ==> pids[k] >= 0
    ensures forall x :: x in pids <==> (exists i :: 0 <= i < |entries| && entries[i].isDir
                                          && IsDigits(entries[i].name) && DigitsValue(entries[i].name) == x)
  {
    if entries == [] then []
    else
      var e := entries[0];
      var head := if e.isDir && IsDigits(e.name) then [DigitsValue(e.name) as int] else [];
      var rest := ProcDirPids(entries[1..]);
      assert forall i :: 1 <= i < |entries| ==> entries[i] == entries[1..][i - 1];
      assert forall x :: x in rest ==> (exists i :: 0 <= i < |entries| && entries[i].isDir
                                          && IsDigits(entries[i].name) && DigitsValue(entries[i].name) == x) by {
        forall x | x in rest
          ensures exists i :: 0 <= i < |entries| && entries[i].isDir
                    && IsDigits(entries[i].name) && DigitsValue(entries[i].name) == x
        {
          var k :| 0 <= k < |entries[1..]| && entries[1..][k].isDir
                   && IsDigits(entries[1..][k].name) && DigitsValue(entries[1..][k].name) == x;
          assert entries[k + 1] == entries[1..][k];
        }
      }
      head + rest
  }

  /** Python's `xs[k:]`: empty when `xs` is shorter than `k`. */
  function DropFirst(xs: seq<string>, k: nat): seq<string> {
    if |xs| <= k then [] else xs[k..]
  }

  /** The PIDs in the order the platform's mechanism produced them. Any
      exception, a non-zero exit status, or an unsupported platform gives
      the empty list. */
  function RawPids(os: string, src: PidSource): seq<int> {
    match PidListFamily(os)
    case MacOS =>
      (match src.darwinPs
       case Threw(_) => []
       case Got(c) =>
         if c.returncode == 0 then CollectLines(DarwinFormat, DropFirst(Split(Strip(c.stdout), '\n'), 1)) else [])
    case Linux =>
      (match src.procDir
       case Threw(_) => []
       case Got(entries) => ProcDirPids(entries))
    case Windows =>
      (match src.windowsPs
       case Threw(_) => []
       case Got(c) =>
         if c.returncode == 0 then CollectLines(WindowsFormat, DropFirst(Split(Strip(c.stdout), '\n'), 3)) else [])
    case Unsupported => []
  }

  /** Every element is at least as large as every later one. */
  predicate NonIncreasing(s: seq<int>) {
    forall i, j :: 0 <= i < j < |s| ==> s[i] >= s[j]
  }

  /** Inserts `x` into a non-increasing sequence, after every element at
      least as large. */
  function InsertDesc(x: int, s: seq<int>): (r: seq<int>)
    requires NonIncreasing(s)
    ensures NonIncreasing(r)
    ensures multiset(r) == multiset(s) + multiset{x}
  {
    if s == [] then [x]
    else if s[0] >= x then
      var t := InsertDesc(x, s[1..]);
      assert s == [s[0]] + s[1..];
      AtMostHead(s, x, t);
      [s[0]] + t
    else [x] + s
  }

  /** A rearrangement of the tail of `s` plus an `x` no larger than its
      head stays at or below the head. */
  lemma AtMostHead(s: seq<int>, x: int, t: seq<int>)
    requires s != [] && NonIncreasing(s) && x <= s[0]
    requires multiset(t) == multiset(s[1..]) + multiset{x}
    ensures forall k :: 0 <= k < |t| ==> s[0] >= t[k]
  {
    forall k | 0 <= k < |t|
      ensures s[0] >= t[k]
    {
      assert t[k] in multiset(t);
      if t[k] != x {
        var j :| 0 <= j < |s[1..]| && s[1..][j] == t[k];
        assert s[j + 1] == t[k];
      }
    }
  }

  /** `sorted(xs, reverse=True)` on integers. */
  function SortDesc(s: seq<int>): (r: seq<int>)
    ensures NonIncreasing(r)
    ensures multiset(r) == multiset(s)
  {
    if s == [] then []
    else
      assert s == [s[0]] + s[1..];
      InsertDesc(s[0], SortDesc(s[1..]))
  }

  /** The tail of a non-increasing sequence is non-increasing. */
  lemma TailNonIncreasing(a: seq<int>)
    requires a != [] && NonIncreasing(a)
    ensures NonIncreasing(a[1..])
  {
    forall i, j | 0 <= i < j < |a[1..]|
      ensures a[1..][i] >= a[1..][j]
    {
      assert a[1..][i] == a[i + 1] && a[1..][j] == a[j + 1];
    }
  }

  /** The head of a non-increasing sequence is its largest element. */
  lemma HeadIsMax(a: seq<int>, x: int)
    requires a != [] && NonIncreasing(a)
    requires x in multiset(a)
    ensures x <= a[0]
  {
    var k :| 0 <= k < |a| && a[k] == x;
    if k > 0 {
      assert a[0] >= a[k];
    }
  }

  /** There is only one non-increasing arrangement of a multiset of
      integers, so the descending PID list is fully determined by the PIDs
      found. */
  lemma {:induction false} NonIncreasingUnique(a: seq<int>, b: seq<int>)
    requires NonIncreasing(a) && NonIncreasing(b)
    requires multiset(a) == multiset(b)
    ensures a == b
    decreases |a|
  {
    assert |multiset(a)| == |a| && |multiset(b)| == |b|;
    if a != [] {
      assert a[0] in multiset(a) && b[0] in multiset(b);
      HeadIsMax(a, b[0]);
      HeadIsMax(b, a[0]);
      assert a[0] == b[0];
      assert a == [a[0]] + a[1..];
      assert b == [b[0]] + b[1..];
      assert multiset(a[1..]) == multiset(a) - multiset{a[0]};
      assert multiset(b[1..]) == multiset(b) - multiset{b[0]};
      TailNonIncreasing(a);
      TailNonIncreasing(b);
      NonIncreasingUnique(a[1..], b[1..]);
    }
  }

  /** `_get_pid_list`. */
  function GetPidList(os: string, src: PidSource): (pids: seq<int>)
    ensures NonIncreasing(pids)
    ensures multiset(pids) == multiset(RawPids(os, src))
  {
    SortDesc(RawPids(os, src))
  }

  /** On a platform the dispatcher does not support the PID list is empty,
      so the collector never asks a resolver that would answer `None`. */
  lemma UnsupportedHasNoPids(os: string, src: PidSource)
    requires DispatchFamily(os) == Unsupported
    ensures GetPidList(os, src) == []
  {
    PidListMatchesDispatch(os);
  }

  /** `str(n)` for each `n`, in order. */
  function NatTexts(ns: seq<nat>): (ts: seq<string>)
    ensures |ts| == |ns|
    ensures forall i :: 0 <= i < |ns| ==> ts[i] == NatText(ns[i])
  {
    seq(|ns|, i requires 0 <= i < |ns| => NatText(ns[i]))
  }

  /** A line holding just `str(n)` reads as `n` in either format. */
  lemma LinePidOfText(fmt: LineFormat, n: nat)
    ensures LinePid(fmt, NatText(n)) == Some(n)
  {
    var t := NatText(n);
    assert IsWord(t) by {
      forall j | 0 <= j < |t|
        ensures !IsSpace(t[j])
      {
        assert IsDigit(t[j]);
      }
    }
    StripUntrimmed(t);
    WordsOfWord(t);
    ParseIntText(n);
  }

  /** A first line that parses contributes its PID at the front. */
  lemma CollectCons(fmt: LineFormat, lines: seq<string>, p: int)
    requires lines != [] && LinePid(fmt, lines[0]) == Some(p)
    ensures CollectLines(fmt, lines) == [p] + CollectLines(fmt, lines[1..])
  {
  }

  /** Dropping leading numbers drops their texts. */
  lemma NatTextsDrop(ns: seq<nat>, k: nat)
    requires k <= |ns|
    ensures NatTexts(ns)[k..] == NatTexts(ns[k..])
  {
  }

  /** Lines holding just numbers are read back as those numbers, in order. */
  lemma {:induction false} CollectNumberLines(fmt: LineFormat, ns: seq<nat>)
    ensures CollectLines(fmt, NatTexts(ns)) == ns
    decreases |ns|
  {
    if ns != [] {
      CollectFirstNumber(fmt, ns);
      CollectNumberLines(fmt, ns[1..]);
      assert ns == [ns[0]] + ns[1..];
    }
  }

  /** The first number line contributes its number at the front. */
  lemma CollectFirstNumber(fmt: LineFormat, ns: seq<nat>)
    requires ns != []
    ensures CollectLines(fmt, NatTexts(ns)) == [ns[0]] + CollectLines(fmt, NatTexts(ns[1..]))
  {
    LinePidOfText(fmt, ns[0]);
    CollectCons(fmt, NatTexts(ns), ns[0]);
    NatTextsDrop(ns, 1);
  }

  /** Lines without a newline, the first starting and the last ending with
      something other than whitespace, survive `strip().split('\n')` of
      their join unchanged. */
  lemma NumberListing(ts: seq<string>)
    requires |ts| >= 1
    requires forall i :: 0 <= i < |ts| ==> '\n' !in ts[i]
    requires Trimmed(ts[0]) && Trimmed(ts[|ts| - 1])
    ensures Strip(Join(ts, '\n')) == Join(ts, '\n')
    ensures Split(Join(ts, '\n'), '\n') == ts
  {
    SplitJoin(ts, '\n');
    JoinEnds(ts);
    StripUntrimmed(Join(ts, '\n'));
  }

  /** The join starts with the first line's first character and ends with
      the last line's last character. */
  lemma JoinEnds(ts: seq<string>)
    requires |ts| >= 1
    requires Trimmed(ts[0]) && Trimmed(ts[|ts| - 1])
    ensures Trimmed(Join(ts, '\n'))
  {
    JoinLastChar(ts);
    var j := Join(ts, '\n');
    assert j[0] == ts[0][0];
  }

  /** The join ends with the last line's last character. */
  lemma {:induction false} JoinLastChar(ts: seq<string>)
    requires |ts| >= 1 && ts[|ts| - 1] != []
    ensures var j := Join(ts, '\n'); j != [] && j[|j| - 1] == ts[|ts| - 1][|ts[|ts| - 1]| - 1]
    decreases |ts|
  {
    if |ts| > 1 {
      var rest := Join(ts[1..], '\n');
      JoinLastChar(ts[1..]);
      assert Join(ts, '\n') == ts[0] + ['\n'] + rest;
    }
  }

  /** The decimal text of a number has no newline and no whitespace end. */
  lemma NatTextLine(n: nat)
    ensures '\n' !in NatText(n) && Trimmed(NatText(n))
  {
    var t := NatText(n);
    assert !IsDigit('\n');
    assert IsDigit(t[0]) && IsDigit(t[|t| - 1]);
  }

  /** On Windows the first three lines are dropped before parsing: a
      listing of bare PIDs, which is what `Select-Object -ExpandProperty Id`
      prints, loses its first three. */
  lemma WindowsDropsFirstThree(ns: seq<nat>, os: string, src: PidSource)
    requires |ns| >= 1
    requires PidListFamily(os) == Windows
    requires src.windowsPs == Got(Completed(0, Join(NatTexts(ns), '\n')))
    ensures GetPidList(os, src) == SortDesc(if |ns| <= 3 then [] else ns[3..])
  {
    var ts := NatTexts(ns);
    forall i | 0 <= i < |ts|
      ensures '\n' !in ts[i] && Trimmed(ts[i])
    {
      NatTextLine(ns[i]);
    }
    NumberListing(ts);
    assert RawPids(os, src) == CollectLines(WindowsFormat, DropFirst(ts, 3));
    if |ns| > 3 {
      NatTextsDrop(ns, 3);
      CollectNumberLines(WindowsFormat, ns[3..]);
    }
  }

  /** On macOS the first line is the `PID` column header and is dropped,
      whatever it says; every number line after it is kept. */
  lemma DarwinDropsHeader(ns: seq<nat>, header: string, os: string, src: PidSource)
    requires PidListFamily(os) == MacOS
    requires '\n' !in header && Trimmed(header)
    requires src.darwinPs == Got(Completed(0, Join([header] + NatTexts(ns), '\n')))
    ensures GetPidList(os, src) == SortDesc(ns)
  {
    var ts := [header] + NatTexts(ns);
    forall i | 1 <= i < |ts|
      ensures '\n' !in ts[i] && Trimmed(ts[i])
    {
      NatTextLine(ns[i - 1]);
    }
    NumberListing(ts);
    assert ts[1..] == NatTexts(ns);
    CollectNumberLines(DarwinFormat, ns);
  }
}
