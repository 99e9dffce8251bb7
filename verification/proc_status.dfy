/** `_read_proc_status` (src/process_collector.py): the `key: value` lines of
    /proc/<pid>/status read into a dictionary. */
module ProcStatus {
  import opened Wrappers
  import opened PyText
  import opened Processes

  /** The status file as the reader finds it. */
  datatype StatusFile =
    | Missing                    // `status_file.exists()` is false
    | Unreadable(exc: Exc)       // opening or reading it raised
    | Lines(lines: seq<string>)  // its lines

  /** `line.split(':', 1)` with both halves stripped: the key is the text
      before the first colon, the value everything after it. */
  function Field(line: string): (kv: (string, string))
    requires ':' in line
    ensures ':' !in kv.0
  {
    var i := IndexOf(line, ':');
    var key := line[..i];
    StripWithin(key, ':');
    (Strip(key), Strip(line[i + 1..]))
  }

  /** The key and value a line contributes, if it has a colon. */
  function LineField(line: string): Option<(string, string)> {
    if ':' in line then Some(Field(line)) else None
  }

  /** What each line contributes, in file order. */
  function Fields(lines: seq<string>): (fs: seq<Option<(string, string)>>)
    ensures |fs| == |lines|
    ensures forall i :: 0 <= i < |lines| ==> fs[i] == LineField(lines[i])
  {
    seq(|lines|, i requires 0 <= i < |lines| => LineField(lines[i]))
  }

  /** Entry `i` carries key `k`. */
  predicate HasKey(fs: seq<Option<(string, string)>>, i: int, k: string)
    requires 0 <= i < |fs|
  {
    fs[i].Some? && fs[i].value.0 == k
  }

  /** The dictionary built entry by entry: absent entries are skipped, and a
      key seen again overwrites the earlier value. */
  function BuildDict(fs: seq<Option<(string, string)>>): map<string, string>
    decreases |fs|
  {
    if fs == [] then map[]
    else
      var m := BuildDict(fs[..|fs| - 1]);
      match fs[|fs| - 1]
      case None => m
      case Some(kv) => m[kv.0 := kv.1]
  }

  /** The dictionary `_read_proc_status` builds from the lines of the file. */
  function ParseStatus(lines: seq<string>): map<string, string> {
    BuildDict(Fields(lines))
  }

  /** Entry `i` is the last entry with key `k`, and its value is `v`. */
  predicate LastFor(fs: seq<Option<(string, string)>>, i: int, k: string, v: string) {
    0 <= i < |fs| && HasKey(fs, i, k) && fs[i].value.1 == v
    && forall j :: i < j < |fs| ==> !HasKey(fs, j, k)
  }

  /** The keys of the dictionary are exactly the keys of the entries, and
      each maps to the value of the last entry that carries it. */
  lemma {:induction false} BuildDictSpec(fs: seq<Option<(string, string)>>)
    ensures forall k :: k in BuildDict(fs) <==> exists i :: 0 <= i < |fs| && HasKey(fs, i, k)
    ensures forall k :: k in BuildDict(fs) ==> exists i :: LastFor(fs, i, k, BuildDict(fs)[k])
    decreases |fs|
  {
    if fs != [] {
      var n := |fs| - 1;
      var init := fs[..n];
      var m := BuildDict(init);
      BuildDictSpec(init);
      assert forall i :: 0 <= i < n ==> fs[i] == init[i];
      assert forall i, k :: 0 <= i < n ==> (HasKey(fs, i, k) <==> HasKey(init, i, k));
      match fs[n]
      case None =>
        assert BuildDict(fs) == m;
        assert forall k :: !HasKey(fs, n, k);
        forall k | k in m
          ensures exists i :: LastFor(fs, i, k, m[k])
        {
          var i :| LastFor(init, i, k, m[k]);
          assert LastFor(fs, i, k, m[k]);
        }
      case Some(kv) =>
        var m2 := m[kv.0 := kv.1];
        assert BuildDict(fs) == m2;
        assert HasKey(fs, n, kv.0);
        assert LastFor(fs, n, kv.0, kv.1);
        forall k | k in m2 && k != kv.0
          ensures exists i :: LastFor(fs, i, k, m2[k])
        {
          var i :| LastFor(init, i, k, m[k]);
          assert !HasKey(fs, n, k);
          assert LastFor(fs, i, k, m2[k]);
        }
    }
  }

  /** `_read_proc_status`: `None` when the file is missing or cannot be read;
      otherwise a dictionary whose keys are the keys of the colon lines. */
  function ReadProcStatus(file: StatusFile): (r: Option<map<string, string>>)
    ensures r.None? <==> !file.Lines?
    ensures r.Some? ==> forall k :: k in r.value <==>
              exists i :: 0 <= i < |file.lines| && HasKey(Fields(file.lines), i, k)
  {
    match file
    case Lines(lines) =>
      BuildDictSpec(Fields(lines));
      Some(ParseStatus(lines))
    case _ => None
  }

  /** The `Key:\tvalue` layout of the status file. */
  function StatusLine(k: string, v: string): string {
    k + ":" + "\t" + v
  }

  /** A `Key:\tvalue` line reads back as that key and value. */
  lemma FieldOfStatusLine(k: string, v: string)
    requires ':' !in k && Trimmed(k) && Trimmed(v)
    ensures ':' in StatusLine(k, v)
    ensures Field(StatusLine(k, v)) == (k, v)
  {
    var line := StatusLine(k, v);
    assert line[|k|] == ':';
    assert line[..|k|] == k;
    IndexOfAt(line, ':', |k|);
    assert line[|k| + 1..] == "\t" + v;
    StripUntrimmed(k);
    assert LStrip("\t" + v) == LStrip(v);
    assert LStrip(v) == v;
  }

  /** Entries that all carry distinct keys build the dictionary mapping each
      key to its value. */
  lemma BuildDictDistinct(fs: seq<Option<(string, string)>>, ks: seq<string>, vs: seq<string>)
    requires |fs| == |ks| == |vs|
    requires forall i :: 0 <= i < |fs| ==> fs[i] == Some((ks[i], vs[i]))
    requires forall i, j :: 0 <= i < j < |ks| ==> ks[i] != ks[j]
    ensures forall k :: k in BuildDict(fs) <==> k in ks
    ensures forall i :: 0 <= i < |ks| ==> ks[i] in BuildDict(fs) && BuildDict(fs)[ks[i]] == vs[i]
  {
    var m := BuildDict(fs);
    BuildDictSpec(fs);
    forall k
      ensures k in m <==> k in ks
    {
      if k in ks {
        var i :| 0 <= i < |ks| && ks[i] == k;
        assert HasKey(fs, i, k);
      }
    }
    forall i | 0 <= i < |ks|
      ensures m[ks[i]] == vs[i]
    {
      assert HasKey(fs, i, ks[i]);
      var j :| LastFor(fs, j, ks[i], m[ks[i]]);
      assert ks[j] == ks[i];
    }
  }

  /** Status text written as `Key:\tvalue` lines with distinct keys parses
      back to exactly those keys and values. */
  lemma ParseStatusLines(ks: seq<string>, vs: seq<string>)
    requires |ks| == |vs|
    requires forall i :: 0 <= i < |ks| ==> ':' !in ks[i] && Trimmed(ks[i]) && Trimmed(vs[i])
    requires forall i, j :: 0 <= i < j < |ks| ==> ks[i] != ks[j]
    ensures var m := ParseStatus(seq(|ks|, i requires 0 <= i < |ks| => StatusLine(ks[i], vs[i])));
            (forall k :: k in m <==> k in ks) && forall i :: 0 <= i < |ks| ==> m[ks[i]] == vs[i]
  {
    var lines := seq(|ks|, i requires 0 <= i < |ks| => StatusLine(ks[i], vs[i]));
    var fs := Fields(lines);
    forall i | 0 <= i < |ks|
      ensures fs[i] == Some((ks[i], vs[i]))
    {
      FieldOfStatusLine(ks[i], vs[i]);
    }
    BuildDictDistinct(fs, ks, vs);
  }
}
