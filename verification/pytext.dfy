/** The handful of Python string operations the process watcher relies on:
    `strip`, `split(sep)`, `split()`, `sep.join`, `in`, `startswith`,
    `endswith`, `lower`, `int(...)`, `float(...)` and `str(...)` of integers
    and two-decimal floats. Only ASCII is modelled: the whitespace set is the
    ASCII part of `str.isspace`, digits are `0`-`9`, case folding is `A`-`Z`. */
module PyText {
  import opened Wrappers

  /** `c.isspace()` on ASCII: tab, line feed, vertical tab, form feed, carriage
      return, the four information separators (28-31) and space. */
  predicate IsSpace(c: char) {
    (9 <= c as int <= 13) || (28 <= c as int <= 32)
  }

  /** `s.lstrip()`: drops the longest all-whitespace prefix. */
  function LStrip(s: string): (r: string)
    ensures |r| <= |s|
    ensures r == [] || !IsSpace(r[0])
    decreases |s|
  {
    if s != [] && IsSpace(s[0]) then LStrip(s[1..]) else s
  }

  /** What `lstrip()` keeps is a suffix, and what it drops is whitespace. */
  lemma {:induction false} LStripSuffix(s: string)
    ensures LStrip(s) == s[|s| - |LStrip(s)|..]
    ensures forall i :: 0 <= i < |s| - |LStrip(s)| ==> IsSpace(s[i])
    decreases |s|
  {
    if s != [] && IsSpace(s[0]) {
      LStripSuffix(s[1..]);
      assert forall i :: 1 <= i < |s| ==> s[i] == s[1..][i - 1];
    }
  }

  /** `s.rstrip()`: drops the longest all-whitespace suffix. */
  function RStrip(s: string): (r: string)
    ensures |r| <= |s|
    ensures r == [] || !IsSpace(r[|r| - 1])
    decreases |s|
  {
    if s != [] && IsSpace(s[|s| - 1]) then RStrip(s[..|s| - 1]) else s
  }

  /** What `rstrip()` keeps is a prefix. */
  lemma {:induction false} RStripPrefix(s: string)
    ensures RStrip(s) == s[..|RStrip(s)|]
    decreases |s|
  {
    if s != [] && IsSpace(s[|s| - 1]) {
      RStripPrefix(s[..|s| - 1]);
    }
  }

  /** `strip()` keeps a stretch of the text, so it holds no character the
      text does not. */
  lemma StripWithin(s: string, c: char)
    requires c !in s
    ensures c !in Strip(s)
  {
    LStripSuffix(s);
    RStripPrefix(LStrip(s));
  }

  /** `s.strip()`. */
  function Strip(s: string): string {
    RStrip(LStrip(s))
  }

  /** Neither end of `s` is whitespace. */
  predicate Trimmed(s: string) {
    s != [] && !IsSpace(s[0]) && !IsSpace(s[|s| - 1])
  }

  /** Stripping text whose two ends are not whitespace changes nothing. */
  lemma StripUntrimmed(s: string)
    requires Trimmed(s)
    ensures Strip(s) == s
  {
    assert LStrip(s) == s;
  }

  /** `rstrip()` removes trailing whitespace appended to the text. */
  lemma {:induction false} RStripSpaces(t: string, w: string)
    requires forall i :: 0 <= i < |w| ==> IsSpace(w[i])
    ensures RStrip(t + w) == RStrip(t)
    decreases |w|
  {
    if w == [] {
      assert t + w == t;
    } else {
      var s := t + w;
      assert s[..|s| - 1] == t + w[..|w| - 1];
      RStripSpaces(t, w[..|w| - 1]);
    }
  }

  /** Stripping trimmed text followed by whitespace gives the text back. */
  lemma StripPadded(t: string, w: string)
    requires Trimmed(t)
    requires forall i :: 0 <= i < |w| ==> IsSpace(w[i])
    ensures Strip(t + w) == t
  {
    assert LStrip(t + w) == t + w;
    RStripSpaces(t, w);
    StripUntrimmed(t);
  }

  /** Position of the first `c` in `s`, as `s.index(c)`. */
  function IndexOf(s: string, c: char): (i: nat)
    requires c in s
    ensures i < |s| && s[i] == c && c !in s[..i]
  {
    if s[0] == c then 0
    else
      var j := IndexOf(s[1..], c);
      assert s[..j + 1] == [s[0]] + s[1..][..j];
      j + 1
  }

  /** The first `c` is at `k` when `s[k]` is `c` and no earlier character is. */
  lemma IndexOfAt(s: string, c: char, k: nat)
    requires k < |s| && s[k] == c && c !in s[..k]
    ensures c in s && IndexOf(s, c) == k
  {
    var i := IndexOf(s, c);
    forall m | 0 <= m < k
      ensures s[m] != c
    {
      assert s[..k][m] == s[m];
    }
    forall m | 0 <= m < i
      ensures s[m] != c
    {
      assert s[..i][m] == s[m];
    }
  }

  /** `sep.join(parts)` for a one-character separator. */
  function Join(parts: seq<string>, sep: char): string
  {
    if |parts| == 0 then ""
    else if |parts| == 1 then parts[0]
    else parts[0] + [sep] + Join(parts[1..], sep)
  }

  /** `s.split(sep)` for a one-character separator: the pieces between
      separators, at least one, none containing the separator, and joining
      them back gives `s`. */
  function Split(s: string, sep: char): (parts: seq<string>)
    ensures |parts| >= 1
    ensures forall i :: 0 <= i < |parts| ==> sep !in parts[i]
    ensures Join(parts, sep) == s
    decreases |s|
  {
    if sep !in s then [s]
    else
      var i := IndexOf(s, sep);
      var rest := Split(s[i + 1..], sep);
      assert ([s[..i]] + rest)[1..] == rest;
      assert s == s[..i] + [sep] + s[i + 1..];
      [s[..i]] + rest
  }

  /** Splitting a join on a separator none of the parts contains gives the parts back. */
  lemma {:induction false} SplitJoin(parts: seq<string>, sep: char)
    requires |parts| >= 1
    requires forall i :: 0 <= i < |parts| ==> sep !in parts[i]
    ensures Split(Join(parts, sep), sep) == parts
    decreases |parts|
  {
    if |parts| > 1 {
      var rest := parts[1..];
      SplitCons(parts[0], Join(rest, sep), sep);
      SplitJoin(rest, sep);
      assert parts == [parts[0]] + rest;
    }
  }

  /** A first piece free of the separator is split off whole. */
  lemma SplitCons(a: string, t: string, sep: char)
    requires sep !in a
    ensures Split(a + [sep] + t, sep) == [a] + Split(t, sep)
  {
    var s := a + [sep] + t;
    assert s[..|a|] == a;
    IndexOfAt(s, sep, |a|);
    assert s[|a| + 1..] == t;
  }

  /** The last piece of `s.split(sep)`, as `s.split(sep)[-1]`. */
  function LastPiece(s: string, sep: char): (p: string)
    ensures sep !in p
  {
    var parts := Split(s, sep);
    parts[|parts| - 1]
  }

  /** Length of the leading run of non-whitespace characters of `t`. */
  function WordEnd(t: string): (n: nat)
    ensures n <= |t|
    ensures forall j :: 0 <= j < n ==> !IsSpace(t[j])
    ensures n == |t| || IsSpace(t[n])
  {
    if t == [] || IsSpace(t[0]) then 0
    else
      var n := WordEnd(t[1..]);
      assert forall j :: 1 <= j < n + 1 ==> t[j] == t[1..][j - 1];
      n + 1
  }

  /** A non-empty run of non-whitespace characters. */
  predicate IsWord(w: string) {
    w != [] && forall j :: 0 <= j < |w| ==> !IsSpace(w[j])
  }

  /** `s.split()` with no argument: the maximal runs of non-whitespace. */
  function Words(s: string): (ws: seq<string>)
    ensures forall w | w in ws :: IsWord(w)
    decreases |s|
  {
    var t := LStrip(s);
    if t == [] then []
    else
      var n := WordEnd(t);
      var w := t[..n];
      assert IsWord(w) by {
        assert forall j :: 0 <= j < |w| ==> w[j] == t[j];
      }
      [w] + Words(t[n..])
  }

  /** The first whitespace run of `w + [' '] + rest` ends exactly where `w` does. */
  lemma WordEndOfJoin(w: string, rest: string)
    requires IsWord(w)
    ensures WordEnd(w + [' '] + rest) == |w|
  {
    var t := w + [' '] + rest;
    assert t[|w|] == ' ';
    assert forall j :: 0 <= j < |w| ==> t[j] == w[j];
  }

  /** A word alone splits to itself. */
  lemma WordsOfWord(w: string)
    requires IsWord(w)
    ensures Words(w) == [w]
  {
    assert LStrip(w) == w;
    var n := WordEnd(w);
    assert n == |w|;
    assert Words(w) == [w[..n]] + Words(w[n..]);
    assert w[..n] == w;
    assert w[n..] == [];
    assert Words([]) == [];
  }

  /** A word followed by a space and text that starts with a word. */
  lemma WordsCons(w: string, j: string)
    requires IsWord(w)
    requires j != [] && !IsSpace(j[0])
    ensures Words(w + [' '] + j) == [w] + Words(j)
  {
    var sj := [' '] + j;
    var t := w + sj;
    assert t == w + [' '] + j;
    assert Words(t) == [w] + Words(sj) by {
      assert t[0] == w[0];
      LStripUnspaced(t);
      WordEndOfJoin(w, j);
      assert t[..|w|] == w;
      assert t[|w|..] == sj;
    }
    assert Words(sj) == Words(j) by {
      assert sj[1..] == j;
      LStripUnspaced(j);
      assert LStrip(sj) == j;
      WordsAfterSpace(sj, j);
    }
  }

  /** Text that does not start with whitespace is its own `lstrip()`. */
  lemma LStripUnspaced(s: string)
    requires s == [] || !IsSpace(s[0])
    ensures LStrip(s) == s
  {
  }

  /** Leading whitespace does not change the words. */
  lemma WordsAfterSpace(s: string, j: string)
    requires LStrip(s) == j && LStrip(j) == j
    ensures Words(s) == Words(j)
  {
  }

  /** Joined words start with a non-space character. */
  lemma JoinWordsHead(ws: seq<string>)
    requires |ws| >= 1
    requires forall i :: 0 <= i < |ws| ==> IsWord(ws[i])
    ensures Join(ws, ' ') != [] && !IsSpace(Join(ws, ' ')[0])
  {
    if |ws| > 1 {
      var j := ws[0] + [' '] + Join(ws[1..], ' ');
      assert Join(ws, ' ') == j;
      assert j[0] == ws[0][0];
    }
  }

  /** Splitting on whitespace undoes joining words with single spaces. */
  lemma {:induction false} WordsOfJoin(ws: seq<string>)
    requires forall i :: 0 <= i < |ws| ==> IsWord(ws[i])
    ensures Words(Join(ws, ' ')) == ws
    decreases |ws|
  {
    if |ws| == 0 {
      assert Words([]) == [];
    } else if |ws| == 1 {
      WordsOfWord(ws[0]);
    } else {
      var rest := ws[1..];
      var j := Join(rest, ' ');
      assert Join(ws, ' ') == ws[0] + [' '] + j;
      JoinWordsHead(rest);
      WordsCons(ws[0], j);
      WordsOfJoin(rest);
      assert ws == [ws[0]] + rest;
    }
  }

  /** `sub` occurs in `s` at position `i`. */
  predicate OccursAt(s: string, sub: string, i: int) {
    0 <= i && i + |sub| <= |s| && s[i..i + |sub|] == sub
  }

  /** Python's `sub in s`. */
  function Contains(s: string, sub: string): bool
    decreases |s|
  {
    if |sub| > |s| then false
    else s[..|sub|] == sub || Contains(s[1..], sub)
  }

  /** `sub in s` holds exactly when `sub` occurs at some position of `s`. */
  lemma {:induction false} ContainsOccurs(s: string, sub: string)
    ensures Contains(s, sub) <==> exists i :: OccursAt(s, sub, i)
    decreases |s|
  {
    if |sub| > |s| {
    } else if s[..|sub|] == sub {
      assert OccursAt(s, sub, 0);
    } else {
      ContainsOccurs(s[1..], sub);
      if Contains(s[1..], sub) {
        var i :| OccursAt(s[1..], sub, i);
        assert s[i + 1..i + 1 + |sub|] == s[1..][i..i + |sub|];
        assert OccursAt(s, sub, i + 1);
      } else {
        forall i | OccursAt(s, sub, i)
          ensures false
        {
          if i > 0 {
            assert s[1..][i - 1..i - 1 + |sub|] == s[i..i + |sub|];
            assert OccursAt(s[1..], sub, i - 1);
          }
        }
      }
    }
  }

  /** Text in which the first character of `sub` never appears does not contain `sub`. */
  lemma NotContainsByChar(s: string, sub: string)
    requires sub != []
    requires forall i :: 0 <= i < |s| ==> s[i] != sub[0]
    ensures !Contains(s, sub)
  {
    ContainsOccurs(s, sub);
    forall i | 0 <= i && i + |sub| <= |s|
      ensures !OccursAt(s, sub, i)
    {
      assert s[i..i + |sub|][0] == s[i];
    }
  }

  /** Text in which `sub` occurs at a known position contains it. */
  lemma ContainsAt(s: string, sub: string, i: int)
    requires 0 <= i && i + |sub| <= |s|
    requires forall k :: 0 <= k < |sub| ==> s[i + k] == sub[k]
    ensures Contains(s, sub)
  {
    assert s[i..i + |sub|] == sub;
    assert OccursAt(s, sub, i);
    ContainsOccurs(s, sub);
  }

  /** Containment is transitive: text containing `mid` contains every part of `mid`. */
  lemma ContainsTransitive(s: string, mid: string, sub: string)
    requires Contains(s, mid) && Contains(mid, sub)
    ensures Contains(s, sub)
  {
    ContainsOccurs(s, mid);
    ContainsOccurs(mid, sub);
    var i :| OccursAt(s, mid, i);
    var j :| OccursAt(mid, sub, j);
    assert forall k :: 0 <= k < |sub| ==> sub[k] == mid[j + k] == s[i + j + k];
    assert s[i + j..i + j + |sub|] == sub;
    assert OccursAt(s, sub, i + j);
    ContainsOccurs(s, sub);
  }

  /** `s.startswith(p)`. */
  predicate StartsWith(s: string, p: string) {
    |p| <= |s| && s[..|p|] == p
  }

  /** `s.endswith(p)`. */
  predicate EndsWith(s: string, p: string) {
    |p| <= |s| && s[|s| - |p|..] == p
  }

  /** `c.lower()` on ASCII letters. */
  function LowerChar(c: char): char {
    if 'A' <= c <= 'Z' then (c as int + 32) as char else c
  }

  /** `s.lower()` on ASCII letters. */
  function Lower(s: string): string {
    seq(|s|, i requires 0 <= i < |s| => LowerChar(s[i]))
  }

  /** Text without upper-case ASCII letters is its own `lower()`. */
  lemma LowerUnchanged(s: string)
    requires forall i :: 0 <= i < |s| ==> !('A' <= s[i] <= 'Z')
    ensures Lower(s) == s
  {
  }

  predicate IsDigit(c: char) {
    '0' <= c <= '9'
  }

  /** Every character is an ASCII digit (vacuously true of ""). */
  predicate AllDigits(s: string) {
    forall i :: 0 <= i < |s| ==> IsDigit(s[i])
  }

  /** `s.isdigit()` on ASCII: non-empty and all digits. */
  predicate IsDigits(s: string) {
    s != [] && AllDigits(s)
  }

  /** The base-10 value of a digit string. */
  function DigitsValue(s: string): nat
    requires AllDigits(s)
  {
    if s == [] then 0
    else 10 * DigitsValue(s[..|s| - 1]) + (s[|s| - 1] as int - '0' as int)
  }

  /** Python's `int(text)` in base 10: surrounding whitespace, an optional sign,
      then at least one ASCII digit. */
  function ParseInt(text: string): Option<int>
  {
    var t := Strip(text);
    if t != [] && (t[0] == '-' || t[0] == '+') then
      if IsDigits(t[1..]) then
        Some(if t[0] == '-' then -(DigitsValue(t[1..]) as int) else DigitsValue(t[1..]))
      else None
    else if IsDigits(t) then Some(DigitsValue(t))
    else None
  }

  /** A lower-case hexadecimal digit. */
  function HexDigit(d: nat): char
    requires d < 16
  {
    if d < 10 then ('0' as int + d) as char else ('a' as int + d - 10) as char
  }

  /** A character `repr` writes as itself inside the quotes `q`: printable
      ASCII other than the backslash and `q`, or any non-ASCII character. */
  predicate ReprPlain(c: char, q: char) {
    c != '\\' && c != q && (c as int >= 128 || 32 <= c as int < 127)
  }

  /** How `repr` writes one character inside the quotes `q`. */
  function ReprChar(c: char, q: char): (e: string)
    ensures ReprPlain(c, q) <==> e == [c]
  {
    if c == '\\' then "\\\\"
    else if c == '\t' then "\\t"
    else if c == '\n' then "\\n"
    else if c == '\r' then "\\r"
    else if c == q then ['\\', q]
    else if c as int < 32 || c as int == 127 then "\\x" + [HexDigit(c as int / 16), HexDigit(c as int % 16)]
    else [c]
  }

  /** The body of `repr(s)` between its quotes. */
  function ReprBody(s: string, q: char): string {
    if s == [] then "" else ReprChar(s[0], q) + ReprBody(s[1..], q)
  }

  /** Text whose characters all need no escape is written as it is. */
  lemma {:induction false} ReprBodyPlain(s: string, q: char)
    requires forall i :: 0 <= i < |s| ==> ReprPlain(s[i], q)
    ensures ReprBody(s, q) == s
    decreases |s|
  {
    if s != [] {
      ReprBodyPlain(s[1..], q);
      assert s == [s[0]] + s[1..];
    }
  }

  /** The quote `repr` picks: double quotes when the text holds a single
      quote and no double quote, single quotes otherwise. */
  function ReprQuote(s: string): char {
    if '\'' in s && '"' !in s then '"' else '\''
  }

  /** Python's `repr` of a string, for the characters the model covers:
      the chosen quotes around the escaped text. */
  function PyRepr(s: string): (r: string)
    ensures |r| >= 2 && r[0] == ReprQuote(s) && r[|r| - 1] == ReprQuote(s)
  {
    var q := ReprQuote(s);
    [q] + ReprBody(s, q) + [q]
  }

  /** Text with no quote, backslash or control character is written
      between single quotes as it is. */
  lemma ReprOfPlain(s: string)
    requires forall i :: 0 <= i < |s| ==> ReprPlain(s[i], '\'')
    ensures PyRepr(s) == "'" + s + "'"
  {
    assert '\'' !in s by {
      forall i | 0 <= i < |s| ensures s[i] != '\'' { assert ReprPlain(s[i], '\''); }
    }
    ReprBodyPlain(s, '\'');
  }

  /** Text holding an apostrophe and no double quote is written between
      double quotes, the apostrophe as it is: `repr("it's")` is `"it's"`. */
  lemma ReprOfApostrophe()
    ensures PyRepr("it's") == "\"it's\""
  {
    assert "it's"[2] == '\'';
  }

  /** A backslash and a tab are escaped, each as two characters. */
  lemma ReprEscapes()
    ensures PyRepr("a\\b\t") == "'a\\\\b\\t'"
  {
    assert '\'' !in "a\\b\t";
  }

  /** The first `n` characters of `s`, as the `%.nR` format keeps them. */
  function Clip(s: string, n: nat): (r: string)
    ensures |r| <= n && r <= s
    ensures |s| <= n ==> r == s
  {
    if |s| <= n then s else s[..n]
  }

  /** The text of the `ValueError` `int(f)` raises when `f` is not an
      integer: the `repr` of `f`, cut to 200 characters. */
  function IntValueError(f: string): (e: string)
    ensures |e| <= 240
  {
    "invalid literal for int() with base 10: " + Clip(PyRepr(f), 200)
  }

  /** The text of the `ValueError` `float(f)` raises when `f` is not a
      number: the `repr` of `f`. */
  function FloatValueError(f: string): string {
    "could not convert string to float: " + PyRepr(f)
  }

  function Digit(d: nat): char
    requires d < 10
  {
    ('0' as int + d) as char
  }

  /** `str(n)` for a non-negative integer. */
  function NatText(n: nat): (s: string)
    ensures IsDigits(s)
  {
    if n < 10 then [Digit(n)] else NatText(n / 10) + [Digit(n % 10)]
  }

  /** The digits `str(n)` writes are worth `n`. */
  lemma {:induction false} NatTextValue(n: nat)
    ensures DigitsValue(NatText(n)) == n
  {
    if n >= 10 {
      var s := NatText(n);
      assert s[..|s| - 1] == NatText(n / 10);
      NatTextValue(n / 10);
    }
  }

  /** `str(i)` for any integer. */
  function IntText(i: int): string {
    if i < 0 then "-" + NatText(-i) else NatText(i)
  }

  /** `int()` of digits with nothing around them is their value. */
  lemma ParseIntDigits(s: string)
    requires IsDigits(s)
    ensures ParseInt(s) == Some(DigitsValue(s) as int)
  {
    StripUntrimmed(s);
  }

  /** `int()` of a minus sign and digits is the negated value. */
  lemma ParseIntMinusDigits(body: string)
    requires IsDigits(body)
    ensures ParseInt("-" + body) == Some(-(DigitsValue(body) as int))
  {
    var s := "-" + body;
    assert s[|s| - 1] == body[|body| - 1];
    StripUntrimmed(s);
    assert s[1..] == body;
  }

  /** `int(str(i)) == i`: the integer text round-trips. */
  lemma ParseIntText(i: int)
    ensures ParseInt(IntText(i)) == Some(i)
  {
    if i < 0 {
      var n: nat := -i;
      NatTextValue(n);
      var t := NatText(n);
      assert IsDigits(t) && DigitsValue(t) == n;
      ParseIntMinusDigits(t);
      assert IntText(i) == "-" + t;
    } else {
      var n: nat := i;
      NatTextValue(n);
      var t := NatText(n);
      assert IsDigits(t) && DigitsValue(t) == n;
      ParseIntDigits(t);
      assert IntText(i) == t;
    }
  }

  function Pow10(n: nat): (p: nat)
    ensures p >= 1
  {
    if n == 0 then 1 else 10 * Pow10(n - 1)
  }

  /** The value of the digits `whole` and `frac` written either side of a point. */
  function DecimalValue(whole: string, frac: string): real
    requires AllDigits(whole) && AllDigits(frac)
  {
    DigitsValue(whole) as real + DigitsValue(frac) as real / Pow10(|frac|) as real
  }

  /** Unsigned decimal text: digits, or digits and a fraction around one `.`. */
  function UnsignedDecimal(t: string): Option<real>
  {
    if '.' in t then
      var i := IndexOf(t, '.');
      var whole := t[..i];
      var frac := t[i + 1..];
      if (whole != [] || frac != []) && AllDigits(whole) && AllDigits(frac) then
        Some(DecimalValue(whole, frac))
      else None
    else if IsDigits(t) then Some(DigitsValue(t) as real)
    else None
  }

  /** Python's `float(text)` for plain decimal text (surrounding whitespace,
      an optional sign, digits with at most one `.`). */
  function ParseFloat(text: string): Option<real>
  {
    var t := Strip(text);
    if t != [] && (t[0] == '-' || t[0] == '+') then
      match UnsignedDecimal(t[1..])
      case None => None
      case Some(v) => Some(if t[0] == '-' then -v else v)
    else UnsignedDecimal(t)
  }

  /** The fractional digits `str(x)` writes for `f` hundredths: "0" for
      none, otherwise one or two digits with no trailing zero. */
  function FracDigits(f: nat): (frac: string)
    requires f < 100
    ensures IsDigits(frac)
  {
    if f == 0 then "0" else if f % 10 == 0 then [Digit(f / 10)] else [Digit(f / 10), Digit(f % 10)]
  }

  /** The size of `h`, kept behind a name so that every statement about the
      text of a negative value speaks of the same term. */
  function Magnitude(h: int): (a: nat)
    ensures a == h || a == -h
  {
    if h < 0 then -h else h
  }

  /** `str(x)` of a non-negative float that holds `a` hundredths: whole part,
      a point, at least one fractional digit and no trailing zero after it. */
  function UnsignedText(a: nat): string
  {
    NatText(a / 100) + "." + FracDigits(a % 100)
  }

  /** `str(x)` of a float that holds a whole number of hundredths `h`, as
      Python prints it. */
  function HundredthsText(h: int): string
  {
    (if h < 0 then "-" else "") + UnsignedText(Magnitude(h))
  }

  /** The fractional digits written for `f` hundredths are worth `f / 100`. */
  lemma FracValue(f: nat)
    requires f < 100
    ensures DigitsValue(FracDigits(f)) as real / Pow10(|FracDigits(f)|) as real == f as real / 100.0
  {
    var frac := FracDigits(f);
    if f == 0 {
      assert DigitsValue(frac) == 0;
    } else if f % 10 == 0 {
      assert frac[..0] == [];
      assert DigitsValue(frac) == f / 10;
      assert f == 10 * (f / 10);
      assert Pow10(1) == 10;
    } else {
      assert frac[..1] == [Digit(f / 10)];
      assert frac[..1][..0] == [];
      assert DigitsValue(frac[..1]) == f / 10;
      assert DigitsValue(frac) == 10 * (f / 10) + f % 10 == f;
      assert Pow10(2) == 100;
    }
  }

  /** Digits, a point and digits read as the whole part plus the fraction. */
  lemma DecimalOfParts(whole: string, frac: string)
    requires IsDigits(whole) && IsDigits(frac)
    ensures UnsignedDecimal(whole + "." + frac) == Some(DecimalValue(whole, frac))
  {
    var t := whole + "." + frac;
    var k := |whole|;
    assert '.' in t && IndexOf(t, '.') == k && t[..k] == whole && t[k + 1..] == frac by {
      assert t[..k] == whole;
      assert '.' !in whole by {
        assert forall j :: 0 <= j < k ==> IsDigit(whole[j]);
      }
      IndexOfAt(t, '.', k);
      assert t[k + 1..] == frac;
    }
  }

  /** Whole hundreds plus the remaining hundredths. */
  lemma HundredthsSplit(a: nat)
    ensures (a / 100) as real + (a % 100) as real / 100.0 == a as real / 100.0
  {
    assert a == 100 * (a / 100) + a % 100;
  }

  /** The whole and fractional digits `str(x)` writes for `a` hundredths
      are worth `a / 100`. */
  lemma HundredthsDigitsValue(a: nat)
    ensures DecimalValue(NatText(a / 100), FracDigits(a % 100)) == a as real / 100.0
  {
    NatTextValue(a / 100);
    FracValue(a % 100);
    HundredthsSplit(a);
  }

  /** `float()` of text that starts and ends with a digit reads it as an
      unsigned decimal. */
  lemma ParseFloatUnsigned(s: string)
    requires s != [] && IsDigit(s[0]) && IsDigit(s[|s| - 1])
    ensures ParseFloat(s) == UnsignedDecimal(s)
  {
    StripUntrimmed(s);
  }

  /** `float()` of a minus sign before such text negates its value. */
  lemma ParseFloatMinus(body: string, v: real)
    requires body != [] && IsDigit(body[0]) && IsDigit(body[|body| - 1])
    requires UnsignedDecimal(body) == Some(v)
    ensures ParseFloat("-" + body) == Some(-v)
  {
    var s := "-" + body;
    assert s[|s| - 1] == body[|body| - 1];
    StripUntrimmed(s);
    assert s[1..] == body;
  }

  /** Digits, a point and digits start and end with a digit. */
  lemma DecimalEnds(whole: string, frac: string)
    requires IsDigits(whole) && IsDigits(frac)
    ensures var s := whole + "." + frac; s != [] && IsDigit(s[0]) && IsDigit(s[|s| - 1])
  {
    var s := whole + "." + frac;
    assert s[0] == whole[0] && s[|s| - 1] == frac[|frac| - 1];
  }

  /** The unsigned text starts and ends with a digit and reads back, as an
      unsigned decimal, as the value. */
  lemma UnsignedTextReadsBack(a: nat)
    ensures var s := UnsignedText(a);
            s != [] && IsDigit(s[0]) && IsDigit(s[|s| - 1]) && UnsignedDecimal(s) == Some(a as real / 100.0)
  {
    var whole, frac := NatText(a / 100), FracDigits(a % 100);
    DecimalOfParts(whole, frac);
    HundredthsDigitsValue(a);
    DecimalEnds(whole, frac);
  }

  /** The text of a negative value reads back as the value. */
  lemma NegativeTextReadsBack(h: int)
    requires h < 0
    ensures var r := ParseFloat(HundredthsText(h)); r.Some? && r.value == h as real / 100.0
  {
    var a := Magnitude(h);
    UnsignedTextReadsBack(a);
    ParseFloatMinus(UnsignedText(a), a as real / 100.0);
    assert HundredthsText(h) == "-" + UnsignedText(a);
  }

  /** The text of a non-negative value reads back as the value. */
  lemma NonNegativeTextReadsBack(h: int)
    requires h >= 0
    ensures var r := ParseFloat(HundredthsText(h)); r.Some? && r.value == h as real / 100.0
  {
    var a := Magnitude(h);
    UnsignedTextReadsBack(a);
    assert HundredthsText(h) == UnsignedText(a);
    ParseFloatUnsigned(UnsignedText(a));
  }

  /** `float(str(x)) == x` for every two-decimal value the report prints. */
  lemma HundredthsTextRoundTrip(h: int)
    ensures var r := ParseFloat(HundredthsText(h)); r.Some? && r.value == h as real / 100.0
  {
    if h < 0 {
      NegativeTextReadsBack(h);
    } else {
      NonNegativeTextReadsBack(h);
    }
  }
}
