// Python's `str.splitlines(keepends=True)`: every line boundary it knows, with `\r\n` as one.

module TextLines {

  predicate IsBreak(c: char) {
    c in {'\n', '\r', '\U{0B}', '\U{0C}', '\U{1C}', '\U{1D}', '\U{1E}', '\U{85}', '\U{2028}', '\U{2029}'}
  }

  /** Length of the first line, its break included. */
  function FirstLine(text: string): (n: nat)
    requires text != ""
    ensures 0 < n <= |text|
  {
    if text[0] == '\r' && |text| > 1 && text[1] == '\n' then 2
    else if IsBreak(text[0]) || |text| == 1 then 1
    else 1 + FirstLine(text[1..])
  }

  function SplitLines(text: string): seq<string> {
    if text == "" then [] else [text[..FirstLine(text)]] + SplitLines(text[FirstLine(text)..])
  }

  function Join(lines: seq<string>): string {
    if lines == [] then "" else lines[0] + Join(lines[1..])
  }

  // ---------------------------------------------------------------- where a text may be cut

  predicate IsLine(line: string) {
    line != "" && FirstLine(line) == |line|
  }

  /** A line can be followed by `rest` without the cut between them moving. */
  predicate EndsBefore(line: string, rest: string)
    requires line != ""
  {
    var last := line[|line| - 1];
    rest == "" || (IsBreak(last) && !(last == '\r' && rest[0] == '\n'))
  }

  /** `lines` are the lines of a text: one break each, at the end, missing at most from the last. */
  predicate AreLines(lines: seq<string>) {
    lines == [] || (IsLine(lines[0]) && EndsBefore(lines[0], Join(lines[1..])) && AreLines(lines[1..]))
  }

  lemma CutOneFurther(text: string, n: nat)
    requires 1 < n <= |text|
    ensures text[1..][..n - 1] == text[..n][1..] && text[1..][n - 1..] == text[n..]
    ensures text[..n][n - 1] == text[1..][..n - 1][n - 2]
  {
  }

  lemma {:induction false} FirstLineIsLine(text: string)
    requires text != ""
    ensures IsLine(text[..FirstLine(text)])
    ensures EndsBefore(text[..FirstLine(text)], text[FirstLine(text)..])
  {
    var n := FirstLine(text);
    if !(text[0] == '\r' && |text| > 1 && text[1] == '\n') && !IsBreak(text[0]) && |text| > 1 {
      FirstLineIsLine(text[1..]);
      CutOneFurther(text, n);
    }
  }

  lemma {:induction false} FirstLineOfAppend(line: string, rest: string)
    requires IsLine(line) && EndsBefore(line, rest)
    ensures FirstLine(line + rest) == |line|
  {
    if |line| == 1 {
      assert (line + rest)[0] == line[0];
      assert rest != "" ==> (line + rest)[1] == rest[0];
    } else if !(line[0] == '\r' && line[1] == '\n') {
      FirstLineOfAppend(line[1..], rest);
      assert (line + rest)[1..] == line[1..] + rest;
    }
  }

  lemma ConsAreLines(head: string, tail: seq<string>)
    requires IsLine(head) && AreLines(tail) && EndsBefore(head, Join(tail))
    ensures AreLines([head] + tail) && Join([head] + tail) == head + Join(tail)
  {
    assert ([head] + tail)[1..] == tail;
  }

  /** Splitting loses nothing and yields lines. */
  lemma {:induction false} SplitLinesCutsExactly(text: string)
    ensures Join(SplitLines(text)) == text
    ensures AreLines(SplitLines(text))
  {
    if text != "" {
      var n := FirstLine(text);
      SplitLinesCutsExactly(text[n..]);
      FirstLineIsLine(text);
      ConsAreLines(text[..n], SplitLines(text[n..]));
      assert text[..n] + text[n..] == text;
    }
  }

  /** The lines of a text are the only ones it can be cut into. */
  lemma {:induction false} SplitLinesOfJoin(lines: seq<string>)
    requires AreLines(lines)
    ensures SplitLines(Join(lines)) == lines
  {
    if lines != [] {
      var rest := Join(lines[1..]);
      SplitLinesOfJoin(lines[1..]);
      FirstLineOfAppend(lines[0], rest);
      assert (lines[0] + rest)[..|lines[0]|] == lines[0];
      assert (lines[0] + rest)[|lines[0]|..] == rest;
    }
  }

  lemma {:induction false} JoinAppend(a: seq<string>, b: seq<string>)
    ensures Join(a + b) == Join(a) + Join(b)
  {
    if a == [] {
      assert a + b == b;
    } else {
      JoinAppend(a[1..], b);
      assert (a + b)[1..] == a[1..] + b;
    }
  }

  // ---------------------------------------------------------------- rewriting the front of lines

  predicate NoBreaks(s: string) {
    forall i | 0 <= i < |s| :: !IsBreak(s[i])
  }

  /** `b` is `a` with a break-free front of `k` characters replaced by another. */
  predicate FrontReplaced(a: string, b: string, k: nat) {
    && 0 < k < |a| && |a| == |b| && a[k..] == b[k..]
    && NoBreaks(a[..k]) && NoBreaks(b[..k])
  }

  lemma {:induction false} FirstLineSkipsFront(s: string, k: nat)
    requires k < |s| && NoBreaks(s[..k])
    ensures FirstLine(s) == k + FirstLine(s[k..])
  {
    if k == 0 {
      assert s[0..] == s;
    } else {
      assert !IsBreak(s[..k][0]);
      assert s[1..][..k - 1] == s[..k][1..];
      FirstLineSkipsFront(s[1..], k - 1);
      assert s[1..][k - 1..] == s[k..];
    }
  }

  lemma FrontReplacedIsLine(a: string, b: string, k: nat)
    requires FrontReplaced(a, b, k) && IsLine(a)
    ensures IsLine(b) && a[|a| - 1] == b[|b| - 1]
  {
    FirstLineSkipsFront(a, k);
    FirstLineSkipsFront(b, k);
    assert a[|a| - 1] == a[k..][|a| - 1 - k];
    assert b[|b| - 1] == b[k..][|b| - 1 - k];
  }

  predicate FrontsReplaced(a: seq<string>, b: seq<string>, k: nat) {
    |a| == |b| && forall i | 0 <= i < |a| :: a[i] == b[i] || FrontReplaced(a[i], b[i], k)
  }

  lemma {:induction false} JoinStart(lines: seq<string>)
    requires AreLines(lines)
    ensures Join(lines) == "" <==> lines == []
    ensures lines != [] ==> lines[0] != "" && Join(lines)[0] == lines[0][0]
  {
  }

  /** Rewriting break-free fronts moves no line boundary. */
  lemma {:induction false} FrontsReplacedAreLines(a: seq<string>, b: seq<string>, k: nat)
    requires AreLines(a) && FrontsReplaced(a, b, k)
    ensures AreLines(b)
    ensures SplitLines(Join(b)) == b
  {
    if a != [] {
      FrontsReplacedAreLines(a[1..], b[1..], k);
      if a[0] != b[0] {
        FrontReplacedIsLine(a[0], b[0], k);
      }
      JoinStart(a[1..]);
      JoinStart(b[1..]);
      if |a| > 1 && a[1] != b[1] {
        assert !IsBreak(b[1][..k][0]);
      }
    }
    SplitLinesOfJoin(b);
  }
}
