/** The parts of JavaScript's text functions that the scanners and printers use. */
module JsText {

  /** White space and line ends, as `\s` and `trim` see them. */
  predicate IsSpace(c: char) {
    || '\t' <= c <= '\r' || c == ' ' || c == '\U{00A0}' || c == '\U{1680}' || '\U{2000}' <= c <= '\U{200A}'
    || c == '\U{2028}' || c == '\U{2029}' || c == '\U{202F}' || c == '\U{205F}' || c == '\U{3000}' || c == '\U{FEFF}'
  }

  /** What `.` in a pattern does not match, and `^` and `$` never pass. */
  predicate IsLineEnd(c: char) {
    c == '\n' || c == '\r' || c == '\U{2028}' || c == '\U{2029}'
  }

  predicate IsDigit(c: char) {
    '0' <= c <= '9'
  }

  /** `\w` */
  predicate IsWord(c: char) {
    'a' <= c <= 'z' || 'A' <= c <= 'Z' || IsDigit(c) || c == '_'
  }

  /** The first place from `i` on that is not white space. */
  function SkipSpace(s: string, i: nat): (j: nat)
    requires i <= |s|
    ensures i <= j <= |s|
    ensures forall k :: i <= k < j ==> IsSpace(s[k])
    ensures j < |s| ==> !IsSpace(s[j])
    decreases |s| - i
  {
    if i < |s| && IsSpace(s[i]) then SkipSpace(s, i + 1) else i
  }

  /** Where the text before `j` ends once trailing white space is gone. */
  function TextEnd(s: string, j: nat): (e: nat)
    requires j <= |s|
    ensures e <= j
    ensures forall k :: e <= k < j ==> IsSpace(s[k])
    ensures e > 0 ==> !IsSpace(s[e - 1])
  {
    if j > 0 && IsSpace(s[j - 1]) then TextEnd(s, j - 1) else j
  }

  function TrimStart(s: string): string {
    s[SkipSpace(s, 0)..]
  }

  function TrimEnd(s: string): string {
    s[..TextEnd(s, |s|)]
  }

  function Trim(s: string): string {
    TrimEnd(TrimStart(s))
  }

  /** Neither end is white space. */
  predicate Trimmed(s: string) {
    |s| > 0 ==> !IsSpace(s[0]) && !IsSpace(s[|s| - 1])
  }

  lemma TrimIsTrimmed(s: string)
    ensures Trimmed(Trim(s)) && |Trim(s)| <= |s|
  {
  }

  /** A trimmed text is its own trim, and the only kind that is. */
  lemma TrimKeepsTrimmed(s: string)
    ensures Trimmed(s) <==> Trim(s) == s
  {
    if Trimmed(s) {
      assert SkipSpace(s, 0) == 0;
      assert TrimStart(s) == s;
    } else {
      TrimIsTrimmed(s);
    }
  }

  /** Trimming takes exactly the white space at both ends. */
  lemma TrimCuts(s: string) returns (i: nat, j: nat)
    ensures i <= j <= |s| && Trim(s) == s[i..j] && Trimmed(s[i..j])
    ensures forall k :: 0 <= k < i || j <= k < |s| ==> IsSpace(s[k])
  {
    i := SkipSpace(s, 0);
    j := i + TextEnd(s[i..], |s| - i);
    assert s[i..][..j - i] == s[i..j];
    assert forall k :: j <= k < |s| ==> s[k] == s[i..][k - i];
    TrimIsTrimmed(s);
  }

  // ── decimal numbers ──

  function Digit(d: nat): char
    requires d < 10
  {
    '0' + d as char
  }

  function Decimal(n: nat): (s: string)
    ensures |s| > 0 && forall i :: 0 <= i < |s| ==> IsDigit(s[i])
  {
    if n < 10 then [Digit(n)] else Decimal(n / 10) + [Digit(n % 10)]
  }

  /** The value of a run of digits. */
  function DigitsValue(s: string): nat
    requires forall i :: 0 <= i < |s| ==> IsDigit(s[i])
  {
    if |s| == 0 then 0
    else
      var c := s[|s| - 1];
      assert IsDigit(c);
      10 * DigitsValue(s[..|s| - 1]) + (c as int - '0' as int)
  }

  function DigitsEnd(s: string, i: nat): (j: nat)
    requires i <= |s|
    ensures i <= j <= |s|
    ensures forall k :: i <= k < j ==> IsDigit(s[k])
    ensures j < |s| ==> !IsDigit(s[j])
    decreases |s| - i
  {
    if i < |s| && IsDigit(s[i]) then DigitsEnd(s, i + 1) else i
  }

  lemma {:induction false} DecimalValue(n: nat)
    ensures DigitsValue(Decimal(n)) == n
  {
    if n < 10 {
      assert Decimal(n)[..0] == [];
    } else {
      DecimalValue(n / 10);
      var s := Decimal(n);
      assert s[..|s| - 1] == Decimal(n / 10);
    }
  }

  predicate OneLine(s: string) {
    forall i :: 0 <= i < |s| ==> !IsLineEnd(s[i])
  }

  predicate StartsWith(s: string, p: string) {
    |p| <= |s| && s[..|p|] == p
  }

  predicate AllDigits(s: string) {
    |s| > 0 && forall i :: 0 <= i < |s| ==> IsDigit(s[i])
  }

  // ── lines ──

  function Join(lines: seq<string>): string {
    if |lines| == 0 then ""
    else if |lines| == 1 then lines[0]
    else Join(lines[..|lines| - 1]) + "\n" + lines[|lines| - 1]
  }

  function SplitLines(text: string): (lines: seq<string>)
    ensures |lines| > 0
  {
    if |text| == 0 then [""]
    else
      var front := SplitLines(text[..|text| - 1]);
      var c := text[|text| - 1];
      if c == '\n' then front + [""] else front[|front| - 1 := front[|front| - 1] + [c]]
  }

  ghost predicate NoBreak(s: string) {
    forall i :: 0 <= i < |s| ==> s[i] != '\n'
  }

  ghost predicate NoBreaks(lines: seq<string>) {
    forall l :: l in lines ==> NoBreak(l)
  }

  lemma {:induction false} SplitAppends(a: string, b: string)
    requires NoBreak(b)
    ensures SplitLines(a + b) == SplitLines(a)[|SplitLines(a)| - 1 := SplitLines(a)[|SplitLines(a)| - 1] + b]
  {
    var front := SplitLines(a);
    var n := |front| - 1;
    if |b| == 0 {
      assert a + b == a && front[n] + b == front[n];
    } else {
      var rest, c := b[..|b| - 1], b[|b| - 1];
      SplitAppends(a, rest);
      assert (a + b)[..|a + b| - 1] == a + rest;
      assert front[n] + rest + [c] == front[n] + b;
    }
  }

  lemma SplitBreak(a: string)
    ensures SplitLines(a + "\n") == SplitLines(a) + [""]
  {
    var t := a + "\n";
    assert t[..|t| - 1] == a;
  }

  lemma SplitOne(s: string)
    requires NoBreak(s)
    ensures SplitLines(s) == [s]
  {
    SplitAppends("", s);
    assert "" + s == s;
    assert SplitLines("") == [""];
  }

  /** Splitting joined lines gives the lines back. */
  lemma {:induction false} SplitJoin(lines: seq<string>)
    requires |lines| > 0 && NoBreaks(lines)
    ensures SplitLines(Join(lines)) == lines
  {
    hide SplitLines, NoBreak;
    if |lines| == 1 {
      SplitOne(lines[0]);
    } else {
      var front, last := lines[..|lines| - 1], lines[|lines| - 1];
      SplitJoin(front);
      SplitBreak(Join(front));
      SplitAppends(Join(front) + "\n", last);
      assert "" + last == last;
      assert (front + [""])[|front| := last] == lines;
    }
  }

  /** Joining the lines of a text gives the text back, and no line holds a break. */
  lemma {:induction false} JoinSplit(text: string)
    ensures Join(SplitLines(text)) == text && NoBreaks(SplitLines(text))
  {
    if |text| > 0 {
      var rest, c := text[..|text| - 1], text[|text| - 1];
      JoinSplit(rest);
      var front := SplitLines(rest);
      if c == '\n' {
        JoinOneMore(front, "");
        assert Join(front) + "\n" + "" == Join(front) + "\n";
        assert text == rest + "\n";
      } else {
        JoinLonger(front, c);
        assert text == rest + [c];
        assert NoBreak(front[|front| - 1]);
      }
    }
  }

  lemma JoinOneMore(lines: seq<string>, last: string)
    requires |lines| > 0
    ensures Join(lines + [last]) == Join(lines) + "\n" + last
  {
    assert (lines + [last])[..|lines|] == lines;
  }

  lemma JoinLonger(lines: seq<string>, c: char)
    requires |lines| > 0
    ensures Join(lines[|lines| - 1 := lines[|lines| - 1] + [c]]) == Join(lines) + [c]
  {
    var n := |lines| - 1;
    var longer := lines[n := lines[n] + [c]];
    if n > 0 {
      assert longer[..n] == lines[..n];
      assert Join(lines[..n]) + "\n" + (lines[n] + [c]) == Join(lines[..n]) + "\n" + lines[n] + [c];
    }
  }
}
