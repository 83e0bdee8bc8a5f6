/** How the parser reads the lines that the printer writes, one kind of line at a time. */
module EngineYamlLines {
  import opened Options
  import opened JsText
  import opened EngineYaml

  // ── numbers ──

  lemma DecimalIsValue(n: nat)
    ensures Decimal(n) != "" && OneLine(Decimal(n)) && Trimmed(Decimal(n))
  {
    var s := Decimal(n);
    assert IsDigit(s[0]) && IsDigit(s[|s| - 1]);
    forall i | 0 <= i < |s| ensures !IsLineEnd(s[i]) {
      assert IsDigit(s[i]);
    }
  }

  lemma ParseDecimal(n: nat)
    ensures ParseInt(Decimal(n)) == Some(n)
  {
    var s := Decimal(n);
    assert IsDigit(s[0]);
    assert SkipSpace(s, 0) == 0;
    assert TrimStart(s) == s;
    if |s| > 1 {
      assert IsDigit(s[1]);
    }
    assert DigitsEnd(s, 0) == |s|;
    assert s[..|s|] == s;
    DecimalValue(n);
  }

  lemma DecimalIsNumeric(n: nat)
    ensures IsNumeric(Decimal(n)) && NumberOf(Decimal(n)) == Num(n)
  {
    var s := Decimal(n);
    assert IsDigit(s[0]);
    assert DigitsEnd(s, 0) == |s|;
    assert s[|s|..] == "";
    DecimalValue(n);
  }

  // ── white space around a line ──

  predicate Blank(pad: string) {
    forall i :: 0 <= i < |pad| ==> pad[i] == ' '
  }

  /** A text that starts and ends with something other than white space. */
  predicate Solid(s: string) {
    |s| > 0 && Trimmed(s)
  }

  lemma SkipPad(pad: string, body: string)
    requires Blank(pad) && |body| > 0 && !IsSpace(body[0])
    ensures SkipSpace(pad + body, 0) == |pad|
    ensures TrimStart(pad + body) == body
  {
    var s := pad + body;
    var j := SkipSpace(s, 0);
    assert s[|pad|] == body[0];
    assert forall k :: 0 <= k < |pad| ==> s[k] == pad[k];
    assert s[|pad|..] == body;
  }

  lemma EndOfSolid(s: string)
    requires |s| > 0 && !IsSpace(s[|s| - 1])
    ensures TrimEnd(s) == s
  {
    assert TextEnd(s, |s|) == |s|;
  }

  lemma EndBeforeSpace(s: string)
    requires |s| > 0 && !IsSpace(s[|s| - 1])
    ensures TrimEnd(s + " ") == s
  {
    var t := s + " ";
    assert t[|s|] == ' ' && t[|s| - 1] == s[|s| - 1];
    assert TextEnd(t, |t|) == TextEnd(t, |s|) == |s|;
  }

  /** A line is an indentation, a solid body, and perhaps a trailing space. */
  lemma PaddedLine(pad: string, body: string, line: string)
    requires Blank(pad) && Solid(body) && (line == pad + body || line == pad + body + " ")
    ensures TrimEnd(line) == pad + body
    ensures TrimStart(pad + body) == body
    ensures Trim(pad + body) == body
    ensures Indent(line) == |pad|
    ensures |pad| > 0 ==> KvMatch(pad + body) == None
  {
    var t := pad + body;
    assert t[|t| - 1] == body[|body| - 1];
    EndOfSolid(t);
    EndBeforeSpace(t);
    SkipPad(pad, body);
    EndOfSolid(body);
    if line != t {
      SkipPad(pad, body + " ");
      assert line == pad + (body + " ");
    }
    if |pad| > 0 {
      assert t[0] == ' ';
      assert WordEnd(t, 0) == 0;
    }
  }

  // ── keys and values ──

  predicate IsKey(key: string) {
    |key| > 0 && forall i :: 0 <= i < |key| ==> IsWord(key[i])
  }

  predicate IsId(name: string) {
    |name| > 0 && forall i :: 0 <= i < |name| ==> IsName(name[i])
  }

  /** One line, with no white space at either end; it may be empty. */
  predicate IsText(v: string) {
    OneLine(v) && Trimmed(v)
  }

  function KeyText(key: string, v: string): string {
    if v == "" then key + ":" else key + ": " + v
  }

  lemma KeyEnds(key: string, rest: string)
    requires IsKey(key)
    ensures WordEnd(key + ":" + rest, 0) == |key|
  {
    var s := key + ":" + rest;
    assert s[|key|] == ':';
    var j := WordEnd(s, 0);
    assert forall k :: 0 <= k < |key| ==> s[k] == key[k];
  }

  lemma NameEnds(name: string, rest: string)
    requires IsId(name)
    ensures NameEnd(name + ":" + rest, 0) == |name|
  {
    var s := name + ":" + rest;
    assert s[|name|] == ':';
    var j := NameEnd(s, 0);
    assert forall k :: 0 <= k < |name| ==> s[k] == name[k];
  }

  lemma AfterKeyText(key: string, v: string)
    requires |key| > 0 && IsText(v)
    ensures AfterKey(KeyText(key, v), |key|) == Some(KeyValue(key, v))
  {
    var s := KeyText(key, v);
    assert s[|key|] == ':' && s[..|key|] == key;
    if v == "" {
      assert SkipSpace(s, |key| + 1) == |s|;
      assert s[|s|..] == v;
    } else {
      var n := |key| + 2;
      assert s[|key| + 1] == ' ' && s[n] == v[0] && s[n..] == v;
      assert SkipSpace(s, |key| + 1) == SkipSpace(s, n) == n;
    }
  }

  lemma KvOf(key: string, v: string)
    requires IsKey(key) && IsText(v)
    ensures KvMatch(KeyText(key, v)) == Some(KeyValue(key, v))
    ensures Trim(v) == v
  {
    var s := KeyText(key, v);
    if v == "" {
      assert s == key + ":" + "";
      KeyEnds(key, "");
    } else {
      assert s == key + ":" + (" " + v);
      KeyEnds(key, " " + v);
    }
    AfterKeyText(key, v);
    TrimKeepsTrimmed(v);
  }

  lemma NameOf(name: string, v: string)
    requires IsId(name) && IsText(v)
    ensures NameMatch(KeyText(name, v)) == Some(KeyValue(name, v))
    ensures Trim(v) == v
  {
    var s := KeyText(name, v);
    if v == "" {
      assert s == name + ":" + "";
      NameEnds(name, "");
    } else {
      assert s == name + ":" + (" " + v);
      NameEnds(name, " " + v);
    }
    AfterKeyText(name, v);
    TrimKeepsTrimmed(v);
  }

  lemma KeyTextSolid(key: string, v: string)
    requires |key| > 0 && !IsSpace(key[0]) && IsText(v)
    ensures Solid(KeyText(key, v))
  {
    var s := KeyText(key, v);
    assert s[0] == key[0];
    if v != "" {
      assert s[|s| - 1] == v[|v| - 1];
    }
  }

  lemma KeyStart(key: string)
    requires IsKey(key)
    ensures IsId(key) && !IsSpace(key[0])
  {
    forall i | 0 <= i < |key| ensures IsName(key[i]) {
      assert IsWord(key[i]);
    }
  }

  // ── quoted values ──

  lemma QuotedText(x: string)
    requires OneLine(x)
    ensures IsText("'" + x + "'") && StripQuotes("'" + x + "'") == x && "'" + x + "'" != ""
  {
    var q := "'" + x + "'";
    assert q[0] == '\'' && q[|q| - 1] == '\'' && q[1..|q| - 1] == x;
    forall i | 0 <= i < |q| ensures !IsLineEnd(q[i]) {
      if 0 < i < |q| - 1 {
        assert q[i] == x[i - 1];
      }
    }
  }

  // ── lines by shape: an indentation and a key with a value ──

  /** `text` is the key and the value as printed, with the space after the colon even before nothing. */
  lemma KeyLine(pad: string, key: string, v: string, line: string)
    requires Blank(pad) && IsKey(key) && IsText(v)
    requires line == pad + key + ": " + v || (v == "" && line == pad + key + ":")
    ensures TrimEnd(line) == pad + KeyText(key, v)
    ensures TrimStart(pad + KeyText(key, v)) == KeyText(key, v)
    ensures Trim(pad + KeyText(key, v)) == KeyText(key, v)
    ensures Indent(line) == |pad|
    ensures |pad| > 0 ==> KvMatch(pad + KeyText(key, v)) == None
    ensures KvMatch(KeyText(key, v)) == Some(KeyValue(key, v)) && Trim(v) == v
  {
    KeyStart(key);
    KeyTextSolid(key, v);
    var body := KeyText(key, v);
    if v == "" {
      assert pad + key + ": " + v == pad + body + " ";
      assert pad + key + ":" == pad + body;
    } else {
      assert pad + key + ": " + v == pad + body;
    }
    PaddedLine(pad, body, line);
    KvOf(key, v);
  }

  /** The same for the ids and names of indicators, whose keys may hold more than word characters. */
  lemma NameLine(pad: string, name: string, v: string, line: string)
    requires Blank(pad) && IsId(name) && IsText(v)
    requires line == pad + name + ": " + v || (v == "" && line == pad + name + ":")
    ensures TrimEnd(line) == pad + KeyText(name, v)
    ensures Trim(pad + KeyText(name, v)) == KeyText(name, v)
    ensures Indent(line) == |pad|
    ensures |pad| > 0 ==> KvMatch(pad + KeyText(name, v)) == None
    ensures NameMatch(KeyText(name, v)) == Some(KeyValue(name, v)) && Trim(v) == v
  {
    assert IsName(name[0]);
    KeyTextSolid(name, v);
    var body := KeyText(name, v);
    if v == "" {
      assert pad + name + ": " + v == pad + body + " ";
      assert pad + name + ":" == pad + body;
    } else {
      assert pad + name + ": " + v == pad + body;
    }
    PaddedLine(pad, body, line);
    NameOf(name, v);
  }

  /** An item: an indentation, a dash, and a key with a value. */
  lemma ItemLine(pad: string, key: string, v: string, line: string)
    requires Blank(pad) && |pad| > 0 && IsKey(key) && IsText(v)
    requires line == pad + "- " + key + ": " + v || (v == "" && line == pad + "- " + key + ":")
    ensures TrimEnd(line) == pad + ("- " + KeyText(key, v))
    ensures TrimStart(TrimEnd(line)) == "- " + KeyText(key, v)
    ensures Trim(TrimEnd(line)) == "- " + KeyText(key, v)
    ensures Indent(line) == |pad|
    ensures KvMatch(TrimEnd(line)) == None
    ensures DropDash("- " + KeyText(key, v)) == KeyText(key, v)
    ensures KvMatch(KeyText(key, v)) == Some(KeyValue(key, v)) && Trim(v) == v
    ensures NameMatch("- " + KeyText(key, v)) == None
  {
    KeyStart(key);
    KeyTextSolid(key, v);
    var text := KeyText(key, v);
    var body := "- " + text;
    assert body[0] == '-' && body[|body| - 1] == text[|text| - 1];
    if v == "" {
      assert pad + "- " + key + ": " + v == pad + body + " ";
      assert pad + "- " + key + ":" == pad + body;
    } else {
      assert pad + "- " + key + ": " + v == pad + body;
    }
    PaddedLine(pad, body, line);
    Undashed(text);
    KvOf(key, v);
  }

  lemma Undashed(text: string)
    requires |text| > 0 && !IsSpace(text[0])
    ensures DropDash("- " + text) == text
    ensures NameMatch("- " + text) == None
    ensures KvMatch("- " + text) == None
  {
    var body := "- " + text;
    assert body[1] == ' ' && body[2] == text[0] && body[2..] == text;
    assert SkipSpace(body, 1) == SkipSpace(body, 2) == 2;
    assert NameEnd(body, 0) == NameEnd(body, 1) == 1;
    assert WordEnd(body, 0) == 0;
  }

  lemma QuoteIsNoKey(q: string)
    requires |q| > 0 && !IsWord(q[0])
    ensures KvMatch(q) == None
  {
    assert WordEnd(q, 0) == 0;
  }

  lemma QuotedBody(x: string)
    requires OneLine(x)
    ensures var body := "- '" + x + "'"; var q := "'" + x + "'";
      Solid(body) && body == "- " + q && q[0] == '\'' && body[0] == '-' && StartsWith(body, "- ")
  {
    var body := "- '" + x + "'";
    var q := "'" + x + "'";
    assert body == "- " + q;
    assert body[..2] == "- ";
    assert body[|body| - 1] == '\'';
  }

  /** An item that is a quoted text. */
  lemma QuotedItemLine(pad: string, x: string)
    requires Blank(pad) && |pad| > 0 && OneLine(x)
    ensures var line := pad + ("- '" + x + "'"); var body := "- '" + x + "'";
      && Trim(TrimEnd(line)) == body && Indent(line) == |pad| && KvMatch(TrimEnd(line)) == None
      && StartsWith(body, "- ") && DropDash(body) == "'" + x + "'" && KvMatch("'" + x + "'") == None
      && StripQuotes("'" + x + "'") == x && KvMatch(body) == None
  {
    hide TrimEnd, TrimStart, Trim, Indent, KvMatch, StartsWith, DropDash, StripQuotes, Solid, OneLine;
    QuotedText(x);
    QuotedBody(x);
    var q, body := "'" + x + "'", "- '" + x + "'";
    PaddedLine(pad, body, pad + body);
    QuoteIsNoKey(q);
    QuoteIsNoKey(body);
    Undashed(q);
  }
}
