/** How the engine parser reads numbers, pairs and step lines in any text, said without its scanners. */
module EngineYamlValues {
  import opened Options
  import opened JsText
  import E = EngineYaml

  // ── which texts are numbers ──

  ghost predicate Digits(s: string) {
    s != "" && forall c :: c in s ==> '0' <= c <= '9'
  }

  ghost predicate Sign(s: string) {
    s == "" || s == "+" || s == "-"
  }

  /** Nothing, or an e, a sign and digits. */
  ghost predicate Exponent(e: string) {
    e == "" || exists mark, sign, d :: ExponentParts(e, mark, sign, d)
  }

  ghost predicate ExponentParts(e: string, mark: char, sign: string, d: string) {
    (mark == 'e' || mark == 'E') && Sign(sign) && Digits(d) && e == [mark] + sign + d
  }

  /** Digits, or digits on at least one side of a point; then an exponent. */
  ghost predicate DecimalParts(s: string, a: string, point: string, b: string, e: string) {
    && s == a + point + b + e && Exponent(e)
    && (a == "" || Digits(a)) && (b == "" || Digits(b))
    && (if point == "." then a != "" || b != "" else point == "" && a != "" && b == "")
  }

  ghost predicate Unsigned(s: string) {
    s == "Infinity" || exists a, point, b, e :: DecimalParts(s, a, point, b, e)
  }

  ghost predicate Signed(v: string, sign: string, u: string) {
    Sign(sign) && Unsigned(u) && v == sign + u
  }

  /** A hexadecimal, octal or binary literal. */
  ghost predicate Radix(v: string) {
    && |v| > 2 && v[0] == '0'
    && ((v[1] in "xX" && forall k :: 2 <= k < |v| ==> HexChar(v[k]))
        || (v[1] in "oO" && forall k :: 2 <= k < |v| ==> '0' <= v[k] <= '7')
        || (v[1] in "bB" && forall k :: 2 <= k < |v| ==> v[k] == '0' || v[k] == '1'))
  }

  predicate HexChar(c: char) {
    '0' <= c <= '9' || 'a' <= c <= 'f' || 'A' <= c <= 'F'
  }

  lemma DigitsRun(s: string, i: nat)
    requires i <= |s|
    ensures var j := DigitsEnd(s, i); j > i ==> Digits(s[i..j])
  {
    var j := DigitsEnd(s, i);
    forall c | c in s[i..j] ensures '0' <= c <= '9' {
      var k :| 0 <= k < j - i && s[i..j][k] == c;
      assert IsDigit(s[i + k]);
    }
  }

  /** The digits at the front of a text, when none follows them. */
  lemma {:induction false} DigitsStop(a: string, rest: string)
    requires (forall c :: c in a ==> '0' <= c <= '9') && (rest != "" ==> !IsDigit(rest[0]))
    ensures DigitsEnd(a + rest, 0) == |a|
  {
    var s := a + rest;
    var j := DigitsEnd(s, 0);
    assert forall k :: 0 <= k < |a| ==> s[k] == a[k] && a[k] in a;
    assert rest != "" ==> s[|a|] == rest[0];
    assert !(j < |a|) && !(j > |a|);
  }

  lemma AllDigitsIff(s: string)
    ensures AllDigits(s) <==> Digits(s)
  {
    assert forall i :: 0 <= i < |s| ==> s[i] in s;
  }

  lemma ExponentIff(e: string)
    ensures E.IsExponent(e) <==> Exponent(e)
  {
    if e != "" && E.IsExponent(e) {
      var signed := e[1] == '+' || e[1] == '-';
      var sign, d := if signed then [e[1]] else "", if signed then e[2..] else e[1..];
      AllDigitsIff(d);
      assert e == [e[0]] + sign + d;
      assert ExponentParts(e, e[0], sign, d);
    }
    if mark, sign, d :| ExponentParts(e, mark, sign, d) {
      AllDigitsIff(d);
      assert d[0] in d;
      if sign == "" {
        assert e[1..] == d;
      } else {
        assert e[2..] == d;
      }
    }
  }

  lemma ExponentStarts(e: string)
    requires Exponent(e) && e != ""
    ensures e[0] == 'e' || e[0] == 'E'
  {
  }

  lemma PointHasParts(s: string, i: nat, j: nat)
    requires i < |s| && s[i] == '.' && i + 1 <= j <= |s| && (i > 0 || j > i + 1) && E.IsExponent(s[j..])
    requires (i > 0 ==> Digits(s[..i])) && (j > i + 1 ==> Digits(s[i + 1..j]))
    ensures Unsigned(s)
  {
    hide E.IsExponent, Exponent, Digits;
    ExponentIff(s[j..]);
    assert s == s[..i] + "." + s[i + 1..j] + s[j..];
    assert DecimalParts(s, s[..i], ".", s[i + 1..j], s[j..]);
  }

  lemma PlainHasParts(s: string, i: nat)
    requires 0 < i <= |s| && E.IsExponent(s[i..]) && Digits(s[..i])
    ensures Unsigned(s)
  {
    hide E.IsExponent, Exponent, Digits;
    ExponentIff(s[i..]);
    assert s == s[..i] + "" + "" + s[i..];
    assert DecimalParts(s, s[..i], "", "", s[i..]);
  }

  lemma DecimalHasParts(s: string)
    requires E.IsDecimal(s)
    ensures Unsigned(s)
  {
    hide E.IsExponent, Digits, DigitsEnd, DecimalParts;
    if s != "Infinity" {
      var i := DigitsEnd(s, 0);
      DigitsRun(s, 0);
      assert s[0..i] == s[..i];
      if i < |s| && s[i] == '.' {
        DigitsRun(s, i + 1);
        PointHasParts(s, i, DigitsEnd(s, i + 1));
      } else {
        PlainHasParts(s, i);
      }
    }
  }

  lemma PointIsDecimal(a: string, b: string, e: string)
    requires Exponent(e) && (a == "" || Digits(a)) && (b == "" || Digits(b)) && (a != "" || b != "")
    ensures E.IsDecimal(a + "." + b + e)
  {
    hide E.IsExponent, Exponent, Digits, DigitsEnd;
    var s := a + "." + b + e;
    ExponentIff(e);
    ExponentIsNoDigit(e);
    NoneOrDigits(a);
    var tail := "." + b + e;
    DigitsStop(a, tail);
    assert s == a + tail && s[|a|] == '.' && s[|a| + 1..] == b + e;
    DigitsAfter(s, |a| + 1, b, e);
    assert s[|a| + 1 + |b|..] == e;
  }

  lemma PlainIsDecimal(a: string, e: string)
    requires Exponent(e) && Digits(a)
    ensures E.IsDecimal(a + e)
  {
    hide E.IsExponent, Exponent, DigitsEnd;
    var s := a + e;
    ExponentIff(e);
    ExponentIsNoDigit(e);
    DigitsStop(a, e);
    assert s[|a|..] == e && (e != "" ==> s[|a|] == e[0]);
  }

  lemma ExponentIsNoDigit(e: string)
    requires Exponent(e)
    ensures e != "" ==> !IsDigit(e[0]) && e[0] != '.'
  {
    if e != "" {
      ExponentStarts(e);
    }
  }

  lemma PartsAreDecimal(s: string, a: string, point: string, b: string, e: string)
    requires DecimalParts(s, a, point, b, e)
    ensures E.IsDecimal(s)
  {
    hide E.IsDecimal, Exponent;
    if point == "." {
      PointIsDecimal(a, b, e);
    } else {
      assert a + "" + "" + e == a + e;
      PlainIsDecimal(a, e);
    }
  }

  lemma NoneOrDigits(a: string)
    requires a == "" || Digits(a)
    ensures forall c :: c in a ==> '0' <= c <= '9'
  {
  }

  lemma DigitsAfter(s: string, i: nat, b: string, e: string)
    requires i <= |s| && s[i..] == b + e && (b == "" || Digits(b)) && (e != "" ==> !IsDigit(e[0]))
    ensures DigitsEnd(s, i) == i + |b|
  {
    var j := DigitsEnd(s, i);
    assert forall k :: 0 <= k < |b| ==> s[i + k] == s[i..][k] == b[k] && b[k] in b;
    assert e != "" ==> s[i + |b|] == s[i..][|b|] == e[0];
    assert !(j < i + |b|) && !(j > i + |b|);
  }

  lemma InfinityIsDecimal()
    ensures E.IsDecimal("Infinity")
  {
  }

  lemma UnsignedIff(s: string)
    ensures E.IsDecimal(s) <==> Unsigned(s)
    ensures Unsigned(s) ==> s != "" && s[0] != '+' && s[0] != '-'
  {
    hide E.IsDecimal, Exponent;
    if E.IsDecimal(s) {
      DecimalHasParts(s);
    }
    InfinityIsDecimal();
    if a, point, b, e :| DecimalParts(s, a, point, b, e) {
      PartsAreDecimal(s, a, point, b, e);
      if a != "" {
        assert a[0] in a && s[0] == a[0];
      } else {
        assert s[0] == '.';
      }
    }
  }

  /** `Number` reads a trimmed text exactly when it is empty, a radix literal, or a signed decimal. */
  lemma NumericIff(v: string)
    ensures E.IsNumeric(v) <==> v == "" || Radix(v) || exists sign, u :: Signed(v, sign, u)
  {
    hide E.IsDecimal, Unsigned;
    assert E.IsRadix(v) <==> Radix(v);
    if v != "" {
      var signed := v[0] == '+' || v[0] == '-';
      var sign, u := if signed then [v[0]] else "", if signed then v[1..] else v;
      UnsignedIff(u);
      assert v == sign + u;
      if E.IsDecimal(u) {
        assert Signed(v, sign, u);
      }
    }
    if sign, u :| Signed(v, sign, u) {
      UnsignedIff(u);
      assert sign != "" ==> v[1..] == u;
      assert sign == "" ==> v == u;
    }
  }

  // ── parseInt ──

  /** White space, a sign, decimal digits, and then anything that is no digit. */
  ghost predicate DecimalText(text: string, lead: nat, sign: string, d: string, rest: string) {
    && lead <= |text| && (forall k :: 0 <= k < lead ==> IsSpace(text[k]))
    && Sign(sign) && Digits(d) && text[lead..] == sign + d + rest
    && (rest != "" ==> !IsDigit(rest[0]) && !(d == "0" && (rest[0] == 'x' || rest[0] == 'X')))
  }

  lemma ParsesDigits(text: string, s: string, u: string, d: string)
    requires TrimStart(text) == s && s != "" && u == if s[0] == '-' || s[0] == '+' then s[1..] else s
    requires !(|u| >= 2 && u[0] == '0' && (u[1] == 'x' || u[1] == 'X'))
    requires DigitsEnd(u, 0) == |d| > 0 && u[..|d|] == d && forall i :: 0 <= i < |d| ==> IsDigit(d[i])
    ensures var n: int := DigitsValue(d); E.ParseInt(text) == Some(if s[0] == '-' then -n else n)
  {
    hide DigitsValue, DigitsEnd, SkipSpace, TrimStart;
  }

  lemma ReadsDecimal(text: string, lead: nat, sign: string, d: string, rest: string)
    requires DecimalText(text, lead, sign, d, rest)
    ensures (forall i :: 0 <= i < |d| ==> IsDigit(d[i]))
    ensures var n: int := DigitsValue(d); E.ParseInt(text) == Some(if sign == "-" then -n else n)
  {
    hide DigitsValue, DigitsEnd, TrimStart, Digits, Sign, IsSpace, IsDigit, E.ParseInt;
    SignedFirst(sign, d, rest);
    SignCut(sign, d, rest);
    LeadIsTrimmed(text, lead, sign + d + rest);
    FrontDigits(d, rest);
    NotHex(d, rest);
    ParsesDigits(text, sign + d + rest, d + rest, d);
  }

  lemma SignCut(sign: string, d: string, rest: string)
    requires Sign(sign)
    ensures var s, u := sign + d + rest, d + rest; if sign == "" then s == u else s != "" && s[1..] == u
  {
    assert sign + d + rest == sign + (d + rest);
  }

  lemma FrontDigits(d: string, rest: string)
    requires Digits(d) && (rest != "" ==> !IsDigit(rest[0]))
    ensures var u := d + rest; DigitsEnd(u, 0) == |d| && u[..|d|] == d
  {
    NoneOrDigits(d);
    DigitsStop(d, rest);
  }

  lemma LeadIsTrimmed(text: string, lead: nat, s: string)
    requires lead <= |text| && (forall k :: 0 <= k < lead ==> IsSpace(text[k])) && text[lead..] == s && s != "" && !IsSpace(s[0])
    ensures TrimStart(text) == s
  {
    assert text[lead] == s[0];
    SpaceThen(text, 0, lead);
  }

  lemma SignedFirst(sign: string, d: string, rest: string)
    requires Sign(sign) && Digits(d)
    ensures var s := sign + d + rest; s != "" && !IsSpace(s[0]) && (s[0] == '-' <==> sign == "-") && (s[0] == '+' <==> sign == "+")
                                              && (sign == "" || sign == "+" || sign == "-")
    ensures d != "" && forall i :: 0 <= i < |d| ==> IsDigit(d[i])
  {
    assert d[0] in d && forall i :: 0 <= i < |d| ==> d[i] in d;
  }

  lemma NotHex(d: string, rest: string)
    requires Digits(d) && (rest != "" ==> !IsDigit(rest[0]) && !(d == "0" && (rest[0] == 'x' || rest[0] == 'X')))
    ensures var u := d + rest; !(|u| >= 2 && u[0] == '0' && (u[1] == 'x' || u[1] == 'X'))
  {
    var u := d + rest;
    assert forall i :: 0 <= i < |d| ==> d[i] in d;
    if |u| >= 2 && u[0] == '0' {
      assert |d| > 1 ==> u[1] == d[1];
      assert |d| == 1 ==> d == "0" && u[1] == rest[0];
    }
  }

  lemma {:induction false} SpaceThen(s: string, i: nat, e: nat)
    requires i <= e < |s| && (forall k :: i <= k < e ==> IsSpace(s[k])) && !IsSpace(s[e])
    ensures SkipSpace(s, i) == e
    decreases e - i
  {
    if i < e {
      SpaceThen(s, i + 1, e);
    }
  }

  /** A wait of a number of milliseconds is kept; zero stands for five seconds. */
  lemma WaitReads(text: string, lead: nat, sign: string, d: string, rest: string)
    requires DecimalText(text, lead, sign, d, rest)
    ensures forall i :: 0 <= i < |d| ==> IsDigit(d[i])
    ensures var n: int := DigitsValue(d);
      E.WaitMs(text) == if n == 0 then 5000 else if sign == "-" then -n else n
  {
    hide E.ParseInt, DigitsValue;
    ReadsDecimal(text, lead, sign, d, rest);
  }

  /** A text without a digit behind its sign is no number: the wait is five seconds. */
  lemma WaitDefaults(text: string, lead: nat, sign: string, rest: string)
    requires lead <= |text| && (forall k :: 0 <= k < lead ==> IsSpace(text[k])) && Sign(sign) && text[lead..] == sign + rest
    requires rest == "" || !(IsDigit(rest[0]) || IsSpace(rest[0]) || rest[0] == '+' || rest[0] == '-')
    ensures E.ParseInt(text) == None && E.WaitMs(text) == 5000
  {
    var s := text[lead..];
    if s == "" {
      AllSpace(text, 0);
      assert TrimStart(text) == "";
    } else {
      assert text[lead] == s[0];
      SpaceThen(text, 0, lead);
      assert sign != "" ==> s[1..] == rest;
      assert sign == "" ==> s == rest;
      assert DigitsEnd(rest, 0) == 0;
    }
  }

  lemma {:induction false} AllSpace(s: string, i: nat)
    requires i <= |s| && forall k :: i <= k < |s| ==> IsSpace(s[k])
    ensures SkipSpace(s, i) == |s|
    decreases |s| - i
  {
    if i < |s| {
      AllSpace(s, i + 1);
    }
  }

  // ── pairs and step lines ──

  /** A word, a colon, white space, and a value without line ends. */
  ghost predicate Pair(s: string, key: string, value: string) {
    exists gap :: PairParts(s, key, gap, value)
  }

  ghost predicate PairParts(s: string, key: string, gap: string, value: string) {
    && s == key + ":" + gap + value
    && key != "" && (forall i :: 0 <= i < |key| ==> IsWord(key[i]))
    && (forall i :: 0 <= i < |gap| ==> IsSpace(gap[i]))
    && (value != "" ==> !IsSpace(value[0])) && forall i :: 0 <= i < |value| ==> !IsLineEnd(value[i])
  }

  lemma {:induction false} WordTo(s: string, i: nat, e: nat)
    requires i <= e < |s| && (forall k :: i <= k < e ==> IsWord(s[k])) && !IsWord(s[e])
    ensures E.WordEnd(s, i) == e
    decreases e - i
  {
    if i < e {
      WordTo(s, i + 1, e);
    }
  }

  lemma {:induction false} SpacesTo(s: string, i: nat, e: nat)
    requires i <= e <= |s| && (forall k :: i <= k < e ==> IsSpace(s[k])) && (e < |s| ==> !IsSpace(s[e]))
    ensures SkipSpace(s, i) == e
    decreases e - i
  {
    if i < e {
      SpacesTo(s, i + 1, e);
    }
  }

  lemma PairIsRead(s: string, key: string, gap: string, value: string)
    requires PairParts(s, key, gap, value)
    ensures E.KvMatch(s) == Some(E.KeyValue(key, value))
  {
    var n := |key|;
    var e := n + 1 + |gap|;
    assert forall k :: 0 <= k < n ==> s[k] == key[k];
    assert s[n] == ':';
    assert forall k :: n + 1 <= k < e ==> s[k] == gap[k - n - 1];
    assert value != "" ==> s[e] == value[0];
    WordTo(s, 0, n);
    SpacesTo(s, n + 1, e);
    assert s[..n] == key && s[e..] == value;
  }

  /** Exactly these lines are pairs. */
  lemma PairIff(s: string, key: string, value: string)
    ensures E.KvMatch(s) == Some(E.KeyValue(key, value)) <==> Pair(s, key, value)
  {
    if gap :| PairParts(s, key, gap, value) {
      PairIsRead(s, key, gap, value);
    }
    if E.KvMatch(s) == Some(E.KeyValue(key, value)) {
      var j := E.WordEnd(s, 0);
      var e := SkipSpace(s, j + 1);
      assert s == s[..j] + ":" + s[j + 1..e] + s[e..];
      assert PairParts(s, key, s[j + 1..e], value);
    }
  }

  /** What a step line adds to a pipeline: one step for a known key, nothing for any other line. */
  lemma StepLineReads(step: string, key: string, value: string)
    ensures Pair(step, key, value) ==>
      var v := Trim(value);
      E.StepItem(step) == match key {
        case "shell" => [E.Obj(map["type" := E.Str("shell"), "command" := E.Str(v)])]
        case "wait" => [E.Obj(map["type" := E.Str("wait"), "ms" := E.Num(E.WaitMs(v))])]
        case "keystroke" => [E.Obj(map["type" := E.Str("keystroke"), "key" := E.Str(v)])]
        case "capture" => [E.Obj(map["type" := E.Str("capture"), "lines" := E.Num(0), "regex" := E.Str(""), "var" := E.Str("")])]
        case _ => []
      }
    ensures Pair(step, key, value) ==>
      var v := Trim(value);
      E.ActionStepItem(step) == match key {
        case "keystroke" => [E.Obj(map["type" := E.Str("keystroke"), "keystroke" := E.Str(v)])]
        case "shell" => [E.Obj(map["type" := E.Str("shell"), "command" := E.Str(v)])]
        case _ => []
      }
    ensures (forall k, v :: !Pair(step, k, v)) ==> E.StepItem(step) == [] && E.ActionStepItem(step) == []
  {
    hide Pair, Trim, E.WaitMs, E.KvMatch;
    PairIff(step, key, value);
    if E.KvMatch(step).Some? {
      var kv := E.KvMatch(step).value;
      PairIff(step, kv.key, kv.value);
    }
  }
}
