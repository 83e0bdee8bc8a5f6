/** The command palette's greedy fuzzy match and the marks it puts into a name. */
module FuzzyMatch {

  /** Both texts are already in lower case. */
  datatype Result = Result(matched: bool, score: nat, ranges: seq<(nat, nat)>)

  // ── what a match is ──

  /** `p` are the places, from left to right, where the letters of `q` are found in `t`. */
  ghost predicate Embeds(q: string, t: string, p: seq<nat>) {
    && |p| == |q|
    && (forall i :: 0 <= i < |p| ==> p[i] < |t| && t[p[i]] == q[i])
    && (forall i, j :: 0 <= i < j < |p| ==> p[i] < p[j])
  }

  ghost predicate IsSubsequence(q: string, t: string) {
    exists p :: Embeds(q, t, p)
  }

  /** No embedding finds any of its letters earlier. */
  ghost predicate Leftmost(q: string, t: string, p: seq<nat>) {
    forall e :: Embeds(q, t, e) ==> NoLater(p, e)
  }

  ghost predicate NoLater(p: seq<nat>, e: seq<nat>) {
    |p| <= |e| && forall i :: 0 <= i < |p| ==> p[i] <= e[i]
  }

  // ── ranges ──

  /** In bounds, not empty, sorted, and never adjacent. */
  ghost predicate RangesGood(ranges: seq<(nat, nat)>, n: nat) {
    && (forall i :: 0 <= i < |ranges| ==> ranges[i].0 < ranges[i].1 <= n)
    && (forall i :: 0 < i < |ranges| ==> ranges[i - 1].1 < ranges[i].0)
  }

  function Span(a: nat, b: nat): seq<nat>
    requires a <= b
  {
    seq(b - a, i requires 0 <= i < b - a => a + i)
  }

  /** All the places that the ranges cover. */
  ghost function Places(ranges: seq<(nat, nat)>): seq<nat> {
    if |ranges| == 0 then []
    else Places(ranges[..|ranges| - 1]) + Covered(ranges[|ranges| - 1])
  }

  function Covered(r: (nat, nat)): seq<nat> {
    if r.0 <= r.1 then Span(r.0, r.1) else []
  }

  /** The text that the ranges cut out. */
  function Spelled(t: string, ranges: seq<(nat, nat)>): string
    requires forall r :: r in ranges ==> r.0 <= r.1 <= |t|
  {
    if |ranges| == 0 then ""
    else Spelled(t, ranges[..|ranges| - 1]) + t[ranges[|ranges| - 1].0..ranges[|ranges| - 1].1]
  }

  /** Prefix of a match: the letters found so far, as far left as any embedding has them. */
  ghost predicate Greedy(q: string, t: string, qi: nat, ti: nat, p: seq<nat>)
    requires qi <= |q| && ti <= |t|
  {
    && Embeds(q[..qi], t[..ti], p)
    && forall e :: Embeds(q, t, e) ==> NoLater(p, e) && (qi < |q| ==> e[qi] >= ti)
  }

  lemma GreedyStart(q: string, t: string)
    ensures Greedy(q, t, 0, 0, [])
  {
  }

  lemma GreedyTakes(q: string, t: string, qi: nat, ti: nat, p: seq<nat>)
    requires qi < |q| && ti < |t| && Greedy(q, t, qi, ti, p) && t[ti] == q[qi]
    ensures Greedy(q, t, qi + 1, ti + 1, p + [ti])
  {
    var more := p + [ti];
    assert forall i :: 0 <= i < |p| ==> p[i] < ti && t[..ti][p[i]] == q[..qi][i];
    forall e | Embeds(q, t, e) ensures NoLater(more, e) && (qi + 1 < |q| ==> e[qi + 1] >= ti + 1) {
      assert e[qi] >= ti;
    }
  }

  lemma GreedySkips(q: string, t: string, qi: nat, ti: nat, p: seq<nat>)
    requires qi < |q| && ti < |t| && Greedy(q, t, qi, ti, p) && t[ti] != q[qi]
    ensures Greedy(q, t, qi, ti + 1, p)
  {
    assert forall i :: 0 <= i < |p| ==> p[i] < ti && t[..ti][p[i]] == q[..qi][i];
    forall e | Embeds(q, t, e) ensures e[qi] >= ti + 1 {
      assert e[qi] >= ti && t[e[qi]] == q[qi];
    }
  }

  lemma GreedyEnds(q: string, t: string, qi: nat, ti: nat, p: seq<nat>)
    requires qi <= |q| && ti <= |t| && Greedy(q, t, qi, ti, p) && (ti == |t| || qi == |q|)
    ensures qi == |q| <==> IsSubsequence(q, t)
    ensures qi == |q| ==> Embeds(q, t, p) && Leftmost(q, t, p)
  {
    if qi == |q| {
      assert q[..qi] == q;
      assert forall i :: 0 <= i < |p| ==> p[i] < ti && t[..ti][p[i]] == q[..qi][i];
      assert Embeds(q, t, p);
    } else {
      forall e ensures !Embeds(q, t, e) {
        if Embeds(q, t, e) {
          TooLate(q, t, e, qi);
        }
      }
    }
  }

  lemma TooLate(q: string, t: string, e: seq<nat>, qi: nat)
    requires qi < |q| && qi < |e| && e[qi] >= |t|
    ensures !Embeds(q, t, e)
  {
  }

  lemma SpanGrows(a: nat, b: nat)
    requires a <= b
    ensures Span(a, b + 1) == Span(a, b) + [b] && Span(b, b) == []
  {
  }

  lemma PlacesAppend(ranges: seq<(nat, nat)>, r: (nat, nat))
    requires r.0 <= r.1
    ensures Places(ranges + [r]) == Places(ranges) + Span(r.0, r.1)
  {
    assert (ranges + [r])[..|ranges|] == ranges;
  }

  /** Adding the next place: it lengthens the last range or starts a new one. */
  lemma AddPlace(ranges: seq<(nat, nat)>, ti: nat)
    requires RangesGood(ranges, ti)
    ensures var last := |ranges| - 1;
      if |ranges| > 0 && ranges[last].1 == ti then
        RangesGood(ranges[last := (ranges[last].0, ti + 1)], ti + 1)
        && Places(ranges[last := (ranges[last].0, ti + 1)]) == Places(ranges) + [ti]
      else RangesGood(ranges + [(ti, ti + 1)], ti + 1) && Places(ranges + [(ti, ti + 1)]) == Places(ranges) + [ti]
  {
    hide Span;
    var last := |ranges| - 1;
    if |ranges| > 0 && ranges[last].1 == ti {
      var rest, s := ranges[..last], ranges[last].0;
      assert ranges == rest + [(s, ti)] && ranges[last := (s, ti + 1)] == rest + [(s, ti + 1)];
      PlacesAppend(rest, (s, ti));
      PlacesAppend(rest, (s, ti + 1));
      SpanGrows(s, ti);
      assert Places(rest) + (Span(s, ti) + [ti]) == Places(rest) + Span(s, ti) + [ti];
    } else {
      PlacesAppend(ranges, (ti, ti + 1));
      SpanGrows(ti, ti);
    }
  }

  lemma RangesWiden(ranges: seq<(nat, nat)>, n: nat)
    requires RangesGood(ranges, n)
    ensures RangesGood(ranges, n + 1)
  {
  }

  function Picked(t: string, p: seq<nat>): string
    requires forall i :: 0 <= i < |p| ==> p[i] < |t|
  {
    seq(|p|, i requires 0 <= i < |p| => t[p[i]])
  }

  lemma {:induction false} SpelledIsPicked(t: string, ranges: seq<(nat, nat)>)
    requires forall r :: r in ranges ==> r.0 <= r.1 <= |t|
    ensures (forall i :: 0 <= i < |Places(ranges)| ==> Places(ranges)[i] < |t|)
    ensures Spelled(t, ranges) == Picked(t, Places(ranges))
  {
    if |ranges| > 0 {
      SpelledIsPicked(t, ranges[..|ranges| - 1]);
      var r := ranges[|ranges| - 1];
      assert r in ranges;
      assert t[r.0..r.1] == Picked(t, Span(r.0, r.1));
    }
  }

  lemma PickedIsQuery(q: string, t: string, p: seq<nat>)
    requires Embeds(q, t, p)
    ensures Picked(t, p) == q
  {
  }

  predicate WordStart(t: string, ti: nat)
    requires ti < |t|
  {
    ti == 0 || t[ti - 1] == '-' || t[ti - 1] == '_' || t[ti - 1] == ' '
  }

  /** The second letter of a run of letters found side by side. */
  predicate SecondOfRun(p: seq<nat>, i: nat)
    requires i < |p|
  {
    i > 0 && p[i] == p[i - 1] + 1 && (i > 1 ==> p[i - 1] != p[i - 2] + 1)
  }

  /** Two points at a word start, one for the second letter of a run. */
  function PointsAt(t: string, p: seq<nat>, i: nat): nat
    requires i < |p|
  {
    if p[i] < |t| && WordStart(t, p[i]) then 2 else if SecondOfRun(p, i) then 1 else 0
  }

  function Points(t: string, p: seq<nat>): (n: nat)
    ensures n <= 2 * |p|
  {
    if |p| == 0 then 0 else Points(t, p[..|p| - 1]) + PointsAt(t, p, |p| - 1)
  }

  lemma PointsGrow(t: string, p: seq<nat>, ti: nat)
    ensures Points(t, p + [ti]) == Points(t, p) + PointsAt(t, p + [ti], |p|)
  {
    assert (p + [ti])[..|p|] == p;
  }

  /** The letters found at a word start: at the front, or after a hyphen, an underscore or a blank. */
  function WordStarts(t: string, p: seq<nat>): set<nat> {
    set i | 0 <= i < |p| && p[i] < |t| && (p[i] == 0 || t[p[i] - 1] in "-_ ")
  }

  /** The other letters that stand directly behind the one before, and are the second of their run. */
  function RunSeconds(t: string, p: seq<nat>): set<nat> {
    set i | 1 <= i < |p| && p[i] == p[i - 1] + 1 && (i == 1 || p[i - 1] != p[i - 2] + 1) && i !in WordStarts(t, p)
  }

  lemma SetsGrow(t: string, front: seq<nat>, p: seq<nat>)
    requires |p| == |front| + 1 && p[..|front|] == front
    ensures var n := |front|;
      && WordStarts(t, p) == WordStarts(t, front) + (if n in WordStarts(t, p) then {n} else {})
      && RunSeconds(t, p) == RunSeconds(t, front) + (if n in RunSeconds(t, p) then {n} else {})
      && n !in WordStarts(t, front) && n !in RunSeconds(t, front)
      && PointsAt(t, p, n) == (if n in WordStarts(t, p) then 2 else if n in RunSeconds(t, p) then 1 else 0)
  {
    assert forall i :: 0 <= i < |front| ==> p[i] == front[i];
  }

  lemma StartIsNoSecond(t: string, p: seq<nat>, i: nat)
    ensures !(i in WordStarts(t, p) && i in RunSeconds(t, p))
  {
  }

  /** The score is two points for each letter at a word start and one for each other second letter of a run. */
  lemma {:induction false} PointsCount(t: string, p: seq<nat>)
    ensures Points(t, p) == 2 * |WordStarts(t, p)| + |RunSeconds(t, p)|
  {
    if |p| > 0 {
      hide WordStarts, RunSeconds, PointsAt;
      var n := |p| - 1;
      PointsCount(t, p[..n]);
      SetsGrow(t, p[..n], p);
      StartIsNoSecond(t, p, n);
    } else {
      assert WordStarts(t, p) == {} && RunSeconds(t, p) == {};
    }
  }

  /** The first loop: the letters found, and the score. */
  method Score(q: string, t: string) returns (qi: nat, score: nat, ghost p: seq<nat>)
    ensures qi <= |q| && (qi == |q| <==> IsSubsequence(q, t))
    ensures qi == |q| ==> Embeds(q, t, p) && Leftmost(q, t, p)
    ensures |p| == qi && score == Points(t, p)
  {
    hide Embeds, Greedy, IsSubsequence, Leftmost, Points, WordStart;
    qi, score, p := 0, 0, [];
    var ranges: seq<(nat, nat)> := [];
    var start := -1;
    var ti := 0;
    GreedyStart(q, t);
    assert Points(t, []) == 0 by { NoPoints(t); }
    while ti < |t| && qi < |q|
      invariant ti <= |t| && qi <= |q| && |p| == qi && score == Points(t, p)
      invariant Greedy(q, t, qi, ti, p)
      invariant |ranges| > 0 ==> ranges[|ranges| - 1].1 < ti
      invariant start == -1 ==> qi == 0 || p[qi - 1] + 1 < ti
      invariant start != -1 ==> 0 <= start < ti && qi > 0 && p[qi - 1] == ti - 1
      invariant start != -1 ==> (start == ti - 1 <==> qi == 1 || p[qi - 1] != p[qi - 2] + 1)
    {
      if t[ti] == q[qi] {
        GreedyTakes(q, t, qi, ti, p);
        PointsGrow(t, p, ti);
        p := p + [ti];
        if start == -1 {
          start := ti;
        }
        if WordStart(t, ti) {
          score := score + 2;
        } else if start == ti - 1 || (|ranges| > 0 && ranges[|ranges| - 1].1 == ti) {
          score := score + 1;
        }
        qi := qi + 1;
      } else {
        GreedySkips(q, t, qi, ti, p);
        if start != -1 {
          ranges := ranges + [(start, ti)];
          start := -1;
        }
      }
      ti := ti + 1;
    }
    GreedyEnds(q, t, qi, ti, p);
  }

  lemma NoPoints(t: string)
    ensures Points(t, []) == 0
  {
  }

  lemma NoRanges()
    ensures RangesGood([], 0) && Places([]) == []
  {
  }

  lemma RangesWidenTo(ranges: seq<(nat, nat)>, n: nat, m: nat)
    requires RangesGood(ranges, n) && n <= m
    ensures RangesGood(ranges, m)
  {
  }

  /** The second loop: the ranges, rebuilt. */
  method Ranges(q: string, t: string) returns (ranges: seq<(nat, nat)>)
    requires IsSubsequence(q, t)
    ensures RangesGood(ranges, |t|)
    ensures Embeds(q, t, Places(ranges)) && Leftmost(q, t, Places(ranges))
  {
    hide Embeds, Greedy, IsSubsequence, Leftmost, RangesGood, Places;
    NoRanges();
    ranges := [];
    var qi, ti := 0, 0;
    GreedyStart(q, t);
    while ti < |t| && qi < |q|
      invariant ti <= |t| && qi <= |q|
      invariant RangesGood(ranges, ti)
      invariant Greedy(q, t, qi, ti, Places(ranges))
    {
      if t[ti] == q[qi] {
        GreedyTakes(q, t, qi, ti, Places(ranges));
        AddPlace(ranges, ti);
        if |ranges| > 0 && ranges[|ranges| - 1].1 == ti {
          ranges := ranges[|ranges| - 1 := (ranges[|ranges| - 1].0, ti + 1)];
        } else {
          ranges := ranges + [(ti, ti + 1)];
        }
        qi := qi + 1;
      } else {
        GreedySkips(q, t, qi, ti, Places(ranges));
        RangesWiden(ranges, ti);
      }
      ti := ti + 1;
    }
    GreedyEnds(q, t, qi, ti, Places(ranges));
    RangesWidenTo(ranges, ti, |t|);
  }

  /**
   * A match is found exactly when the query is a subsequence; the ranges are in bounds, sorted and not
   * adjacent, spell the query, and lie at the leftmost embedding; the score is at most twice the
   * query's length.
   */
  method Match(q: string, t: string) returns (r: Result)
    ensures r.matched <==> IsSubsequence(q, t)
    ensures r.score <= 2 * |q|
    ensures !r.matched ==> r == Result(false, 0, [])
    ensures r.matched ==> RangesGood(r.ranges, |t|)
    ensures r.matched ==> Embeds(q, t, Places(r.ranges)) && Leftmost(q, t, Places(r.ranges))
    ensures r.matched ==> Spelled(t, r.ranges) == q
    ensures r.matched ==>
      var p := Places(r.ranges); r.score == 2 * |WordStarts(t, p)| + |RunSeconds(t, p)|
  {
    hide Greedy, Leftmost, WordStarts, RunSeconds;
    if q == "" {
      assert Embeds(q, t, []);
      NothingIsLeftmost(q, t);
      NoPoints(t);
      PointsCount(t, []);
      return Result(true, 0, []);
    }
    var qi, score;
    ghost var p;
    qi, score, p := Score(q, t);
    if qi < |q| {
      return Result(false, 0, []);
    }
    var ranges := Ranges(q, t);
    SpelledIsPicked(t, ranges);
    PickedIsQuery(q, t, Places(ranges));
    LeftmostIsUnique(q, t, p, Places(ranges));
    PointsCount(t, p);
    r := Result(true, score, ranges);
  }

  lemma NothingIsLeftmost(q: string, t: string)
    ensures Leftmost(q, t, [])
  {
  }

  /** The ranges of the leftmost embedding are the only good ranges at its places. */
  lemma LeftmostIsUnique(q: string, t: string, p: seq<nat>, o: seq<nat>)
    requires Embeds(q, t, p) && Leftmost(q, t, p) && Embeds(q, t, o) && Leftmost(q, t, o)
    ensures p == o
  {
    assert NoLater(p, o) && NoLater(o, p);
  }

  // ── highlighting ──

  /** What reading back `innerHTML` makes of a character of a text node. */
  function EscChar(c: char): string {
    if c == '&' then "&amp;"
    else if c == '<' then "&lt;"
    else if c == '>' then "&gt;"
    else if c == '\U{00A0}' then "&nbsp;"
    else [c]
  }

  function Esc(s: string): string {
    if |s| == 0 then "" else Esc(s[..|s| - 1]) + EscChar(s[|s| - 1])
  }

  const MARK := "<mark>"
  const UNMARK := "</mark>"

  /** Takes every mark out of an HTML text. */
  function Erase(html: string): string
    decreases |html|
  {
    if |html| == 0 then ""
    else if |MARK| <= |html| && html[..|MARK|] == MARK then Erase(html[|MARK|..])
    else if |UNMARK| <= |html| && html[..|UNMARK|] == UNMARK then Erase(html[|UNMARK|..])
    else [html[0]] + Erase(html[1..])
  }

  /** The text up to `last`, with the ranges marked. */
  function Marked(text: string, ranges: seq<(nat, nat)>): string
    requires RangesGood(ranges, |text|)
  {
    if |ranges| == 0 then ""
    else
      var rest, r := ranges[..|ranges| - 1], ranges[|ranges| - 1];
      Marked(text, rest) + Esc(text[End(rest)..r.0]) + MARK + Esc(text[r.0..r.1]) + UNMARK
  }

  function End(ranges: seq<(nat, nat)>): nat {
    if |ranges| == 0 then 0 else ranges[|ranges| - 1].1
  }

  function Highlight(text: string, ranges: seq<(nat, nat)>): string
    requires RangesGood(ranges, |text|)
  {
    Marked(text, ranges) + Esc(text[End(ranges)..])
  }

  method HighlightMatch(text: string, ranges: seq<(nat, nat)>) returns (html: string)
    requires RangesGood(ranges, |text|)
    ensures html == Highlight(text, ranges)
  {
    hide Esc;
    if |ranges| == 0 {
      assert text[0..] == text;
      assert "" + Esc(text) == Esc(text);
      return Esc(text);
    }
    html := "";
    var last := 0;
    for i := 0 to |ranges|
      invariant last == End(ranges[..i]) && RangesGood(ranges[..i], |text|)
      invariant html == Marked(text, ranges[..i])
    {
      var (s, e) := ranges[i];
      assert ranges[..i + 1][..i] == ranges[..i];
      assert last <= s by { assert i > 0 ==> ranges[i - 1].1 < ranges[i].0; }
      assert html + Esc(text[last..s]) + MARK + Esc(text[s..e]) + UNMARK
          == html + (Esc(text[last..s]) + MARK + Esc(text[s..e]) + UNMARK);
      html := html + (Esc(text[last..s]) + MARK + Esc(text[s..e]) + UNMARK);
      last := e;
    }
    assert ranges[..|ranges|] == ranges;
    html := html + Esc(text[last..]);
  }

  predicate NoAngle(s: string) {
    forall i :: 0 <= i < |s| ==> s[i] != '<'
  }

  lemma {:induction false} EscHasNoAngle(s: string)
    ensures NoAngle(Esc(s))
  {
    if |s| > 0 {
      EscHasNoAngle(s[..|s| - 1]);
    }
  }

  lemma Assoc(a: string, b: string, c: string)
    ensures a + (b + c) == a + b + c
  {
  }

  lemma {:induction false} EscAppends(a: string, b: string)
    ensures Esc(a + b) == Esc(a) + Esc(b)
  {
    hide EscChar;
    if |b| == 0 {
      assert a + b == a;
      assert Esc(a) + "" == Esc(a);
    } else {
      var rest, c := b[..|b| - 1], EscChar(b[|b| - 1]);
      EscAppends(a, rest);
      assert (a + b)[..|a + b| - 1] == a + rest;
      Assoc(Esc(a), Esc(rest), c);
    }
  }

  /** Text without angle brackets passes through, and marks vanish. */
  lemma {:induction false} ErasePasses(s: string, rest: string)
    requires NoAngle(s)
    ensures Erase(s + rest) == s + Erase(rest)
    decreases |s|
  {
    if |s| == 0 {
      assert s + rest == rest;
    } else {
      var html := s + rest;
      assert html[0] == s[0] && html[1..] == s[1..] + rest;
      NotAMark(html);
      ErasePasses(s[1..], rest);
      assert [s[0]] + (s[1..] + Erase(rest)) == s + Erase(rest);
    }
  }

  lemma NotAMark(html: string)
    requires |html| > 0 && html[0] != '<'
    ensures Erase(html) == [html[0]] + Erase(html[1..])
  {
    assert |html| >= |MARK| ==> html[..|MARK|][0] == html[0];
    assert |html| >= |UNMARK| ==> html[..|UNMARK|][0] == html[0];
  }

  lemma EraseMark(rest: string)
    ensures Erase(MARK + rest) == Erase(rest) && Erase(UNMARK + rest) == Erase(rest)
  {
    var a, b := MARK + rest, UNMARK + rest;
    assert a[..|MARK|] == MARK && a[|MARK|..] == rest;
    assert b[..|UNMARK|] == UNMARK && b[|UNMARK|..] == rest;
    assert b[1] == '/' && |b| >= |MARK| && b[..|MARK|][1] == '/' && MARK[1] == 'm';
  }

  lemma MarkedStep(text: string, ranges: seq<(nat, nat)>, tail: string)
    requires RangesGood(ranges, |text|) && |ranges| > 0
    ensures var rest, r := ranges[..|ranges| - 1], ranges[|ranges| - 1];
      && RangesGood(rest, |text|) && End(rest) <= r.0 < r.1 <= |text|
      && Marked(text, ranges) + tail
         == Marked(text, rest) + (Esc(text[End(rest)..r.0]) + (MARK + (Esc(text[r.0..r.1]) + (UNMARK + tail))))
  {
    hide Esc;
    var rest, r := ranges[..|ranges| - 1], ranges[|ranges| - 1];
    var m, a, b := Marked(text, rest), Esc(text[End(rest)..r.0]), Esc(text[r.0..r.1]);
    assert Marked(text, ranges) == m + a + MARK + b + UNMARK;
    Assoc(m + a + MARK + b, UNMARK, tail);
    Assoc(m + a + MARK, b, UNMARK + tail);
    Assoc(m + a, MARK, b + (UNMARK + tail));
    Assoc(m, a, MARK + (b + (UNMARK + tail)));
  }

  lemma {:induction false} MarkedErases(text: string, ranges: seq<(nat, nat)>, tail: string)
    requires RangesGood(ranges, |text|)
    ensures Erase(Marked(text, ranges) + tail) == Esc(text[..End(ranges)]) + Erase(tail)
    decreases |ranges|
  {
    hide Esc, Erase, Marked;
    if |ranges| == 0 {
      NothingMarked(text);
      assert Marked(text, ranges) + tail == tail;
      EscNothing(text);
      assert "" + Erase(tail) == Erase(tail);
    } else {
      var rest, r := ranges[..|ranges| - 1], ranges[|ranges| - 1];
      var a, b := Esc(text[End(rest)..r.0]), Esc(text[r.0..r.1]);
      var one := UNMARK + tail;
      var two := b + one;
      var three := MARK + two;
      var four := a + three;
      MarkedStep(text, ranges, tail);
      MarkedErases(text, rest, four);
      EscHasNoAngle(text[End(rest)..r.0]);
      EscHasNoAngle(text[r.0..r.1]);
      ErasePasses(a, three);
      EraseMark(two);
      ErasePasses(b, one);
      EraseMark(tail);
      EscAppends(text[..End(rest)], text[End(rest)..r.0]);
      EscAppends(text[..r.0], text[r.0..r.1]);
      assert text[..End(rest)] + text[End(rest)..r.0] == text[..r.0];
      assert text[..r.0] + text[r.0..r.1] == text[..r.1];
      Assoc(Esc(text[..End(rest)]), a, b + Erase(tail));
      Assoc(Esc(text[..r.0]), b, Erase(tail));
    }
  }

  lemma NothingMarked(text: string)
    ensures Marked(text, []) == ""
  {
  }

  lemma EscNothing(text: string)
    ensures Esc(text[..0]) == ""
  {
  }

  /** Erasing the marks from the highlight gives back the escaped text. */
  lemma HighlightErases(text: string, ranges: seq<(nat, nat)>)
    requires RangesGood(ranges, |text|)
    ensures Erase(Highlight(text, ranges)) == Esc(text)
  {
    hide Esc, Erase, Marked;
    var n := End(ranges);
    var tail := Esc(text[n..]);
    MarkedErases(text, ranges, tail);
    EscHasNoAngle(text[n..]);
    ErasePasses(tail, "");
    assert tail + "" == tail;
    assert Erase("") == "" by { EraseNothing(); }
    assert Esc(text[..n]) + (tail + "") == Esc(text[..n]) + tail;
    EscAppends(text[..n], text[n..]);
    assert text[..n] + text[n..] == text;
  }

  lemma EraseNothing()
    ensures Erase("") == ""
  {
  }

  // ── reading a highlight back ──

  predicate Starts(html: string, p: string) {
    |p| <= |html| && html[..|p|] == p
  }

  /** What a browser makes of it: the text shown, and the ranges between the marks. */
  function Read(html: string, text: string, ranges: seq<(nat, nat)>, from: nat): (string, seq<(nat, nat)>)
    decreases |html|
  {
    if html == "" then (text, ranges)
    else if Starts(html, "<mark>") then Read(html[6..], text, ranges, |text|)
    else if Starts(html, "</mark>") then Read(html[7..], text, ranges + [(from, |text|)], from)
    else if Starts(html, "&amp;") then Read(html[5..], text + "&", ranges, from)
    else if Starts(html, "&lt;") then Read(html[4..], text + "<", ranges, from)
    else if Starts(html, "&gt;") then Read(html[4..], text + ">", ranges, from)
    else if Starts(html, "&nbsp;") then Read(html[6..], text + "\U{00A0}", ranges, from)
    else Read(html[1..], text + [html[0]], ranges, from)
  }

  lemma NotAtStart(html: string, p: string, k: nat)
    requires k < |html| && k < |p| && html[k] != p[k]
    ensures !Starts(html, p)
  {
    assert |p| <= |html| ==> html[..|p|][k] == html[k];
  }

  lemma StartOf(p: string, rest: string)
    ensures Starts(p + rest, p) && (p + rest)[|p|..] == rest
  {
  }

  lemma ReadsPlain(html: string, text: string, ranges: seq<(nat, nat)>, from: nat)
    requires html != "" && html[0] != '<' && html[0] != '&'
    ensures Read(html, text, ranges, from) == Read(html[1..], text + [html[0]], ranges, from)
  {
    hide Starts;
    NotAtStart(html, "<mark>", 0);
    NotAtStart(html, "</mark>", 0);
    NotAtStart(html, "&amp;", 0);
    NotAtStart(html, "&lt;", 0);
    NotAtStart(html, "&gt;", 0);
    NotAtStart(html, "&nbsp;", 0);
  }

  lemma ReadsChar(c: char, rest: string, text: string, ranges: seq<(nat, nat)>, from: nat)
    ensures Read(EscChar(c) + rest, text, ranges, from) == Read(rest, text + [c], ranges, from)
  {
    hide Starts;
    var html := EscChar(c) + rest;
    StartOf(EscChar(c), rest);
    if |EscChar(c)| == 1 {
      ReadsPlain(html, text, ranges, from);
    } else {
      NotAtStart(html, "<mark>", 0);
      NotAtStart(html, "</mark>", 0);
      if c != '&' { NotAtStart(html, "&amp;", 1); }
      if c == '>' || c == '\U{00A0}' { NotAtStart(html, "&lt;", 1); }
      if c == '\U{00A0}' { NotAtStart(html, "&gt;", 1); }
    }
  }

  lemma {:induction false} ReadsText(s: string, rest: string, text: string, ranges: seq<(nat, nat)>, from: nat)
    ensures Read(Esc(s) + rest, text, ranges, from) == Read(rest, text + s, ranges, from)
    decreases |s|
  {
    hide Read, EscChar;
    if s == "" {
      assert Esc(s) + rest == rest && text + s == text;
    } else {
      var front, last := s[..|s| - 1], s[|s| - 1];
      Assoc(Esc(front), EscChar(last), rest);
      ReadsText(front, EscChar(last) + rest, text, ranges, from);
      ReadsChar(last, rest, text + front, ranges, from);
      assert text + front + [last] == text + s by { assert front + [last] == s; }
    }
  }

  lemma ReadsMark(rest: string, text: string, ranges: seq<(nat, nat)>, from: nat)
    ensures Read(MARK + rest, text, ranges, from) == Read(rest, text, ranges, |text|)
    ensures Read(UNMARK + rest, text, ranges, from) == Read(rest, text, ranges + [(from, |text|)], from)
  {
    hide Starts;
    StartOf(MARK, rest);
    StartOf(UNMARK, rest);
    NotAtStart(UNMARK + rest, "<mark>", 1);
  }

  lemma {:induction false} MarkedReads(text: string, ranges: seq<(nat, nat)>, tail: string) returns (from: nat)
    requires RangesGood(ranges, |text|)
    ensures End(ranges) <= |text|
    ensures Read(Marked(text, ranges) + tail, "", [], 0) == Read(tail, text[..End(ranges)], ranges, from)
    decreases |ranges|
  {
    hide Esc, Read, Marked;
    if |ranges| == 0 {
      from := 0;
      NothingMarked(text);
      assert Marked(text, ranges) + tail == tail && text[..End(ranges)] == "";
    } else {
      var rest, r := ranges[..|ranges| - 1], ranges[|ranges| - 1];
      var a, b := text[End(rest)..r.0], text[r.0..r.1];
      var one := UNMARK + tail;
      var two := Esc(b) + one;
      var three := MARK + two;
      MarkedStep(text, ranges, tail);
      var start := MarkedReads(text, rest, Esc(a) + three);
      ReadsText(a, three, text[..End(rest)], rest, start);
      assert text[..End(rest)] + a == text[..r.0];
      ReadsMark(two, text[..r.0], rest, start);
      ReadsText(b, one, text[..r.0], rest, r.0);
      assert text[..r.0] + b == text[..r.1];
      ReadsMark(tail, text[..r.1], rest, r.0);
      assert rest + [r] == ranges;
      from := r.0;
    }
  }

  /** Escaped text holds no angle bracket and no hard blank. */
  lemma {:induction false} EscHidesMarks(s: string)
    ensures forall c :: c in Esc(s) ==> c != '<' && c != '>' && c != '\U{00A0}'
  {
    if |s| > 0 {
      EscHidesMarks(s[..|s| - 1]);
    }
  }

  /** A highlight is read back as the text itself with exactly the given ranges marked. */
  lemma HighlightReads(text: string, ranges: seq<(nat, nat)>)
    requires RangesGood(ranges, |text|)
    ensures Read(Highlight(text, ranges), "", [], 0) == (text, ranges)
  {
    hide Esc, Read, Marked;
    var tail := text[End(ranges)..];
    var from := MarkedReads(text, ranges, Esc(tail));
    assert Esc(tail) + "" == Esc(tail);
    ReadsText(tail, "", text[..End(ranges)], ranges, from);
    assert text[..End(ranges)] + tail == text;
    ReadsNothing(text, ranges, from);
  }

  lemma ReadsNothing(text: string, ranges: seq<(nat, nat)>, from: nat)
    ensures Read("", text, ranges, from) == (text, ranges)
  {
  }
}
