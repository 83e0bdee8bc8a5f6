/** Sketch fences lifted out of a message as numbered sentinels, and put back as rendered blocks. */
module SketchPlaceholders {
  import opened Options
  import opened JsText

  const NUL: char := '\0'
  const OPENING := "```sketch"
  const CLOSING := "```"

  // ── the sentinel of block n ──

  function Sentinel(n: nat): string {
    [NUL] + "SK" + Decimal(n) + [NUL]
  }

  predicate NulFree(s: string) {
    forall i :: 0 <= i < |s| ==> s[i] != NUL
  }

  function Clean(s: string): (c: string)
    ensures NulFree(c)
  {
    if |s| == 0 then []
    else if s[|s| - 1] == NUL then Clean(s[..|s| - 1])
    else Clean(s[..|s| - 1]) + [s[|s| - 1]]
  }

  /** `at` says where each character of `c` stands in `s`: everything is left but the NULs. */
  ghost predicate LeavesAllButNul(s: string, c: string, at: seq<nat>) {
    && |at| == |c|
    && (forall i :: 0 <= i < |c| ==> at[i] < |s| && c[i] == s[at[i]] && c[i] != '\0')
    && (forall i, j :: 0 <= i < j < |at| ==> at[i] < at[j])
    && forall k :: 0 <= k < |s| && s[k] != '\0' ==> k in at
  }

  lemma OneMoreCleaned(s: string, c: string, at: seq<nat>, last: char)
    requires LeavesAllButNul(s, c, at)
    ensures if last == '\0' then LeavesAllButNul(s + [last], c, at)
            else LeavesAllButNul(s + [last], c + [last], at + [|s|])
  {
    forall k | 0 <= k < |s| && s[k] != '\0' ensures k in at + [|s|] {
      assert k in at;
    }
    assert (at + [|s|])[|at|] == |s|;
  }

  /** Cleaning takes out exactly the NULs. */
  lemma {:induction false} CleanLeaves(s: string) returns (at: seq<nat>)
    ensures LeavesAllButNul(s, Clean(s), at)
  {
    if |s| == 0 {
      at := [];
    } else {
      hide LeavesAllButNul;
      var front, last := s[..|s| - 1], s[|s| - 1];
      at := CleanLeaves(front);
      OneMoreCleaned(front, Clean(front), at, last);
      assert s == front + [last];
      at := if last == NUL then at else at + [|front|];
    }
  }

  // ── one fence ──

  predicate At(s: string, i: nat, p: string) {
    i + |p| <= |s| && s[i..i + |p|] == p
  }

  function SkipBlanks(s: string, i: nat): (j: nat)
    requires i <= |s|
    ensures i <= j <= |s|
    ensures forall k :: i <= k < j ==> s[k] == ' ' || s[k] == '\t'
    ensures j < |s| ==> s[j] != ' ' && s[j] != '\t'
    decreases |s| - i
  {
    if i < |s| && (s[i] == ' ' || s[i] == '\t') then SkipBlanks(s, i + 1) else i
  }

  /** The first closing fence from `i` on. */
  function FindClosing(s: string, i: nat): (r: Option<nat>)
    requires i <= |s|
    ensures r.Some? ==> i <= r.value && At(s, r.value, CLOSING) && forall k :: i <= k < r.value ==> !At(s, k, CLOSING)
    ensures r.None? ==> forall k :: i <= k <= |s| ==> !At(s, k, CLOSING)
    decreases |s| - i
  {
    if At(s, i, CLOSING) then Some(i)
    else if i == |s| then None
    else FindClosing(s, i + 1)
  }

  datatype Match = Match(bodyStart: nat, bodyEnd: nat, end: nat)

  /** Where the body starts after an opening fence at `i`: blanks, then one line end. */
  function BodyStart(s: string, i: nat): (r: Option<nat>)
    ensures r.Some? ==> i + |OPENING| < r.value <= |s| && At(s, i, OPENING)
  {
    if !At(s, i, OPENING) then None
    else
      var j := SkipBlanks(s, i + |OPENING|);
      var k := if j < |s| && s[j] == '\r' then j + 1 else j;
      if k < |s| && s[k] == '\n' then Some(k + 1) else None
  }

  function MatchFence(s: string, i: nat): (r: Option<Match>)
    ensures r.Some? ==> i < r.value.bodyStart <= r.value.bodyEnd < r.value.end <= |s|
  {
    match BodyStart(s, i)
    case None => None
    case Some(b) =>
      match FindClosing(s, b)
      case None => None
      case Some(e) => Some(Match(b, e, e + |CLOSING|))
  }

  // ── the whole text, cut at its fences ──

  /** A fence of the text: all of it, and its body. */
  datatype Fence = Fence(source: string, body: string)

  datatype Cut = Cut(texts: seq<string>, fences: seq<Fence>)

  /** Leftmost fences first, never overlapping. */
  function CutFrom(s: string, i: nat): (c: Cut)
    requires i <= |s|
    ensures |c.texts| == |c.fences| + 1
    decreases |s| - i
  {
    if i == |s| then Cut([""], [])
    else
      match MatchFence(s, i)
      case Some(m) =>
        var rest := CutFrom(s, m.end);
        Cut([""] + rest.texts, [Fence(s[i..m.end], s[m.bodyStart..m.bodyEnd])] + rest.fences)
      case None =>
        var rest := CutFrom(s, i + 1);
        Cut([[s[i]] + rest.texts[0]] + rest.texts[1..], rest.fences)
  }

  /** The replacement as it scans: a sentinel for each fence, every other character as it is. */
  function ExtractFrom(s: string, i: nat, n: nat): string
    requires i <= |s|
    decreases |s| - i
  {
    if i == |s| then ""
    else
      match MatchFence(s, i)
      case Some(m) => Sentinel(n) + ExtractFrom(s, m.end, n + 1)
      case None => [s[i]] + ExtractFrom(s, i + 1, n)
  }

  /** The bodies in the order of their sentinels. */
  function BodiesFrom(s: string, i: nat): seq<string>
    requires i <= |s|
    decreases |s| - i
  {
    if i == |s| then []
    else
      match MatchFence(s, i)
      case Some(m) => [s[m.bodyStart..m.bodyEnd]] + BodiesFrom(s, m.end)
      case None => BodiesFrom(s, i + 1)
  }

  // ── segments and what stands between them ──

  /** Segments with a sentinel between each two, numbered by `marks`. */
  function Weave(segments: seq<string>, marks: seq<nat>): string
    requires |segments| == |marks| + 1
    decreases |marks|
  {
    if |marks| == 0 then segments[0]
    else segments[0] + Sentinel(marks[0]) + Weave(segments[1..], marks[1..])
  }

  /** Segments with the given texts between them. */
  function Splice(segments: seq<string>, between: seq<string>): string
    requires |segments| == |between| + 1
    decreases |between|
  {
    if |between| == 0 then segments[0]
    else segments[0] + between[0] + Splice(segments[1..], between[1..])
  }

  function CountFrom(n: nat, k: nat): seq<nat> {
    seq(k, i requires 0 <= i < k => n + i)
  }

  function Sources(fences: seq<Fence>): (r: seq<string>)
    ensures |r| == |fences|
  {
    seq(|fences|, i requires 0 <= i < |fences| => fences[i].source)
  }

  function Bodies(fences: seq<Fence>): seq<string> {
    seq(|fences|, i requires 0 <= i < |fences| => fences[i].body)
  }

  ghost predicate AllNulFree(segments: seq<string>) {
    forall t :: t in segments ==> NulFree(t)
  }

  lemma CountGrows(n: nat, k: nat)
    ensures CountFrom(n, k + 1) == [n] + CountFrom(n + 1, k)
  {
  }

  lemma {:induction false} WeaveFirst(c: char, segments: seq<string>, marks: seq<nat>)
    requires |segments| == |marks| + 1
    ensures Weave([[c] + segments[0]] + segments[1..], marks) == [c] + Weave(segments, marks)
  {
    var more := [[c] + segments[0]] + segments[1..];
    if |marks| > 0 {
      assert more[1..] == segments[1..];
      assert [c] + segments[0] + Sentinel(marks[0]) + Weave(segments[1..], marks[1..])
          == [c] + (segments[0] + Sentinel(marks[0]) + Weave(segments[1..], marks[1..]));
    }
  }

  lemma {:induction false} SpliceFirst(c: char, segments: seq<string>, between: seq<string>)
    requires |segments| == |between| + 1
    ensures Splice([[c] + segments[0]] + segments[1..], between) == [c] + Splice(segments, between)
  {
    var more := [[c] + segments[0]] + segments[1..];
    if |between| > 0 {
      assert more[1..] == segments[1..];
      assert [c] + segments[0] + between[0] + Splice(segments[1..], between[1..])
          == [c] + (segments[0] + between[0] + Splice(segments[1..], between[1..]));
    }
  }

  /**
   * Extraction leaves the text between the fences, with sentinels n, n + 1, … once each and in order,
   * and the blocks are the fences' bodies.
   */
  lemma {:induction false} ExtractIsWeave(s: string, i: nat, n: nat)
    requires i <= |s|
    ensures var c := CutFrom(s, i);
      && ExtractFrom(s, i, n) == Weave(c.texts, CountFrom(n, |c.fences|))
      && BodiesFrom(s, i) == Bodies(c.fences)
    decreases |s| - i
  {
    hide MatchFence, Sentinel;
    if i < |s| {
      match MatchFence(s, i) {
        case Some(m) => {
          ExtractIsWeave(s, m.end, n + 1);
          var rest := CutFrom(s, m.end);
          var c := CutFrom(s, i);
          CountGrows(n, |rest.fences|);
          var marks := CountFrom(n, |c.fences|);
          assert marks[1..] == CountFrom(n + 1, |rest.fences|) && c.texts[1..] == rest.texts && c.texts[0] == "";
          assert "" + Sentinel(n) == Sentinel(n);
          assert Bodies(c.fences) == [s[m.bodyStart..m.bodyEnd]] + Bodies(rest.fences);
        }
        case None => {
          ExtractIsWeave(s, i + 1, n);
          var rest := CutFrom(s, i + 1);
          WeaveFirst(s[i], rest.texts, CountFrom(n, |rest.fences|));
        }
      }
    }
  }

  lemma SpliceFence(source: string, rest: Cut, fence: Fence)
    requires |rest.texts| == |rest.fences| + 1 && fence.source == source
    ensures Splice([""] + rest.texts, Sources([fence] + rest.fences)) == source + Splice(rest.texts, Sources(rest.fences))
  {
    var all := Sources([fence] + rest.fences);
    assert all[1..] == Sources(rest.fences) && ([""] + rest.texts)[1..] == rest.texts;
    assert "" + source == source;
  }

  /** The cut loses nothing: its texts and fences, joined again, are the text. */
  lemma {:induction false} CutIsWhole(s: string, i: nat)
    requires i <= |s|
    ensures var c := CutFrom(s, i); s[i..] == Splice(c.texts, Sources(c.fences))
    decreases |s| - i
  {
    hide MatchFence, Splice, Sources;
    if i < |s| {
      match MatchFence(s, i) {
        case Some(m) => {
          CutIsWhole(s, m.end);
          SpliceFence(s[i..m.end], CutFrom(s, m.end), Fence(s[i..m.end], s[m.bodyStart..m.bodyEnd]));
          assert s[i..] == s[i..m.end] + s[m.end..];
        }
        case None => {
          CutIsWhole(s, i + 1);
          var rest := CutFrom(s, i + 1);
          SpliceFirst(s[i], rest.texts, Sources(rest.fences));
          assert s[i..] == [s[i]] + s[i + 1..];
        }
      }
    } else {
      NothingToSplice(s);
    }
  }

  lemma NothingToSplice(s: string)
    ensures s[|s|..] == Splice([""], Sources([]))
  {
  }

  /** An opening fence, blanks and a line end; the body up to the first closing fence. */
  ghost predicate IsFence(f: Fence) {
    exists pad, eol :: FenceParts(f, pad, eol)
  }

  ghost predicate FenceParts(f: Fence, pad: string, eol: string) {
    && (forall i :: 0 <= i < |pad| ==> pad[i] == ' ' || pad[i] == '\t')
    && (eol == "\n" || eol == "\r\n")
    && f.source == "```sketch" + pad + eol + f.body + "```"
    && forall k :: 0 <= k < |f.body| ==> !At(f.body + "```", k, "```")
  }

  lemma NoEarlierClosing(s: string, b: nat, e: nat)
    requires b <= e && At(s, e, CLOSING) && forall k :: b <= k < e ==> !At(s, k, CLOSING)
    ensures forall k :: 0 <= k < |s[b..e]| ==> !At(s[b..e] + CLOSING, k, CLOSING)
  {
    var n := e + |CLOSING|;
    AtSlice(s, e, CLOSING);
    SliceCat(s, b, e, n);
    var tail := s[b..e] + CLOSING;
    assert tail == s[b..n];
    forall k | 0 <= k < e - b ensures !At(tail, k, CLOSING) {
      assert !At(s, b + k, CLOSING);
      SubSlice(s, b, tail, k, k + |CLOSING|);
    }
  }

  lemma SliceCat(s: string, a: nat, b: nat, c: nat)
    requires a <= b <= c <= |s|
    ensures s[a..c] == s[a..b] + s[b..c]
  {
  }

  lemma AtSlice(s: string, i: nat, p: string)
    requires At(s, i, p)
    ensures i + |p| <= |s| && s[i..i + |p|] == p
  {
  }

  lemma MatchIsFence(s: string, i: nat)
    requires i <= |s| && MatchFence(s, i).Some?
    ensures var m := MatchFence(s, i).value; IsFence(Fence(s[i..m.end], s[m.bodyStart..m.bodyEnd]))
  {
    hide At, FindClosing, SkipBlanks;
    var m := MatchFence(s, i).value;
    var j := SkipBlanks(s, i + |OPENING|);
    AtSlice(s, i, OPENING);
    AtSlice(s, m.bodyEnd, CLOSING);
    var pad, eol := s[i + |OPENING|..j], s[j..m.bodyStart];
    var f := Fence(s[i..m.end], s[m.bodyStart..m.bodyEnd]);
    assert eol == "\n" || eol == "\r\n";
    var a := i + |OPENING|;
    SliceCat(s, i, a, j);
    SliceCat(s, i, j, m.bodyStart);
    SliceCat(s, i, m.bodyStart, m.bodyEnd);
    SliceCat(s, i, m.bodyEnd, m.end);
    assert f.source == OPENING + pad + eol + f.body + CLOSING;
    NoEarlierClosing(s, m.bodyStart, m.bodyEnd);
    assert FenceParts(f, pad, eol);
  }

  lemma {:induction false} FencesAreFences(s: string, i: nat)
    requires i <= |s|
    ensures forall f :: f in CutFrom(s, i).fences ==> IsFence(f)
    decreases |s| - i
  {
    hide MatchFence, IsFence;
    if i < |s| {
      match MatchFence(s, i) {
        case Some(m) => {
          FencesAreFences(s, m.end);
          MatchIsFence(s, i);
        }
        case None => FencesAreFences(s, i + 1);
      }
    }
  }

  // ── no fence is missed ──

  ghost predicate FenceStarts(s: string, i: nat) {
    exists f :: IsFence(f) && StartsAt(s, i, f)
  }

  ghost predicate StartsAt(s: string, i: nat, f: Fence) {
    i + |f.source| <= |s| && s[i..i + |f.source|] == f.source
  }

  ghost predicate NoFenceIn(s: string, a: nat, b: nat) {
    forall i :: a <= i < b ==> !FenceStarts(s, i)
  }

  /** The text stands at `i`, and no fence starts within it. */
  ghost predicate PlainText(s: string, i: nat, text: string) {
    i + |text| <= |s| && s[i..i + |text|] == text && NoFenceIn(s, i, i + |text|)
  }

  /** From `i` on the cut takes the next fence that starts, goes on behind it, and leaves none. */
  ghost predicate Leftmost(s: string, i: nat, texts: seq<string>, fences: seq<Fence>)
    requires |texts| == |fences| + 1
    decreases |fences|
  {
    var at := i + |texts[0]|;
    && PlainText(s, i, texts[0])
    && if fences == [] then at == |s|
       else IsFence(fences[0]) && StartsAt(s, at, fences[0]) && Leftmost(s, at + |fences[0].source|, texts[1..], fences[1..])
  }

  lemma SkipBlanksTo(s: string, i: nat, j: nat)
    requires i <= j < |s| && s[j] != ' ' && s[j] != '\t' && forall k :: i <= k < j ==> s[k] == ' ' || s[k] == '\t'
    ensures SkipBlanks(s, i) == j
  {
    var e := SkipBlanks(s, i);
    assert !(e < j) && !(j < e);
  }

  lemma FenceIsMatched(s: string, i: nat, f: Fence, pad: string, eol: string)
    requires FenceParts(f, pad, eol) && StartsAt(s, i, f)
    ensures MatchFence(s, i).Some?
  {
    hide At, FindClosing, SkipBlanks, FenceParts;
    var a := i + |OPENING|;
    var b := a + |pad|;
    var d := b + |eol| + |f.body|;
    FencePlaces(s, i, f, pad, eol);
    AtSlice(s, b, eol);
    assert s[b] == s[b..b + |eol|][0] && s[b + |eol| - 1] == s[b..b + |eol|][|eol| - 1];
    SkipBlanksTo(s, a, b);
    assert BodyStart(s, i) == Some(b + |eol|);
    AtSlice(s, d, CLOSING);
    assert FindClosing(s, b + |eol|).Some?;
  }

  /** Where the parts of a fence stand in the text. */
  lemma FencePlaces(s: string, i: nat, f: Fence, pad: string, eol: string)
    requires FenceParts(f, pad, eol) && StartsAt(s, i, f)
    ensures var a := i + |OPENING|; var b := a + |pad|; var d := b + |eol| + |f.body|;
      && At(s, i, OPENING) && At(s, b, eol) && At(s, d, CLOSING) && (eol == "\n" || eol == "\r\n")
      && b < |s| && forall k :: a <= k < b ==> s[k] == ' ' || s[k] == '\t'
  {
    hide At;
    var t := f.source;
    var a := |OPENING|;
    var b := a + |pad|;
    var d := b + |eol| + |f.body|;
    assert t[..a] == OPENING && t[a..b] == pad && t[b..b + |eol|] == eol && t[d..d + 3] == CLOSING;
    SubAt(s, i, t, 0, OPENING);
    SubAt(s, i, t, a, pad);
    SubAt(s, i, t, b, eol);
    SubAt(s, i, t, d, CLOSING);
    AtSlice(s, i + a, pad);
    forall k | i + a <= k < i + b ensures s[k] == ' ' || s[k] == '\t' {
      assert s[k] == s[i + a..i + b][k - i - a] == pad[k - i - a];
    }
  }

  lemma SubAt(s: string, i: nat, t: string, a: nat, p: string)
    requires i + |t| <= |s| && s[i..i + |t|] == t && a + |p| <= |t| && t[a..a + |p|] == p
    ensures At(s, i + a, p)
  {
    SubSlice(s, i, t, a, a + |p|);
  }

  lemma MatchedIffFence(s: string, i: nat)
    requires i <= |s|
    ensures MatchFence(s, i).Some? <==> FenceStarts(s, i)
  {
    hide MatchFence, FenceParts;
    if f :| IsFence(f) && StartsAt(s, i, f) {
      var pad, eol :| FenceParts(f, pad, eol);
      FenceIsMatched(s, i, f, pad, eol);
    }
    if MatchFence(s, i).Some? {
      var m := MatchFence(s, i).value;
      MatchIsFence(s, i);
      assert StartsAt(s, i, Fence(s[i..m.end], s[m.bodyStart..m.bodyEnd]));
    }
  }

  lemma PlainTextMore(s: string, i: nat, text: string)
    requires i < |s| && PlainText(s, i + 1, text) && !FenceStarts(s, i)
    ensures PlainText(s, i, [s[i]] + text)
  {
    hide FenceStarts;
    var at := i + 1 + |text|;
    assert s[i..at] == [s[i]] + s[i + 1..at];
  }

  lemma LeftmostMore(s: string, i: nat, texts: seq<string>, more: seq<string>, fences: seq<Fence>)
    requires |texts| == |fences| + 1 && i < |s| && Leftmost(s, i + 1, texts, fences) && !FenceStarts(s, i)
    requires |more| == |texts| && more[0] == [s[i]] + texts[0] && more[1..] == texts[1..]
    ensures Leftmost(s, i, more, fences)
  {
    hide FenceStarts, IsFence, PlainText, StartsAt;
    PlainTextMore(s, i, texts[0]);
    assert i + |more[0]| == i + 1 + |texts[0]|;
  }

  /** The cut is the leftmost one: between its fences no fence starts. */
  lemma {:induction false} CutIsLeftmost(s: string, i: nat)
    requires i <= |s|
    ensures var c := CutFrom(s, i); Leftmost(s, i, c.texts, c.fences)
    decreases |s| - i
  {
    hide MatchFence, IsFence, FenceStarts, Leftmost;
    if i < |s| {
      MatchedIffFence(s, i);
      match MatchFence(s, i) {
        case Some(m) => {
          CutIsLeftmost(s, m.end);
          MatchIsFence(s, i);
          var rest := CutFrom(s, m.end);
          LeftmostFence(s, i, Fence(s[i..m.end], s[m.bodyStart..m.bodyEnd]), rest.texts, rest.fences);
        }
        case None => {
          CutIsLeftmost(s, i + 1);
          var rest := CutFrom(s, i + 1);
          LeftmostMore(s, i, rest.texts, CutFrom(s, i).texts, rest.fences);
        }
      }
    } else {
      LeftmostEnd(s);
    }
  }

  lemma LeftmostEnd(s: string)
    ensures Leftmost(s, |s|, [""], [])
  {
  }

  lemma LeftmostFence(s: string, i: nat, f: Fence, texts: seq<string>, fences: seq<Fence>)
    requires |texts| == |fences| + 1 && IsFence(f) && StartsAt(s, i, f) && Leftmost(s, i + |f.source|, texts, fences)
    ensures Leftmost(s, i, [""] + texts, [f] + fences)
  {
    hide IsFence, PlainText;
    assert PlainText(s, i, "") by { NoText(s, i); }
    assert ([""] + texts)[1..] == texts && ([f] + fences)[1..] == fences;
  }

  lemma NoText(s: string, i: nat)
    requires i <= |s|
    ensures PlainText(s, i, "")
  {
  }

  lemma {:induction false} TextsAreNulFree(s: string, i: nat)
    requires i <= |s| && NulFree(s)
    ensures AllNulFree(CutFrom(s, i).texts)
    decreases |s| - i
  {
    hide MatchFence;
    if i < |s| {
      match MatchFence(s, i) {
        case Some(m) => TextsAreNulFree(s, m.end);
        case None => {
          TextsAreNulFree(s, i + 1);
          var rest := CutFrom(s, i + 1);
          assert NulFree(rest.texts[0]);
          assert NulFree([s[i]] + rest.texts[0]);
        }
      }
    }
  }

  // ── putting the blocks back ──

  /** A sentinel at `i`: its number and where it ends. */
  function MatchSentinel(s: string, i: nat): (r: Option<(nat, nat)>)
    requires i < |s|
    ensures r.Some? ==> i < r.value.1 <= |s| && s[i] == NUL
  {
    if s[i] == NUL && At(s, i + 1, "SK") then
      var j := DigitsEnd(s, i + 3);
      if j > i + 3 && j < |s| && s[j] == NUL then Some((DigitsValue(s[i + 3..j]), j + 1)) else None
    else None
  }

  /** NUL, "SK", at least one digit, and NUL. */
  ghost predicate SentinelShape(s: string, i: nat, e: nat) {
    && i + 5 <= e <= |s| && s[i] == '\0' && s[i + 1] == 'S' && s[i + 2] == 'K' && s[e - 1] == '\0'
    && forall k :: i + 3 <= k < e - 1 ==> IsDigit(s[k])
  }

  /** Exactly the texts of that shape are sentinels, and the digits are the number. */
  lemma MatchedIffShape(s: string, i: nat, e: nat)
    requires i < |s|
    ensures SentinelShape(s, i, e) <==> MatchSentinel(s, i).Some? && MatchSentinel(s, i).value.1 == e
    ensures SentinelShape(s, i, e) ==> MatchSentinel(s, i).value.0 == DigitsValue(s[i + 3..e - 1])
  {
    hide DigitsValue;
    if i + 3 <= |s| {
      assert At(s, i + 1, "SK") <==> s[i + 1] == 'S' && s[i + 2] == 'K' by { assert s[i + 1..i + 3] == [s[i + 1], s[i + 2]]; }
    }
    if SentinelShape(s, i, e) {
      DigitsRun(s, i + 3, s[i + 3..e - 1]);
    }
  }

  /** What a sentinel is replaced with: nothing when there is no such block. */
  function Rendered(blocks: seq<string>, k: nat): string {
    if k < |blocks| then blocks[k] else ""
  }

  function ReplaceFrom(html: string, i: nat, blocks: seq<string>): string
    requires i <= |html|
    decreases |html| - i
  {
    if i == |html| then ""
    else
      match MatchSentinel(html, i)
      case Some((k, end)) => Rendered(blocks, k) + ReplaceFrom(html, end, blocks)
      case None => [html[i]] + ReplaceFrom(html, i + 1, blocks)
  }

  /** What splitting at the sentinels finds. */
  function SplitFrom(s: string, i: nat): (r: (seq<string>, seq<nat>))
    requires i <= |s|
    ensures |r.0| == |r.1| + 1
    decreases |s| - i
  {
    if i == |s| then ([""], [])
    else
      match MatchSentinel(s, i)
      case Some((k, end)) =>
        var rest := SplitFrom(s, end);
        ([""] + rest.0, [k] + rest.1)
      case None =>
        var rest := SplitFrom(s, i + 1);
        ([[s[i]] + rest.0[0]] + rest.0[1..], rest.1)
  }

  lemma SentinelParts(n: nat)
    ensures var t, d := Sentinel(n), Decimal(n);
      |t| == |d| + 4 && t[0] == NUL && t[1..3] == "SK" && t[3..|t| - 1] == d && t[|t| - 1] == NUL
  {
    hide Decimal;
  }

  lemma SubSlice(s: string, i: nat, t: string, a: nat, b: nat)
    requires i + |t| <= |s| && s[i..i + |t|] == t && a <= b <= |t|
    ensures s[i + a..i + b] == t[a..b]
  {
    assert forall k :: i <= k < i + |t| ==> s[k] == s[i..i + |t|][k - i];
  }

  lemma SentinelMatches(s: string, i: nat, n: nat)
    requires At(s, i, Sentinel(n))
    ensures MatchSentinel(s, i) == Some((n, i + |Sentinel(n)|))
  {
    hide Decimal, Sentinel, DigitsEnd, DigitsValue;
    var t, d := Sentinel(n), Decimal(n);
    var end := i + 3 + |d|;
    SentinelParts(n);
    assert s[i..i + |t|] == t;
    assert s[i] == t[0];
    SubSlice(s, i, t, 1, 3);
    SubSlice(s, i, t, 3, |t| - 1);
    assert s[end] == t[|t| - 1];
    DigitsRun(s, i + 3, d);
    DecimalValue(n);
  }

  lemma DigitsRun(s: string, i: nat, d: string)
    requires i + |d| < |s| && s[i..i + |d|] == d && !IsDigit(s[i + |d|])
    requires forall k :: 0 <= k < |d| ==> IsDigit(d[k])
    ensures DigitsEnd(s, i) == i + |d|
  {
    var j := DigitsEnd(s, i);
    assert forall k :: i <= k < i + |d| ==> s[k] == d[k - i];
  }

  lemma NoSentinel(s: string, i: nat)
    requires i < |s| && s[i] != NUL
    ensures MatchSentinel(s, i) == None
  {
  }

  lemma {:induction false} PassText(html: string, i: nat, j: nat, blocks: seq<string>)
    requires i <= j <= |html| && forall k :: i <= k < j ==> html[k] != NUL
    ensures ReplaceFrom(html, i, blocks) == html[i..j] + ReplaceFrom(html, j, blocks)
    decreases j - i
  {
    hide MatchSentinel;
    if i < j {
      NoSentinel(html, i);
      PassText(html, i + 1, j, blocks);
      assert html[i..j] == [html[i]] + html[i + 1..j];
      assert [html[i]] + (html[i + 1..j] + ReplaceFrom(html, j, blocks)) == html[i..j] + ReplaceFrom(html, j, blocks);
    }
  }

  function Prepend(t: string, r: (seq<string>, seq<nat>)): (seq<string>, seq<nat>)
    requires |r.0| > 0
  {
    ([t + r.0[0]] + r.0[1..], r.1)
  }

  lemma PrependTwice(a: string, b: string, r: (seq<string>, seq<nat>))
    requires |r.0| > 0
    ensures Prepend(a, Prepend(b, r)) == Prepend(a + b, r)
    ensures Prepend("", r) == r
  {
    assert a + (b + r.0[0]) == a + b + r.0[0];
    assert "" + r.0[0] == r.0[0];
    assert [r.0[0]] + r.0[1..] == r.0;
  }

  lemma {:induction false} PassSplit(html: string, i: nat, j: nat)
    requires i <= j <= |html| && forall k :: i <= k < j ==> html[k] != NUL
    ensures SplitFrom(html, i) == Prepend(html[i..j], SplitFrom(html, j))
    decreases j - i
  {
    hide MatchSentinel, Prepend;
    if i < j {
      NoSentinel(html, i);
      PassSplit(html, i + 1, j);
      assert SplitFrom(html, i) == Prepend([html[i]], SplitFrom(html, i + 1)) by { SplitStep(html, i); }
      PrependTwice([html[i]], html[i + 1..j], SplitFrom(html, j));
      assert html[i..j] == [html[i]] + html[i + 1..j];
    } else {
      PrependTwice("", "", SplitFrom(html, j));
      assert html[i..j] == "";
    }
  }

  lemma SplitStep(s: string, i: nat)
    requires i < |s| && MatchSentinel(s, i) == None
    ensures SplitFrom(s, i) == Prepend([s[i]], SplitFrom(s, i + 1))
  {
    hide MatchSentinel;
  }

  function RenderAll(blocks: seq<string>, marks: seq<nat>): (r: seq<string>)
    ensures |r| == |marks| && forall i :: 0 <= i < |r| ==> r[i] == if marks[i] < |blocks| then blocks[marks[i]] else ""
  {
    seq(|marks|, i requires 0 <= i < |marks| => Rendered(blocks, marks[i]))
  }

  /**
   * Replacing the sentinels of any woven text splices each rendered block at its place, whatever the
   * blocks contain: inserted text is never looked at again. Splitting gives the segments and marks.
   */
  lemma {:induction false} ReplaceIsSplice(html: string, i: nat, segments: seq<string>, marks: seq<nat>, blocks: seq<string>)
    requires i <= |html| && |segments| == |marks| + 1 && AllNulFree(segments)
    requires html[i..] == Weave(segments, marks)
    ensures ReplaceFrom(html, i, blocks) == Splice(segments, RenderAll(blocks, marks))
    ensures SplitFrom(html, i) == (segments, marks)
    decreases |marks|
  {
    hide MatchSentinel, Sentinel, Rendered, Prepend, NulFree, SplitFrom, ReplaceFrom;
    var first := segments[0];
    var j := i + |first|;
    if |marks| == 0 {
      TextPiece(html, i, first, "");
      assert first + "" == first;
      PassText(html, i, j, blocks);
      PassSplit(html, i, j);
      LastSplice(html, segments, marks, blocks);
    } else {
      var sentinel := Sentinel(marks[0]);
      var tail := Weave(segments[1..], marks[1..]);
      assert first + sentinel + tail == first + (sentinel + tail);
      TextPiece(html, i, first, sentinel + tail);
      var end := j + |sentinel|;
      assert html[j..end] == sentinel && html[end..] == tail by { TwoPieces(html, j, sentinel, tail); }
      PassText(html, i, j, blocks);
      PassSplit(html, i, j);
      SentinelMatches(html, j, marks[0]);
      SentinelLength(marks[0]);
      assert AllNulFree(segments[1..]);
      ReplaceIsSplice(html, end, segments[1..], marks[1..], blocks);
      OneSplice(html, i, j, end, segments, marks, blocks);
    }
  }

  lemma TwoPieces(html: string, i: nat, a: string, b: string)
    requires i <= |html| && html[i..] == a + b
    ensures i + |a| <= |html| && html[i..i + |a|] == a && html[i + |a|..] == b
  {
    assert html[i..i + |a|] == html[i..][..|a|];
    assert html[i + |a|..] == html[i..][|a|..];
  }

  lemma TextPiece(html: string, i: nat, a: string, b: string)
    requires i <= |html| && html[i..] == a + b && NulFree(a)
    ensures i + |a| <= |html| && html[i..i + |a|] == a && html[i + |a|..] == b
    ensures forall k :: i <= k < i + |a| ==> html[k] != NUL
  {
    TwoPieces(html, i, a, b);
    assert forall k :: i <= k < i + |a| ==> html[k] == html[i..i + |a|][k - i];
  }

  lemma LastSplice(html: string, segments: seq<string>, marks: seq<nat>, blocks: seq<string>)
    requires |segments| == 1 && |marks| == 0
    ensures Splice(segments, RenderAll(blocks, marks)) == segments[0] + ReplaceFrom(html, |html|, blocks)
    ensures Prepend(segments[0], SplitFrom(html, |html|)) == (segments, marks)
  {
    assert segments[0] + "" == segments[0];
    assert segments == [segments[0]] && marks == [] && RenderAll(blocks, marks) == [];
    assert SplitFrom(html, |html|) == ([""], []);
    assert [""][1..] == [];
    assert Splice(segments, []) == segments[0] && ReplaceFrom(html, |html|, blocks) == "";
    assert Prepend(segments[0], ([""], [])) == ([segments[0] + ""] + [""][1..], []);
    assert [segments[0] + ""] + [""][1..] == segments;
  }

  lemma SentinelLength(n: nat)
    ensures |Sentinel(n)| > 0
  {
  }

  lemma OneSplice(html: string, i: nat, j: nat, end: nat, segments: seq<string>, marks: seq<nat>, blocks: seq<string>)
    requires i <= j < end <= |html| && |segments| == |marks| + 1 && |marks| > 0
    requires MatchSentinel(html, j) == Some((marks[0], end)) && html[i..j] == segments[0]
    requires ReplaceFrom(html, i, blocks) == html[i..j] + ReplaceFrom(html, j, blocks)
    requires SplitFrom(html, i) == Prepend(html[i..j], SplitFrom(html, j))
    requires ReplaceFrom(html, end, blocks) == Splice(segments[1..], RenderAll(blocks, marks[1..]))
    requires SplitFrom(html, end) == (segments[1..], marks[1..])
    ensures ReplaceFrom(html, i, blocks) == Splice(segments, RenderAll(blocks, marks))
    ensures SplitFrom(html, i) == (segments, marks)
  {
    hide MatchSentinel, Rendered;
    var all := RenderAll(blocks, marks);
    assert all[0] == Rendered(blocks, marks[0]) && all[1..] == RenderAll(blocks, marks[1..]);
    assert segments[0] + (all[0] + Splice(segments[1..], all[1..])) == segments[0] + all[0] + Splice(segments[1..], all[1..]);
    var at := SplitFrom(html, j);
    assert at.0[0] == "" && at.0[1..] == segments[1..] && segments[0] + "" == segments[0];
    assert [segments[0]] + segments[1..] == segments && [marks[0]] + marks[1..] == marks;
  }

  /** The whole of step 1 for any raw text, NULs included. */
  lemma ExtractRoundTrip(raw: string)
    ensures var s := Clean(raw); var c := CutFrom(s, 0);
      && AllNulFree(c.texts)
      && ExtractFrom(s, 0, 0) == Weave(c.texts, CountFrom(0, |c.fences|))
      && BodiesFrom(s, 0) == Bodies(c.fences)
      && s == Splice(c.texts, Sources(c.fences))
      && (forall f :: f in c.fences ==> IsFence(f))
      && SplitFrom(ExtractFrom(s, 0, 0), 0) == (c.texts, CountFrom(0, |c.fences|))
  {
    hide Weave, Splice, IsFence;
    var s := Clean(raw);
    var c := CutFrom(s, 0);
    TextsAreNulFree(s, 0);
    ExtractIsWeave(s, 0, 0);
    CutIsWhole(s, 0);
    assert s[0..] == s;
    FencesAreFences(s, 0);
    var text := ExtractFrom(s, 0, 0);
    assert text[0..] == text;
    ReplaceIsSplice(text, 0, c.texts, CountFrom(0, |c.fences|), []);
  }

  /**
   * If escaping and markdown turn the texts into NUL-free `segments` and keep the sentinels, the
   * result has each block's rendering exactly where its fence stood.
   */
  lemma RenderedInPlace(raw: string, html: string, segments: seq<string>, blocks: seq<string>)
    requires var n := |CutFrom(Clean(raw), 0).fences|;
      |segments| == n + 1 && AllNulFree(segments) && html == Weave(segments, CountFrom(0, n)) && |blocks| == n
    ensures ReplaceFrom(html, 0, blocks) == Splice(segments, blocks)
  {
    hide Weave, Splice, CutFrom;
    var n := |CutFrom(Clean(raw), 0).fences|;
    assert html[0..] == html;
    ReplaceIsSplice(html, 0, segments, CountFrom(0, n), blocks);
    assert RenderAll(blocks, CountFrom(0, n)) == blocks;
  }

  // ── escaping between extraction and replacement ──

  function EscapeChar(c: char): (t: string)
    ensures c != NUL ==> NulFree(t)
  {
    if c == '&' then "&amp;"
    else if c == '<' then "&lt;"
    else if c == '>' then "&gt;"
    else if c == '"' then "&quot;"
    else if c == '\'' then "&#39;"
    else [c]
  }

  /** `escapeHtml` */
  function Escape(s: string): string {
    if |s| == 0 then "" else EscapeChar(s[0]) + Escape(s[1..])
  }

  function EscapeAll(segments: seq<string>): seq<string> {
    seq(|segments|, i requires 0 <= i < |segments| => Escape(segments[i]))
  }

  lemma {:induction false} EscapeAppends(a: string, b: string)
    ensures Escape(a + b) == Escape(a) + Escape(b)
  {
    if |a| == 0 {
      assert a + b == b;
    } else {
      assert (a + b)[1..] == a[1..] + b;
      EscapeAppends(a[1..], b);
    }
  }

  lemma {:induction false} EscapeKeepsPlain(s: string)
    requires forall i :: 0 <= i < |s| ==> EscapeChar(s[i]) == [s[i]]
    ensures Escape(s) == s
  {
    if |s| > 0 {
      EscapeKeepsPlain(s[1..]);
      assert s == [s[0]] + s[1..];
    }
  }

  lemma {:induction false} EscapeStaysNulFree(s: string)
    requires NulFree(s)
    ensures NulFree(Escape(s))
  {
    if |s| > 0 {
      assert NulFree(s[1..]) by { assert forall i :: 0 <= i < |s| - 1 ==> s[1..][i] == s[i + 1]; }
      EscapeStaysNulFree(s[1..]);
      assert s[0] != NUL;
    }
  }

  /** What a browser shows of an escaped text. */
  function Unescape(s: string): string {
    if s == "" then ""
    else if StartsWith(s, "&amp;") then "&" + Unescape(s[5..])
    else if StartsWith(s, "&lt;") then "<" + Unescape(s[4..])
    else if StartsWith(s, "&gt;") then ">" + Unescape(s[4..])
    else if StartsWith(s, "&quot;") then "\"" + Unescape(s[6..])
    else if StartsWith(s, "&#39;") then "'" + Unescape(s[5..])
    else [s[0]] + Unescape(s[1..])
  }

  lemma NotAtStart(s: string, p: string, k: nat)
    requires k < |s| && k < |p| && s[k] != p[k]
    ensures !StartsWith(s, p)
  {
    assert |p| <= |s| ==> s[..|p|][k] == s[k];
  }

  lemma PlainUnescaped(s: string)
    requires |s| > 0 && s[0] != '&'
    ensures Unescape(s) == [s[0]] + Unescape(s[1..])
  {
    hide StartsWith;
    NotAtStart(s, "&amp;", 0);
    NotAtStart(s, "&lt;", 0);
    NotAtStart(s, "&gt;", 0);
    NotAtStart(s, "&quot;", 0);
    NotAtStart(s, "&#39;", 0);
  }

  lemma StartOf(p: string, rest: string)
    ensures StartsWith(p + rest, p) && (p + rest)[|p|..] == rest
  {
  }

  lemma OneUnescaped(c: char, rest: string)
    ensures Unescape(EscapeChar(c) + rest) == [c] + Unescape(rest)
  {
    hide StartsWith;
    var s := EscapeChar(c) + rest;
    StartOf(EscapeChar(c), rest);
    if c == '&' {
    } else if c == '<' {
      NotAtStart(s, "&amp;", 1);
    } else if c == '>' {
      NotAtStart(s, "&amp;", 1);
      NotAtStart(s, "&lt;", 1);
    } else if c == '"' {
      NotAtStart(s, "&amp;", 1);
      NotAtStart(s, "&lt;", 1);
      NotAtStart(s, "&gt;", 1);
    } else if c == '\'' {
      NotAtStart(s, "&amp;", 1);
      NotAtStart(s, "&lt;", 1);
      NotAtStart(s, "&gt;", 1);
      NotAtStart(s, "&quot;", 1);
    } else {
      PlainUnescaped(s);
    }
  }

  /** Escaped text is shown as the text itself, and holds no angle bracket and no quote. */
  lemma {:induction false} EscapeShowsText(s: string)
    ensures Unescape(Escape(s)) == s
    ensures forall c :: c in Escape(s) ==> c !in "<>\"'"
  {
    hide Unescape;
    if |s| > 0 {
      EscapeShowsText(s[1..]);
      OneUnescaped(s[0], Escape(s[1..]));
      assert s == [s[0]] + s[1..];
    } else {
      NothingUnescaped();
    }
  }

  lemma NothingUnescaped()
    ensures Unescape("") == ""
  {
  }

  /** Escaping changes the texts and leaves the sentinels between them. */
  lemma {:induction false} EscapeKeepsSentinels(segments: seq<string>, marks: seq<nat>)
    requires |segments| == |marks| + 1
    ensures Escape(Weave(segments, marks)) == Weave(EscapeAll(segments), marks)
    decreases |marks|
  {
    hide Escape, Sentinel;
    if |marks| > 0 {
      var head, mark, rest := segments[0], Sentinel(marks[0]), Weave(segments[1..], marks[1..]);
      EscapeAppends(head + mark, rest);
      EscapeAppends(head, mark);
      SentinelIsPlain(marks[0]);
      EscapeKeepsPlain(mark);
      EscapeKeepsSentinels(segments[1..], marks[1..]);
      assert EscapeAll(segments)[1..] == EscapeAll(segments[1..]);
    }
  }

  lemma SentinelIsPlain(n: nat)
    ensures forall i :: 0 <= i < |Sentinel(n)| ==> EscapeChar(Sentinel(n)[i]) == [Sentinel(n)[i]]
  {
    hide EscapeChar;
    var d, t := Decimal(n), Sentinel(n);
    assert t == [NUL] + ['S', 'K'] + d + [NUL];
    forall i | 0 <= i < |t| ensures EscapeChar(t[i]) == [t[i]] {
      assert 3 <= i < |t| - 1 ==> t[i] == d[i - 3];
      assert t[i] == NUL || t[i] == 'S' || t[i] == 'K' || IsDigit(t[i]);
      PlainChar(t[i]);
    }
  }

  lemma PlainChar(c: char)
    requires c == NUL || c == 'S' || c == 'K' || IsDigit(c)
    ensures EscapeChar(c) == [c]
  {
  }

  /** With escaping alone between extraction and replacement, each rendering stands between the escaped
      texts around its fence, for every raw text. */
  lemma EscapedInPlace(raw: string, blocks: seq<string>)
    requires |blocks| == |CutFrom(Clean(raw), 0).fences|
    ensures ReplaceFrom(Escape(ExtractFrom(Clean(raw), 0, 0)), 0, blocks) == Splice(EscapeAll(CutFrom(Clean(raw), 0).texts), blocks)
  {
    hide Weave, Splice, CutFrom, Escape;
    var c := CutFrom(Clean(raw), 0);
    ExtractRoundTrip(raw);
    EscapeKeepsSentinels(c.texts, CountFrom(0, |c.fences|));
    forall t | t in EscapeAll(c.texts) ensures NulFree(t) {
      var i :| 0 <= i < |c.texts| && t == Escape(c.texts[i]);
      EscapeStaysNulFree(c.texts[i]);
    }
    RenderedInPlace(raw, Escape(ExtractFrom(Clean(raw), 0, 0)), EscapeAll(c.texts), blocks);
  }

  // ── the loops ──

  lemma Associate<T>(a: seq<T>, b: seq<T>, c: seq<T>)
    ensures a + (b + c) == a + b + c
  {
  }

  method ExtractSketches(raw: string) returns (text: string, blocks: seq<string>)
    ensures text == ExtractFrom(Clean(raw), 0, 0) && blocks == BodiesFrom(Clean(raw), 0)
  {
    hide MatchFence, Sentinel;
    var s := Clean(raw);
    text, blocks := "", [];
    var i := 0;
    while i < |s|
      invariant 0 <= i <= |s|
      invariant ExtractFrom(s, 0, 0) == text + ExtractFrom(s, i, |blocks|)
      invariant BodiesFrom(s, 0) == blocks + BodiesFrom(s, i)
      decreases |s| - i
    {
      match MatchFence(s, i) {
        case Some(m) => {
          Associate(text, Sentinel(|blocks|), ExtractFrom(s, m.end, |blocks| + 1));
          Associate(blocks, [s[m.bodyStart..m.bodyEnd]], BodiesFrom(s, m.end));
          text := text + Sentinel(|blocks|);
          blocks := blocks + [s[m.bodyStart..m.bodyEnd]];
          i := m.end;
        }
        case None => {
          Associate(text, [s[i]], ExtractFrom(s, i + 1, |blocks|));
          text := text + [s[i]];
          i := i + 1;
        }
      }
    }
  }

  method ReplaceSketchPlaceholders(html: string, blocks: seq<string>) returns (out: string)
    ensures out == ReplaceFrom(html, 0, blocks)
  {
    hide MatchSentinel, Rendered;
    out := "";
    var i := 0;
    while i < |html|
      invariant 0 <= i <= |html|
      invariant ReplaceFrom(html, 0, blocks) == out + ReplaceFrom(html, i, blocks)
      decreases |html| - i
    {
      match MatchSentinel(html, i) {
        case Some(pair) => {
          out := out + Rendered(blocks, pair.0);
          i := pair.1;
        }
        case None => {
          out := out + [html[i]];
          i := i + 1;
        }
      }
    }
  }
}
