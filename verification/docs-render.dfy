/** The outer loop of the docs renderer: when it ends, and that its lists balance. */
module DocsRender {
  import opened Options
  import opened JsText

  // ── what the loop asks of a line ──

  predicate IsFence(line: string) {
    StartsWith(line, "```")
  }

  function HashEnd(line: string, i: nat): (j: nat)
    requires i <= |line|
    ensures i <= j <= |line|
    ensures forall k :: i <= k < j ==> line[k] == '#'
    ensures j < |line| ==> line[j] != '#'
    decreases |line| - i
  {
    if i < |line| && line[i] == '#' then HashEnd(line, i + 1) else i
  }

  /** One to six hashes, white space, and then one line of text; the white space may give some back. */
  predicate IsHeading(line: string) {
    var h := HashEnd(line, 0);
    1 <= h <= 6 && exists k :: h < k <= SkipSpace(line, h) && k < |line| && OneLine(line[k..])
  }

  predicate IsRule(t: string) {
    |t| >= 3 && forall i :: 0 <= i < |t| ==> t[i] == '-'
  }

  predicate IsTableLine(t: string) {
    |t| > 0 && t[0] == '|'
  }

  predicate IsBullet(t: string) {
    |t| > 1 && (t[0] == '-' || t[0] == '*') && IsSpace(t[1])
  }

  /** Digits, a point and one white space: what ends a paragraph. */
  predicate LooksOrdered(t: string) {
    var d := DigitsEnd(t, 0);
    d > 0 && d + 1 < |t| && t[d] == '.' && IsSpace(t[d + 1])
  }

  /** The same followed by something that is not a line end: what starts an item. */
  predicate IsOrdered(t: string) {
    var d := DigitsEnd(t, 0);
    LooksOrdered(t) && d + 2 < |t| && !IsLineEnd(t[d + 2])
  }

  /** Whether a paragraph takes the line. */
  predicate InParagraph(line: string) {
    var t := Trim(line);
    t != "" && !StartsWith(line, "#") && !IsFence(line) && !StartsWith(line, "|") && !IsBullet(t) && !LooksOrdered(t)
  }

  datatype Kind = Fence | Heading | HorizontalRule | TableRow | Bullet | Ordered | Blank | Paragraph

  /** The first branch of the loop that fits. */
  function KindOf(line: string): Kind {
    var t := Trim(line);
    if IsFence(line) then Fence
    else if IsHeading(line) then Heading
    else if IsRule(t) then HorizontalRule
    else if IsTableLine(t) then TableRow
    else if IsBullet(t) then Bullet
    else if IsOrdered(t) then Ordered
    else if t == "" then Blank
    else Paragraph
  }

  /** A line that no branch takes: the loop would come back to it for ever. */
  predicate IsStuck(line: string) {
    KindOf(line) == Paragraph && !InParagraph(line)
  }

  // ── blocks ──

  function FenceEnd(lines: seq<string>, i: nat): (j: nat)
    requires i <= |lines|
    ensures i <= j <= |lines|
    ensures forall k :: i <= k < j ==> !IsFence(lines[k])
    ensures j < |lines| ==> IsFence(lines[j])
    decreases |lines| - i
  {
    if i < |lines| && !IsFence(lines[i]) then FenceEnd(lines, i + 1) else i
  }

  function TableEnd(lines: seq<string>, i: nat): (j: nat)
    requires i <= |lines|
    ensures i <= j <= |lines|
    ensures forall k :: i <= k < j ==> IsTableLine(Trim(lines[k]))
    decreases |lines| - i
  {
    if i < |lines| && IsTableLine(Trim(lines[i])) then TableEnd(lines, i + 1) else i
  }

  function ParagraphEnd(lines: seq<string>, i: nat): (j: nat)
    requires i <= |lines|
    ensures i <= j <= |lines|
    ensures forall k :: i <= k < j ==> InParagraph(lines[k])
    decreases |lines| - i
  {
    if i < |lines| && InParagraph(lines[i]) then ParagraphEnd(lines, i + 1) else i
  }

  function Min(a: nat, b: nat): nat {
    if a < b then a else b
  }

  /** Where the loop goes on after the block that starts at line i. */
  function NextBlock(lines: seq<string>, i: nat): (j: nat)
    requires i < |lines|
    ensures i <= j <= |lines|
  {
    match KindOf(lines[i])
    case Fence => Min(FenceEnd(lines, i + 1) + 1, |lines|)
    case TableRow => TableEnd(lines, i)
    case Paragraph => ParagraphEnd(lines, i)
    case _ => i + 1
  }

  /** After n turns of the loop. */
  function AfterTurns(lines: seq<string>, n: nat): (i: nat)
    ensures i <= |lines|
  {
    if n == 0 then 0
    else
      var i := AfterTurns(lines, n - 1);
      if i < |lines| then NextBlock(lines, i) else i
  }

  ghost predicate Terminates(lines: seq<string>) {
    exists n :: AfterTurns(lines, n) == |lines|
  }

  /** How many fence lines stand before line i; an odd number means that i is inside a code block. */
  function Fences(lines: seq<string>, i: nat): nat
    requires i <= |lines|
  {
    if i == 0 then 0 else Fences(lines, i - 1) + if IsFence(lines[i - 1]) then 1 else 0
  }

  ghost predicate Outside(lines: seq<string>, i: nat)
    requires i < |lines|
  {
    Fences(lines, i) % 2 == 0 && !IsFence(lines[i])
  }

  /** No line outside the code blocks is stuck. */
  ghost predicate NoStuckLine(lines: seq<string>) {
    forall i :: 0 <= i < |lines| && Outside(lines, i) ==> !IsStuck(lines[i])
  }

  // ── when a line is stuck ──

  lemma TrimFirst(line: string)
    requires |line| > 0 && !IsSpace(line[0])
    ensures |Trim(line)| > 0 && Trim(line)[0] == line[0]
  {
    assert SkipSpace(line, 0) == 0;
    assert TrimStart(line) == line;
    assert !IsSpace(line[0]);
    assert TextEnd(line, |line|) > 0;
  }

  lemma FirstChar(line: string, p: string)
    requires StartsWith(line, p) && |p| > 0
    ensures |line| > 0 && line[0] == p[0]
  {
    assert line[..|p|][0] == line[0];
  }

  /** The two ways to be stuck: hashes that are no heading, or a number and point without a text. */
  lemma StuckIff(line: string)
    ensures IsStuck(line) <==>
      (StartsWith(line, "#") && !IsHeading(line)) || (LooksOrdered(Trim(line)) && !IsOrdered(Trim(line)))
  {
    hide IsHeading, Trim, TrimStart, TrimEnd;
    var t := Trim(line);
    if StartsWith(line, "#") {
      FirstChar(line, "#");
      TrimFirst(line);
      assert !IsFence(line) by { NotFence(line); }
    }
    if LooksOrdered(t) {
      OrderedFirst(line);
    }
    if StartsWith(line, "|") {
      FirstChar(line, "|");
      TrimFirst(line);
    }
    HeadingStarts(line);
  }

  lemma NotFence(line: string)
    requires |line| > 0 && line[0] != '`'
    ensures !IsFence(line)
  {
    assert |line| >= 3 ==> line[..3][0] == line[0];
  }

  lemma HeadingStarts(line: string)
    ensures IsHeading(line) ==> StartsWith(line, "#")
  {
    var h := HashEnd(line, 0);
    if h > 0 {
      assert line[..1] == "#";
    }
  }

  /** A line that looks like an ordered item starts, after its blanks, with a digit. */
  lemma OrderedFirst(line: string)
    requires LooksOrdered(Trim(line))
    ensures var t := Trim(line); |t| > 0 && IsDigit(t[0])
    ensures !IsFence(line) && !StartsWith(line, "#") && !StartsWith(line, "|")
  {
    hide Trim;
    var t := Trim(line);
    assert IsDigit(t[0]);
    if IsFence(line) {
      FirstChar(line, "```");
      TrimFirst(line);
    }
    if StartsWith(line, "#") {
      FirstChar(line, "#");
      TrimFirst(line);
    }
    if StartsWith(line, "|") {
      FirstChar(line, "|");
      TrimFirst(line);
    }
  }

  // ── the loop ends exactly when no line outside a code block is stuck ──

  lemma {:induction false} FencesSkip(lines: seq<string>, i: nat, j: nat)
    requires i <= j <= |lines| && forall k :: i <= k < j ==> !IsFence(lines[k])
    ensures Fences(lines, j) == Fences(lines, i)
  {
    hide IsFence;
    if i < j {
      FencesSkip(lines, i, j - 1);
    }
  }

  lemma TableIsNoFence(line: string)
    requires IsTableLine(Trim(line))
    ensures !IsFence(line)
  {
    hide Trim;
    if IsFence(line) {
      FirstChar(line, "```");
      TrimFirst(line);
    }
  }

  lemma {:induction false} ParagraphTakes(lines: seq<string>, i: nat)
    requires i < |lines|
    ensures ParagraphEnd(lines, i) == i <==> !InParagraph(lines[i])
  {
    hide InParagraph;
  }

  lemma FenceKeepsEven(lines: seq<string>, i: nat)
    requires i < |lines| && IsFence(lines[i])
    ensures var e := FenceEnd(lines, i + 1);
      e < |lines| ==> Fences(lines, e + 1) == Fences(lines, i) + 2
  {
    hide IsFence;
    FencesSkip(lines, i + 1, FenceEnd(lines, i + 1));
  }

  lemma NextIsEven(lines: seq<string>, i: nat)
    requires i < |lines| && Fences(lines, i) % 2 == 0
    ensures var j := NextBlock(lines, i); j < |lines| ==> Fences(lines, j) % 2 == 0
  {
    hide IsFence, InParagraph, IsTableLine, Trim, Fences, KindOf;
    var line := lines[i];
    var j := NextBlock(lines, i);
    KindIsFence(line);
    match KindOf(line) {
      case Fence => FenceKeepsEven(lines, i);
      case TableRow => {
        forall k | i <= k < j ensures !IsFence(lines[k]) {
          TableIsNoFence(lines[k]);
        }
        FencesSkip(lines, i, j);
      }
      case Paragraph => {
        forall k | i <= k < j ensures !IsFence(lines[k]) {
          ParagraphIsNoFence(lines[k]);
        }
        FencesSkip(lines, i, j);
      }
      case _ => FencesSkip(lines, i, i + 1);
    }
  }

  lemma TableTakes(lines: seq<string>, i: nat)
    requires i < |lines| && IsTableLine(Trim(lines[i]))
    ensures TableEnd(lines, i) > i
  {
    hide IsTableLine, Trim;
  }

  lemma StuckIffSame(lines: seq<string>, i: nat)
    requires i < |lines|
    ensures NextBlock(lines, i) == i <==> IsStuck(lines[i])
    ensures IsStuck(lines[i]) ==> !IsFence(lines[i])
  {
    hide IsFence, InParagraph, IsTableLine, Trim, KindOf;
    var line := lines[i];
    KindIsFence(line);
    ParagraphTakes(lines, i);
    if KindOf(line) == TableRow {
      KindIsTable(line);
      TableTakes(lines, i);
    }
  }

  /** Blocks start outside code blocks, and only a stuck line makes a block take nothing. */
  lemma BlockStarts(lines: seq<string>, i: nat)
    requires i < |lines| && Fences(lines, i) % 2 == 0
    ensures var j := NextBlock(lines, i);
      && (j < |lines| ==> Fences(lines, j) % 2 == 0)
      && (j == i <==> IsStuck(lines[i]))
      && (IsStuck(lines[i]) ==> Outside(lines, i))
  {
    hide NextBlock, IsStuck, IsFence;
    NextIsEven(lines, i);
    StuckIffSame(lines, i);
  }

  lemma KindIsFence(line: string)
    ensures KindOf(line) == Fence <==> IsFence(line)
  {
    hide IsFence, InParagraph, Trim, IsHeading, IsBullet, IsOrdered, IsTableLine, IsRule;
  }

  lemma KindIsTable(line: string)
    requires KindOf(line) == TableRow
    ensures IsTableLine(Trim(line))
  {
    hide IsFence, InParagraph, Trim, IsHeading, IsBullet, IsOrdered, IsTableLine, IsRule;
  }

  lemma ParagraphIsNoFence(line: string)
    requires InParagraph(line)
    ensures !IsFence(line)
  {
  }

  lemma {:induction false} TurnsStayOutside(lines: seq<string>, n: nat)
    ensures var i := AfterTurns(lines, n); i < |lines| ==> Fences(lines, i) % 2 == 0
  {
    hide NextBlock;
    if n > 0 {
      TurnsStayOutside(lines, n - 1);
      var i := AfterTurns(lines, n - 1);
      if i < |lines| {
        BlockStarts(lines, i);
      }
    }
  }

  /** Without stuck lines every turn moves on. */
  lemma {:induction false} TurnsAdvance(lines: seq<string>, n: nat)
    requires NoStuckLine(lines)
    ensures AfterTurns(lines, n) >= Min(n, |lines|)
  {
    hide NextBlock, IsStuck, Outside;
    if n > 0 {
      TurnsAdvance(lines, n - 1);
      var i := AfterTurns(lines, n - 1);
      if i < |lines| {
        TurnsStayOutside(lines, n - 1);
        BlockStarts(lines, i);
        NotStuckHere(lines, i);
      }
    }
  }

  lemma NotStuckHere(lines: seq<string>, i: nat)
    requires NoStuckLine(lines) && i < |lines| && (IsStuck(lines[i]) ==> Outside(lines, i))
    ensures !IsStuck(lines[i])
  {
  }

  /** A block never runs over a stuck line. */
  lemma BlocksStopAtStuck(lines: seq<string>, i: nat, s: nat)
    requires i <= s < |lines| && Fences(lines, i) % 2 == 0 && Outside(lines, s) && IsStuck(lines[s])
    ensures NextBlock(lines, i) <= s
  {
    hide IsFence, Trim, IsHeading, IsBullet, IsOrdered, IsTableLine, IsRule, InParagraph, IsStuck, KindOf;
    var line := lines[i];
    StuckIsNoTable(lines[s]);
    KindIsFence(line);
    if i < s {
      match KindOf(line) {
        case Fence => {
          assert Fences(lines, i + 1) == Fences(lines, i) + 1;
          if s < FenceEnd(lines, i + 1) {
            FencesSkip(lines, i + 1, s);
          }
        }
        case TableRow =>
        case Paragraph =>
        case _ =>
      }
    } else {
      BlockStarts(lines, i);
    }
  }

  lemma StuckIsNoTable(line: string)
    requires IsStuck(line)
    ensures !IsTableLine(Trim(line)) && !InParagraph(line)
  {
    hide IsFence, Trim, IsHeading, IsBullet, IsOrdered, IsTableLine, IsRule, InParagraph;
  }

  lemma {:induction false} NeverPast(lines: seq<string>, n: nat, s: nat)
    requires s < |lines| && Outside(lines, s) && IsStuck(lines[s])
    ensures AfterTurns(lines, n) <= s
  {
    hide NextBlock, IsStuck, Outside;
    if n > 0 {
      NeverPast(lines, n - 1, s);
      TurnsStayOutside(lines, n - 1);
      BlocksStopAtStuck(lines, AfterTurns(lines, n - 1), s);
    }
  }

  /** The loop ends exactly when no line outside the code blocks is stuck. */
  lemma TerminatesIff(lines: seq<string>)
    ensures Terminates(lines) <==> NoStuckLine(lines)
  {
    hide AfterTurns, IsStuck, Outside;
    if NoStuckLine(lines) {
      TurnsAdvance(lines, |lines|);
      assert AfterTurns(lines, |lines|) == |lines|;
    } else {
      var s :| 0 <= s < |lines| && Outside(lines, s) && IsStuck(lines[s]);
      forall n ensures AfterTurns(lines, n) != |lines| {
        NeverPast(lines, n, s);
      }
    }
  }

  /** Good headings are not enough: a number, a point and a bare line separator hang the loop too. */
  lemma WellFormedHeadingsDoNotSuffice()
    ensures
      var line := "1. \U{2028}x";
      !StartsWith(line, "#") && IsStuck(line) && !Terminates([line])
  {
    hide Terminates, NoStuckLine, IsHeading;
    var line := "1. \U{2028}x";
    assert SkipSpace(line, 0) == 0 && TrimStart(line) == line;
    assert TextEnd(line, |line|) == |line| && Trim(line) == line;
    assert DigitsEnd(line, 0) == DigitsEnd(line, 1) == 1;
    StuckIff(line);
    assert Fences([line], 0) == 0;
    assert !IsFence(line) by { NotFence(line); }
    assert Outside([line], 0);
    assert !NoStuckLine([line]) by { OneStuck(line); }
    TerminatesIff([line]);
  }

  lemma OneStuck(line: string)
    requires Outside([line], 0) && IsStuck(line)
    ensures !NoStuckLine([line])
  {
    hide IsStuck, Outside;
    assert [line][0] == line;
  }

  // ── lists ──

  datatype Token = OpenList(ordered: bool) | CloseList(ordered: bool) | Entry(ordered: bool, line: nat)
                 | Block(kind: Kind, from: nat, to: nat)

  datatype State = State(out: seq<Token>, inList: bool, ordered: bool)

  function Closed(s: State): State {
    if s.inList then State(s.out + [CloseList(s.ordered)], false, s.ordered) else s
  }

  function Item(s: State, ordered: bool, i: nat): State {
    var o := if !s.inList || s.ordered != ordered then
      State(Closed(s).out + [OpenList(ordered)], true, ordered) else s;
    o.(out := o.out + [Entry(ordered, i)])
  }

  /** One turn: items go into a list of their own kind, everything else closes the list. */
  function Turn(lines: seq<string>, i: nat, s: State): State
    requires i < |lines|
  {
    match KindOf(lines[i])
    case Bullet => Item(s, false, i)
    case Ordered => Item(s, true, i)
    case Blank => Closed(s)
    case _ => Closed(s).(out := Closed(s).out + [Block(KindOf(lines[i]), i, NextBlock(lines, i))])
  }

  // ── what each block adds to the output ──

  function Rank(k: Kind): nat {
    match k
    case Fence => 0 case Heading => 1 case HorizontalRule => 2 case TableRow => 3
    case Bullet => 4 case Ordered => 5 case Blank => 6 case Paragraph => 7
  }

  /** What the test of each branch asks of a line, as its pattern reads. */
  ghost predicate Looks(line: string, k: Kind) {
    var t := Trim(line);
    match k
    case Fence => |line| >= 3 && line[..3] == "```"
    case Heading => exists h, x :: HeadingParts(line, h, x)
    case HorizontalRule => |t| >= 3 && forall i :: 0 <= i < |t| ==> t[i] == '-'
    case TableRow => t != "" && t[0] == '|'
    case Bullet => |t| >= 2 && t[0] in "-*" && IsSpace(t[1])
    case Ordered => exists d :: OrderedParts(t, d) && d + 2 < |t| && !IsLineEnd(t[d + 2])
    case Blank => t == ""
    case Paragraph => true
  }

  /** `h` hashes, white space up to `x`, and a text without line ends. */
  ghost predicate HeadingParts(line: string, h: int, x: int) {
    && 1 <= h <= 6 && h < x < |line|
    && (forall i :: 0 <= i < h ==> line[i] == '#') && (forall i :: h <= i < x ==> IsSpace(line[i]))
    && forall i :: x <= i < |line| ==> !IsLineEnd(line[i])
  }

  /** `d` digits, a point and a white space. */
  ghost predicate OrderedParts(t: string, d: int) {
    1 <= d < |t| - 1 && (forall i :: 0 <= i < d ==> IsDigit(t[i])) && t[d] == '.' && IsSpace(t[d + 1])
  }

  lemma {:induction false} HashesEnd(line: string, i: nat, g: nat)
    requires i <= g < |line| && (forall k :: i <= k < g ==> line[k] == '#') && line[g] != '#'
    ensures HashEnd(line, i) == g
    decreases g - i
  {
    if i < g {
      HashesEnd(line, i + 1, g);
    }
  }

  lemma {:induction false} SpacesReach(line: string, i: nat, x: nat)
    requires i <= x <= |line| && forall k :: i <= k < x ==> IsSpace(line[k])
    ensures SkipSpace(line, i) >= x
    decreases x - i
  {
    if i < x {
      SpacesReach(line, i + 1, x);
    }
  }

  lemma HeadingLooks(line: string)
    ensures IsHeading(line) <==> Looks(line, Heading)
  {
    var h := HashEnd(line, 0);
    var e := SkipSpace(line, h);
    if IsHeading(line) {
      var k :| h < k <= e && k < |line| && OneLine(line[k..]);
      forall i | k <= i < |line| ensures !IsLineEnd(line[i]) {
        assert line[i] == line[k..][i - k];
      }
      assert HeadingParts(line, h, k);
    }
    if g, x :| HeadingParts(line, g, x) {
      HashesEnd(line, 0, g);
      SpacesReach(line, g, x);
      assert OneLine(line[x..]);
    }
  }

  lemma OrderedLooks(t: string, d: int)
    ensures LooksOrdered(t) <==> exists d :: OrderedParts(t, d)
    ensures OrderedParts(t, d) ==> d == DigitsEnd(t, 0)
  {
    var e := DigitsEnd(t, 0);
    if LooksOrdered(t) {
      assert OrderedParts(t, e);
    }
    if c :| OrderedParts(t, c) {
      assert !(c < e) && !(e < c);
    }
    if OrderedParts(t, d) {
      assert !(d < e) && !(e < d);
    }
  }

  lemma BranchTests(line: string)
    ensures var t := Trim(line);
      && (IsFence(line) <==> Looks(line, Fence)) && (IsHeading(line) <==> Looks(line, Heading))
      && (IsRule(t) <==> Looks(line, HorizontalRule)) && (IsTableLine(t) <==> Looks(line, TableRow))
      && (IsBullet(t) <==> Looks(line, Bullet)) && (IsOrdered(t) <==> Looks(line, Ordered))
      && (t == "" <==> Looks(line, Blank)) && Looks(line, Paragraph)
  {
    hide IsHeading, Trim, HeadingParts, OrderedParts, LooksOrdered;
    var t := Trim(line);
    HeadingLooks(line);
    OrderedLooks(t, DigitsEnd(t, 0));
    forall d | OrderedParts(t, d) ensures d == DigitsEnd(t, 0) {
      OrderedLooks(t, d);
    }
  }

  /** The loop takes the first branch whose pattern fits. */
  lemma KindIsFirst(line: string, k: Kind)
    ensures KindOf(line) == k <==> Looks(line, k) && forall e :: Rank(e) < Rank(k) ==> !Looks(line, e)
  {
    hide Looks, Trim, IsFence, IsHeading, IsRule, IsTableLine, IsBullet, IsOrdered;
    BranchTests(line);
    var first := KindOf(line);
    assert Looks(line, first);
    forall e | Rank(e) < Rank(first) ensures !Looks(line, e) {
      match e { case Fence => case Heading => case HorizontalRule => case TableRow => case Bullet => case _ => }
    }
  }

  /** A block runs on as far as its kind does. */
  ghost predicate Extends(lines: seq<string>, kind: Kind, i: nat, j: nat)
    requires i < |lines|
  {
    match kind
    case Fence =>
      && i < j <= |lines|
      && (forall k :: i < k < j - 1 ==> !Looks(lines[k], Fence))
      && if j - 1 > i && Looks(lines[j - 1], Fence) then true else j == |lines|
    case TableRow =>
      && i < j <= |lines|
      && (forall k :: i <= k < j ==> Looks(lines[k], TableRow))
      && (j < |lines| ==> !Looks(lines[j], TableRow))
    case Paragraph =>
      && i < j <= |lines|
      && (forall k :: i <= k < j ==> Flows(lines[k]))
      && (j < |lines| ==> !Flows(lines[j]))
    case _ => j == i + 1
  }

  /** A line that a paragraph takes. */
  ghost predicate Flows(line: string) {
    && !Looks(line, Blank) && !Looks(line, Fence) && !Looks(line, Bullet)
    && (line != "" ==> line[0] != '#' && line[0] != '|')
    && forall d :: !OrderedParts(Trim(line), d)
  }

  lemma FlowsIff(line: string)
    ensures InParagraph(line) <==> Flows(line)
  {
    hide Trim, OrderedParts, LooksOrdered;
    OrderedLooks(Trim(line), 0);
    assert StartsWith(line, "#") <==> line != "" && line[0] == '#';
    assert StartsWith(line, "|") <==> line != "" && line[0] == '|';
  }

  lemma NextExtends(lines: seq<string>, i: nat)
    requires i < |lines| && !IsStuck(lines[i])
    ensures Extends(lines, KindOf(lines[i]), i, NextBlock(lines, i))
  {
    hide KindOf, InParagraph, Flows, Trim, OrderedParts, HeadingParts;
    var j := NextBlock(lines, i);
    KindIsTableOrNot(lines[i]);
    ParagraphTakes(lines, i);
    forall line ensures InParagraph(line) <==> Flows(line) { FlowsIff(line); }
    ParagraphStops(lines, i);
    TableStops(lines, i);
  }

  lemma KindIsTableOrNot(line: string)
    ensures KindOf(line) == TableRow ==> IsTableLine(Trim(line))
  {
    if KindOf(line) == TableRow {
      KindIsTable(line);
    }
  }

  lemma {:induction false} ParagraphStops(lines: seq<string>, i: nat)
    requires i <= |lines|
    ensures var j := ParagraphEnd(lines, i); j < |lines| ==> !InParagraph(lines[j])
    decreases |lines| - i
  {
    hide InParagraph;
    if i < |lines| && InParagraph(lines[i]) {
      ParagraphStops(lines, i + 1);
    }
  }

  lemma {:induction false} TableStops(lines: seq<string>, i: nat)
    requires i <= |lines|
    ensures var j := TableEnd(lines, i); j < |lines| ==> !IsTableLine(Trim(lines[j]))
    decreases |lines| - i
  {
    hide IsTableLine, Trim;
    if i < |lines| && IsTableLine(Trim(lines[i])) {
      TableStops(lines, i + 1);
    }
  }

  /**
   * What one turn does: an item joins an open list of its kind or opens one, anything else closes the list,
   * and a block goes on exactly as far as its kind does.
   */
  lemma TurnEffect(lines: seq<string>, i: nat, s: State)
    requires i < |lines| && !IsStuck(lines[i])
    ensures var t := Turn(lines, i, s); var kind := KindOf(lines[i]);
      var end := if s.inList then [CloseList(s.ordered)] else [];
      && Extends(lines, kind, i, NextBlock(lines, i))
      && if kind == Bullet || kind == Ordered then
           var o := kind == Ordered;
           if s.inList && s.ordered == o then t == State(s.out + [Entry(o, i)], true, o)
           else t == State(s.out + end + [OpenList(o), Entry(o, i)], true, o)
         else if kind == Blank then t == State(s.out + end, false, s.ordered)
         else t == State(s.out + end + [Block(kind, i, NextBlock(lines, i))], false, s.ordered)
  {
    hide KindOf, NextBlock, IsStuck, Extends;
    NextExtends(lines, i);
  }

  /** The open list after the tokens; None inside when nothing is open, outer None when they do not balance. */
  function OpenAfter(out: seq<Token>): Option<Option<bool>> {
    if |out| == 0 then Some(None)
    else
      match OpenAfter(out[..|out| - 1])
      case None => None
      case Some(open) =>
        match out[|out| - 1]
        case OpenList(o) => if open == None then Some(Some(o)) else None
        case CloseList(o) => if open == Some(o) then Some(None) else None
        case Entry(o, _) => if open == Some(o) then Some(open) else None
        case Block(_, _, _) => if open == None then Some(open) else None
  }

  ghost predicate Balanced(s: State) {
    OpenAfter(s.out) == Some(if s.inList then Some(s.ordered) else None)
  }

  lemma PushOpen(out: seq<Token>, t: Token)
    ensures (out + [t])[..|out|] == out && (out + [t])[|out|] == t
  {
  }

  lemma ClosedBalances(s: State)
    requires Balanced(s)
    ensures Balanced(Closed(s)) && !Closed(s).inList
  {
    PushOpen(s.out, CloseList(s.ordered));
  }

  lemma ItemBalances(s: State, ordered: bool, i: nat)
    requires Balanced(s)
    ensures Balanced(Item(s, ordered, i)) && Item(s, ordered, i).inList && Item(s, ordered, i).ordered == ordered
  {
    ClosedBalances(s);
    PushOpen(Closed(s).out, OpenList(ordered));
    var o := if !s.inList || s.ordered != ordered then
      State(Closed(s).out + [OpenList(ordered)], true, ordered) else s;
    PushOpen(o.out, Entry(ordered, i));
  }

  lemma TurnBalances(lines: seq<string>, i: nat, s: State)
    requires i < |lines| && Balanced(s)
    ensures Balanced(Turn(lines, i, s))
  {
    hide Balanced, KindOf, NextBlock, Item, Closed;
    ItemBalances(s, false, i);
    ItemBalances(s, true, i);
    ClosedBalances(s);
    BlockBalances(Closed(s), KindOf(lines[i]), i, NextBlock(lines, i));
  }

  lemma BlockBalances(s: State, kind: Kind, i: nat, j: nat)
    requires Balanced(s) && !s.inList
    ensures Balanced(s.(out := s.out + [Block(kind, i, j)]))
  {
    PushOpen(s.out, Block(kind, i, j));
  }

  /** The state after the loop has gone over lines i to the end. */
  function Run(lines: seq<string>, i: nat, s: State): State
    requires i <= |lines| && NoStuckLine(lines) && (i < |lines| ==> Fences(lines, i) % 2 == 0)
    decreases |lines| - i
  {
    if i == |lines| then s
    else
      BlockStarts(lines, i);
      NotStuckHere(lines, i);
      Run(lines, NextBlock(lines, i), Turn(lines, i, s))
  }

  lemma {:induction false} RunBalances(lines: seq<string>, i: nat, s: State)
    requires i <= |lines| && NoStuckLine(lines) && (i < |lines| ==> Fences(lines, i) % 2 == 0) && Balanced(s)
    ensures Balanced(Run(lines, i, s))
    decreases |lines| - i
  {
    hide Balanced, Turn, NextBlock, IsStuck, NoStuckLine;
    if i < |lines| {
      BlockStarts(lines, i);
      NotStuckHere(lines, i);
      TurnBalances(lines, i, s);
      RunBalances(lines, NextBlock(lines, i), Turn(lines, i, s));
    }
  }

  /** On a document without stuck lines: the lists of the output balance, each item in a list of its kind. */
  method Render(lines: seq<string>) returns (out: seq<Token>)
    requires NoStuckLine(lines)
    ensures OpenAfter(out) == Some(None)
    ensures out == Closed(Run(lines, 0, State([], false, false))).out
  {
    hide KindOf, NextBlock, NoStuckLine, IsStuck, Run, OpenAfter;
    var s := State([], false, false);
    assert Balanced(s) by { EmptyBalances(); }
    var i := 0;
    assert Fences(lines, 0) == 0;
    ghost var whole := Run(lines, 0, s);
    while i < |lines|
      invariant 0 <= i <= |lines| && (i < |lines| ==> Fences(lines, i) % 2 == 0)
      invariant Balanced(s)
      invariant whole == Run(lines, i, s)
      decreases |lines| - i
    {
      var next := NextBlock(lines, i);
      BlockStarts(lines, i);
      NotStuckHere(lines, i);
      TurnBalances(lines, i, s);
      RunStep(lines, i, s);
      match KindOf(lines[i]) {
        case Bullet => s := PushItem(s, false, i);
        case Ordered => s := PushItem(s, true, i);
        case Blank => s := Closed(s);
        case _ => {
          s := Closed(s);
          s := s.(out := s.out + [Block(KindOf(lines[i]), i, next)]);
        }
      }
      i := next;
    }
    RunDone(lines, s);
    ClosedBalances(s);
    s := Closed(s);
    out := s.out;
  }

  method PushItem(s: State, ordered: bool, i: nat) returns (r: State)
    ensures r == Item(s, ordered, i)
  {
    r := s;
    if !r.inList || r.ordered != ordered {
      r := Closed(r);
      r := State(r.out + [OpenList(ordered)], true, ordered);
    }
    r := r.(out := r.out + [Entry(ordered, i)]);
  }

  lemma EmptyBalances()
    ensures Balanced(State([], false, false))
  {
  }

  lemma RunStep(lines: seq<string>, i: nat, s: State)
    requires i < |lines| && NoStuckLine(lines) && Fences(lines, i) % 2 == 0
    ensures NextBlock(lines, i) < |lines| ==> Fences(lines, NextBlock(lines, i)) % 2 == 0
    ensures Run(lines, i, s) == Run(lines, NextBlock(lines, i), Turn(lines, i, s))
  {
    hide NextBlock, Turn, NoStuckLine, IsStuck;
    BlockStarts(lines, i);
  }

  lemma RunDone(lines: seq<string>, s: State)
    requires NoStuckLine(lines)
    ensures Run(lines, |lines|, s) == s
  {
  }
}
