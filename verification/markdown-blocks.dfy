/** The block pass of the archived dashboard's markdown renderer: lists, tables and paragraphs. */
module MarkdownBlocks {
  import opened Options

  datatype Tag = Ul | Ol | Para | Table

  /** A list item line: its list and its indentation. */
  datatype Item = Item(tag: Tag, indent: nat)

  /**
   * What the pass asks of a line. `item` is a marker with content, `marker` a marker alone or with
   * content (what the look-ahead past blank lines asks), `markup` a line that starts like a heading
   * or rule already rendered, `plain` one that may continue a list item.
   */
  datatype Line = Line(rule: bool, pipe: bool, separator: bool, item: Option<Item>, marker: bool, blank: bool,
                       plain: bool, markup: bool)

  /** One piece of output; content is named by the lines it comes from. */
  datatype Token =
    | Open(tag: Tag)
    | Close(tag: Tag)
    | Rule
    | Break
    | Entry(lines: seq<nat>)
    | Raw(line: nat)
    | Head(line: nat)
    | Row(line: nat)

  datatype Level = Level(tag: Tag, indent: nat)

  datatype State = State(out: seq<Token>, lists: seq<Level>, inPara: bool, inTable: bool)

  predicate IsList(t: Tag) {
    t == Ul || t == Ol
  }

  /** Items are list items. */
  predicate LineGood(l: Line) {
    l.item.Some? ==> IsList(l.item.value.tag)
  }

  ghost predicate LinesGood(lines: seq<Line>) {
    forall l :: l in lines ==> LineGood(l)
  }

  function Start(): State {
    State([], [], false, false)
  }

  function Emit(s: State, t: Token): State {
    s.(out := s.out + [t])
  }

  // ── the helpers ──

  function ClosedTo(s: State, indent: int): State
    decreases |s.lists|
  {
    if |s.lists| > 0 && s.lists[|s.lists| - 1].indent >= indent then
      ClosedTo(Emit(s, Close(s.lists[|s.lists| - 1].tag)).(lists := s.lists[..|s.lists| - 1]), indent)
    else s
  }

  function ClosedLists(s: State): State {
    ClosedTo(s, -1)
  }

  function ClosedPara(s: State): State {
    if s.inPara then Emit(s, Close(Para)).(inPara := false) else s
  }

  function ClosedTable(s: State): State {
    if s.inTable then Emit(s, Close(Table)).(inTable := false) else s
  }

  function Opened(s: State, item: Item): State {
    Emit(s, Open(item.tag)).(lists := s.lists + [Level(item.tag, item.indent)])
  }

  /** The list that an item goes into: the open one, a deeper one, or one after closing deeper ones. */
  function InList(s: State, item: Item): State {
    if |s.lists| == 0 || item.indent > s.lists[|s.lists| - 1].indent then Opened(s, item)
    else if item.indent < s.lists[|s.lists| - 1].indent then
      var c := ClosedTo(s, item.indent);
      if |c.lists| == 0 || c.lists[|c.lists| - 1].indent < item.indent then Opened(c, item) else c
    else s
  }

  /** A continuation line joins the last item. */
  function Continued(s: State, i: nat): State {
    var n := |s.out| - 1;
    if n >= 0 && s.out[n].Entry? then s.(out := s.out[n := Entry(s.out[n].lines + [i])]) else Emit(s, Raw(i))
  }

  function Peek(lines: seq<Line>, j: nat): (k: nat)
    requires j <= |lines|
    ensures j <= k <= |lines|
    decreases |lines| - j
  {
    if j < |lines| && lines[j].blank then Peek(lines, j + 1) else j
  }

  /** After a blank line, the next line that is not blank goes on with the list. */
  predicate ListGoesOn(lines: seq<Line>, i: nat)
    requires i < |lines|
  {
    var k := Peek(lines, i + 1);
    k < |lines| && lines[k].marker
  }

  function Paragraph(s: State, i: nat): State {
    Emit(if s.inPara then Emit(s, Break) else Emit(s, Open(Para)).(inPara := true), Raw(i))
  }

  /** One turn of the loop outside a table: the next line number stays i + 1. */
  function Plain(lines: seq<Line>, i: nat, s: State): State
    requires i < |lines|
  {
    var line := lines[i];
    if line.item.Some? then Emit(InList(ClosedPara(s), line.item.value), Entry([i]))
    else if |s.lists| > 0 && !line.blank && line.plain then Continued(s, i)
    else if line.blank && |s.lists| > 0 && ListGoesOn(lines, i) then s
    else
      var c := ClosedLists(s);
      if line.blank then ClosedPara(c)
      else if line.markup then Emit(ClosedPara(c), Raw(i))
      else Paragraph(c, i)
  }

  predicate StartsTable(lines: seq<Line>, i: nat, s: State)
    requires i < |lines|
  {
    !s.inTable && lines[i].pipe && i + 1 < |lines| && lines[i + 1].separator
  }

  /** One turn of the loop: where it goes on, and the new state. */
  function Turn(lines: seq<Line>, i: nat, s: State): (r: (nat, State))
    requires i < |lines|
    ensures i < r.0 <= |lines|
  {
    if lines[i].rule then (i + 1, Emit(ClosedLists(ClosedPara(s)), Rule))
    else if StartsTable(lines, i, s) then
      (i + 2, Emit(Emit(ClosedLists(ClosedPara(s)), Open(Table)), Head(i)).(inTable := true))
    else if s.inTable && lines[i].pipe then (i + 1, Emit(s, Row(i)))
    else (i + 1, Plain(lines, i, ClosedTable(s)))
  }

  function Run(lines: seq<Line>, i: nat, s: State): State
    requires i <= |lines|
    decreases |lines| - i
  {
    if i == |lines| then s else var (j, t) := Turn(lines, i, s); Run(lines, j, t)
  }

  function Finish(s: State): seq<Token> {
    ClosedTable(ClosedLists(ClosedPara(s))).out
  }

  // ── nesting ──

  /** The open tags after a token, if it may stand there. */
  function After(open: seq<Tag>, t: Token): Option<seq<Tag>> {
    var top := if |open| > 0 then Some(open[|open| - 1]) else None;
    match t
    case Open(tag) =>
      if IsList(tag) then (if top.None? || IsList(top.value) then Some(open + [tag]) else None)
      else if top.None? then Some([tag]) else None
    case Close(tag) => if top == Some(tag) then Some(open[..|open| - 1]) else None
    case Rule => if top.None? || top == Some(Table) then Some(open) else None
    case Break => if top == Some(Para) then Some(open) else None
    case Entry(_) => if top.Some? && IsList(top.value) then Some(open) else None
    case Raw(_) => if top.None? || top == Some(Para) then Some(open) else None
    case Head(_) => if top == Some(Table) then Some(open) else None
    case Row(_) => if top == Some(Table) then Some(open) else None
  }

  /** The open tags after all the tokens; None when some token stands where it must not. */
  function OpenTags(out: seq<Token>): Option<seq<Tag>> {
    if |out| == 0 then Some([])
    else
      match OpenTags(out[..|out| - 1])
      case None => None
      case Some(open) => After(open, out[|out| - 1])
  }

  function Tags(lists: seq<Level>): seq<Tag> {
    seq(|lists|, i requires 0 <= i < |lists| => lists[i].tag)
  }

  function Expected(s: State): seq<Tag> {
    if s.inTable then [Table] else if s.inPara then [Para] else Tags(s.lists)
  }

  ghost predicate Increasing(lists: seq<Level>) {
    forall i, j :: 0 <= i < j < |lists| ==> lists[i].indent < lists[j].indent
  }

  /** What holds between any two lines. */
  ghost predicate Good(s: State) {
    && Increasing(s.lists) && (forall l :: l in s.lists ==> IsList(l.tag))
    && !(s.inPara && s.inTable)
    && (s.inPara || s.inTable ==> s.lists == [])
    && OpenTags(s.out) == Some(Expected(s))
    && (|s.lists| > 0 ==> |s.out| > 0 && s.out[|s.out| - 1].Entry?)
  }

  /** The same while an item is on its way: the last token need not be an item yet. */
  ghost predicate GoodLists(s: State) {
    && Increasing(s.lists) && (forall l :: l in s.lists ==> IsList(l.tag))
    && !s.inPara && !s.inTable
    && OpenTags(s.out) == Some(Tags(s.lists))
  }

  lemma EmitOpens(s: State, t: Token)
    ensures OpenTags(Emit(s, t).out)
         == match OpenTags(s.out) case None => None case Some(open) => After(open, t)
  {
    assert Emit(s, t).out[..|s.out|] == s.out;
  }

  lemma TagsGrow(lists: seq<Level>, l: Level)
    ensures Tags(lists + [l]) == Tags(lists) + [l.tag]
  {
  }

  lemma CloseOne(s: State)
    requires GoodLists(s) && |s.lists| > 0
    ensures var n := |s.lists| - 1;
      GoodLists(Emit(s, Close(s.lists[n].tag)).(lists := s.lists[..n]))
  {
    hide OpenTags;
    var n := |s.lists| - 1;
    EmitOpens(s, Close(s.lists[n].tag));
    assert Tags(s.lists)[..n] == Tags(s.lists[..n]);
  }

  lemma {:induction false} ClosedToGood(s: State, indent: int)
    requires GoodLists(s)
    ensures var c := ClosedTo(s, indent);
      && GoodLists(c) && c.lists <= s.lists
      && (|c.lists| > 0 ==> c.lists[|c.lists| - 1].indent < indent)
      && (indent < 0 ==> c.lists == [])
    decreases |s.lists|
  {
    hide GoodLists;
    if |s.lists| > 0 && s.lists[|s.lists| - 1].indent >= indent {
      CloseOne(s);
      var n := |s.lists| - 1;
      ClosedToGood(Emit(s, Close(s.lists[n].tag)).(lists := s.lists[..n]), indent);
    }
  }

  lemma ClosedParaGood(s: State)
    requires Good(s)
    ensures Good(ClosedPara(s)) && !ClosedPara(s).inPara
    ensures ClosedPara(s).lists == s.lists && ClosedPara(s).inTable == s.inTable
  {
    EmitOpens(s, Close(Para));
    assert Tags([]) == [];
  }

  lemma ClosedTableGood(s: State)
    requires Good(s)
    ensures Good(ClosedTable(s)) && !ClosedTable(s).inTable
  {
    EmitOpens(s, Close(Table));
    assert Tags([]) == [];
  }

  lemma OutsideIsLists(s: State)
    requires Good(s) && !s.inPara && !s.inTable
    ensures GoodLists(s)
  {
  }

  /** Closing all lists from any state between lines. */
  lemma ClosedListsGood(s: State)
    requires Good(s)
    ensures Good(ClosedLists(s)) && ClosedLists(s).lists == []
    ensures ClosedLists(s).inPara == s.inPara && ClosedLists(s).inTable == s.inTable
  {
    if !s.inPara && !s.inTable {
      ClosedToGood(s, -1);
    }
  }

  lemma OpenedGood(s: State, item: Item)
    requires GoodLists(s) && IsList(item.tag)
    requires |s.lists| > 0 ==> s.lists[|s.lists| - 1].indent < item.indent
    ensures GoodLists(Opened(s, item))
  {
    EmitOpens(s, Open(item.tag));
    TagsGrow(s.lists, Level(item.tag, item.indent));
  }

  lemma InListGood(s: State, item: Item)
    requires GoodLists(s) && IsList(item.tag)
    ensures var r := InList(s, item);
      GoodLists(r) && |r.lists| > 0 && r.lists[|r.lists| - 1].indent == item.indent
  {
    hide OpenTags;
    if |s.lists| == 0 || item.indent > s.lists[|s.lists| - 1].indent {
      OpenedGood(s, item);
    } else if item.indent < s.lists[|s.lists| - 1].indent {
      ClosedToGood(s, item.indent);
      OpenedGood(ClosedTo(s, item.indent), item);
    }
  }

  lemma EntryGood(s: State, i: nat)
    requires GoodLists(s) && |s.lists| > 0
    ensures Good(Emit(s, Entry([i])))
  {
    EmitOpens(s, Entry([i]));
  }

  lemma ContinuedGood(s: State, i: nat)
    requires Good(s) && |s.lists| > 0
    ensures Good(Continued(s, i)) && Continued(s, i).lists == s.lists
  {
    var n := |s.out| - 1;
    var r := Continued(s, i);
    assert r.out[..n] == s.out[..n];
  }

  lemma RuleGood(s: State)
    requires Good(s) && s.lists == [] && !s.inPara
    ensures Good(Emit(s, Rule))
  {
    EmitOpens(s, Rule);
  }

  lemma TableGood(s: State, i: nat)
    requires Good(s) && s.lists == [] && !s.inPara && !s.inTable
    ensures Good(Emit(Emit(s, Open(Table)), Head(i)).(inTable := true))
  {
    EmitOpens(s, Open(Table));
    EmitOpens(Emit(s, Open(Table)), Head(i));
  }

  lemma RowGood(s: State, i: nat)
    requires Good(s) && s.inTable
    ensures Good(Emit(s, Row(i)))
  {
    EmitOpens(s, Row(i));
  }

  lemma ParagraphGood(s: State, i: nat)
    requires Good(s) && s.lists == [] && !s.inTable
    ensures Good(Paragraph(s, i))
  {
    if s.inPara {
      EmitOpens(s, Break);
      EmitOpens(Emit(s, Break), Raw(i));
    } else {
      EmitOpens(s, Open(Para));
      EmitOpens(Emit(s, Open(Para)), Raw(i));
    }
  }

  lemma MarkupGood(s: State, i: nat)
    requires Good(s) && s.lists == [] && !s.inTable && !s.inPara
    ensures Good(Emit(s, Raw(i)))
  {
    EmitOpens(s, Raw(i));
  }

  lemma PlainGood(lines: seq<Line>, i: nat, s: State)
    requires i < |lines| && LineGood(lines[i]) && Good(s) && !s.inTable
    ensures Good(Plain(lines, i, s))
  {
    hide Good, GoodLists, ClosedLists, ClosedPara, InList, Continued, Paragraph, ListGoesOn;
    var line := lines[i];
    ClosedParaGood(s);
    if line.item.Some? {
      var p := ClosedPara(s);
      OutsideIsLists(p);
      InListGood(p, line.item.value);
      EntryGood(InList(p, line.item.value), i);
    } else if |s.lists| > 0 && !line.blank && line.plain {
      ContinuedGood(s, i);
    } else if line.blank && |s.lists| > 0 && ListGoesOn(lines, i) {
    } else {
      var c := ClosedLists(s);
      ClosedListsGood(s);
      ClosedParaGood(c);
      if line.blank {
      } else if line.markup {
        MarkupGood(ClosedPara(c), i);
      } else {
        ParagraphGood(c, i);
      }
    }
  }

  /**
   * Every turn keeps list indents strictly increasing, a paragraph apart from lists and tables,
   * lists apart from tables, and the output well nested so far.
   */
  lemma TurnKeepsGood(lines: seq<Line>, i: nat, s: State)
    requires i < |lines| && LineGood(lines[i]) && Good(s)
    ensures Good(Turn(lines, i, s).1)
  {
    hide Good, ClosedLists, ClosedPara, ClosedTable, Plain;
    ClosedParaGood(s);
    ClosedListsGood(ClosedPara(s));
    var c := ClosedLists(ClosedPara(s));
    if lines[i].rule {
      RuleGood(c);
    } else if StartsTable(lines, i, s) {
      TableGood(c, i);
    } else if s.inTable && lines[i].pipe {
      RowGood(s, i);
    } else {
      ClosedTableGood(s);
      PlainGood(lines, i, ClosedTable(s));
    }
  }

  lemma StartIsGood()
    ensures Good(Start())
  {
    assert Tags([]) == [];
  }

  lemma {:induction false} RunKeepsGood(lines: seq<Line>, i: nat, s: State)
    requires i <= |lines| && LinesGood(lines) && Good(s)
    ensures Good(Run(lines, i, s))
    decreases |lines| - i
  {
    hide Good, Turn;
    if i < |lines| {
      TurnKeepsGood(lines, i, s);
      RunKeepsGood(lines, Turn(lines, i, s).0, Turn(lines, i, s).1);
    }
  }

  lemma FinishNests(s: State)
    requires Good(s)
    ensures OpenTags(Finish(s)) == Some([])
  {
    hide Good, ClosedLists, ClosedPara, ClosedTable;
    ClosedParaGood(s);
    ClosedListsGood(ClosedPara(s));
    var c := ClosedLists(ClosedPara(s));
    ClosedTableGood(c);
    NothingOpen(c);
  }

  lemma NothingOpen(c: State)
    requires Good(c) && c.lists == [] && !c.inPara
    ensures OpenTags(ClosedTable(c).out) == Some([])
  {
    ClosedTableGood(c);
    var d := ClosedTable(c);
    assert d.lists == [] && !d.inPara && !d.inTable && Tags(d.lists) == [];
  }

  /** The whole output is well nested for every input. */
  lemma OutputNests(lines: seq<Line>)
    requires LinesGood(lines)
    ensures OpenTags(Finish(Run(lines, 0, Start()))) == Some([])
  {
    hide Good, Run, Finish;
    StartIsGood();
    RunKeepsGood(lines, 0, Start());
    FinishNests(Run(lines, 0, Start()));
  }

  // ── what each line adds to the output ──

  /** The closing tags of the lists from level `k` on, innermost first. */
  function Closers(lists: seq<Level>, k: nat): seq<Token>
    requires k <= |lists|
  {
    seq(|lists| - k, i requires 0 <= i < |lists| - k => Close(lists[|lists| - 1 - i].tag))
  }

  /** What closes the paragraph or the lists, whichever is open. */
  function Closing(s: State): seq<Token> {
    if s.inPara then [Close(Para)] else Closers(s.lists, 0)
  }

  /** The lists below level `k` are those that are indented less. */
  ghost predicate Splits(lists: seq<Level>, k: nat, indent: int) {
    && k <= |lists|
    && (forall i :: 0 <= i < k ==> lists[i].indent < indent)
    && (forall i :: k <= i < |lists| ==> lists[i].indent >= indent)
  }

  lemma {:induction false} ClosedToEffect(s: State, indent: int, k: nat)
    requires Splits(s.lists, k, indent)
    ensures ClosedTo(s, indent) == s.(out := s.out + Closers(s.lists, k), lists := s.lists[..k])
    decreases |s.lists|
  {
    if k < |s.lists| {
      var n := |s.lists| - 1;
      var c := Emit(s, Close(s.lists[n].tag)).(lists := s.lists[..n]);
      ClosedToEffect(c, indent, k);
      assert Closers(s.lists, k) == [Close(s.lists[n].tag)] + Closers(c.lists, k);
      assert c.lists[..k] == s.lists[..k];
    } else {
      assert Closers(s.lists, k) == [] && s.lists[..k] == s.lists;
    }
  }

  lemma ClosedListsEffect(s: State)
    ensures ClosedLists(s) == s.(out := s.out + Closers(s.lists, 0), lists := [])
  {
    ClosedToEffect(s, -1, 0);
  }

  /** The next line that is not blank is an item. */
  ghost predicate ItemFollows(lines: seq<Line>, i: nat) {
    exists k :: i < k < |lines| && lines[k].marker && !lines[k].blank && forall j :: i < j < k ==> lines[j].blank
  }

  lemma {:induction false} PeekStops(lines: seq<Line>, j: nat)
    requires j <= |lines|
    ensures var k := Peek(lines, j); (forall i :: j <= i < k ==> lines[i].blank) && (k < |lines| ==> !lines[k].blank)
    decreases |lines| - j
  {
    if j < |lines| && lines[j].blank {
      PeekStops(lines, j + 1);
    }
  }

  lemma GoesOnIff(lines: seq<Line>, i: nat)
    requires i < |lines|
    ensures ListGoesOn(lines, i) <==> ItemFollows(lines, i)
  {
    PeekStops(lines, i + 1);
    var p := Peek(lines, i + 1);
    if k :| i < k < |lines| && lines[k].marker && !lines[k].blank && forall j :: i < j < k ==> lines[j].blank {
      assert !(k < p) && !(p < k);
    }
  }

  /**
   * An item at the indentation of the innermost list joins it; a deeper one opens a list in it; any other
   * closes the lists that are not indented less and opens its own.
   */
  ghost predicate ItemJoins(s: State, item: Item, i: nat, t: State) {
    var n := |s.lists|;
    if n > 0 && s.lists[n - 1].indent == item.indent then t == s.(out := s.out + [Entry([i])])
    else forall k: nat :: Splits(s.lists, k, item.indent) ==>
      t == s.(out := s.out + Closers(s.lists, k) + [Open(item.tag), Entry([i])],
              lists := s.lists[..k] + [Level(item.tag, item.indent)])
  }

  lemma ItemEffect(s: State, item: Item, i: nat)
    requires Good(s) && !s.inPara && !s.inTable
    ensures ItemJoins(s, item, i, Emit(InList(s, item), Entry([i])))
  {
    var n := |s.lists|;
    if n > 0 && s.lists[n - 1].indent == item.indent {
    } else {
      forall k: nat | Splits(s.lists, k, item.indent)
        ensures Emit(InList(s, item), Entry([i]))
             == s.(out := s.out + Closers(s.lists, k) + [Open(item.tag), Entry([i])],
                   lists := s.lists[..k] + [Level(item.tag, item.indent)])
      {
        if n == 0 || s.lists[n - 1].indent < item.indent {
          assert k == n && Closers(s.lists, k) == [];
        } else {
          hide Closers;
          ClosedToEffect(s, item.indent, k);
        }
      }
    }
  }

  /** What a line outside tables does to the output, the open lists and the paragraph. */
  ghost predicate PlainAdds(lines: seq<Line>, i: nat, s: State, t: State)
    requires i < |lines|
  {
    var line, n := lines[i], |s.out|;
    if line.item.Some? then
      ItemJoins(if s.inPara then State(s.out + [Close(Para)], s.lists, false, s.inTable) else s, line.item.value, i, t)
    else if s.lists != [] && !line.blank && line.plain then
      n > 0 && s.out[n - 1].Entry? && t == s.(out := s.out[..n - 1] + [Entry(s.out[n - 1].lines + [i])])
    else if s.lists != [] && line.blank && ItemFollows(lines, i) then t == s
    else if line.blank then t == State(s.out + Closing(s), [], false, s.inTable)
    else if line.markup then t == State(s.out + Closing(s) + [Raw(i)], [], false, s.inTable)
    else
      t == State(s.out + Closers(s.lists, 0) + [if s.inPara then Break else Open(Para), Raw(i)], [], true, s.inTable)
  }

  lemma PlainEffect(lines: seq<Line>, i: nat, s: State)
    requires i < |lines| && Good(s) && !s.inTable
    ensures PlainAdds(lines, i, s, Plain(lines, i, s))
  {
    hide OpenTags, Closers, ItemJoins, ItemFollows, InList, ListGoesOn, ClosedLists;
    var line := lines[i];
    GoesOnIff(lines, i);
    ClosedListsEffect(s);
    if line.item.Some? {
      ClosedParaGood(s);
      ItemEffect(ClosedPara(s), line.item.value, i);
    } else if |s.lists| > 0 && !line.blank && line.plain {
      ContinuedEffect(s, i);
    } else if s.inPara {
      NoLists(s.lists);
    }
  }

  lemma NoLists(lists: seq<Level>)
    ensures lists == [] ==> Closers(lists, 0) == []
  {
  }

  lemma ContinuedEffect(s: State, i: nat)
    requires |s.out| > 0 && s.out[|s.out| - 1].Entry?
    ensures var n := |s.out|; Continued(s, i) == s.(out := s.out[..n - 1] + [Entry(s.out[n - 1].lines + [i])])
  {
    var n := |s.out|;
    assert s.out[n - 1 := Entry(s.out[n - 1].lines + [i])] == s.out[..n - 1] + [Entry(s.out[n - 1].lines + [i])];
  }

  /** What one turn does with each kind of line: the tokens it adds, what stays open, and where it goes on. */
  lemma TurnEffect(lines: seq<Line>, i: nat, s: State)
    requires i < |lines| && Good(s)
    ensures var line := lines[i]; var (j, t) := Turn(lines, i, s);
      if line.rule then j == i + 1 && t == State(s.out + Closing(s) + [Rule], [], false, s.inTable)
      else if !s.inTable && line.pipe && i + 1 < |lines| && lines[i + 1].separator then
        j == i + 2 && t == State(s.out + Closing(s) + [Open(Table), Head(i)], [], false, true)
      else
        && j == i + 1
        && if s.inTable && line.pipe then t == s.(out := s.out + [Row(i)])
           else PlainAdds(lines, i, if s.inTable then State(s.out + [Close(Table)], s.lists, s.inPara, false) else s, t)
  {
    hide OpenTags, Closers, PlainAdds, Plain, ClosedLists;
    ClosedListsEffect(ClosedPara(s));
    NoLists(s.lists);
    ClosedTableGood(s);
    PlainEffect(lines, i, ClosedTable(s));
  }

  // ── no line is lost, repeated or moved ──

  function LinesOf(t: Token): seq<nat> {
    match t
    case Entry(ls) => ls
    case Raw(i) => [i]
    case Head(i) => [i]
    case Row(i) => [i]
    case _ => []
  }

  /** The lines whose content is put out, in order. */
  function Shown(out: seq<Token>): seq<nat> {
    if |out| == 0 then [] else Shown(out[..|out| - 1]) + LinesOf(out[|out| - 1])
  }

  /** A line that shows nothing: blank, a rule, or the separator under a table's head. */
  predicate Silent(lines: seq<Line>, k: nat)
    requires k < |lines|
  {
    lines[k].blank || lines[k].rule || (k > 0 && lines[k - 1].pipe && lines[k].separator)
  }

  /** Up to line i: the lines shown are in order, and none is missing but the silent ones. */
  ghost predicate Complete(lines: seq<Line>, i: nat, out: seq<Token>)
    requires i <= |lines|
  {
    && (forall a, b :: 0 <= a < b < |Shown(out)| ==> Shown(out)[a] < Shown(out)[b])
    && (forall a :: 0 <= a < |Shown(out)| ==> Shown(out)[a] < i)
    && (forall k :: 0 <= k < i ==> k in Shown(out) || Silent(lines, k))
  }

  lemma EmitShows(s: State, t: Token)
    ensures Shown(Emit(s, t).out) == Shown(s.out) + LinesOf(t)
  {
    assert Emit(s, t).out[..|s.out|] == s.out;
  }

  lemma {:induction false} ClosedToShows(s: State, indent: int)
    ensures Shown(ClosedTo(s, indent).out) == Shown(s.out)
    decreases |s.lists|
  {
    if |s.lists| > 0 && s.lists[|s.lists| - 1].indent >= indent {
      EmitShows(s, Close(s.lists[|s.lists| - 1].tag));
      ClosedToShows(Emit(s, Close(s.lists[|s.lists| - 1].tag)).(lists := s.lists[..|s.lists| - 1]), indent);
    }
  }

  lemma ClosedListsShow(s: State)
    ensures Shown(ClosedLists(s).out) == Shown(s.out)
  {
    ClosedToShows(s, -1);
  }

  lemma ClosedBlockShows(s: State)
    ensures Shown(ClosedPara(s).out) == Shown(s.out)
    ensures Shown(ClosedTable(s).out) == Shown(s.out)
  {
    EmitShows(s, Close(Para));
    EmitShows(s, Close(Table));
  }

  lemma InListShows(s: State, item: Item)
    ensures Shown(InList(s, item).out) == Shown(s.out)
  {
    ClosedToShows(s, item.indent);
    EmitShows(s, Open(item.tag));
    EmitShows(ClosedTo(s, item.indent), Open(item.tag));
  }

  lemma ContinuedShows(s: State, i: nat)
    ensures Shown(Continued(s, i).out) == Shown(s.out) + [i]
  {
    EmitShows(s, Raw(i));
    var n := |s.out| - 1;
    if n >= 0 && s.out[n].Entry? {
      assert Continued(s, i).out[..n] == s.out[..n];
      assert Shown(s.out[..n]) + (s.out[n].lines + [i]) == Shown(s.out[..n]) + s.out[n].lines + [i];
    }
  }

  lemma ParagraphShows(s: State, i: nat)
    ensures Shown(Paragraph(s, i).out) == Shown(s.out) + [i]
  {
    var p := if s.inPara then Emit(s, Break) else Emit(s, Open(Para)).(inPara := true);
    EmitShows(s, Break);
    EmitShows(s, Open(Para));
    EmitShows(p, Raw(i));
  }

  /** Outside a table a line is shown unless it is blank. */
  lemma PlainShows(lines: seq<Line>, i: nat, s: State)
    requires i < |lines|
    ensures Shown(Plain(lines, i, s).out) == Shown(s.out) + [i]
         || (lines[i].blank && Shown(Plain(lines, i, s).out) == Shown(s.out))
  {
    hide ClosedLists, ClosedPara, InList, Continued, Paragraph, ListGoesOn, Emit;
    var line := lines[i];
    ClosedBlockShows(s);
    if line.item.Some? {
      var p := InList(ClosedPara(s), line.item.value);
      InListShows(ClosedPara(s), line.item.value);
      EmitShows(p, Entry([i]));
    } else {
      ContinuedShows(s, i);
      var c := ClosedLists(s);
      ClosedListsShow(s);
      ClosedBlockShows(c);
      ParagraphShows(c, i);
      EmitShows(ClosedPara(c), Raw(i));
    }
  }

  lemma TurnShows(lines: seq<Line>, i: nat, s: State)
    requires i < |lines|
    ensures var (j, t) := Turn(lines, i, s);
      || (Shown(t.out) == Shown(s.out) + [i] && (j == i + 1 || (j == i + 2 && lines[i].pipe && lines[i + 1].separator)))
      || (Shown(t.out) == Shown(s.out) && j == i + 1 && Silent(lines, i))
  {
    hide ClosedLists, ClosedPara, ClosedTable, Plain, Emit;
    ClosedBlockShows(s);
    ClosedListsShow(ClosedPara(s));
    var c := ClosedLists(ClosedPara(s));
    if lines[i].rule {
      EmitShows(c, Rule);
    } else if StartsTable(lines, i, s) {
      EmitShows(c, Open(Table));
      EmitShows(Emit(c, Open(Table)), Head(i));
    } else if s.inTable && lines[i].pipe {
      EmitShows(s, Row(i));
    } else {
      PlainShows(lines, i, ClosedTable(s));
    }
  }

  lemma {:induction false} RunShows(lines: seq<Line>, i: nat, s: State)
    requires i <= |lines| && Complete(lines, i, s.out)
    ensures Complete(lines, |lines|, Run(lines, i, s).out)
    decreases |lines| - i
  {
    hide Turn;
    if i < |lines| {
      var (j, t) := Turn(lines, i, s);
      TurnShows(lines, i, s);
      TurnCompletes(lines, i, s.out, j, t.out);
      RunShows(lines, j, t);
    }
  }

  lemma TurnCompletes(lines: seq<Line>, i: nat, before: seq<Token>, j: nat, after: seq<Token>)
    requires i < j <= |lines| && Complete(lines, i, before)
    requires
      || (Shown(after) == Shown(before) + [i] && (j == i + 1 || (j == i + 2 && lines[i].pipe && lines[i + 1].separator)))
      || (Shown(after) == Shown(before) && j == i + 1 && Silent(lines, i))
    ensures Complete(lines, j, after)
  {
    hide Shown;
  }

  /** Every line that is not blank, a rule or a separator is shown exactly once, in order. */
  lemma OutputShowsEveryLine(lines: seq<Line>)
    ensures Complete(lines, |lines|, Finish(Run(lines, 0, Start())))
  {
    hide Run, ClosedLists, ClosedPara, ClosedTable, Silent;
    assert Complete(lines, 0, Start().out) by { NothingShown(lines); }
    RunShows(lines, 0, Start());
    var s := Run(lines, 0, Start());
    ClosedBlockShows(s);
    ClosedListsShow(ClosedPara(s));
    ClosedBlockShows(ClosedLists(ClosedPara(s)));
    assert Shown(Finish(s)) == Shown(s.out);
  }

  lemma NothingShown(lines: seq<Line>)
    ensures Complete(lines, 0, [])
  {
  }

  // ── the loop ──

  method CloseListsTo(s: State, indent: int) returns (r: State)
    ensures r == ClosedTo(s, indent)
  {
    r := s;
    while |r.lists| > 0 && r.lists[|r.lists| - 1].indent >= indent
      invariant ClosedTo(s, indent) == ClosedTo(r, indent)
      decreases |r.lists|
    {
      var n := |r.lists| - 1;
      r := r.(out := r.out + [Close(r.lists[n].tag)], lists := r.lists[..n]);
    }
  }

  method PeekPastBlanks(lines: seq<Line>, from: nat) returns (k: nat)
    requires from <= |lines|
    ensures k == Peek(lines, from)
  {
    k := from;
    while k < |lines| && lines[k].blank
      invariant from <= k <= |lines| && Peek(lines, from) == Peek(lines, k)
    {
      k := k + 1;
    }
  }

  method PushItem(s: State, item: Item, i: nat) returns (r: State)
    ensures r == Emit(InList(ClosedPara(s), item), Entry([i]))
  {
    hide ClosedTo;
    r := ClosedPara(s);
    if |r.lists| == 0 || item.indent > r.lists[|r.lists| - 1].indent {
      r := r.(out := r.out + [Open(item.tag)], lists := r.lists + [Level(item.tag, item.indent)]);
    } else if item.indent < r.lists[|r.lists| - 1].indent {
      r := CloseListsTo(r, item.indent);
      if |r.lists| == 0 || r.lists[|r.lists| - 1].indent < item.indent {
        r := r.(out := r.out + [Open(item.tag)], lists := r.lists + [Level(item.tag, item.indent)]);
      }
    }
    r := r.(out := r.out + [Entry([i])]);
  }

  method PlainLine(lines: seq<Line>, i: nat, s: State) returns (r: State)
    requires i < |lines|
    ensures r == Plain(lines, i, s)
  {
    hide ClosedTo, InList, ClosedPara, Continued, Peek;
    var line := lines[i];
    if line.item.Some? {
      r := PushItem(s, line.item.value, i);
      return;
    }
    if |s.lists| > 0 && !line.blank && line.plain {
      return Continued(s, i);
    }
    if line.blank && |s.lists| > 0 {
      var k := PeekPastBlanks(lines, i + 1);
      if k < |lines| && lines[k].marker {
        return s;
      }
    }
    r := CloseListsTo(s, -1);
    if line.blank {
      r := ClosedPara(r);
    } else if line.markup {
      r := ClosedPara(r);
      r := r.(out := r.out + [Raw(i)]);
    } else {
      if !r.inPara {
        r := r.(out := r.out + [Open(Para)], inPara := true);
      } else {
        r := r.(out := r.out + [Break]);
      }
      r := r.(out := r.out + [Raw(i)]);
    }
  }

  method RenderBlocks(lines: seq<Line>) returns (out: seq<Token>)
    requires LinesGood(lines)
    ensures OpenTags(out) == Some([])
    ensures Complete(lines, |lines|, out)
    ensures out == Finish(Run(lines, 0, Start()))
  {
    hide ClosedTo, Plain, OpenTags, Complete, LinesGood, ClosedPara, ClosedTable;
    var s := Start();
    var i := 0;
    while i < |lines|
      invariant 0 <= i <= |lines|
      invariant Run(lines, 0, Start()) == Run(lines, i, s)
    {
      if lines[i].rule {
        s := ClosedPara(s);
        s := CloseListsTo(s, -1);
        s := s.(out := s.out + [Rule]);
        i := i + 1;
        continue;
      }
      if !s.inTable && lines[i].pipe && i + 1 < |lines| && lines[i + 1].separator {
        s := ClosedPara(s);
        s := CloseListsTo(s, -1);
        s := s.(out := s.out + [Open(Table)] + [Head(i)], inTable := true);
        i := i + 2;
        continue;
      }
      if s.inTable {
        if lines[i].pipe {
          s := s.(out := s.out + [Row(i)]);
          i := i + 1;
          continue;
        }
      }
      s := PlainLine(lines, i, ClosedTable(s));
      i := i + 1;
    }
    OutputNests(lines);
    OutputShowsEveryLine(lines);
    s := ClosedPara(s);
    s := CloseListsTo(s, -1);
    s := ClosedTable(s);
    out := s.out;
  }
}
